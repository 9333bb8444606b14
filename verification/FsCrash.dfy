/**
  Crash safety of the mounted file system: dying between any two block writes of a
  create or a delete, and in any number of later mounts, shows the old files or the new
  ones, and a run of any such operations follows a map from names to bytes.
 */
module FsCrash {
  import opened FsFormat
  import opened Journal
  import opened FsModel
  import opened FsRefinement

  /** A transaction of a consistent state: its only image for block 0 is the new superblock. */
  ghost predicate FsTxn(m: Mem, d: Disk, t: Txn) {
    && Consistent(m, d) && GoodTxn(t, d)
    && t.after.total == m.total && Consistent(t.after, Commit(d, t))
    && OnlyAtZero(t.dsts, t.blocks, SuperOf(t.after))
  }

  ghost predicate OnlyAtZero(dsts: seq<u32>, blocks: seq<Block>, sb: Block)
    requires |dsts| == |blocks|
  {
    forall i :: 0 <= i < |dsts| && dsts[i] == 0 ==> blocks[i] == sb
  }

  lemma DataTxnAtZero(s: u32, data: seq<Block>, dirb: Block, sb: Block)
    requires 0 < s && s + |data| <= U32
    ensures OnlyAtZero(DataDsts(s, |data|) + MetaDsts(), data + [dirb, sb], sb)
  {
  }

  lemma MetaAtZero(dirb: Block, sb: Block)
    ensures OnlyAtZero(MetaDsts(), [dirb, sb], sb)
  {
  }

  /** The disk after k of the transaction's writes and then recoveries that die after js of theirs. */
  function CrashDisk(d: Disk, t: Txn, k: nat, js: seq<nat>): (x: Disk)
    requires |t.dsts| == |t.blocks| <= LOGN
    ensures |x| == |d|
  {
    CrashedRecoveries(ApplyAll(d, Prefix(TxnWrites(t.dsts, t.blocks), k)), js)
  }

  /** The commit header is the write with index |dsts|, after the logged blocks. */
  predicate CommitReached(t: Txn, k: nat) { k > |t.dsts| }

  lemma SuperStays(m: Mem, d: Disk, t: Txn, k: nat, js: seq<nat>)
    requires FsTxn(m, d, t)
    ensures var sb := DecodeSuper(CrashDisk(d, t, k, js)[0]);
            sb.magic == FS_MAGIC && NormTotal(sb.total) == m.total
  {
    var n := if k > |TxnWrites(t.dsts, t.blocks)| then |TxnWrites(t.dsts, t.blocks)| else k;
    CrashOldOrNew(d, t.dsts, t.blocks, n, js, 0);
    SuperRoundTrip(Superblock(FS_MAGIC, t.after.nfiles, t.after.nextFree, t.after.total));
  }

  lemma SameDataSameFiles(m: Mem, d: Disk, r: Disk)
    requires GoodDir(m.dir, m.nfiles, m.total) && m.total <= |d| == |r|
    requires forall b :: DATASTART <= b < |d| ==> r[b] == d[b]
    ensures Files(m, r) == Files(m, d)
  {
    forall n | n in Names(m) ensures FileBytes(r, m.dir[Find(m, n)]) == FileBytes(d, m.dir[Find(m, n)]) {
      var e := m.dir[Find(m, n)];
      assert GoodEntry(e, m.total);
      BytesDependOnExtent(d, r, e, m.total);
    }
  }

  lemma SameBlocksMount(m: Mem, d: Disk, r: Disk)
    requires Consistent(m, d) && SameOutsideLogData(d, r) && LogIdle(r)
    ensures Consistent(m, r)
  {
    assert r[0] == d[0] && r[DIRBLOCK] == d[DIRBLOCK];
  }

  /**
    Crash atomicity.  After a crash between any two block writes of a transaction, any
    number of mounts that die in recovery, and one mount that completes: the mount
    succeeds with memory agreeing with disk, and the files are the new ones if and only
    if the commit header was written, and otherwise the old ones.
   */
  lemma CrashAtomic(m: Mem, d: Disk, t: Txn, k: nat, js: seq<nat>)
    requires FsTxn(m, d, t)
    ensures match Mount(CrashDisk(d, t, k, js))
            case NotMounted => false
            case Mounted(m', d') =>
              && Consistent(m', d')
              && (CommitReached(t, k) ==> m' == t.after && Files(m', d') == Files(t.after, Commit(d, t)))
              && (!CommitReached(t, k) ==> m' == m && Files(m', d') == Files(m, d))
  {
    var ws := TxnWrites(t.dsts, t.blocks);
    var n := if k > |ws| then |ws| else k;
    var x := CrashDisk(d, t, k, js);
    SuperStays(m, d, t, k, js);
    TransactionAtomic(d, t.dsts, t.blocks, n, js);
    if CommitReached(t, k) {
      assert Recover(x) == Commit(d, t);
    } else {
      SameBlocksMount(m, d, Recover(x));
      SameDataSameFiles(m, d, Recover(x));
    }
  }

  lemma CreateIsTxn(m: Mem, d: Disk, name: seq<byte>, content: seq<byte>)
    requires Consistent(m, d) && Creates(m, d, name, content) && Stored(name) !in Names(m)
    ensures FsTxn(m, d, CreateOf(m, name, content))
  {
    var t := CreateOf(m, name, content);
    CreateRefines(m, d, name, content);
    CreateCommit(m, d, name, content);
    CreatePlaces(m, d, name, content);
    DataTxnAtZero(CreateAt(m, name, |content|), DataBlocks(content), EncodeDir(t.after.dir), SuperOf(t.after));
  }

  lemma DeleteIsTxn(m: Mem, d: Disk, name: seq<byte>)
    requires Consistent(m, d) && Deletes(m, d, name)
    ensures FsTxn(m, d, DeleteTxn(m, Find(m, name)))
  {
    DeleteRefines(m, d, name);
    DeleteCommit(m, d, Find(m, name));
    var t := DeleteTxn(m, Find(m, name));
    MetaAtZero(EncodeDir(t.after.dir), SuperOf(t.after));
  }

  /**
    fs_create refuses exactly when the name exists, the directory is full, the transaction
    would not fit the log, or no run of free blocks in the data area is long enough.
   */
  lemma CreateRefusedIff(m: Mem, d: Disk, name: seq<byte>, content: seq<byte>)
    requires Consistent(m, d)
    ensures CreateAt(m, name, |content|) < 0 <==>
            (|| name in Files(m, d) || m.nfiles == MAXFILES || |content| > 14 * BSIZE
             || (|content| > 0 && forall s :: DATASTART <= s && s + BlocksFor(|content|) <= m.total ==>
                  !Fits(m.used, BlocksFor(|content|), s)))
  {
    if Find(m, name) == m.nfiles {
      AbsentName(m, d, name);
    } else {
      FilesByEntry(m, d, Find(m, name));
    }
  }

  // ---- runs ----

  /** What a user of the disk can do; the crash events die after k writes and remount after failed recoveries js. */
  datatype Event =
    | Create(name: seq<byte>, content: seq<byte>)
    | Delete(name: seq<byte>)
    | Remount
    | CrashInCreate(name: seq<byte>, content: seq<byte>, k: nat, js: seq<nat>)
    | CrashInDelete(name: seq<byte>, k: nat, js: seq<nat>)

  /** The kernel's own effect of an event on memory and disk. */
  function Apply(m: Mem, d: Disk, e: Event): Mounted
    requires Consistent(m, d)
  {
    match e
    case Create(name, content) =>
      if CreateAt(m, name, |content|) < 0 then Mounted(m, d)
      else var t := CreateOf(m, name, content); Mounted(t.after, Commit(d, t))
    case Delete(name) =>
      if Find(m, name) == m.nfiles then Mounted(m, d)
      else var t := DeleteTxn(m, Find(m, name)); Mounted(t.after, Commit(d, t))
    case Remount => Mount(d)
    case CrashInCreate(name, content, k, js) =>
      if CreateAt(m, name, |content|) < 0 then Mount(CrashedRecoveries(d, js))
      else Mount(CrashDisk(d, CreateOf(m, name, content), k, js))
    case CrashInDelete(name, k, js) =>
      if Find(m, name) == m.nfiles then Mount(CrashedRecoveries(d, js))
      else Mount(CrashDisk(d, DeleteTxn(m, Find(m, name)), k, js))
  }

  predicate IsCreate(e: Event) { e.Create? || e.CrashInCreate? }

  /** Names are C strings, and a create's name fits the directory's name field or is still free when cut. */
  predicate GoodEvent(m: Mem, e: Event)
    requires 0 <= m.nfiles <= MAXFILES
  {
    e.Remount? || (0 !in e.name && (IsCreate(e) && |e.name| >= NAMELEN ==> Stored(e.name) !in Names(m)))
  }

  /** Events that are good in every state. */
  predicate ShortNamed(e: Event) { e.Remount? || (0 !in e.name && |e.name| < NAMELEN) }

  /** Whether the event takes effect: the create is not refused, the name is there, the commit header was written. */
  function Took(m: Mem, d: Disk, e: Event): bool
    requires Consistent(m, d)
  {
    match e
    case Create(name, content) => CreateAt(m, name, |content|) >= 0
    case Delete(name) => Find(m, name) < m.nfiles
    case Remount => true
    case CrashInCreate(name, content, k, js) => CreateAt(m, name, |content|) >= 0
      && CommitReached(CreateOf(m, name, content), k)
    case CrashInDelete(name, k, js) => Find(m, name) < m.nfiles && CommitReached(DeleteTxn(m, Find(m, name)), k)
  }

  type FileMap = map<seq<byte>, seq<byte>>

  /** The map's view of an event that takes effect or does not. */
  function MapAfter(a: FileMap, e: Event, took: bool): FileMap {
    if !took || e.Remount? then a
    else if IsCreate(e) then a[Stored(e.name) := e.content]
    else a - {e.name}
  }

  /** A create only takes effect on a new name, a delete exactly on an existing one. */
  predicate MapAllows(a: FileMap, e: Event, took: bool) {
    && (took && IsCreate(e) ==> Stored(e.name) !in a)
    && (took && e.CrashInDelete? ==> e.name in a)
    && (e.Delete? ==> (took <==> e.name in a))
  }

  lemma CreateEvent(m: Mem, d: Disk, name: seq<byte>, content: seq<byte>)
    requires Consistent(m, d) && GoodEvent(m, Create(name, content)) && CreateAt(m, name, |content|) >= 0
    ensures var t := CreateOf(m, name, content);
            && FsTxn(m, d, t) && Consistent(t.after, Commit(d, t)) && Stored(name) !in Files(m, d)
            && Files(t.after, Commit(d, t)) == Files(m, d)[Stored(name) := content]
  {
    hide MemOf, GoodDir, CreateAt, CreateOf, LogIdle, Bitmap;
    if |name| < NAMELEN { ShortNameFree(m, d, name, content); }
    CreateRefines(m, d, name, content);
    CreateIsTxn(m, d, name, content);
  }

  lemma DeleteEvent(m: Mem, d: Disk, name: seq<byte>)
    requires Consistent(m, d) && 0 !in name && Find(m, name) < m.nfiles
    ensures var t := DeleteTxn(m, Find(m, name));
            && FsTxn(m, d, t) && Consistent(t.after, Commit(d, t)) && name in Files(m, d)
            && Files(t.after, Commit(d, t)) == Files(m, d) - {name}
  {
    DeleteRefines(m, d, name);
    DeleteIsTxn(m, d, name);
  }

  /** What an event leaves behind, as the map says. */
  ghost predicate Refined(m: Mem, d: Disk, e: Event)
    requires Consistent(m, d)
  {
    match Apply(m, d, e)
    case NotMounted => false
    case Mounted(m', d') =>
      && Consistent(m', d') && MapAllows(Files(m, d), e, Took(m, d, e))
      && Files(m', d') == MapAfter(Files(m, d), e, Took(m, d, e))
  }

  lemma Bounds(m: Mem, d: Disk)
    requires Consistent(m, d)
    ensures 0 <= m.nfiles <= MAXFILES && DATASTART <= m.total <= MAXBLK == |m.used|
  {
  }

  lemma CrashInCreateRefines(m: Mem, d: Disk, name: seq<byte>, content: seq<byte>, k: nat, js: seq<nat>)
    requires Consistent(m, d) && GoodEvent(m, CrashInCreate(name, content, k, js))
    ensures Refined(m, d, CrashInCreate(name, content, k, js))
  {
    hide Consistent, Mount, CrashDisk, CrashedRecoveries, CreateAt, CreateOf, Files, FsTxn, Commit;
    Bounds(m, d);
    if CreateAt(m, name, |content|) >= 0 {
      CreateEvent(m, d, name, content);
      CrashAtomic(m, d, CreateOf(m, name, content), k, js);
    } else {
      RefusedCrash(m, d, js);
    }
  }

  lemma CrashInDeleteRefines(m: Mem, d: Disk, name: seq<byte>, k: nat, js: seq<nat>)
    requires Consistent(m, d) && 0 !in name
    ensures Refined(m, d, CrashInDelete(name, k, js))
  {
    hide Consistent, Mount, CrashDisk, CrashedRecoveries, Files, FsTxn, Commit, DeleteTxn, Find, FindFrom;
    Bounds(m, d);
    if Find(m, name) < m.nfiles {
      DeleteEvent(m, d, name);
      CrashAtomic(m, d, DeleteTxn(m, Find(m, name)), k, js);
    } else {
      RefusedCrash(m, d, js);
    }
  }

  /** A call that writes nothing leaves nothing for a crash to show. */
  lemma RefusedCrash(m: Mem, d: Disk, js: seq<nat>)
    requires Consistent(m, d)
    ensures Mount(CrashedRecoveries(d, js)) == Mounted(m, d)
  {
    IdleRecoversToItself(d, js);
    MountIsIdentity(m, d);
  }

  /** Every event keeps memory and disk in agreement and does to the map what it says. */
  lemma EventRefines(m: Mem, d: Disk, e: Event)
    requires Consistent(m, d) && GoodEvent(m, e)
    ensures Refined(m, d, e)
  {
    hide Files, CreateAt, CreateOf, DeleteTxn, Commit, CrashDisk, FsTxn, Mount, Find, MemOf, Bitmap, LogIdle;
    match e
    case Create(name, content) =>
      if CreateAt(m, name, |content|) >= 0 { CreateEvent(m, d, name, content); }
    case Delete(name) =>
      if Find(m, name) < m.nfiles { DeleteEvent(m, d, name); } else { AbsentName(m, d, name); }
    case Remount =>
      MountIsIdentity(m, d);
    case CrashInCreate(name, content, k, js) => CrashInCreateRefines(m, d, name, content, k, js);
    case CrashInDelete(name, k, js) => CrashInDeleteRefines(m, d, name, k, js);
  }

  lemma AbsentName(m: Mem, d: Disk, name: seq<byte>)
    requires Consistent(m, d) && Find(m, name) == m.nfiles
    ensures name !in Files(m, d) && Files(m, d) - {name} == Files(m, d)
  {
  }

  function MapRun(a: FileMap, es: seq<Event>, tooks: seq<bool>): FileMap
    requires |tooks| == |es|
    decreases |es|
  {
    if es == [] then a else MapRun(MapAfter(a, es[0], tooks[0]), es[1..], tooks[1..])
  }

  function Run(m: Mem, d: Disk, es: seq<Event>): Mounted
    requires Consistent(m, d)
    decreases |es|
  {
    if es == [] then Mounted(m, d)
    else match Apply(m, d, es[0])
         case NotMounted => NotMounted
         case Mounted(m', d') => if Consistent(m', d') then Run(m', d', es[1..]) else NotMounted
  }

  /** Which events of the run took effect. */
  function RunTook(m: Mem, d: Disk, es: seq<Event>): (r: seq<bool>)
    requires Consistent(m, d)
    ensures |r| == |es|
    decreases |es|
  {
    if es == [] then []
    else match Apply(m, d, es[0])
         case NotMounted => seq(|es|, i => false)
         case Mounted(m', d') =>
           if Consistent(m', d') then [Took(m, d, es[0])] + RunTook(m', d', es[1..]) else seq(|es|, i => false)
  }

  /** Every event is good in the state it meets. */
  predicate GoodRun(m: Mem, d: Disk, es: seq<Event>)
    requires Consistent(m, d)
    decreases |es|
  {
    es != [] ==>
      && GoodEvent(m, es[0])
      && match Apply(m, d, es[0])
         case NotMounted => true
         case Mounted(m', d') => Consistent(m', d') ==> GoodRun(m', d', es[1..])
  }

  /** Names that fit the field are good whatever the disk holds. */
  lemma {:induction false} ShortRunGood(m: Mem, d: Disk, es: seq<Event>)
    requires Consistent(m, d) && forall i :: 0 <= i < |es| ==> ShortNamed(es[i])
    ensures GoodRun(m, d, es)
    decreases |es|
  {
    if es != [] {
      assert ShortNamed(es[0]);
      hide Consistent, Apply, ShortNamed;
      match Apply(m, d, es[0])
      case NotMounted =>
      case Mounted(m', d') => if Consistent(m', d') { ShortRunGood(m', d', es[1..]); }
    }
  }

  /** Over every run of creates, deletes, remounts and crashes, the file system is a map from names to bytes. */
  lemma {:induction false} RunRefinesMap(m: Mem, d: Disk, es: seq<Event>)
    requires Consistent(m, d) && GoodRun(m, d, es)
    ensures match Run(m, d, es)
            case NotMounted => false
            case Mounted(m', d') => Consistent(m', d') && Files(m', d') == MapRun(Files(m, d), es, RunTook(m, d, es))
    decreases |es|
  {
    hide Took, Apply, MapAfter, GoodEvent;
    if es != [] {
      EventRefines(m, d, es[0]);
      var next := Apply(m, d, es[0]);
      RunRefinesMap(next.m, next.d, es[1..]);
      assert RunTook(m, d, es)[1..] == RunTook(next.m, next.d, es[1..]);
    }
  }
}
