/**
  Creating and deleting refine map update and removal, and keep the in-memory state
  equal to what a fresh mount of the disk would build.
 */
module FsRefinement {
  import opened FsFormat
  import opened Journal
  import opened FsModel

  /** A disk that carries m's directory and superblock images, and whose log is idle, mounts as m. */
  lemma ImagesMakeConsistent(m: Mem, d: Disk)
    requires Ready(m, d)
    requires d[DIRBLOCK] == EncodeDir(m.dir) && d[0] == SuperOf(m)
    ensures Consistent(m, d)
  {
    DirRoundTrip(m.dir);
    SuperRoundTrip(Superblock(FS_MAGIC, m.nfiles, m.nextFree, m.total));
  }

  /** Mounting a consistent disk does no replay and rebuilds exactly the state in memory. */
  lemma MountIsIdentity(m: Mem, d: Disk)
    requires Consistent(m, d)
    ensures RecoverWrites(d) == [] && Mount(d) == Mounted(m, d)
  {
  }

  function DataTxnDisk(d: Disk, s: u32, data: seq<Block>, dirb: Block, sb: Block): (r: Disk)
    requires |data| + 2 <= LOGN && s + |data| <= U32
    ensures |r| == |d|
  {
    ApplyAll(d, TxnWrites(DataDsts(s, |data|) + MetaDsts(), data + [dirb, sb]))
  }

  lemma DataTxnSafe(d: Disk, s: u32, data: seq<Block>)
    requires |data| + 2 <= LOGN && DATASTART <= s && s + |data| <= |d| && s + |data| <= U32
    ensures SafeDsts(d, DataDsts(s, |data|) + MetaDsts())
  {
  }

  /** A finished transaction of data blocks, directory and superblock, block by block. */
  lemma DataTxnBlock(d: Disk, s: u32, data: seq<Block>, dirb: Block, sb: Block, b: nat)
    requires |data| + 2 <= LOGN && DATASTART <= s && s + |data| <= |d| && s + |data| <= U32
    requires b < |d| && !InLog(b)
    ensures DataTxnDisk(d, s, data, dirb, sb)[b] ==
            if b == 0 then sb else if b == DIRBLOCK then dirb
            else if s <= b < s + |data| then data[b - s] else d[b]
  {
    var n := |data|;
    var dsts, blocks := DataDsts(s, n) + MetaDsts(), data + [dirb, sb];
    DataTxnSafe(d, s, data);
    if b < 2 || s <= b < s + n {
      var i := if b == 0 then n + 1 else if b == 1 then n else b - s;
      assert dsts[i] == b;
      forall t | i < t < |dsts| ensures dsts[t] != dsts[i] {
      }
      TransactionInstalls(d, dsts, blocks, i);
    } else {
      forall i | 0 <= i < |dsts| ensures dsts[i] != b {
      }
      TransactionFrame(d, dsts, blocks, b);
    }
  }

  ghost predicate SameBytes(d: Disk, d': Disk, e: Dirent, total: nat)
    requires GoodEntry(e, total) && total <= |d| == |d'|
  {
    FileBytes(d', e) == FileBytes(d, e)
  }

  /** m' on d' is m on d with one more entry; every other file keeps its entry and bytes. */
  ghost predicate Appended(m: Mem, d: Disk, m': Mem, d': Disk) {
    && GoodDir(m.dir, m.nfiles, m.total) && GoodDir(m'.dir, m'.nfiles, m'.total)
    && m'.total == m.total <= |d| == |d'| && m'.nfiles == m.nfiles + 1
    && forall i :: 0 <= i < m.nfiles ==> m'.dir[i] == m.dir[i] && SameBytes(d, d', m.dir[i], m.total)
  }

  /** Appending one entry extends the map by that entry. */
  lemma AppendedFile(m: Mem, d: Disk, m': Mem, d': Disk)
    requires Appended(m, d, m', d')
    ensures var e := m'.dir[m.nfiles];
            && CStr(e.name) !in Files(m, d) && GoodEntry(e, m.total)
            && Files(m', d') == Files(m, d)[CStr(e.name) := FileBytes(d', e)]
  {
    var e := m'.dir[m.nfiles];
    assert GoodEntry(e, m.total);
    AppendedNames(m, m');
    FilesByEntry(m', d', m.nfiles);
    forall n | n in Files(m, d) ensures n in Files(m', d') && Files(m', d')[n] == Files(m, d)[n] {
      AppendedKeeps(m, d, m', d', n);
    }
    MapExtends(Files(m, d), Files(m', d'), CStr(e.name));
  }

  lemma MapExtends<K, V>(a: map<K, V>, b: map<K, V>, k: K)
    requires b.Keys == a.Keys + {k} && k !in a
    requires forall n :: n in a ==> n in b && b[n] == a[n]
    ensures b == a[k := b[k]]
  {
  }

  lemma AppendedKeeps(m: Mem, d: Disk, m': Mem, d': Disk, n: seq<byte>)
    requires Appended(m, d, m', d') && n in Files(m, d)
    ensures n in Files(m', d') && Files(m', d')[n] == Files(m, d)[n]
  {
    var i := Find(m, n);
    KeptFile(m, d, m', d', i, i);
  }

  /** An entry kept with its bytes, wherever it moves, gives its name the same bytes. */
  lemma KeptFile(m: Mem, d: Disk, m': Mem, d': Disk, i: nat, j: nat)
    requires GoodDir(m.dir, m.nfiles, m.total) && GoodDir(m'.dir, m'.nfiles, m'.total)
    requires m'.total == m.total <= |d| == |d'| && i < m.nfiles && j < m'.nfiles
    requires m'.dir[j] == m.dir[i] && SameBytes(d, d', m.dir[i], m.total)
    ensures var n := CStr(m.dir[i].name);
            n in Files(m, d) && n in Files(m', d') && Files(m', d')[n] == Files(m, d)[n]
  {
    FilesByEntry(m', d', j);
    FilesByEntry(m, d, i);
  }

  lemma AppendedNames(m: Mem, m': Mem)
    requires 0 <= m.nfiles < MAXFILES && m'.nfiles == m.nfiles + 1
    requires GoodDir(m'.dir, m'.nfiles, m'.total)
    requires forall i :: 0 <= i < m.nfiles ==> m'.dir[i] == m.dir[i]
    ensures var n := CStr(m'.dir[m.nfiles].name);
            n !in Names(m) && Names(m') == Names(m) + {n}
  {
    forall i | 0 <= i < m.nfiles ensures CStr(m.dir[i].name) in Names(m') {
      assert CStr(m'.dir[i].name) in Names(m');
    }
    forall i | 0 <= i < m'.nfiles ensures CStr(m'.dir[i].name) in Names(m) + {CStr(m'.dir[m.nfiles].name)} {
    }
  }

  // ---- creating ----

  ghost predicate Creates(m: Mem, d: Disk, name: seq<byte>, content: seq<byte>) {
    && Ready(m, d) && 0 !in name
    && CreateAt(m, name, |content|) >= 0
  }

  lemma CreatePlaces(m: Mem, d: Disk, name: seq<byte>, content: seq<byte>)
    requires Creates(m, d, name, content)
    ensures var s, nb := CreateAt(m, name, |content|), BlocksFor(|content|);
            && m.nfiles < MAXFILES && nb + 2 <= LOGN && |content| <= 14 * 512
            && DATASTART <= s && s + nb <= m.total && Fits(m.used, nb, s)
            && nb == NBlocks(|content|)
  {
  }

  function NewEntry(m: Mem, name: seq<byte>, content: seq<byte>): Dirent
    requires 0 <= m.nfiles < MAXFILES && m.total <= |m.used| && |content| < U32
    requires 0 <= CreateAt(m, name, |content|) < U32
  {
    Dirent(NameInto(m.dir[m.nfiles].name, name), |content|, CreateAt(m, name, |content|))
  }

  lemma NewEntryName(m: Mem, d: Disk, name: seq<byte>, content: seq<byte>)
    requires Creates(m, d, name, content)
    ensures CStr(NewEntry(m, name, content).name) == Stored(name)
  {
    var t := Stored(name);
    CStrOf(t, m.dir[m.nfiles].name[|t| + 1..]);
  }

  /** The new extent lies in blocks that no live file owns. */
  lemma NewExtentApart(m: Mem, d: Disk, name: seq<byte>, content: seq<byte>, i: nat)
    requires Creates(m, d, name, content) && i < m.nfiles
    ensures Apart(m.dir[i], NewEntry(m, name, content))
  {
    CreatePlaces(m, d, name, content);
    var e, f := m.dir[i], NewEntry(m, name, content);
    assert GoodEntry(e, m.total);
    var b := if e.start <= f.start then f.start else e.start;
    if b < MAXBLK {
      OwnsIsExtent(e, m.total, b);
      assert m.used[b] == Marked(m.dir, m.nfiles, b);
    }
  }

  lemma CreateGoodDir(m: Mem, d: Disk, name: seq<byte>, content: seq<byte>)
    requires Creates(m, d, name, content) && Stored(name) !in Names(m)
    ensures var m' := CreateMem(m, name, |content|, CreateAt(m, name, |content|));
            GoodDir(m'.dir, m'.nfiles, m'.total)
  {
    CreatePlaces(m, d, name, content);
    NewEntryName(m, d, name, content);
    var e := NewEntry(m, name, content);
    var m' := CreateMem(m, name, |content|, CreateAt(m, name, |content|));
    assert m'.dir[m.nfiles] == e && GoodEntry(e, m.total);
    forall i | 0 <= i < m.nfiles ensures m'.dir[i] == m.dir[i] && Apart(m.dir[i], e)
      && CStr(m.dir[i].name) != Stored(name) {
      NewExtentApart(m, d, name, content, i);
      assert CStr(m.dir[i].name) in Names(m);
    }
  }

  /** Marking the new extent in place gives the bitmap a rebuild would give. */
  lemma CreateBitmap(m: Mem, d: Disk, name: seq<byte>, content: seq<byte>)
    requires Creates(m, d, name, content)
    ensures var m' := CreateMem(m, name, |content|, CreateAt(m, name, |content|));
            m'.used == Bitmap(m'.dir, m'.nfiles)
  {
    CreatePlaces(m, d, name, content);
    NewEntryName(m, d, name, content);
    var e := NewEntry(m, name, content);
    var m' := CreateMem(m, name, |content|, CreateAt(m, name, |content|));
    forall b | 0 <= b < MAXBLK ensures m'.used[b] == Marked(m'.dir, m'.nfiles, b) {
      OwnsIsExtent(e, m.total, b);
      assert m'.dir[m.nfiles] == e;
      assert m.used[b] == Marked(m.dir, m.nfiles, b);
      if f :| 0 <= f < m.nfiles && Owns(m.dir[f], b) {
        assert Owns(m'.dir[f], b);
      }
      if f :| 0 <= f < m'.nfiles && Owns(m'.dir[f], b) && f != m.nfiles {
        assert Owns(m.dir[f], b);
      }
    }
  }

  function CreateOf(m: Mem, name: seq<byte>, content: seq<byte>): Txn
    requires 0 <= m.nfiles <= MAXFILES && m.total <= MAXBLK && |m.used| == MAXBLK
    requires CreateAt(m, name, |content|) >= 0
    requires DATASTART <= m.total
  {
    CreateTxn(m, name, content, CreateAt(m, name, |content|))
  }

  lemma CreateCommit(m: Mem, d: Disk, name: seq<byte>, content: seq<byte>)
    requires Creates(m, d, name, content)
    ensures var t := CreateOf(m, name, content);
            && GoodTxn(t, d) && LogIdle(Commit(d, t))
            && Commit(d, t) == DataTxnDisk(d, CreateAt(m, name, |content|), DataBlocks(content),
                                           EncodeDir(t.after.dir), SuperOf(t.after))
  {
    CreatePlaces(m, d, name, content);
    var t := CreateOf(m, name, content);
    DataTxnSafe(d, CreateAt(m, name, |content|), DataBlocks(content));
    TransactionIdle(d, t.dsts, t.blocks);
  }

  /** What the disk holds after fs_create: new data, new directory and superblock, old everything else. */
  lemma CreateEffect(m: Mem, d: Disk, name: seq<byte>, content: seq<byte>, b: nat)
    requires Creates(m, d, name, content) && b < |d| && !InLog(b)
    ensures var t, s := CreateOf(m, name, content), CreateAt(m, name, |content|);
            Commit(d, t)[b] == if b == 0 then SuperOf(t.after) else if b == DIRBLOCK then EncodeDir(t.after.dir)
                               else if s <= b < s + BlocksFor(|content|) then PaddedBlock(content, b - s) else d[b]
  {
    CreatePlaces(m, d, name, content);
    CreateCommit(m, d, name, content);
    var t, s := CreateOf(m, name, content), CreateAt(m, name, |content|);
    DataTxnBlock(d, s, DataBlocks(content), EncodeDir(t.after.dir), SuperOf(t.after), b);
  }

  lemma CreateConsistent(m: Mem, d: Disk, name: seq<byte>, content: seq<byte>)
    requires Creates(m, d, name, content) && Stored(name) !in Names(m)
    ensures var t := CreateOf(m, name, content); Consistent(t.after, Commit(d, t))
  {
    var t := CreateOf(m, name, content);
    CreateGoodDir(m, d, name, content);
    CreateBitmap(m, d, name, content);
    CreateCommit(m, d, name, content);
    CreateEffect(m, d, name, content, 0);
    CreateEffect(m, d, name, content, DIRBLOCK);
    ImagesMakeConsistent(t.after, Commit(d, t));
  }

  lemma PaddedRoundTrip(d: Disk, e: Dirent, content: seq<byte>)
    requires e.size == |content| <= MAXBLK * BSIZE && e.start + NBlocks(e.size) <= |d|
    requires forall b :: e.start <= b < e.start + NBlocks(e.size) ==> d[b] == PaddedBlock(content, b - e.start)
    ensures FileBytes(d, e) == content
  {
    forall i | 0 <= i < |content| ensures FileBytes(d, e)[i] == content[i] {
      assert (i / 512) * 512 + i % 512 == i;
      assert e.start <= e.start + i / 512 < e.start + NBlocks(e.size);
    }
  }

  /** A file already there keeps its bytes, whichever freed blocks the new file reuses. */
  lemma CreateKeepsOther(m: Mem, d: Disk, name: seq<byte>, content: seq<byte>, i: nat)
    requires Creates(m, d, name, content) && i < m.nfiles
    ensures SameBytes(d, Commit(d, CreateOf(m, name, content)), m.dir[i], m.total)
  {
    var d' := Commit(d, CreateOf(m, name, content));
    var e, f := m.dir[i], NewEntry(m, name, content);
    assert Apart(e, f) && f.start >= DATASTART && NBlocks(f.size) == BlocksFor(|content|) by {
      NewExtentApart(m, d, name, content, i);
      CreatePlaces(m, d, name, content);
    }
    assert GoodEntry(e, m.total);
    forall b | e.start <= b < e.start + NBlocks(e.size) ensures d'[b] == d[b] {
      CreateEffect(m, d, name, content, b);
    }
    BytesDependOnExtent(d, d', e, m.total);
  }

  lemma CreateEntry(m: Mem, d: Disk, name: seq<byte>, content: seq<byte>)
    requires Creates(m, d, name, content)
    ensures var e := NewEntry(m, name, content);
            && CreateOf(m, name, content).after.dir[m.nfiles] == e && CStr(e.name) == Stored(name)
            && e.size == |content| <= 14 * 512 && NBlocks(e.size) == BlocksFor(|content|)
            && DATASTART <= e.start && e.start + NBlocks(e.size) <= m.total <= |d|
  {
    CreatePlaces(m, d, name, content);
    NewEntryName(m, d, name, content);
  }

  /** The new entry reads back exactly the bytes given to fs_create. */
  lemma CreateStores(m: Mem, d: Disk, name: seq<byte>, content: seq<byte>, e: Dirent)
    requires Creates(m, d, name, content) && e.start == CreateAt(m, name, |content|)
    requires e.size == |content| <= 14 * 512 && DATASTART <= e.start && e.start + NBlocks(e.size) <= |d|
    ensures FileBytes(Commit(d, CreateOf(m, name, content)), e) == content
  {
    var r := Commit(d, CreateOf(m, name, content));
    forall b | e.start <= b < e.start + NBlocks(e.size) ensures r[b] == PaddedBlock(content, b - e.start) {
      CreateEffect(m, d, name, content, b);
    }
    PaddedRoundTrip(r, e, content);
  }

  /** A name the field can hold is free whenever fs_create accepts it. */
  lemma ShortNameFree(m: Mem, d: Disk, name: seq<byte>, content: seq<byte>)
    requires Creates(m, d, name, content) && |name| < NAMELEN
    ensures Stored(name) == name && name !in Names(m)
  {
  }

  /**
    A successful fs_create whose stored name is free adds exactly that file: the state
    stays consistent and the map gains the stored name with exactly these bytes.
   */
  lemma CreateRefines(m: Mem, d: Disk, name: seq<byte>, content: seq<byte>)
    requires Creates(m, d, name, content) && Stored(name) !in Names(m)
    ensures var t := CreateOf(m, name, content);
            && Consistent(t.after, Commit(d, t))
            && Stored(name) !in Files(m, d)
            && Files(t.after, Commit(d, t)) == Files(m, d)[Stored(name) := content]
  {
    var t := CreateOf(m, name, content);
    CreateConsistent(m, d, name, content);
    CreateEntry(m, d, name, content);
    CreateStores(m, d, name, content, NewEntry(m, name, content));
    forall i | 0 <= i < m.nfiles ensures t.after.dir[i] == m.dir[i] && SameBytes(d, Commit(d, t), m.dir[i], m.total) {
      CreateKeepsOther(m, d, name, content, i);
    }
    AppendedFile(m, d, t.after, Commit(d, t));
  }

  /**
    The kernel cuts the stored name but compares whole names, so a file just created can
    be looked up under its name exactly when the name is shorter than NAMELEN.
   */
  lemma CreatedIsFoundIffNameFits(m: Mem, d: Disk, name: seq<byte>, content: seq<byte>)
    requires Creates(m, d, name, content)
    ensures var m' := CreateOf(m, name, content).after;
            Find(m', name) < m'.nfiles <==> |name| < NAMELEN
  {
    var m' := CreateOf(m, name, content).after;
    NewEntryName(m, d, name, content);
    CreatePlaces(m, d, name, content);
    assert m'.dir[m.nfiles] == NewEntry(m, name, content);
    forall i | 0 <= i < m.nfiles ensures m'.dir[i] == m.dir[i] && |CStr(m.dir[i].name)| < NAMELEN {
      assert GoodEntry(m.dir[i], m.total);
    }
    if |name| < NAMELEN {
      assert CStr(m'.dir[m.nfiles].name) == name;
    }
  }

  /** For the same reason, creating keeps the names distinct exactly when the cut name is not taken. */
  lemma CreateConsistentIffStoredNameFree(m: Mem, d: Disk, name: seq<byte>, content: seq<byte>)
    requires Creates(m, d, name, content)
    ensures var t := CreateOf(m, name, content);
            Consistent(t.after, Commit(d, t)) <==> Stored(name) !in Names(m)
  {
    var m' := CreateOf(m, name, content).after;
    if Stored(name) !in Names(m) {
      CreateConsistent(m, d, name, content);
    } else {
      NewEntryName(m, d, name, content);
      CreatePlaces(m, d, name, content);
      var i :| 0 <= i < m.nfiles && CStr(m.dir[i].name) == Stored(name);
      assert m'.dir[i] == m.dir[i] && m'.dir[m.nfiles] == NewEntry(m, name, content);
      assert !GoodDir(m'.dir, m'.nfiles, m'.total);
    }
  }

  // ---- deleting ----

  ghost predicate Deletes(m: Mem, d: Disk, name: seq<byte>) {
    Ready(m, d) && Find(m, name) < m.nfiles
  }

  /** Where entry i of the compacted directory came from. */
  function Origin(idx: nat, i: nat): nat { if i < idx then i else i + 1 }

  lemma RemovedAt(dir: Dir, nfiles: nat, idx: nat, i: nat)
    requires idx < nfiles <= MAXFILES && i < nfiles - 1
    ensures RemoveEntry(dir, nfiles, idx)[i] == dir[Origin(idx, i)]
  {
  }

  lemma DeleteGoodDir(m: Mem, idx: nat)
    requires GoodDir(m.dir, m.nfiles, m.total) && idx < m.nfiles
    ensures GoodDir(DeleteMem(m, idx).dir, m.nfiles - 1, m.total)
  {
    forall i | 0 <= i < m.nfiles - 1
      ensures RemoveEntry(m.dir, m.nfiles, idx)[i] == m.dir[Origin(idx, i)]
    {
      RemovedAt(m.dir, m.nfiles, idx, i);
    }
  }

  /** No block is owned twice, because extents are apart. */
  lemma OwnedOnce(m: Mem, f: nat, g: nat, b: nat)
    requires GoodDir(m.dir, m.nfiles, m.total) && f < m.nfiles && g < m.nfiles && f != g && b < MAXBLK
    requires Owns(m.dir[f], b)
    ensures b >= DATASTART && !Owns(m.dir[g], b)
  {
    assert GoodEntry(m.dir[f], m.total) && GoodEntry(m.dir[g], m.total);
    OwnsIsExtent(m.dir[f], m.total, b);
    OwnsIsExtent(m.dir[g], m.total, b);
    assert if f < g then Apart(m.dir[f], m.dir[g]) else Apart(m.dir[g], m.dir[f]);
  }

  lemma DeleteMarked(m: Mem, idx: nat, b: nat)
    requires GoodDir(m.dir, m.nfiles, m.total) && idx < m.nfiles && b < MAXBLK
    ensures Marked(RemoveEntry(m.dir, m.nfiles, idx), m.nfiles - 1, b) <==>
            Marked(m.dir, m.nfiles, b) && !Owns(m.dir[idx], b)
  {
    var r := RemoveEntry(m.dir, m.nfiles, idx);
    assert GoodEntry(m.dir[idx], m.total);
    OwnsIsExtent(m.dir[idx], m.total, b);
    if f :| 0 <= f < m.nfiles && Owns(m.dir[f], b) && f != idx {
      var i := if f < idx then f else f - 1;
      RemovedAt(m.dir, m.nfiles, idx, i);
      assert Owns(r[i], b);
      OwnedOnce(m, f, idx, b);
    }
    if i :| 0 <= i < m.nfiles - 1 && Owns(r[i], b) {
      RemovedAt(m.dir, m.nfiles, idx, i);
      OwnedOnce(m, Origin(idx, i), idx, b);
    }
  }

  /** Clearing the deleted extent in place gives the bitmap a rebuild would give. */
  lemma DeleteBitmap(m: Mem, idx: nat)
    requires GoodDir(m.dir, m.nfiles, m.total) && idx < m.nfiles && m.used == Bitmap(m.dir, m.nfiles)
    ensures DeleteMem(m, idx).used == Bitmap(DeleteMem(m, idx).dir, m.nfiles - 1)
  {
    forall b | 0 <= b < MAXBLK
      ensures DeleteMem(m, idx).used[b] == Marked(RemoveEntry(m.dir, m.nfiles, idx), m.nfiles - 1, b)
    {
      DeleteMarked(m, idx, b);
    }
  }

  lemma DeleteCommit(m: Mem, d: Disk, idx: nat)
    requires Ready(m, d) && idx < m.nfiles
    ensures var t := DeleteTxn(m, idx);
            && GoodTxn(t, d) && LogIdle(Commit(d, t))
            && Commit(d, t) == DataTxnDisk(d, DATASTART, [], EncodeDir(t.after.dir), SuperOf(t.after))
  {
    var t := DeleteTxn(m, idx);
    assert t.dsts == DataDsts(DATASTART, 0) + MetaDsts();
    assert t.blocks == [] + [EncodeDir(t.after.dir), SuperOf(t.after)];
    DataTxnSafe(d, DATASTART, []);
    TransactionIdle(d, t.dsts, t.blocks);
  }

  lemma DeleteEffect(m: Mem, d: Disk, idx: nat, b: nat)
    requires Ready(m, d) && idx < m.nfiles && b < |d| && !InLog(b)
    ensures var t := DeleteTxn(m, idx);
            Commit(d, t)[b] == if b == 0 then SuperOf(t.after) else if b == DIRBLOCK then EncodeDir(t.after.dir)
              else d[b]
  {
    var t := DeleteTxn(m, idx);
    DeleteCommit(m, d, idx);
    DataTxnBlock(d, DATASTART, [], EncodeDir(t.after.dir), SuperOf(t.after), b);
  }

  lemma DeleteConsistent(m: Mem, d: Disk, idx: nat)
    requires Ready(m, d) && idx < m.nfiles
    ensures var t := DeleteTxn(m, idx); Consistent(t.after, Commit(d, t))
  {
    var t := DeleteTxn(m, idx);
    DeleteGoodDir(m, idx);
    DeleteBitmap(m, idx);
    DeleteCommit(m, d, idx);
    DeleteEffect(m, d, idx, 0);
    DeleteEffect(m, d, idx, DIRBLOCK);
    ImagesMakeConsistent(t.after, Commit(d, t));
  }

  /** Removing one entry, with the data area untouched, removes exactly that name from the map. */
  lemma RemovedFile(m: Mem, d: Disk, m': Mem, d': Disk, idx: nat)
    requires GoodDir(m.dir, m.nfiles, m.total) && GoodDir(m'.dir, m'.nfiles, m'.total)
    requires m'.total == m.total <= |d| == |d'| && idx < m.nfiles && m' == DeleteMem(m, idx)
    requires forall b :: DATASTART <= b < |d| ==> d'[b] == d[b]
    ensures Files(m', d') == Files(m, d) - {CStr(m.dir[idx].name)}
  {
    DeleteNames(m, idx);
    forall n | n in Names(m') ensures Files(m', d')[n] == Files(m, d)[n] {
      var i := Find(m', n);
      RemovedAt(m.dir, m.nfiles, idx, i);
      assert GoodEntry(m'.dir[i], m.total);
      BytesDependOnExtent(d, d', m'.dir[i], m.total);
      KeptFile(m, d, m', d', Origin(idx, i), i);
    }
  }

  /** A successful fs_delete removes exactly that file, and later mounts agree with memory. */
  lemma DeleteRefines(m: Mem, d: Disk, name: seq<byte>)
    requires Deletes(m, d, name)
    ensures var t := DeleteTxn(m, Find(m, name));
            && Consistent(t.after, Commit(d, t))
            && name in Files(m, d)
            && Files(t.after, Commit(d, t)) == Files(m, d) - {name}
  {
    var idx := Find(m, name);
    var t := DeleteTxn(m, idx);
    DeleteConsistent(m, d, idx);
    forall b | DATASTART <= b < |d| ensures Commit(d, t)[b] == d[b] {
      DeleteEffect(m, d, idx, b);
    }
    FilesByEntry(m, d, idx);
    RemovedFile(m, d, t.after, Commit(d, t), idx);
  }

  lemma DeleteNames(m: Mem, idx: nat)
    requires GoodDir(m.dir, m.nfiles, m.total) && idx < m.nfiles
    ensures Names(DeleteMem(m, idx)) == Names(m) - {CStr(m.dir[idx].name)}
  {
    var m' := DeleteMem(m, idx);
    forall i | 0 <= i < m'.nfiles
      ensures CStr(m'.dir[i].name) in Names(m) && CStr(m'.dir[i].name) != CStr(m.dir[idx].name)
    {
      RemovedAt(m.dir, m.nfiles, idx, i);
      FindNamed(m, Origin(idx, i));
      FindNamed(m, idx);
    }
    forall f | 0 <= f < m.nfiles && f != idx ensures CStr(m.dir[f].name) in Names(m') {
      var i := if f < idx then f else f - 1;
      RemovedAt(m.dir, m.nfiles, idx, i);
      assert CStr(m'.dir[i].name) in Names(m');
    }
  }
}
