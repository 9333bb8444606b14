/**
  The file system's disk format and bookkeeping in plain numbers: which bytes of which
  blocks a mount reads, which writes a create issues, and what next_free and the free
  blocks of a fresh image are worth.
 */
module FsLaws {
  import opened FsFormat
  import opened Journal
  import opened FsModel
  import opened FsRefinement
  import opened FsCrash
  import opened MkFs

  // ---- blocks byte by byte ----

  lemma EncodedBytes(ws: seq<u32>, i: nat)
    requires i < |ws| <= 128
    ensures EncodeWords(ws)[4 * i..4 * i + 4] == Le32(ws[i])
  {
    EncodedWord(ws, i);
    Le32Word(EncodeWords(ws), 4 * i, ws[i]);
  }

  /** Block 0: magic, file count, next free block, block count. */
  lemma SuperOnDisk(sb: Superblock)
    ensures var b := EncodeSuper(sb);
            && b[0..4] == Le32(sb.magic) && b[4..8] == Le32(sb.nfiles)
            && b[8..12] == Le32(sb.nextFree) && b[12..16] == Le32(sb.total)
            && forall j :: 16 <= j < 512 ==> b[j] == 0
  {
    var ws: seq<u32> := [sb.magic, sb.nfiles, sb.nextFree, sb.total];
    EncodedBytes(ws, 0);
    EncodedBytes(ws, 1);
    EncodedBytes(ws, 2);
    EncodedBytes(ws, 3);
  }

  /** Block 2: the commit flag, the number of logged blocks, and where each of them belongs. */
  lemma HeaderOnDisk(committed: u32, blks: seq<u32>)
    requires |blks| <= 16
    ensures var b := EncodeHeader(committed, blks);
            && b[0..4] == Le32(committed) && b[4..8] == Le32(|blks|)
            && (forall i :: 0 <= i < |blks| ==> b[4 * (i + 2)..4 * (i + 2) + 4] == Le32(blks[i]))
            && forall j :: 4 * (|blks| + 2) <= j < 512 ==> b[j] == 0
  {
    var ws := HeaderWords(committed, blks);
    EncodedBytes(ws, 0);
    EncodedBytes(ws, 1);
    forall i | 0 <= i < |blks| ensures EncodeHeader(committed, blks)[4 * (i + 2)..4 * (i + 2) + 4] == Le32(blks[i]) {
      EncodedBytes(ws, i + 2);
    }
    forall j | 4 * (|blks| + 2) <= j < 512 ensures EncodeHeader(committed, blks)[j] == 0 {
      assert j / 4 >= |blks| + 2;
      assert ByteOf(0, j % 4) == 0;
    }
  }

  /** Block 1: eight entries of 64 bytes, each a name field of 56 bytes, the size and the first block. */
  lemma DirOnDisk(dir: Dir, i: nat)
    requires i < 8
    ensures var b := EncodeDir(dir);
            && b[64 * i..64 * i + 56] == dir[i].name
            && b[64 * i + 56..64 * i + 60] == Le32(dir[i].size) && b[64 * i + 60..64 * i + 64] == Le32(dir[i].start)
  {
    DirName(dir, i);
    DirSize(dir, i);
    DirStart(dir, i);
    Le32Word(EncodeDir(dir), 64 * i + 56, dir[i].size);
    Le32Word(EncodeDir(dir), 64 * i + 60, dir[i].start);
  }

  // ---- what a mount reads from any disk ----

  /** A log whose first word is zero is left alone. */
  lemma IdleLogIgnored(d: Disk)
    requires d[2][0..4] == [0, 0, 0, 0]
    ensures Recover(d) == d && RecoverWrites(d) == []
  {
    assert Le32(0) == [0, 0, 0, 0];
    Le32Word(d[2], 0, 0);
  }

  /** Block 2 names n blocks and these destinations for the first 16 of them at most. */
  predicate HeaderSays(b: Block, n: u32, dsts: seq<u32>) {
    && b[4..8] == Le32(n) && |dsts| == (if n > 16 then 16 else n)
    && forall i :: 0 <= i < |dsts| ==> b[8 + 4 * i..12 + 4 * i] == Le32(dsts[i])
  }

  /** Any other log is replayed: block 3 + i goes to the i-th destination, and block 2 is zeroed. */
  lemma LogReplayed(d: Disk, n: u32, dsts: seq<u32>)
    requires d[2][0..4] != [0, 0, 0, 0] && HeaderSays(d[2], n, dsts)
    requires forall i :: 0 <= i < |dsts| ==> dsts[i] < |d| && !(2 <= dsts[i] <= 18)
    ensures var ws := RecoverWrites(d);
            && Recover(d) == ApplyAll(d, ws) && |ws| == |dsts| + 1
            && (forall i :: 0 <= i < |dsts| ==> ws[i] == Write(dsts[i], d[3 + i]))
            && ws[|dsts|] == Write(2, seq(512, j => 0))
  {
    hide Le32, LogIdle, HeaderDsts, EncodeHeader, WordAt;
    assert |dsts| <= 16;
    hide HeaderSays;
    HeaderIs(d, n, dsts);
    var data := d[3..3 + |dsts|];
    InstallReadsTheLog(d, dsts, data, 0);
    assert InstallPhase(dsts, data)[0..] == InstallPhase(dsts, data);
    ZeroHeader();
  }

  lemma HeaderIs(d: Disk, n: u32, dsts: seq<u32>)
    requires d[2][0..4] != [0, 0, 0, 0] && HeaderSays(d[2], n, dsts)
    ensures !LogIdle(d) && HeaderDsts(d) == dsts
  {
    assert Le32(0) == [0, 0, 0, 0];
    hide Le32, WordAt;
    Le32Word(d[2], 0, 0);
    Le32Word(d[2], 4, n);
    forall i | 0 <= i < |dsts| ensures WordAt(d[2], 4 * (i + 2)) == dsts[i] {
      assert 4 * (i + 2) == 8 + 4 * i;
      Le32Word(d[2], 8 + 4 * i, dsts[i]);
    }
  }

  lemma ZeroHeader()
    ensures EncodeHeader(0, []) == seq(512, j => 0)
  {
    HeaderOnDisk(0, []);
    assert Le32(0) == [0, 0, 0, 0];
    var b := EncodeHeader(0, []);
    assert forall j :: 0 <= j < 4 ==> b[j] == b[0..4][j];
    assert forall j :: 4 <= j < 8 ==> b[j] == b[4..8][j - 4];
  }

  /** After recovery, memory is read from these bytes; the block count was read before it. */
  lemma MountReads(d: Disk, n: u32, free: u32, t: u32)
    requires d[0][..4] == [0x32, 0x53, 0x46, 0x52] && d[0][12..16] == Le32(t)
    requires Recover(d)[0][4..8] == Le32(n) && Recover(d)[0][8..12] == Le32(free)
    ensures var r := Recover(d);
            && Mount(d).Mounted? && Mount(d).d == r
            && var m := Mount(d).m;
            && m.nfiles == (if n >= 0x8000_0000 then n - 0x1_0000_0000 else if n > 8 then 8 else n)
            && m.nextFree == free && m.total == (if t == 0 || t > 8192 then 8192 else t)
            && (forall i :: 0 <= i < 8 ==>
                  && m.dir[i].name == r[1][64 * i..64 * i + 56]
                  && Le32(m.dir[i].size) == r[1][64 * i + 56..64 * i + 60]
                  && Le32(m.dir[i].start) == r[1][64 * i + 60..64 * i + 64])
            && UsedBits(m)
  {
    hide Recover, Bitmap, Le32;
    MagicBytes(d[0]);
    var r := Recover(d);
    Le32Word(d[0], 12, t);
    Le32Word(r[0], 4, n);
    Le32Word(r[0], 8, free);
    var m := Mount(d).m;
    forall i | 0 <= i < 8
      ensures m.dir[i].name == r[1][64 * i..64 * i + 56]
              && Le32(m.dir[i].size) == r[1][64 * i + 56..64 * i + 60]
              && Le32(m.dir[i].start) == r[1][64 * i + 60..64 * i + 64]
    {
      Le32Word(r[1], 64 * i + 56, m.dir[i].size);
      Le32Word(r[1], 64 * i + 60, m.dir[i].start);
    }
    BitmapBits(m);
  }

  /** A block is in use if it is one of the first 19, or k past a live file's start in 32-bit arithmetic. */
  ghost predicate UsedBits(m: Mem) {
    && |m.used| == 8192
    && forall b :: 0 <= b < 8192 ==>
         (m.used[b] <==> b < 19 || exists f :: 0 <= f < m.nfiles && f < 8 && Covers(m.dir[f], b))
  }

  predicate Covers(e: Dirent, b: nat) {
    (b - e.start) % 0x1_0000_0000 < (e.size + 511) % 0x1_0000_0000 / 512
  }

  lemma BitmapBits(m: Mem)
    requires m.used == Bitmap(m.dir, m.nfiles)
    ensures UsedBits(m)
  {
    forall b | 0 <= b < 8192
      ensures m.used[b] <==> b < 19 || exists f :: 0 <= f < m.nfiles && f < 8 && Covers(m.dir[f], b)
    {
      assert m.used[b] == Marked(m.dir, m.nfiles, b);
      if f :| 0 <= f < m.nfiles && f < 8 && Covers(m.dir[f], b) { assert Owns(m.dir[f], b); }
      if f :| 0 <= f < m.nfiles && f < MAXFILES && Owns(m.dir[f], b) { assert Covers(m.dir[f], b); }
    }
  }

  // ---- what a create writes ----

  /** The new entry: the name's first 55 bytes at most, a zero byte, the size; an empty file starts at block 19. */
  lemma CreatedEntry(m: Mem, d: Disk, name: seq<byte>, content: seq<byte>)
    requires Creates(m, d, name, content)
    ensures var m', len := CreateOf(m, name, content).after, if |name| > 55 then 55 else |name|;
            && m'.nfiles == m.nfiles + 1 && m'.total == m.total
            && (forall i :: 0 <= i < 8 && i != m.nfiles ==> m'.dir[i] == m.dir[i])
            && var e := m'.dir[m.nfiles];
            && e.name[..len] == name[..len] && e.name[len] == 0 && e.size == |content|
            && (content == [] ==> e.start == 19)
            && (content != [] ==> LowestRun(m, e.start, (|content| + 511) / 512))
            && m'.nextFree == (if e.start + (|content| + 511) / 512 > m.nextFree then e.start + (|content| + 511) / 512
                               else m.nextFree)
  {
    CreatePlaces(m, d, name, content);
    if content != [] {
      hide LowestRun, Alloc;
      AllocLowest(m, BlocksFor(|content|));
    }
  }

  /** Blocks s to s + nb - 1 are unused data blocks of the disk, and no lower run of that length is. */
  ghost predicate LowestRun(m: Mem, s: nat, nb: nat) {
    && 19 <= s && s + nb <= m.total <= |m.used| && (forall b :: s <= b < s + nb ==> !m.used[b])
    && forall t :: 19 <= t < s ==> UsedIn(m, t, nb)
  }

  ghost predicate UsedIn(m: Mem, t: nat, nb: nat)
    requires m.total <= |m.used|
  {
    t + nb <= m.total ==> exists b :: t <= b < t + nb && m.used[b]
  }

  lemma AllocLowest(m: Mem, nb: nat)
    requires m.total <= |m.used| && nb > 0 && Alloc(m, nb) >= 0
    ensures LowestRun(m, Alloc(m, nb), nb)
  {
    var s := Alloc(m, nb);
    forall t | 19 <= t < s ensures UsedIn(m, t, nb) {
      if t + nb <= m.total { assert !Fits(m.used, nb, t); }
    }
  }

  /** A delete closes the gap, clears the last live slot and leaves next_free alone. */
  lemma DeletedEntry(m: Mem, idx: nat)
    requires idx < m.nfiles <= 8 && m.total <= 8192
    ensures var m' := DeleteTxn(m, idx).after;
            && m'.nfiles == m.nfiles - 1 && m'.total == m.total && m'.nextFree == m.nextFree
            && (forall i :: 0 <= i < idx ==> m'.dir[i] == m.dir[i])
            && (forall i :: idx <= i < m.nfiles - 1 ==> m'.dir[i] == m.dir[i + 1])
            && m'.dir[m.nfiles - 1] == Dirent(seq(56, j => 0), 0, 0)
            && forall i :: m.nfiles <= i < 8 ==> m'.dir[i] == m.dir[i]
  {
  }

  /**
    The writes of a transaction: into the log from block 3 on, the commit header, each block
    home, the cleared header.
   */
  lemma TxnTrace(dsts: seq<u32>, blocks: seq<Block>)
    requires |dsts| == |blocks| <= 16
    ensures var n, ws := |dsts|, TxnWrites(dsts, blocks);
            && |ws| == 2 * n + 2
            && (forall i :: 0 <= i < n ==> ws[i] == Write(3 + i, blocks[i]))
            && ws[n].blk == 2 && ws[n].data[0..4] == [1, 0, 0, 0]
            && (forall i :: 0 <= i < n ==> ws[n + 1 + i] == Write(dsts[i], blocks[i]))
            && ws[2 * n + 1] == Write(2, seq(512, j => 0))
  {
    HeaderOnDisk(1, dsts);
    assert Le32(1) == [1, 0, 0, 0];
    ZeroHeader();
    hide EncodeHeader, Le32;
  }

  /** A create's transaction: nb data blocks at the new entry's start, then the directory and the superblock. */
  lemma CreateTrace(m: Mem, d: Disk, name: seq<byte>, content: seq<byte>)
    requires Creates(m, d, name, content)
    ensures var t, nb := CreateOf(m, name, content), (|content| + 511) / 512;
            && nb + 2 <= 16 && |t.dsts| == |t.blocks| == nb + 2
            && (forall i :: 0 <= i < nb ==> t.dsts[i] == t.after.dir[m.nfiles].start + i)
            && t.dsts[nb] == 1 && t.dsts[nb + 1] == 0
            && (forall b, j :: 0 <= b < nb && 0 <= j < 512 ==>
                  t.blocks[b][j] == if 512 * b + j < |content| then content[512 * b + j] else 0)
            && t.blocks[nb] == EncodeDir(t.after.dir)
            && t.blocks[nb + 1] == EncodeSuper(Superblock(FS_MAGIC, t.after.nfiles, t.after.nextFree, t.after.total))
  {
    CreatePlaces(m, d, name, content);
    hide EncodeDir, EncodeSuper;
    var t, nb := CreateOf(m, name, content), BlocksFor(|content|);
    forall b, j | 0 <= b < nb && 0 <= j < 512
      ensures t.blocks[b][j] == if 512 * b + j < |content| then content[512 * b + j] else 0
    {
      assert t.blocks[b] == DataBlocks(content)[b] == PaddedBlock(content, b);
    }
  }

  // ---- next_free ----

  /** No live extent reaches past next_free. */
  ghost predicate WithinNextFree(m: Mem) {
    0 <= m.nfiles <= 8 && forall i :: 0 <= i < m.nfiles ==> m.dir[i].start + (m.dir[i].size + 511) / 512 <= m.nextFree
  }

  lemma CreateWithin(m: Mem, d: Disk, name: seq<byte>, content: seq<byte>)
    requires Creates(m, d, name, content) && WithinNextFree(m)
    ensures WithinNextFree(CreateOf(m, name, content).after)
  {
    CreatedEntry(m, d, name, content);
    hide CreateOf;
    CreateRoom(m, d, name, content);
  }

  lemma CreateRoom(m: Mem, d: Disk, name: seq<byte>, content: seq<byte>)
    requires Creates(m, d, name, content)
    ensures 0 <= m.nfiles < 8
  {
  }

  lemma DeleteWithin(m: Mem, idx: nat)
    requires idx < m.nfiles <= 8 && m.total <= 8192 && WithinNextFree(m)
    ensures WithinNextFree(DeleteTxn(m, idx).after)
  {
    DeletedEntry(m, idx);
    hide DeleteTxn;
  }

  /** Whatever an event leaves behind, memory is what it was or what a create or delete made of it. */
  lemma EventWithin(m: Mem, d: Disk, e: Event)
    requires Consistent(m, d) && GoodEvent(m, e) && WithinNextFree(m)
    ensures Apply(m, d, e).Mounted? && WithinNextFree(Apply(m, d, e).m)
  {
    hide Files, CreateAt, CreateOf, DeleteTxn, Commit, CrashDisk, FsTxn, Mount, Find, MemOf, Bitmap, LogIdle,
         WithinNextFree;
    Bounds(m, d);
    EventRefines(m, d, e);
    match e
    case Create(name, content) =>
      if CreateAt(m, name, |content|) >= 0 { CreateWithin(m, d, name, content); }
    case Delete(name) =>
      if Find(m, name) < m.nfiles { DeleteWithin(m, Find(m, name)); }
    case Remount =>
      MountIsIdentity(m, d);
    case CrashInCreate(name, content, k, js) =>
      if CreateAt(m, name, |content|) >= 0 {
        CreateWithin(m, d, name, content);
        CreateEvent(m, d, name, content);
        CrashAtomic(m, d, CreateOf(m, name, content), k, js);
      } else {
        RefusedCrash(m, d, js);
      }
    case CrashInDelete(name, k, js) =>
      if Find(m, name) < m.nfiles {
        DeleteWithin(m, Find(m, name));
        DeleteEvent(m, d, name);
        CrashAtomic(m, d, DeleteTxn(m, Find(m, name)), k, js);
      } else {
        RefusedCrash(m, d, js);
      }
  }

  /** Over every run next_free stays past every live extent. */
  lemma {:induction false} RunWithin(m: Mem, d: Disk, es: seq<Event>)
    requires Consistent(m, d) && GoodRun(m, d, es) && WithinNextFree(m)
    ensures Run(m, d, es).Mounted? && WithinNextFree(Run(m, d, es).m)
    decreases |es|
  {
    hide Apply, GoodEvent, WithinNextFree, Consistent;
    if es != [] {
      EventRefines(m, d, es[0]);
      EventWithin(m, d, es[0]);
      RunWithin(Apply(m, d, es[0]).m, Apply(m, d, es[0]).d, es[1..]);
    }
  }

  // ---- a fresh image ----

  /** mkfs leaves next_free behind the last file. */
  lemma ImageWithin(files: seq<Input>)
    requires Fitting(files)
    ensures WithinNextFree(MountedMem(files))
  {
    var m := MountedMem(files);
    forall i | 0 <= i < m.nfiles ensures m.dir[i].start + (m.dir[i].size + 511) / 512 <= m.nextFree {
      EntryAt(files, i);
      FileFits(files, i);
      StartMonotone(files, i + 1, |files|);
    }
  }

  /** An image has at least 256 blocks: while its data ends by block 242, a new file of up to 14 blocks is accepted. */
  lemma FreshImageHasRoom(files: seq<Input>, name: seq<byte>, content: seq<byte>)
    requires Fitting(files) && DistinctStored(files) && |files| < 8 && StartOf(files, |files|) <= 242
    requires 0 !in name && |content| <= 14 * 512 && forall i :: 0 <= i < |files| ==> name != Stored(files[i].name)
    ensures |Image(files)| == 256 && Creates(MountedMem(files), Image(files), name, content)
  {
    var m, s := MountedMem(files), StartOf(files, |files|);
    ImageMounts(files);
    ImageNames(files);
    assert name !in Names(m);
    FreshIsNew(m, name);
    forall b | s <= b < 256 ensures !m.used[b] {
      BeyondIsFree(files, b);
    }
    assert Fits(m.used, BlocksFor(|content|), s);
    assert DATASTART <= s && s + BlocksFor(|content|) <= m.total;
  }

  lemma FreshIsNew(m: Mem, name: seq<byte>)
    requires 0 <= m.nfiles <= 8 && name !in Names(m)
    ensures Find(m, name) == m.nfiles
  {
    forall i | 0 <= i < m.nfiles ensures CStr(m.dir[i].name) in Names(m) { }
  }

  lemma BeyondIsFree(files: seq<Input>, b: nat)
    requires Fitting(files) && StartOf(files, |files|) <= b < 8192
    ensures !MountedMem(files).used[b]
  {
    var m := MountedMem(files);
    assert m.used[b] == Marked(m.dir, m.nfiles, b);
    forall f | 0 <= f < m.nfiles ensures !Owns(m.dir[f], b) {
      EntryAt(files, f);
      FileFits(files, f);
      StartMonotone(files, f + 1, |files|);
      OwnsIsExtent(m.dir[f], m.total, b);
    }
  }
}
