/**
  The file system of src/fs.c as values: what mounting computes from a disk, the
  transactions that creating and deleting a file commit, and the map from names to
  bytes that the mounted state stands for.
 */
module FsModel {
  import opened FsFormat
  import opened Journal

  // ---- C strings in fixed fields ----

  function CStr(f: seq<byte>): seq<byte> {
    if f == [] || f[0] == 0 then [] else [f[0]] + CStr(f[1..])
  }

  lemma {:induction false} CStrOf(s: seq<byte>, rest: seq<byte>)
    requires 0 !in s
    ensures CStr(s + [0] + rest) == s
  {
    var f := s + [0] + rest;
    if s == [] {
      assert f[0] == 0;
    } else {
      assert f[0] == s[0] && f[1..] == s[1..] + [0] + rest;
      CStrOf(s[1..], rest);
      assert s == [s[0]] + s[1..];
    }
  }

  /** A name as the kernel stores it: cut to NAMELEN - 1 bytes. */
  function Stored(name: seq<byte>): (s: seq<byte>)
    ensures |s| < NAMELEN && (0 !in name ==> 0 !in s)
    ensures |name| < NAMELEN ==> s == name
  {
    if |name| < NAMELEN then name else name[..NAMELEN - 1]
  }

  /** The name field after the kernel's copy loop: name, terminator, and whatever was there after it. */
  function NameInto(was: NameField, name: seq<byte>): NameField {
    Stored(name) + [0] + was[|Stored(name)| + 1..]
  }

  // ---- extents and the free-block bitmap ----

  /** Blocks a file of this size takes, in the kernel's 32-bit arithmetic. */
  function NBlocks(size: u32): nat { ((size as int + 511) % U32) / 512 }

  /** Block b is start + k modulo 2^32 for some k below the block count. */
  predicate Owns(e: Dirent, b: nat) { (b - e.start) % U32 < NBlocks(e.size) }

  predicate Marked(dir: Dir, nfiles: int, b: nat) {
    b < DATASTART || exists f :: 0 <= f < nfiles && f < MAXFILES && Owns(dir[f], b)
  }

  function Bitmap(dir: Dir, nfiles: int): (u: seq<bool>)
    ensures |u| == MAXBLK
  {
    seq(MAXBLK, b requires 0 <= b < MAXBLK => Marked(dir, nfiles, b))
  }

  // ---- the mounted state ----

  datatype Mem = Mem(dir: Dir, nfiles: int, nextFree: u32, total: nat, used: seq<bool>)

  datatype Mounted = NotMounted | Mounted(m: Mem, d: Disk)

  function NormTotal(t: u32): nat { if t == 0 || t > MAXBLK then MAXBLK else t }

  /** nfiles as mounting reads it: a signed 32-bit value, cut at MAXFILES. */
  function NormFiles(n: u32): int {
    var i: int := if n >= 0x8000_0000 then n as int - U32 else n;
    if i > MAXFILES then MAXFILES else i
  }

  /** The in-memory state that mounting builds from a disk whose log is idle. */
  function MemOf(d: Disk): Mem {
    var sb := DecodeSuper(d[0]);
    var dir, n := DecodeDir(d[DIRBLOCK]), NormFiles(sb.nfiles);
    Mem(dir, n, sb.nextFree, NormTotal(sb.total), Bitmap(dir, n))
  }

  /** Mounting: the block count is read before recovery, everything else after it. */
  function Mount(d: Disk): Mounted {
    var sb := DecodeSuper(d[0]);
    if sb.magic != FS_MAGIC then NotMounted
    else Mounted(MemOf(Recover(d)).(total := NormTotal(sb.total)), Recover(d))
  }

  // ---- what must hold of a mounted file system ----

  /** A live entry: terminated name, extent inside the data area, nothing wraps. */
  predicate GoodEntry(e: Dirent, total: nat) {
    && |CStr(e.name)| < NAMELEN
    && DATASTART <= e.start
    && e.size <= MAXBLK * BSIZE
    && e.start + NBlocks(e.size) <= total
  }

  predicate Apart(e: Dirent, f: Dirent) {
    e.start + NBlocks(e.size) <= f.start || f.start + NBlocks(f.size) <= e.start
    || NBlocks(e.size) == 0 || NBlocks(f.size) == 0
  }

  predicate GoodDir(dir: Dir, nfiles: int, total: nat) {
    && 0 <= nfiles <= MAXFILES && DATASTART <= total <= MAXBLK
    && (forall i :: 0 <= i < nfiles ==> GoodEntry(dir[i], total))
    && (forall i, j :: 0 <= i < j < nfiles ==> CStr(dir[i].name) != CStr(dir[j].name))
    && (forall i, j :: 0 <= i < j < nfiles ==> Apart(dir[i], dir[j]))
  }

  /** A well-formed directory on this disk, with the bitmap a rebuild would give, and nothing in the log. */
  predicate Ready(m: Mem, d: Disk) {
    && GoodDir(m.dir, m.nfiles, m.total)
    && m.used == Bitmap(m.dir, m.nfiles)
    && m.total <= |d|
    && LogIdle(d)
  }

  /** Memory agrees with the disk: it is well formed and is what a fresh mount would build. */
  predicate Consistent(m: Mem, d: Disk) {
    && Ready(m, d)
    && DecodeSuper(d[0]).magic == FS_MAGIC
    && m == MemOf(d)
  }

  lemma OwnsIsExtent(e: Dirent, total: nat, b: nat)
    requires GoodEntry(e, total) && b < MAXBLK && total <= MAXBLK
    ensures Owns(e, b) <==> e.start <= b < e.start + NBlocks(e.size)
  {
    if b >= e.start {
      assert (b - e.start) % U32 == b - e.start;
    } else {
      assert (b - e.start) % U32 == b - e.start + U32;
    }
  }

  // ---- the map from names to bytes ----

  function FindFrom(dir: Dir, nfiles: int, name: seq<byte>, i: nat): (r: nat)
    requires i <= nfiles <= MAXFILES
    ensures i <= r <= nfiles
    ensures r < nfiles ==> CStr(dir[r].name) == name
    ensures forall j :: i <= j < r ==> CStr(dir[j].name) != name
    decreases nfiles - i
  {
    if i == nfiles || CStr(dir[i].name) == name then i else FindFrom(dir, nfiles, name, i + 1)
  }

  /** The first live entry with this name, or nfiles. */
  function Find(m: Mem, name: seq<byte>): (r: nat)
    requires 0 <= m.nfiles <= MAXFILES
    ensures r <= m.nfiles
    ensures r < m.nfiles ==> CStr(m.dir[r].name) == name
    ensures forall j :: 0 <= j < r ==> CStr(m.dir[j].name) != name
  {
    FindFrom(m.dir, m.nfiles, name, 0)
  }

  function Names(m: Mem): set<seq<byte>>
    requires m.nfiles <= MAXFILES
  {
    set i | 0 <= i < m.nfiles :: CStr(m.dir[i].name)
  }

  function FileBytes(d: Disk, e: Dirent): (s: seq<byte>)
    requires e.size <= MAXBLK * BSIZE && e.start + NBlocks(e.size) <= |d|
    ensures |s| == e.size
  {
    seq(e.size, i requires 0 <= i < e.size => d[e.start + i / 512][i % 512])
  }

  /** The abstract state: each live name and its bytes. */
  function Files(m: Mem, d: Disk): map<seq<byte>, seq<byte>>
    requires GoodDir(m.dir, m.nfiles, m.total) && m.total <= |d|
  {
    map n | n in Names(m) :: FileBytes(d, m.dir[Find(m, n)])
  }

  lemma FindNamed(m: Mem, i: nat)
    requires GoodDir(m.dir, m.nfiles, m.total) && i < m.nfiles
    ensures Find(m, CStr(m.dir[i].name)) == i
  {
  }

  /** Two mounted states with the same entries, each with the same bytes, stand for the same map. */
  lemma FilesByEntry(m: Mem, d: Disk, i: nat)
    requires GoodDir(m.dir, m.nfiles, m.total) && m.total <= |d| && i < m.nfiles
    ensures CStr(m.dir[i].name) in Files(m, d)
    ensures Files(m, d)[CStr(m.dir[i].name)] == FileBytes(d, m.dir[i])
  {
    FindNamed(m, i);
  }

  lemma BytesDependOnExtent(d: Disk, d': Disk, e: Dirent, total: nat)
    requires GoodEntry(e, total) && total <= |d| && |d'| == |d|
    requires forall b :: e.start <= b < e.start + NBlocks(e.size) ==> d'[b] == d[b]
    ensures FileBytes(d', e) == FileBytes(d, e)
  {
  }

  // ---- transactions ----

  datatype Txn = Txn(dsts: seq<u32>, blocks: seq<Block>, after: Mem)

  ghost predicate GoodTxn(t: Txn, d: Disk) { |t.dsts| == |t.blocks| && SafeDsts(d, t.dsts) }

  function Commit(d: Disk, t: Txn): (r: Disk)
    requires |t.dsts| == |t.blocks| <= LOGN
    ensures |r| == |d|
  {
    ApplyAll(d, TxnWrites(t.dsts, t.blocks))
  }

  /** Directory and superblock images that end every transaction. */
  function MetaDsts(): seq<u32> { [DIRBLOCK, 0] }

  function SuperOf(m: Mem): Block
    requires 0 <= m.nfiles <= MAXFILES && m.total <= MAXBLK
  {
    EncodeSuper(Superblock(FS_MAGIC, m.nfiles, m.nextFree, m.total))
  }

  function MetaBlocks(m: Mem): seq<Block>
    requires 0 <= m.nfiles <= MAXFILES && m.total <= MAXBLK
  {
    [EncodeDir(m.dir), SuperOf(m)]
  }

  // ---- creating ----

  predicate Fits(used: seq<bool>, nb: nat, s: nat)
    requires s + nb <= |used|
  {
    forall b :: s <= b < s + nb ==> !used[b]
  }

  /** The first s' >= s where nb free blocks fit below total, or -1. */
  function FirstFit(used: seq<bool>, total: nat, nb: nat, s: nat): (r: int)
    requires total <= |used|
    ensures r == -1 || (s <= r && r + nb <= total && Fits(used, nb, r))
    ensures forall t :: s <= t && t + nb <= total && (r == -1 || t < r) ==> !Fits(used, nb, t)
    decreases total - s
  {
    if s + nb > total then -1
    else if Fits(used, nb, s) then s
    else FirstFit(used, total, nb, s + 1)
  }

  /** balloc_contig: an empty file takes no block and is placed at DATASTART. */
  function Alloc(m: Mem, nb: nat): int
    requires m.total <= |m.used|
  {
    if nb == 0 then DATASTART else FirstFit(m.used, m.total, nb, DATASTART)
  }

  function BlocksFor(size: nat): nat { (size + 511) / 512 }

  /** Where fs_create puts the file, or -1 when it refuses. */
  function CreateAt(m: Mem, name: seq<byte>, size: int): int
    requires 0 <= m.nfiles <= MAXFILES && m.total <= |m.used|
  {
    if m.nfiles >= MAXFILES || size < 0 then -1
    else if Find(m, name) < m.nfiles then -1
    else if BlocksFor(size) + 2 > LOGN then -1
    else Alloc(m, BlocksFor(size))
  }

  /** The b-th block of a file's contents, zero padded. */
  function PaddedBlock(content: seq<byte>, b: nat): Block {
    seq(512, j requires 0 <= j < 512 => if b * 512 + j < |content| then content[b * 512 + j] else 0)
  }

  function DataBlocks(content: seq<byte>): seq<Block> {
    seq(BlocksFor(|content|), b requires 0 <= b => PaddedBlock(content, b))
  }

  function DataDsts(start: u32, nb: nat): seq<u32>
    requires start + nb <= U32
  {
    seq(nb, b requires 0 <= b < nb => start + b)
  }

  function MarkExtent(used: seq<bool>, start: nat, nb: nat): (u: seq<bool>)
    ensures |u| == |used|
  {
    seq(|used|, b requires 0 <= b < |used| => used[b] || start <= b < start + nb)
  }

  function CreateMem(m: Mem, name: seq<byte>, size: u32, start: u32): Mem
    requires 0 <= m.nfiles < MAXFILES && start + BlocksFor(size) <= MAXBLK
  {
    var nb := BlocksFor(size);
    var e := Dirent(NameInto(m.dir[m.nfiles].name, name), size, start);
    Mem(m.dir[m.nfiles := e], m.nfiles + 1,
        if start + nb > m.nextFree then start + nb else m.nextFree,
        m.total,
        MarkExtent(m.used, start, nb))
  }

  function CreateTxn(m: Mem, name: seq<byte>, content: seq<byte>, start: u32): (t: Txn)
    requires 0 <= m.nfiles < MAXFILES && m.total <= MAXBLK
    requires BlocksFor(|content|) + 2 <= LOGN && start + BlocksFor(|content|) <= MAXBLK
    ensures |t.dsts| == |t.blocks| == BlocksFor(|content|) + 2
  {
    var m' := CreateMem(m, name, |content|, start);
    Txn(DataDsts(start, BlocksFor(|content|)) + MetaDsts(), DataBlocks(content) + MetaBlocks(m'), m')
  }

  // ---- deleting ----

  function RemoveEntry(dir: Dir, nfiles: nat, idx: nat): Dir
    requires idx < nfiles <= MAXFILES
  {
    dir[..idx] + dir[idx + 1..nfiles] + [Dirent(ZeroName(), 0, 0)] + dir[nfiles..]
  }

  function FreeExtent(used: seq<bool>, e: Dirent): (u: seq<bool>)
    ensures |u| == |used|
  {
    seq(|used|, b requires 0 <= b < |used| => used[b] && !Owns(e, b))
  }

  function DeleteMem(m: Mem, idx: nat): Mem
    requires idx < m.nfiles <= MAXFILES
  {
    Mem(RemoveEntry(m.dir, m.nfiles, idx), m.nfiles - 1, m.nextFree, m.total,
        FreeExtent(m.used, m.dir[idx]))
  }

  function DeleteTxn(m: Mem, idx: nat): (t: Txn)
    requires idx < m.nfiles <= MAXFILES && m.total <= MAXBLK
    ensures |t.dsts| == |t.blocks| == 2
  {
    Txn(MetaDsts(), MetaBlocks(DeleteMem(m, idx)), DeleteMem(m, idx))
  }
}
