/**
  The image builder of tools/mkfs.c, and the proof that what it writes mounts: no replay,
  disjoint extents, a correct bitmap, and every input file byte for byte.
 */
module MkFs {
  import opened FsFormat
  import opened Journal
  import opened FsModel
  import opened FsRefinement
  import opened FsCrash

  datatype Input = Input(name: seq<byte>, content: seq<byte>)

  const MINBLOCKS: nat := 256

  // ---- placement ----

  /** All data blocks of the files in order, each file padded to whole blocks. */
  function AllData(files: seq<Input>): seq<Block> {
    if files == [] then [] else AllData(files[..|files| - 1]) + DataBlocks(files[|files| - 1].content)
  }

  /** The block where file i starts: right after the files before it. */
  function StartOf(files: seq<Input>, i: nat): nat
    requires i <= |files|
  {
    DATASTART + |AllData(files[..i])|
  }

  /** Input the image format can describe: at most eight C names, sizes and block numbers of 32 bits. */
  predicate Writable(files: seq<Input>) {
    && |files| <= MAXFILES && StartOf(files, |files|) < U32
    && forall i :: 0 <= i < |files| ==> 0 !in files[i].name && |files[i].content| < U32
  }

  /** Input that the kernel's bitmap can cover as well. */
  predicate Fitting(files: seq<Input>) { Writable(files) && StartOf(files, |files|) <= MAXBLK }

  function TotalOf(files: seq<Input>): nat {
    if StartOf(files, |files|) > MINBLOCKS then StartOf(files, |files|) else MINBLOCKS
  }

  lemma StartStep(files: seq<Input>, i: nat)
    requires i < |files|
    ensures StartOf(files, i + 1) == StartOf(files, i) + BlocksFor(|files[i].content|)
    ensures AllData(files[..i + 1]) == AllData(files[..i]) + DataBlocks(files[i].content)
  {
    assert files[..i + 1][..i] == files[..i];
  }

  lemma {:induction false} StartMonotone(files: seq<Input>, i: nat, j: nat)
    requires i <= j <= |files|
    ensures StartOf(files, i) <= StartOf(files, j)
    decreases j - i
  {
    if i < j {
      StartStep(files, i);
      StartMonotone(files, i + 1, j);
    }
  }

  /** Each file lies behind the one before it, all of them below the end of the image. */
  lemma Follows(files: seq<Input>, i: nat)
    requires Writable(files) && i < |files|
    ensures |files[i].content| < U32 && StartOf(files, i) < U32
    ensures StartOf(files, i) + BlocksFor(|files[i].content|)
            == StartOf(files, i + 1) <= StartOf(files, |files|) <= TotalOf(files) < U32
  {
    StartStep(files, i);
    StartMonotone(files, i + 1, |files|);
  }

  lemma FileFits(files: seq<Input>, i: nat)
    requires Fitting(files) && i < |files|
    ensures var n := |files[i].content|;
            && n <= MAXBLK * BSIZE && NBlocks(n) == BlocksFor(n)
            && StartOf(files, i) + BlocksFor(n) == StartOf(files, i + 1) <= TotalOf(files) <= MAXBLK
  {
    StartStep(files, i);
    StartMonotone(files, i + 1, |files|);
  }

  // ---- the directory and the image ----

  function EntryOf(files: seq<Input>, i: nat): Dirent
    requires Writable(files) && i < |files|
  {
    Follows(files, i);
    Dirent(NameInto(ZeroName(), files[i].name), |files[i].content|, StartOf(files, i))
  }

  /** The directory after the first n files have been placed. */
  function DirOf(files: seq<Input>, n: nat): Dir
    requires n <= |files| && Writable(files)
  {
    seq(8, i requires 0 <= i < 8 =>
      if i < n then EntryOf(files, i) else Dirent(ZeroName(), 0, 0))
  }

  function SuperFor(files: seq<Input>): Superblock
    requires Writable(files)
  {
    Superblock(FS_MAGIC, |files|, StartOf(files, |files|), TotalOf(files))
  }

  function Zeros(n: nat): (r: seq<Block>)
    ensures |r| == n
  {
    seq(n, i => ZeroBlock())
  }

  function Image(files: seq<Input>): (d: Disk)
    requires Writable(files)
    ensures |d| == TotalOf(files)
  {
    assert files[..|files|] == files;
    [EncodeSuper(SuperFor(files)), EncodeDir(DirOf(files, |files|))] + Zeros(1 + LOGN) + AllData(files)
      + Zeros(TotalOf(files) - StartOf(files, |files|))
  }

  /** mkfs.c main: places the files, then writes superblock, directory, empty log, data and padding in order. */
  method MakeImage(files: seq<Input>) returns (ok: bool, image: seq<Block>)
    requires |files| > MAXFILES || Writable(files)
    ensures ok <==> 1 <= |files| <= 8
    ensures ok ==> image == Image(files)
  {
    ok, image := false, [];
    var n := |files|;
    if n < 1 || n > MAXFILES {
      return;
    }
    var dir: Dir := seq(8, i => Dirent(ZeroName(), 0, 0));
    var cur := DATASTART;
    for i := 0 to n
      invariant cur == StartOf(files, i) && dir == DirOf(files, i)
    {
      Follows(files, i);
      dir := dir[i := Dirent(NameInto(dir[i].name, files[i].name), |files[i].content|, cur)];
      cur := cur + (|files[i].content| + BSIZE - 1) / BSIZE;
    }
    var total := MINBLOCKS;
    if cur > total {
      total := cur;
    }
    StartMonotone(files, 0, n);
    image := [EncodeSuper(Superblock(FS_MAGIC, n, cur, total)), EncodeDir(dir)];
    image := image + [ZeroBlock()];
    for b := 0 to LOGN
      invariant image == [EncodeSuper(SuperFor(files)), EncodeDir(DirOf(files, n))] + Zeros(1 + b)
    {
      assert Zeros(1 + b) + [ZeroBlock()] == Zeros(2 + b);
      image := image + [ZeroBlock()];
    }
    ghost var head := image;
    for i := 0 to n
      invariant image == head + AllData(files[..i])
    {
      StartStep(files, i);
      image := AppendFile(image, files[i].content);
      AppendAssoc(head, AllData(files[..i]), DataBlocks(files[i].content));
    }
    assert files[..n] == files;
    ghost var body := image;
    for b := cur to total
      invariant image == body + Zeros(b - cur)
    {
      assert Zeros(b - cur) + [ZeroBlock()] == Zeros(b - cur + 1);
      AppendAssoc(body, Zeros(b - cur), [ZeroBlock()]);
      image := image + [ZeroBlock()];
    }
    ok := true;
  }

  /** The write loop for one file: padded blocks until every byte is out. */
  method AppendFile(image: seq<Block>, content: seq<byte>) returns (r: seq<Block>)
    ensures r == image + DataBlocks(content)
  {
    r := image;
    var written, b := 0, 0;
    while written < |content|
      invariant 0 <= written <= |content| && b <= BlocksFor(|content|)
      invariant written < |content| ==> written == b * 512
      invariant written == |content| ==> b == BlocksFor(|content|)
      invariant r == image + DataBlocks(content)[..b]
    {
      var n := |content| - written;
      if n > BSIZE {
        n := BSIZE;
      }
      var blk := PadTo(content[written..written + n]);
      assert blk == PaddedBlock(content, b);
      r := r + [blk];
      written := written + n;
      b := b + 1;
    }
  }

  function PadTo(s: seq<byte>): Block
    requires |s| <= 512
  {
    s + seq(512 - |s|, i => 0)
  }

  // ---- the image mounts ----

  function MountedMem(files: seq<Input>): Mem
    requires Fitting(files)
  {
    var dir := DirOf(files, |files|);
    Mem(dir, |files|, StartOf(files, |files|), TotalOf(files), Bitmap(dir, |files|))
  }

  predicate DistinctStored(files: seq<Input>) {
    forall i, j :: 0 <= i < j < |files| ==> Stored(files[i].name) != Stored(files[j].name)
  }

  lemma EntryAt(files: seq<Input>, i: nat)
    requires Fitting(files) && i < |files|
    ensures var e := DirOf(files, |files|)[i];
            && CStr(e.name) == Stored(files[i].name) && e.size == |files[i].content|
            && e.start == StartOf(files, i) && e.start + NBlocks(e.size) == StartOf(files, i + 1)
            && GoodEntry(e, TotalOf(files))
  {
    FileFits(files, i);
    Follows(files, i);
    var t := Stored(files[i].name);
    CStrOf(t, ZeroName()[|t| + 1..]);
  }

  /** The directory is well formed exactly when no two files are stored under the same name. */
  lemma DirGoodIffDistinct(files: seq<Input>)
    requires Fitting(files)
    ensures GoodDir(DirOf(files, |files|), |files|, TotalOf(files)) <==> DistinctStored(files)
  {
    var dir := DirOf(files, |files|);
    forall i | 0 <= i < |files| ensures GoodEntry(dir[i], TotalOf(files))
      && CStr(dir[i].name) == Stored(files[i].name) {
      EntryAt(files, i);
    }
    forall i, j | 0 <= i < j < |files| ensures Apart(dir[i], dir[j]) {
      EntryAt(files, i);
      EntryAt(files, j);
      StartMonotone(files, i + 1, j);
    }
    if GoodDir(dir, |files|, TotalOf(files)) {
      forall i, j | 0 <= i < j < |files| ensures Stored(files[i].name) != Stored(files[j].name) {
        assert CStr(dir[i].name) != CStr(dir[j].name);
      }
    }
  }

  lemma ImageHeader(files: seq<Input>)
    requires Writable(files)
    ensures var d := Image(files);
            d[0] == EncodeSuper(SuperFor(files)) && d[DIRBLOCK] == EncodeDir(DirOf(files, |files|))
              && d[LOGHDR] == ZeroBlock()
  {
  }

  lemma {:induction false} DataAt(files: seq<Input>, n: nat, i: nat, b: nat)
    requires i < n <= |files| && b < BlocksFor(|files[i].content|)
    ensures StartOf(files, i) - DATASTART + b < |AllData(files[..n])|
    ensures AllData(files[..n])[StartOf(files, i) - DATASTART + b] == PaddedBlock(files[i].content, b)
    decreases n
  {
    StartStep(files, n - 1);
    if i < n - 1 {
      DataAt(files, n - 1, i, b);
    }
  }

  lemma ImageData(files: seq<Input>, i: nat, b: nat)
    requires Writable(files) && i < |files| && b < BlocksFor(|files[i].content|)
    ensures StartOf(files, i) + b < TotalOf(files)
    ensures Image(files)[StartOf(files, i) + b] == PaddedBlock(files[i].content, b)
  {
    DataAt(files, |files|, i, b);
    assert files[..|files|] == files;
    Follows(files, i);
  }

  lemma ImageFile(files: seq<Input>, i: nat)
    requires Fitting(files) && i < |files|
    ensures var e := DirOf(files, |files|)[i];
            && e.size <= MAXBLK * BSIZE && e.start + NBlocks(e.size) <= |Image(files)|
            && FileBytes(Image(files), e) == files[i].content
  {
    EntryAt(files, i);
    var e := DirOf(files, |files|)[i];
    forall b | e.start <= b < e.start + NBlocks(e.size)
      ensures Image(files)[b] == PaddedBlock(files[i].content, b - e.start)
    {
      FileFits(files, i);
      ImageData(files, i, b - e.start);
    }
    PaddedRoundTrip(Image(files), e, files[i].content);
  }

  /** The image mounts with nothing to replay and memory agreeing with disk. */
  lemma ImageMounts(files: seq<Input>)
    requires Fitting(files) && DistinctStored(files)
    ensures var m, d := MountedMem(files), Image(files);
            RecoverWrites(d) == [] && Mount(d) == Mounted(m, d) && Consistent(m, d)
  {
    ImageConsistent(files);
    MountIsIdentity(MountedMem(files), Image(files));
  }

  lemma {:induction false} LastFile(files: seq<Input>, n: nat) returns (i: nat)
    requires n <= |files| && StartOf(files, n) > DATASTART
    ensures i < n && StartOf(files, i + 1) == StartOf(files, n) && BlocksFor(|files[i].content|) > 0
  {
    assert StartOf(files, 0) == DATASTART;
    StartStep(files, n - 1);
    if BlocksFor(|files[n - 1].content|) > 0 { i := n - 1; } else { i := LastFile(files, n - 1); }
  }

  /** What mounting reads from the image's superblock and directory, however long the image is. */
  lemma ImageReads(files: seq<Input>)
    requires Writable(files)
    ensures var m := MemOf(Image(files));
            m.dir == DirOf(files, |files|) && m.nfiles == |files| && m.total == NormTotal(TotalOf(files))
  {
    hide DirOf, Image, StartOf, TotalOf;
    ImageHeader(files);
    DirRoundTrip(DirOf(files, |files|));
    SuperRoundTrip(SuperFor(files));
  }

  /** The file that reaches the end of an image too long for the bitmap lies outside the blocks the kernel counts. */
  lemma LongImageBad(files: seq<Input>, i: nat)
    requires Writable(files) && i < |files| && StartOf(files, i + 1) == StartOf(files, |files|) > MAXBLK
             && BlocksFor(|files[i].content|) > 0
    ensures !GoodEntry(DirOf(files, |files|)[i], NormTotal(TotalOf(files)))
  {
    Follows(files, i);
  }

  lemma SmallTotal(files: seq<Input>)
    requires Fitting(files)
    ensures NormTotal(TotalOf(files)) == TotalOf(files)
  {
  }

  /**
    The kernel mounts the image with memory agreeing with disk if and only if the stored names
    differ and the data fits in its bitmap.
   */
  lemma ImageMountsIff(files: seq<Input>)
    requires Writable(files)
    ensures Consistent(MemOf(Image(files)), Image(files)) <==> DistinctStored(files) && Fitting(files)
  {
    hide DistinctStored, DirOf, Image, StartOf, TotalOf, MemOf, Bitmap, LogIdle;
    ImageReads(files);
    if Fitting(files) {
      DirGoodIffDistinct(files);
      assert NormTotal(TotalOf(files)) == TotalOf(files) by { SmallTotal(files); }
      if DistinctStored(files) {
        ImageMounts(files);
        assert MountedMem(files) == MemOf(Image(files));
      }
    } else {
      var i := LastFile(files, |files|);
      LongImageBad(files, i);
    }
  }

  /** Two input files of one name: the image is written, and what the kernel mounts is not consistent. */
  lemma SameNameBad()
    ensures var files := [Input([97], []), Input([97], [])];
            Writable(files) && !Consistent(MemOf(Image(files)), Image(files))
  {
    var files := [Input([97], []), Input([97], [])];
    assert files[..1] == [files[0]] && files[..2] == files;
    StartStep(files, 0);
    StartStep(files, 1);
    assert StartOf(files, 2) == DATASTART;
    assert Stored(files[0].name) == Stored(files[1].name);
    hide StartOf, Image, Consistent, MemOf, Stored;
    ImageMountsIff(files);
  }

  /** A file that ends past block 8192: again the image is written, and what the kernel mounts is not consistent. */
  lemma TooLongBad()
    ensures var files := [Input([97], seq(0x40_0000, i => 0))];
            Writable(files) && !Consistent(MemOf(Image(files)), Image(files))
  {
    var files := [Input([97], seq(0x40_0000, i => 0))];
    StartStep(files, 0);
    assert StartOf(files, 1) == DATASTART + 8192;
    hide StartOf, Image, Consistent, MemOf;
    ImageMountsIff(files);
  }

  /** Once mounted, input file i is there under its stored name, byte for byte. */
  lemma ImageHolds(files: seq<Input>, i: nat)
    requires Fitting(files) && DistinctStored(files) && i < |files|
    ensures var m, d := MountedMem(files), Image(files);
            && GoodDir(m.dir, m.nfiles, m.total)
            && Stored(files[i].name) in Files(m, d) && Files(m, d)[Stored(files[i].name)] == files[i].content
  {
    DirGoodIffDistinct(files);
    EntryAt(files, i);
    ImageFile(files, i);
    FilesByEntry(MountedMem(files), Image(files), i);
  }

  /** And nothing else is there. */
  lemma ImageNames(files: seq<Input>)
    requires Fitting(files)
    ensures Names(MountedMem(files)) == set i | 0 <= i < |files| :: Stored(files[i].name)
  {
    var m := MountedMem(files);
    forall i | 0 <= i < |files| ensures CStr(m.dir[i].name) == Stored(files[i].name) {
      EntryAt(files, i);
    }
  }

  /** From a disk that mkfs wrote, every run of the file system refines a map that starts with the input files. */
  lemma FreshDiskRuns(files: seq<Input>, es: seq<Event>)
    requires Fitting(files) && DistinctStored(files)
    ensures var m, d := MountedMem(files), Image(files);
            && Consistent(m, d)
            && ((forall i :: 0 <= i < |es| ==> ShortNamed(es[i])) ==> GoodRun(m, d, es))
            && (GoodRun(m, d, es) ==>
                  match Run(m, d, es)
                  case NotMounted => false
                  case Mounted(m', d') =>
                    Consistent(m', d') && Files(m', d') == MapRun(Files(m, d), es, RunTook(m, d, es)))
  {
    ImageConsistent(files);
    var m, d := MountedMem(files), Image(files);
    hide Consistent, MountedMem, Image, ShortNamed;
    if forall i :: 0 <= i < |es| ==> ShortNamed(es[i]) { ShortRunGood(m, d, es); }
    if GoodRun(m, d, es) { RunRefinesMap(m, d, es); }
  }

  lemma ImageConsistent(files: seq<Input>)
    requires Fitting(files) && DistinctStored(files)
    ensures Consistent(MountedMem(files), Image(files))
  {
    DirGoodIffDistinct(files);
    ImageHeader(files);
    ImagesMakeConsistent(MountedMem(files), Image(files));
  }
}
