/**
  Memory and file system together: processes take the steps of module CowRuns while the
  disk takes those of FsCrash, and a fault on a mapped page loads what the disk holds then.
  Every load from the mapping returns the words of the file.
 */
module MmapRuns {
  import opened FsFormat
  import opened Journal
  import opened FsModel
  import FsCrash
  import FsPages
  import FsMmap
  import opened Kalloc
  import opened Images
  import Cow
  import CowSafety
  import CowRefine
  import CowRuns

  // ---- bytes and words ----

  /** The bytes s as one little-endian number. */
  function Le(s: seq<byte>): nat { if s == [] then 0 else s[0] + 256 * Le(s[1..]) }

  function Digit(n: nat, k: nat): nat { if k == 0 then n % 256 else Digit(n / 256, k - 1) }

  lemma {:induction false} DigitOf(s: seq<byte>, k: nat)
    requires k < |s|
    ensures Digit(Le(s), k) == s[k]
    decreases k
  {
    if k > 0 { DigitOf(s[1..], k - 1); }
  }

  /** A page of bytes as the 512 words that user loads see. */
  function WordsOf(page: seq<byte>): (f: Frame)
    requires |page| == FsPages.PGSIZE
    ensures |f| == PAGE_WORDS
  {
    seq(PAGE_WORDS, i requires 0 <= i < PAGE_WORDS => Le(page[8 * i..8 * i + 8]))
  }

  function BytesOf(f: Frame): (b: seq<nat>)
    requires |f| == PAGE_WORDS
    ensures |b| == FsPages.PGSIZE
  {
    seq(FsPages.PGSIZE, j requires 0 <= j < FsPages.PGSIZE => Digit(f[j / 8], j % 8))
  }

  /** Nothing is lost: the words give the bytes back. */
  lemma WordsRoundTrip(page: seq<byte>)
    requires |page| == FsPages.PGSIZE
    ensures BytesOf(WordsOf(page)) == page
  {
    forall j | 0 <= j < FsPages.PGSIZE ensures BytesOf(WordsOf(page))[j] == page[j] {
      var i, k := j / 8, j % 8;
      assert 8 * i + k == j;
      DigitOf(page[8 * i..8 * i + 8], k);
    }
  }

  lemma LeEight(s: seq<byte>)
    requires |s| == 8
    ensures Le(s) == s[0] + 256 * (s[1] + 256 * (s[2] + 256 * (s[3]
                     + 256 * (s[4] + 256 * (s[5] + 256 * (s[6] + 256 * (s[7] as int)))))))
  {
    hide Le;
    LeAt(s, 0);
    LeAt(s, 1);
    LeAt(s, 2);
    LeAt(s, 3);
    LeAt(s, 4);
    LeAt(s, 5);
    LeAt(s, 6);
    LeAt(s, 7);
    LeNone();
    assert s[0..] == s && s[8..] == [];
  }

  lemma LeNone()
    ensures Le([]) == 0
  {
  }

  lemma LeAt(s: seq<byte>, i: nat)
    requires i < |s|
    ensures Le(s[i..]) == s[i] + 256 * Le(s[i + 1..])
  {
    assert s[i..][1..] == s[i + 1..];
  }

  /** Word i of a page is its bytes 8 * i to 8 * i + 7, the lowest first. */
  lemma WordBytes(p: seq<byte>, i: nat)
    requires |p| == 4096 && i < 512
    ensures WordsOf(p)[i] == p[8 * i] + 256 * (p[8 * i + 1] + 256 * (p[8 * i + 2] + 256 * (p[8 * i + 3]
                             + 256 * (p[8 * i + 4] + 256 * (p[8 * i + 5] + 256 * (p[8 * i + 6]
                             + 256 * (p[8 * i + 7] as int)))))))
  {
    LeEight(p[8 * i..8 * i + 8]);
  }

  // ---- joint runs ----

  datatype World = World(k: Cow.Kernel, m: Mem, d: Disk)

  datatype Step = Act(a: CowRuns.Act, e: CowRuns.Effect) | Fs(ev: FsCrash.Event)

  /** What fs_read_page gives for page v of the mapping, from the block and size that mmap recorded. */
  function FilePage(d: Disk, e: Dirent, v: nat): Frame
    requires FsPages.GoodExtent(d, e.start, e.size) && v >= MMAP_VPN
  {
    WordsOf(FsPages.PageOf(d, e.start, e.size, (v - MMAP_VPN) * FsPages.PGSIZE))
  }

  /** The contents of a fault in the mapping of file e are what the disk holds. */
  ghost predicate FromDisk(d: Disk, e: Dirent, v: nat, contents: Frame) {
    v >= MMAP_VPN && FsPages.GoodExtent(d, e.start, e.size) ==> contents == FilePage(d, e, v)
  }

  predicate Accesses(a: CowRuns.Act, j: nat) { a.i == j && (a.Load? || a.Store?) }

  /** One step, in which process j keeps its mapping of file e and nobody deletes the file. */
  ghost predicate Next(w: World, s: Step, w': World, j: nat, e: Dirent) {
    match s
    case Act(a, eff) =>
      && w'.m == w.m && w'.d == w.d && CowRuns.Follows(w.k, a, eff, w'.k) && !CowRuns.Unmaps(a, eff, j)
      && (Accesses(a, j) ==> FromDisk(w.d, e, a.v, a.contents))
    case Fs(ev) =>
      && w'.k == w.k && Consistent(w.m, w.d) && FsCrash.GoodEvent(w.m, ev) && !FsMmap.Removes(ev, CStr(e.name))
      && FsCrash.Apply(w.m, w.d, ev) == Mounted(w'.m, w'.d)
  }

  ghost predicate Run(ws: seq<World>, ss: seq<Step>, j: nat, e: Dirent) {
    |ws| == |ss| + 1 && forall n :: 0 <= n < |ss| ==> Next(ws[n], ss[n], ws[n + 1], j, e)
  }

  /** A mapping of the file whose loaded pages are slices of these bytes. */
  ghost predicate Shows(f: CowRefine.Flat, e: Dirent, bytes: seq<byte>) {
    && f.Flat? && f.file == MapOf(e.size)
    && forall v :: v in f.pages ==> v >= MMAP_VPN && f.pages[v] == WordsOf(FsMmap.PageSlice(bytes, v - MMAP_VPN))
  }

  /** Process j maps file e, the disk gives it these bytes, and so do the loaded pages. */
  ghost predicate Good(w: World, j: nat, e: Dirent, bytes: seq<byte>) {
    && Cow.Inv(w.k) && j < |w.k.procs| && Shows(CowRefine.AbsOf(w.k, j), e, bytes)
    && FsMmap.Agrees(FsMmap.View(w.m, w.d, map[]), e, bytes)
  }

  /** So it is when proc_mmap returns. */
  lemma MmapStarts(w: World, j: nat, e: Dirent)
    requires Cow.Inv(w.k) && Cow.Live(w.k, j) && Runs(w.k.procs[j]) && w.k.procs[j].mapped.NoMap?
    requires Consistent(w.m, w.d) && FsMmap.HasEntry(w.m, e)
    ensures FsPages.GoodExtent(w.d, e.start, e.size) && e.size <= MAX_MMAP
    ensures Good(w.(k := Cow.Mmap(w.k, j, e.size)), j, e, FileBytes(w.d, e))
  {
    hide Cow.Inv, Shows, CowRefine.AbsOf, Cow.Mmap, FsMmap.Agrees, FileBytes, Consistent, FsMmap.HasEntry, Runs;
    FileStarts(w.m, w.d, e);
    MapStarts(w.k, j, e, FileBytes(w.d, e));
  }

  lemma FileStarts(m: Mem, d: Disk, e: Dirent)
    requires Consistent(m, d) && FsMmap.HasEntry(m, e)
    ensures FsPages.GoodExtent(d, e.start, e.size) && e.size <= MAX_MMAP
    ensures FsMmap.Agrees(FsMmap.View(m, d, map[]), e, FileBytes(d, e))
  {
    hide Consistent, FsMmap.HasEntry, Files, FileBytes, CStr;
    FsMmap.EntryGivesBytes(m, d, e);
  }

  lemma MapStarts(k: Cow.Kernel, j: nat, e: Dirent, bytes: seq<byte>)
    requires Cow.Inv(k) && Cow.Live(k, j) && Runs(k.procs[j]) && k.procs[j].mapped.NoMap? && e.size <= MAX_MMAP
    ensures var k' := Cow.Mmap(k, j, e.size);
            Cow.Inv(k') && j < |k'.procs| && Shows(CowRefine.AbsOf(k', j), e, bytes)
  {
    hide Cow.Inv, CowRefine.AbsOf, Cow.Mmap, Runs, WordsOf, FsMmap.PageSlice;
    CowRefine.MmapAbs(k, j, e.size);
    NoPages(k, j);
    CowRefine.AbsAt(k, Cow.Mmap(k, j, e.size), j, CowRefine.WithFile(CowRefine.AbsOf(k, j), e.size));
  }

  lemma NoPages(k: Cow.Kernel, j: nat)
    requires Cow.Live(k, j) && Runs(k.procs[j]) && k.procs[j].mapped.NoMap?
    ensures CowRefine.AbsOf(k, j).Flat? && CowRefine.AbsOf(k, j).pages == map[]
  {
    assert CowRefine.FileFrames(k, k.procs[j]) == map[];
  }

  /** A handled fault adds the slice of the file. */
  lemma FaultShows(f: CowRefine.Flat, d: Disk, e: Dirent, bytes: seq<byte>, v: nat, contents: Frame, handled: bool)
    requires Shows(f, e, bytes) && FromDisk(d, e, v, contents)
    requires FsPages.GoodExtent(d, e.start, e.size) && FileBytes(d, e) == bytes
    ensures Shows(CowRefine.Faulted(f, v, contents, handled), e, bytes)
  {
    if CowRefine.InFile(f, v) { FsMmap.PageIsSlice(d, e, v - MMAP_VPN); }
    hide WordsOf, FsMmap.PageSlice, FileBytes;
  }

  lemma AgreesDisk(w: World, j: nat, e: Dirent, bytes: seq<byte>)
    requires Good(w, j, e, bytes)
    ensures FsPages.GoodExtent(w.d, e.start, e.size) && FileBytes(w.d, e) == bytes
  {
    hide Cow.Inv, Shows, CowRefine.AbsOf, Consistent, FsMmap.HasEntry, Files, FsPages.GoodExtent;
    FsMmap.EntryGivesBytes(w.m, w.d, e);
  }

  /** An eager step that does not take the mapping away. */
  lemma EagerShows(fs: seq<CowRefine.Flat>, a: CowRuns.Act, eff: CowRuns.Effect, j: nat, d: Disk, e: Dirent,
                   bytes: seq<byte>)
    requires j < |fs| && Shows(fs[j], e, bytes) && !CowRuns.Unmaps(a, eff, j)
    requires (a.Spawn? ==> a.c != j) && !(a.MapFile? && a.i == j)
    requires Accesses(a, j) ==> FromDisk(d, e, a.v, a.contents)
    requires FsPages.GoodExtent(d, e.start, e.size) && FileBytes(d, e) == bytes
    ensures |CowRuns.EagerStep(fs, a, eff)| == |fs| && Shows(CowRuns.EagerStep(fs, a, eff)[j], e, bytes)
  {
    hide FromDisk, FsPages.GoodExtent, FileBytes, WordsOf, CowRefine.Faulted;
    if Accesses(a, j) { FaultShows(fs[j], d, e, bytes, a.v, a.contents, eff.faulted); }
  }

  lemma ActGood(w: World, a: CowRuns.Act, eff: CowRuns.Effect, w': World, j: nat, e: Dirent, bytes: seq<byte>)
    requires Good(w, j, e, bytes) && Next(w, Act(a, eff), w', j, e)
    ensures Good(w', j, e, bytes)
  {
    hide Cow.Inv, Shows, CowRefine.AbsOf, FsMmap.Agrees, FromDisk, CowRuns.Enabled, CowRuns.Step, CowRuns.EagerStep,
         FileBytes, FsPages.GoodExtent;
    AgreesDisk(w, j, e, bytes);
    CowRuns.StepRefines(w.k, a);
    Untouched(w.k, a, j, e, bytes);
    var fs := CowRefine.Abs(w.k);
    assert fs[j] == CowRefine.AbsOf(w.k, j);
    EagerShows(fs, a, eff, j, w.d, e, bytes);
    assert |CowRefine.Abs(w'.k)| == |w'.k.procs| && CowRefine.Abs(w'.k)[j] == CowRefine.AbsOf(w'.k, j);
  }

  /** A process with a mapping is neither a fork's new slot nor able to map again. */
  lemma Untouched(k: Cow.Kernel, a: CowRuns.Act, j: nat, e: Dirent, bytes: seq<byte>)
    requires CowRuns.Enabled(k, a) && j < |k.procs| && Shows(CowRefine.AbsOf(k, j), e, bytes)
    ensures (a.Spawn? ==> a.c != j) && !(a.MapFile? && a.i == j)
  {
    hide WordsOf, FsMmap.PageSlice;
  }

  lemma DiskGood(w: World, ev: FsCrash.Event, w': World, j: nat, e: Dirent, bytes: seq<byte>)
    requires Good(w, j, e, bytes) && Next(w, Fs(ev), w', j, e)
    ensures Good(w', j, e, bytes)
  {
    hide Cow.Inv, Shows, CowRefine.AbsOf, FsCrash.Apply, FsMmap.HasEntry, Files, CStr;
    FsMmap.FsAgrees(FsMmap.View(w.m, w.d, map[]), e, bytes, ev);
  }

  lemma {:induction false} RunGood(ws: seq<World>, ss: seq<Step>, j: nat, e: Dirent, bytes: seq<byte>, n: nat)
    requires Run(ws, ss, j, e) && Good(ws[0], j, e, bytes) && n <= |ss|
    ensures Good(ws[n], j, e, bytes)
  {
    hide Next, Good;
    if n > 0 {
      RunGood(ws, ss, j, e, bytes, n - 1);
      assert Next(ws[n - 1], ss[n - 1], ws[n - 1 + 1], j, e);
      match ss[n - 1]
      case Act(a, eff) => ActGood(ws[n - 1], a, eff, ws[n], j, e, bytes);
      case Fs(ev) => DiskGood(ws[n - 1], ev, ws[n], j, e, bytes);
    }
  }

  /** Heap pages lie below the mapping. */
  lemma HeapBelow(k: Cow.Kernel, j: nat, v: nat)
    requires Cow.Inv(k) && j < |k.procs| && CowRefine.AbsOf(k, j).Flat? && v in CowRefine.AbsOf(k, j).heap
    ensures v < MMAP_VPN
  {
    CowSafety.InvImage(k, j);
    CowSafety.Layout(k.procs[j], v);
  }

  /** If a load from page v goes through, it returns the words of the file. */
  ghost predicate LoadsFile(k: Cow.Kernel, j: nat, bytes: seq<byte>, v: nat, contents: Frame)
    requires v >= MMAP_VPN
  {
    && Cow.Live(k, j)
    && var l := CowRuns.LoadAccess(k, j, v, contents);
       l.access.done ==> l.frame == WordsOf(FsMmap.PageSlice(bytes, v - MMAP_VPN))
  }

  lemma LoadReadsFile(w: World, j: nat, e: Dirent, bytes: seq<byte>, v: nat, contents: Frame)
    requires Good(w, j, e, bytes) && v >= MMAP_VPN && FromDisk(w.d, e, v, contents)
    ensures LoadsFile(w.k, j, bytes, v, contents)
  {
    hide Cow.Inv, CowRefine.AbsOf, FsMmap.Agrees, FromDisk, CowRuns.LoadAccess, CowRefine.Faulted, FileBytes,
         FsPages.GoodExtent, WordsOf, FsMmap.PageSlice;
    MappedRuns(w.k, j);
    AgreesDisk(w, j, e, bytes);
    CowRuns.LoadAccessAbs(w.k, j, v, contents);
    var f, faulted := CowRefine.AbsOf(w.k, j), CowRuns.LoadAccess(w.k, j, v, contents).access.faulted;
    FaultShows(f, w.d, e, bytes, v, contents, faulted);
    FaultedHeap(f, v, contents, faulted);
    if v in f.heap { HeapBelow(w.k, j, v); }
  }

  lemma FaultedHeap(f: CowRefine.Flat, v: nat, contents: Frame, handled: bool)
    requires f.Flat?
    ensures CowRefine.Faulted(f, v, contents, handled).heap == f.heap
  {
  }

  lemma MappedRuns(k: Cow.Kernel, j: nat)
    requires j < |k.procs| && CowRefine.AbsOf(k, j).Flat?
    ensures Cow.Live(k, j) && Runs(k.procs[j])
  {
  }

  /** At any point of any joint run, what a load from the mapping returns is the file's page, byte for byte. */
  lemma MappedReadsFile(ws: seq<World>, ss: seq<Step>, j: nat, e: Dirent, bytes: seq<byte>, n: nat, v: nat,
                        contents: Frame)
    requires Run(ws, ss, j, e) && Good(ws[0], j, e, bytes) && n <= |ss|
    requires v >= MMAP_VPN && FromDisk(ws[n].d, e, v, contents)
    ensures LoadsFile(ws[n].k, j, bytes, v, contents)
  {
    assert |ws| == |ss| + 1;
    RunGood(ws, ss, j, e, bytes, n);
    hide *;
    LoadReadsFile(ws[n], j, e, bytes, v, contents);
  }
}
