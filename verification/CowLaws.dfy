/**
  What processes see, in plain numbers: which addresses belong to the heap and to a mapped
  file, what a store leaves for the next load, what fresh heap pages hold, and what a page
  fault writes into the table.
 */
module CowLaws {
  import opened Kalloc
  import opened Paging
  import opened Images
  import opened ProcTable
  import opened Cow
  import opened CowSafety
  import opened CowFork
  import opened CowRefine
  import opened CowRuns
  import opened CowBoot
  import ProcMem

  // ---- addresses ----

  /** The heap runs from 0x10000 to heap_top, a mapped file from 0x100000 over its size rounded up to pages. */
  lemma Regions(img: Image, v: nat)
    requires img.Image?
    ensures HeapVpn(img, v) <==> 0x10000 <= v * 4096 < img.heapTop
    ensures MmapVpn(img, v) <==>
              img.mapped.MapOf? && 0x100000 <= v * 4096 < 0x100000 + (img.mapped.size + 4095) / 4096 * 4096
  {
  }

  // ---- stores and loads ----

  /** The page a store changed, in the flat memory. */
  lemma StoredPage(f: Flat, v: nat, off: nat, val: nat)
    requires f.Flat? && (v == STACK_VPN || (v in f.heap && v >= HEAP_VPN))
    requires |FlatPage(f, v)| == 512 && off < 512
    ensures var g := CowRefine.Stored(f, v, off, val);
            && g.Flat? && InFlat(g, v) && FlatPage(g, v) == FlatPage(f, v)[off := val]
            && g.file == f.file && g.heap.Keys == f.heap.Keys
  {
  }

  /** A loaded page of stack or heap, from the flat memory alone. */
  lemma LoadIs(k: Kernel, i: nat, v: nat, contents: Frame)
    requires Inv(k) && Live(k, i) && Runs(k.procs[i]) && (v == STACK_VPN || HeapVpn(k.procs[i], v))
    ensures AbsOf(k, i).Flat? && (v == STACK_VPN || (v in AbsOf(k, i).heap && v >= HEAP_VPN))
    ensures LoadAccess(k, i, v, contents).access.done ==>
            LoadAccess(k, i, v, contents).frame == FlatPage(AbsOf(k, i), v)
  {
    InvImage(k, i);
    HeapIn(k, i, v);
    hide Inv, AbsOf, LoadAccess, GoodImage;
    LoadAccessAbs(k, i, v, contents);
  }

  lemma HeapIn(k: Kernel, i: nat, v: nat)
    requires Live(k, i) && Runs(k.procs[i]) && GoodImage(k.procs[i])
    ensures AbsOf(k, i).Flat? && (HeapVpn(k.procs[i], v) ==> v in AbsOf(k, i).heap && v >= HEAP_VPN)
    ensures v in AbsOf(k, i).heap ==> v > STACK_VPN
  {
    hide FrameAt, GoodImage;
  }

  /** A word stored is the word loaded next, and the rest of its page is as it was. */
  lemma StoreThenLoad(k: Kernel, i: nat, v: nat, off: nat, val: nat, contents: Frame, c1: Frame, c2: Frame)
    requires Inv(k) && Live(k, i) && Runs(k.procs[i]) && SizedFlat(AbsOf(k, i)) && off < 512
    requires |contents| == 512 && StoreAccess(k, i, v, off, val, contents).done
    ensures var k1 := StoreAccess(k, i, v, off, val, contents).k;
            && Live(k1, i) && LoadAccess(k1, i, v, c2).access.done && LoadAccess(k, i, v, c1).access.done
            && |LoadAccess(k1, i, v, c2).frame| == |LoadAccess(k, i, v, c1).frame| == 512
            && LoadAccess(k1, i, v, c2).frame == LoadAccess(k, i, v, c1).frame[off := val]
  {
    var o := StoreAccess(k, i, v, off, val, contents);
    StoreGoesThrough(k, i, v, off, val, contents);
    StoreAccessAbs(k, i, v, off, val, contents);
    var f := AbsOf(k, i);
    StoreLeaves(k, i, v, off, val, contents);
    hide Inv, AbsOf, StoreAccess, LoadAccess, CowRefine.Stored, SizedFlat, Runs;
    StoreReadies(k, i, v);
    LoadGoesThrough(k, i, v, c1);
    LoadIs(k, i, v, c1);
    PageSized(f, v);
    StoredPage(f, v, off, val);
    NoFileStore(k, i, v, contents);
    AbsAt(k, o.k, i, CowRefine.Stored(f, v, off, val));
    LoadGoesThrough(o.k, i, v, c2);
    LoadIs(o.k, i, v, c2);
  }

  /** What can be stored to can be loaded. */
  lemma StoreReadies(k: Kernel, i: nat, v: nat)
    requires Inv(k) && Live(k, i) && Runs(k.procs[i]) && CanStore(k, i, v)
    ensures CanLoad(k, i, v) && (v == STACK_VPN || HeapVpn(k.procs[i], v))
  {
    hide Inv, GoodImage, Runs;
    InvImage(k, i);
    if HeapVpn(k.procs[i], v) { HeapNode(k.procs[i], v); }
  }

  lemma PageSized(f: Flat, v: nat)
    requires f.Flat? && SizedFlat(f) && (v == STACK_VPN || (v in f.heap && v >= HEAP_VPN))
    ensures InFlat(f, v) && |FlatPage(f, v)| == 512
  {
  }

  /** A store outside the mapped file loads nothing of it. */
  lemma NoFileStore(k: Kernel, i: nat, v: nat, contents: Frame)
    requires Inv(k) && Live(k, i) && Runs(k.procs[i]) && (v == STACK_VPN || HeapVpn(k.procs[i], v))
    ensures AbsOf(k, i).Flat? && forall h: bool :: Faulted(AbsOf(k, i), v, contents, h) == AbsOf(k, i)
  {
    InvImage(k, i);
    AbsLive(k, i);
    HeapBound(k.procs[i]);
    hide Inv, GoodImage, AbsOf;
  }

  /** After a store the page is mapped, and stack and heap are where they were. */
  lemma StoreLeaves(k: Kernel, i: nat, v: nat, off: nat, val: nat, contents: Frame)
    requires Inv(k) && Live(k, i) && StoreAccess(k, i, v, off, val, contents).done
    ensures var k1 := StoreAccess(k, i, v, off, val, contents).k;
            && Live(k1, i) && v in k1.procs[i].t.ptes && k1.procs[i].heapTop == k.procs[i].heapTop
            && k1.procs[i].mapped == k.procs[i].mapped
  {
    FaultKeepsTop(k, i, v, contents);
    FaultKeepsMap(k, i, v, contents);
    hide Inv, PageFault, FrameAt;
  }

  lemma FaultKeepsMap(k: Kernel, i: nat, v: nat, contents: Frame)
    requires Live(k, i)
    ensures var f := PageFault(k, i, v, true, contents); Live(f.k, i) && f.k.procs[i].mapped == k.procs[i].mapped
  {
    hide MapPage, Freed, Taken, ZeroFrame;
  }

  // ---- sbrk, mmap, exec ----

  /** sbrk moves heap_top by n: old heap pages keep their words, new ones read as zeros. */
  lemma SbrkMeans(k: Kernel, i: nat, n: nat)
    requires Inv(k) && Live(k, i) && Runs(k.procs[i]) && n > 0 && k.procs[i].heapTop + n <= 0x100000
    ensures |Sbrk(k, i, n).procs| == |k.procs|
    ensures var f, g := AbsOf(k, i), AbsOf(Sbrk(k, i, n), i);
            && f.Flat? && g.Flat? && g.code == f.code && g.stack == f.stack && g.file == f.file && g.pages == f.pages
            && g.heapTop == f.heapTop + n
            && forall v: nat :: (v in g.heap <==> 0x10000 <= v * 4096 < g.heapTop)
                 && (v in g.heap && v in f.heap ==> g.heap[v] == f.heap[v])
                 && (v in g.heap && v !in f.heap ==> g.heap[v] == seq(512, j => 0))
  {
    hide Inv, AbsOf, Cow.Sbrk;
    SbrkAbs(k, i, n);
    AbsAt(k, Sbrk(k, i, n), i, GrownHeap(AbsOf(k, i), n));
    assert |Abs(Sbrk(k, i, n))| == |Sbrk(k, i, n).procs| && |Abs(k)| == |k.procs|;
    assert ZeroFrame() == seq(512, j => 0);
  }

  /** exec leaves the new code page, the stack page as it is, an empty heap at 0x10000 and no mapping. */
  lemma ExecMeans(k: Kernel, i: nat, contents: Frame)
    requires Inv(k) && Live(k, i) && Runs(k.procs[i]) && k.pool.free != []
    ensures AbsOf(k, i).Flat? && i < |Exec(k, i, true, contents).procs|
    ensures AbsOf(Exec(k, i, true, contents), i) == Flat(contents, AbsOf(k, i).stack, 0x10000, map[], NoMap, map[])
  {
    hide Inv, AbsOf, Exec;
    ExecAbs(k, i, contents);
    AbsAt(k, Exec(k, i, true, contents), i, Replaced(AbsOf(k, i), contents));
  }

  /** The first process: the loaded code page, a stack page as kalloc gave it, an empty heap at 0x10000, no mapping. */
  lemma MakeUserMeans(k: Kernel, c: nat, contents: Frame, junk: Frame)
    requires Inv(k) && c < |k.procs| && k.procs[c].NoImage? && |k.pool.free| >= 72
    ensures KERN_FIRST < k.etext < RAM_END
    ensures var r := MakeUser(k, c, contents, junk);
            && |r.procs| == |k.procs| && AbsOf(r, c) == Flat(contents, junk, 0x10000, map[], NoMap, map[])
            && forall j :: 0 <= j < |k.procs| && j != c ==> AbsOf(r, j) == AbsOf(k, j)
  {
    hide Inv, InvWith, MakeUser, NewTable, GoodImage, Held, FrameAt, AbsOf;
    MakeUserInv(k, c, contents, junk);
    var r := MakeUser(k, c, contents, junk);
    ProcMem.MakeUserFields(k, c, contents, junk);
    InvNone(k);
    ProcMem.NewFrames(k, r, c, contents, junk);
    EmptyView(r, c);
    forall j | 0 <= j < |k.procs| && j != c ensures AbsOf(r, j) == AbsOf(k, j) {
      InvImage(k, j);
      AbsSame(k, r, j);
    }
  }

  lemma EmptyView(k: Kernel, c: nat)
    requires Live(k, c) && Runs(k.procs[c]) && k.procs[c].heapTop == 0x10000 && k.procs[c].mapped == NoMap
    ensures AbsOf(k, c)
            == Flat(FrameAt(k, k.procs[c].code), FrameAt(k, k.procs[c].stack), 0x10000, map[], NoMap, map[])
  {
    hide FrameAt;
    assert AbsOf(k, c).heap == map[] && FileFrames(k, k.procs[c]) == map[];
  }

  // ---- what a page fault writes ----

  /**
    The entry a handled fault leaves: heap pages are R|W|U, pages of a mapped file R|U, neither
    executable nor marked copy-on-write any more.
   */
  lemma FaultEntry(k: Kernel, i: nat, v: nat, store: bool, contents: Frame)
    requires Inv(k) && Live(k, i) && PageFault(k, i, v, store, contents).handled
    ensures var r := PageFault(k, i, v, store, contents).k;
            && Live(r, i) && v in r.procs[i].t.ptes
            && (HeapVpn(k.procs[i], v) || MmapVpn(k.procs[i], v))
            && (HeapVpn(k.procs[i], v) ==> r.procs[i].t.ptes[v].perm == Perm(true, true, false, true, false))
            && (MmapVpn(k.procs[i], v) ==> r.procs[i].t.ptes[v].perm == Perm(true, false, false, true, false))
            && k.pool.free != [] && r.procs[i].t.ptes[v].ppn == k.pool.free[0]
  {
    var img := k.procs[i];
    InvImage(k, i);
    PlacesOf(img, v);
    if store && CowHandles(k, i, v) {
      CowIsHeap(img, v);
      CowEntry(k, i, v);
    } else {
      hide Inv, GoodImage, DemandPage, ZeroFrame;
      NotHandled(k, i, v);
      if HeapVpn(img, v) {
        DemandPageInv(k, i, v, ZeroFrame(), RWU);
      } else {
        DemandPageInv(k, i, v, contents, RU);
      }
    }
  }

  lemma NotHandled(k: Kernel, i: nat, v: nat)
    requires Live(k, i) && !CowHandles(k, i, v)
    ensures CowFault(k, i, v) == Outcome(false, k)
  {
  }

  lemma CowEntry(k: Kernel, i: nat, v: nat)
    requires Inv(k) && Live(k, i) && CowHandles(k, i, v) && HeapVpn(k.procs[i], v)
    ensures var r := CowFault(k, i, v).k;
            && CowFault(k, i, v).handled && Live(r, i) && v in r.procs[i].t.ptes
            && r.procs[i].t.ptes[v] == Pte(k.pool.free[0], Perm(true, true, false, true, false))
  {
    InvImage(k, i);
    HeapLeafPerm(k.procs[i], v);
    hide Inv, GoodImage;
  }
}
