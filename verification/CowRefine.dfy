/**
  Copy-on-write fork refines eager fork: over every run, each process reads exactly what
  it would read if fork had copied every page and each process had its own flat memory.
 */
module CowRefine {
  import opened Kalloc
  import opened Paging
  import opened Images
  import opened ProcTable
  import opened Cow
  import opened CowSafety
  import opened CowFork

  // ---- the specification: one flat memory per process ----

  /** pages are those of the mapped file that faults have brought in. */
  datatype Flat = Dead
                | Flat(code: Frame, stack: Frame, heapTop: nat, heap: map<nat, Frame>, file: MaybeSize,
                  pages: map<nat, Frame>)

  function HeapFrame(k: Kernel, img: Image, v: nat): Frame
    requires img.Image?
  {
    if v in img.t.ptes then FrameAt(k, img.t.ptes[v].ppn) else ZeroFrame()
  }

  function FileFrames(k: Kernel, img: Image): map<nat, Frame>
    requires img.Image?
  {
    map v | v in img.t.ptes && MmapVpn(img, v) :: FrameAt(k, img.t.ptes[v].ppn)
  }

  /**
    What process i reads: an unmapped heap page reads as zeros, because touching it makes it
    so.  An image without code or stack page mapped executes nothing.
   */
  function AbsOf(k: Kernel, i: nat): Flat
    requires i < |k.procs|
  {
    var img := k.procs[i];
    if !Runs(img) then Dead
    else Flat(FrameAt(k, img.code), FrameAt(k, img.stack), img.heapTop,
              map v | HEAP_VPN <= v < PageEnd(img.heapTop) :: HeapFrame(k, img, v),
              img.mapped, FileFrames(k, img))
  }

  function Abs(k: Kernel): seq<Flat> { seq(|k.procs|, i requires 0 <= i < |k.procs| => AbsOf(k, i)) }

  /** A store into one's own memory. */
  function Stored(f: Flat, v: nat, off: nat, val: nat): Flat
    requires f.Flat?
  {
    if v == STACK_VPN && off < |f.stack| then f.(stack := SetWord(f.stack, off, val))
    else if v in f.heap && off < |f.heap[v]| then f.(heap := f.heap[v := SetWord(f.heap[v], off, val)])
    else f
  }

  /** The heap grows by zero pages. */
  function GrownHeap(f: Flat, n: int): Flat
    requires f.Flat?
  {
    if n <= 0 then f
    else f.(heapTop := f.heapTop + n,
            heap := map v | HEAP_VPN <= v < PageEnd(f.heapTop + n) :: if v in f.heap then f.heap[v] else ZeroFrame())
  }

  /** exec keeps the stack page and starts with an empty heap and nothing mapped. */
  function Replaced(f: Flat, contents: Frame): Flat
    requires f.Flat?
  {
    Flat(contents, f.stack, HEAPBASE, map[], NoMap, map[])
  }

  /** Eager fork: the child is a full copy, but for its trap frame; a mapping is not inherited. */
  function Copied(f: Flat, off: nat): Flat
    requires f.Flat? && off + 32 <= |f.stack|
  {
    f.(stack := Patched(f.stack, off), file := NoMap, pages := map[])
  }

  predicate InFile(f: Flat, v: nat) { f.Flat? && f.file.MapOf? && MMAP_VPN <= v < MMAP_VPN + PageEnd(f.file.size) }

  /** A handled fault on a page of the mapped file brings it in; no other fault shows. */
  function Faulted(f: Flat, v: nat, contents: Frame, handled: bool): (r: Flat)
    requires f.Flat?
    ensures r.Flat?
  {
    if handled && InFile(f, v) then f.(pages := f.pages[v := contents]) else f
  }

  // ---- when a process's view stays the same ----

  lemma FileFramesSame(k: Kernel, k': Kernel, img: Image, img': Image)
    requires img.Image? && img'.Image? && img'.mapped == img.mapped
    requires forall v: nat :: MmapVpn(img, v) ==> (v in img'.t.ptes <==> v in img.t.ptes)
    requires forall v: nat :: MmapVpn(img, v) && v in img.t.ptes && v in img'.t.ptes ==>
             FrameAt(k', img'.t.ptes[v].ppn) == FrameAt(k, img.t.ptes[v].ppn)
    ensures FileFrames(k', img') == FileFrames(k, img)
  {
    hide FrameAt;
    var a, b := FileFrames(k, img), FileFrames(k', img');
    assert a.Keys == b.Keys;
    assert forall v :: v in a ==> a[v] == b[v];
  }

  /** Every page an image reads is one it holds. */
  lemma UserFrames(k: Kernel, k': Kernel, img: Image)
    requires GoodImage(img) && img.Image?
    requires forall x :: x in Held(img) ==> FrameAt(k', x) == FrameAt(k, x)
    ensures FrameAt(k', img.code) == FrameAt(k, img.code) && FrameAt(k', img.stack) == FrameAt(k, img.stack)
    ensures forall v :: v in img.t.ptes && v < USER_TOP ==>
            FrameAt(k', img.t.ptes[v].ppn) == FrameAt(k, img.t.ptes[v].ppn)
    ensures PageEnd(img.heapTop) <= USER_TOP && forall v: nat :: MmapVpn(img, v) ==> MMAP_VPN <= v < USER_TOP
  {
    hide FrameAt, GoodImage, Held;
    HeapBound(img);
    OwnHeld(img);
    forall v | v in img.t.ptes && v < USER_TOP ensures FrameAt(k', img.t.ptes[v].ppn) == FrameAt(k, img.t.ptes[v].ppn) {
      HeapLeafHeld(img, v);
    }
  }

  lemma AbsSame(k: Kernel, k': Kernel, j: nat)
    requires j < |k.procs| == |k'.procs| && k'.procs[j] == k.procs[j] && GoodImage(k.procs[j])
    requires forall x :: x in Held(k.procs[j]) ==> FrameAt(k', x) == FrameAt(k, x)
    ensures AbsOf(k', j) == AbsOf(k, j)
  {
    hide FrameAt, GoodImage, Held, FileFrames;
    if k.procs[j].Image? {
      UserFrames(k, k', k.procs[j]);
      FileFramesSame(k, k', k.procs[j], k.procs[j]);
      AbsByPlaces(k, k', j);
    }
  }

  lemma HeapLeafHeld(img: Image, v: nat)
    requires GoodImage(img) && img.Image? && v in img.t.ptes && v < USER_TOP
    ensures img.t.ptes[v].ppn in UserPages(img.t) && img.t.ptes[v].ppn in Held(img)
  {
  }

  lemma HeapBound(img: Image)
    requires GoodImage(img) && img.Image?
    ensures PageEnd(img.heapTop) <= MMAP_VPN < USER_TOP
    ensures forall v: nat :: MmapVpn(img, v) ==> MMAP_VPN <= v < USER_TOP
  {
  }

  /** Same places, same frames at those places: the same view. */
  lemma AbsByPlaces(k: Kernel, k': Kernel, j: nat)
    requires j < |k.procs| == |k'.procs| && k.procs[j].Image? && k'.procs[j].Image?
             && (Runs(k'.procs[j]) <==> Runs(k.procs[j]))
    requires k'.procs[j].heapTop == k.procs[j].heapTop && k'.procs[j].mapped == k.procs[j].mapped
    requires FrameAt(k', k'.procs[j].code) == FrameAt(k, k.procs[j].code)
    requires FrameAt(k', k'.procs[j].stack) == FrameAt(k, k.procs[j].stack)
    requires forall v :: HEAP_VPN <= v < PageEnd(k.procs[j].heapTop) ==>
             HeapFrame(k', k'.procs[j], v) == HeapFrame(k, k.procs[j], v)
    requires FileFrames(k', k'.procs[j]) == FileFrames(k, k.procs[j])
    ensures AbsOf(k', j) == AbsOf(k, j)
  {
    hide FrameAt, HeapFrame, FileFrames;
    if Runs(k.procs[j]) {
      var a, b := AbsOf(k, j).heap, AbsOf(k', j).heap;
      assert a.Keys == b.Keys;
      assert forall v :: v in a ==> a[v] == b[v];
    }
  }

  lemma AbsLive(k: Kernel, i: nat)
    requires i < |k.procs| && Runs(k.procs[i])
    ensures AbsOf(k, i).Flat? && AbsOf(k, i).stack == FrameAt(k, k.procs[i].stack)
    ensures forall v: nat :: InFile(AbsOf(k, i), v) <==> MmapVpn(k.procs[i], v)
  {
    hide FrameAt;
  }

  /** One process's view changes, the others' do not. */
  lemma AbsUpdate(k: Kernel, k': Kernel, i: nat, f: Flat)
    requires i < |k.procs| == |k'.procs| && AbsOf(k', i) == f
    requires forall j :: 0 <= j < |k.procs| && j != i ==> AbsOf(k', j) == AbsOf(k, j)
    ensures Abs(k') == Abs(k)[i := f]
  {
    hide AbsOf;
  }

  // ---- faults are invisible ----

  lemma CowFaultAbs(k: Kernel, i: nat, v: nat)
    requires Inv(k) && Live(k, i) && CowHandles(k, i, v)
    ensures Abs(CowFault(k, i, v).k) == Abs(k)
  {
    hide Inv, FrameAt, Held, CowFault, GoodImage, AbsOf;
    var k' := CowFault(k, i, v).k;
    CowFaultEffect(k, i, v);
    InvImage(k, i);
    InvImage(k', i);
    CowViewSame(k, k', i, v);
    forall j | 0 <= j < |k.procs| ensures AbsOf(k', j) == AbsOf(k, j) {
      InvImage(k, j);
      if j != i { AbsSame(k, k', j); }
    }
  }

  lemma CowViewSame(k: Kernel, k': Kernel, i: nat, v: nat)
    requires Live(k, i) && CowHandles(k, i, v) && GoodImage(k.procs[i]) && HeapVpn(k.procs[i], v)
    requires k'.procs == k.procs[i := k.procs[i].(t := SetPte(k.procs[i].t, v, CowCopy(k, i, v)))]
             && GoodImage(k'.procs[i])
    requires k.pool.free[0] !in Held(k.procs[i]) && FrameAt(k', k.pool.free[0]) == FrameAt(k, k.procs[i].t.ptes[v].ppn)
    requires forall x :: x in Held(k'.procs[i]) && x != k.pool.free[0] ==> FrameAt(k', x) == FrameAt(k, x)
    ensures AbsOf(k', i) == AbsOf(k, i)
  {
    hide FrameAt, GoodImage, Held, FileFrames;
    var img, img' := k.procs[i], k'.procs[i];
    HeapBound(img);
    OwnHeld(img);
    OwnHeld(img');
    forall w | w in img.t.ptes && w < USER_TOP && w != v
      ensures FrameAt(k', img.t.ptes[w].ppn) == FrameAt(k, img.t.ptes[w].ppn) {
      HeapLeafHeld(img, w);
      HeapLeafHeld(img', w);
    }
    FileFramesSame(k, k', img, img');
    AbsByPlaces(k, k', i);
  }

  /** Image i after a demand fault: one more leaf with the given contents, or none. */
  ghost predicate Demanded(k: Kernel, k': Kernel, i: nat, v: nat, contents: Frame, perm: Perm, mapped: bool) {
    && Live(k, i) && Live(k', i) && |k'.procs| == |k.procs| && k'.procs[i] == k.procs[i].(t := k'.procs[i].t)
    && (forall x :: x in Held(k.procs[i]) ==> FrameAt(k', x) == FrameAt(k, x))
    && (!mapped ==> k'.procs[i].t.ptes == k.procs[i].t.ptes)
    && (mapped ==>
          && k.pool.free != [] && v !in k.procs[i].t.ptes
          && k'.procs[i].t.ptes == k.procs[i].t.ptes[v := Pte(k.pool.free[0], perm)]
          && FrameAt(k', k.pool.free[0]) == contents)
  }

  lemma DemandFile(k: Kernel, k': Kernel, i: nat, v: nat, contents: Frame, perm: Perm, mapped: bool)
    requires Demanded(k, k', i, v, contents, perm, mapped) && GoodImage(k.procs[i])
    ensures FileFrames(k', k'.procs[i])
            == if mapped && MmapVpn(k.procs[i], v) then FileFrames(k, k.procs[i])[v := contents]
               else FileFrames(k, k.procs[i])
  {
    hide FrameAt, GoodImage, Held;
    UserFrames(k, k', k.procs[i]);
    var a, b := FileFrames(k, k.procs[i]), FileFrames(k', k'.procs[i]);
    if mapped && MmapVpn(k.procs[i], v) {
      assert b.Keys == a.Keys + {v};
      assert forall w :: w in a ==> b[w] == a[w];
      assert b == a[v := contents];
    } else {
      FileFramesSame(k, k', k.procs[i], k'.procs[i]);
    }
  }

  lemma DemandHeap(k: Kernel, k': Kernel, i: nat, v: nat, contents: Frame, perm: Perm, mapped: bool)
    requires Demanded(k, k', i, v, contents, perm, mapped) && GoodImage(k.procs[i])
    requires HeapVpn(k.procs[i], v) ==> contents == ZeroFrame()
    ensures forall w :: HEAP_VPN <= w < PageEnd(k.procs[i].heapTop) ==>
            HeapFrame(k', k'.procs[i], w) == HeapFrame(k, k.procs[i], w)
  {
    hide FrameAt, GoodImage, Held, ZeroFrame;
    UserFrames(k, k', k.procs[i]);
  }

  lemma DemandView(k: Kernel, k': Kernel, i: nat, v: nat, contents: Frame, perm: Perm, mapped: bool)
    requires Demanded(k, k', i, v, contents, perm, mapped) && GoodImage(k.procs[i]) && Runs(k.procs[i])
    requires HeapVpn(k.procs[i], v) ==> contents == ZeroFrame()
    ensures AbsOf(k', i) == Faulted(AbsOf(k, i), v, contents, mapped)
  {
    hide FrameAt, GoodImage, Held, ZeroFrame, FileFrames, HeapFrame;
    UserFrames(k, k', k.procs[i]);
    DemandFile(k, k', i, v, contents, perm, mapped);
    DemandHeap(k, k', i, v, contents, perm, mapped);
    var a, b := AbsOf(k, i).heap, AbsOf(k', i).heap;
    assert a.Keys == b.Keys;
    assert forall w :: w in a ==> a[w] == b[w];
    assert a == b;
  }

  lemma DemandAbs(k: Kernel, i: nat, v: nat, contents: Frame, perm: Perm)
    requires Inv(k) && Live(k, i) && Runs(k.procs[i]) && v < USER_TOP && v != CODE_VPN && v != STACK_VPN
             && PlaceOk(k.procs[i], v, perm)
    requires HeapVpn(k.procs[i], v) ==> contents == ZeroFrame()
    ensures var o := DemandPage(k, i, v, contents, perm);
            AbsOf(k, i).Flat? && Abs(o.k) == Abs(k)[i := Faulted(AbsOf(k, i), v, contents, o.handled)]
  {
    hide Inv, GoodImage, FrameAt, Held, DemandPage, ZeroFrame, AbsOf, Faulted, PlaceOk;
    AbsLive(k, i);
    var o := DemandPage(k, i, v, contents, perm);
    DemandPageInv(k, i, v, contents, perm);
    InvImage(k, i);
    DemandView(k, o.k, i, v, contents, perm, o.handled);
    forall j | 0 <= j < |k.procs| && j != i ensures AbsOf(o.k, j) == AbsOf(k, j) {
      InvImage(k, j);
      AbsSame(k, o.k, j);
    }
    AbsUpdate(k, o.k, i, Faulted(AbsOf(k, i), v, contents, o.handled));
  }

  /** A fault on a heap page changes what nobody reads, whatever contents the file system would have had. */
  lemma HeapFaultHidden(k: Kernel, i: nat, v: nat, a: Frame, b: Frame, handled: bool)
    requires i < |k.procs| && Runs(k.procs[i]) && GoodImage(k.procs[i]) && HeapVpn(k.procs[i], v)
    ensures AbsOf(k, i).Flat? && Faulted(AbsOf(k, i), v, a, handled) == AbsOf(k, i)
            == Faulted(AbsOf(k, i), v, b, handled)
  {
    HeapBound(k.procs[i]);
    hide GoodImage, AbsOf;
    AbsLive(k, i);
  }

  /** A page fault, handled or refused, shows only as a page of the faulting process's mapped file. */
  lemma PageFaultAbs(k: Kernel, i: nat, v: nat, store: bool, contents: Frame)
    requires Inv(k) && Live(k, i) && Runs(k.procs[i])
    ensures var o := PageFault(k, i, v, store, contents);
            AbsOf(k, i).Flat? && Abs(o.k) == Abs(k)[i := Faulted(AbsOf(k, i), v, contents, o.handled)]
  {
    hide Inv, CowFault, DemandPage, GoodImage, AbsOf, Faulted, ZeroFrame;
    AbsLive(k, i);
    InvImage(k, i);
    PlacesOf(k.procs[i], v);
    CowFaultInv(k, i, v);
    assert Abs(k)[i := AbsOf(k, i)] == Abs(k);
    if store && CowHandles(k, i, v) {
      CowFaultAbs(k, i, v);
      CowIsHeap(k.procs[i], v);
      HeapFaultHidden(k, i, v, contents, contents, true);
    } else if HeapVpn(k.procs[i], v) {
      DemandAbs(k, i, v, ZeroFrame(), RWU);
      HeapFaultHidden(k, i, v, ZeroFrame(), contents, DemandPage(k, i, v, ZeroFrame(), RWU).handled);
    } else if MmapVpn(k.procs[i], v) {
      DemandAbs(k, i, v, contents, RU);
    } else {
      NoFault(AbsOf(k, i), v, contents);
    }
  }

  lemma NoFault(f: Flat, v: nat, contents: Frame)
    requires f.Flat?
    ensures Faulted(f, v, contents, false) == f
  {
  }

  lemma PlacesOf(img: Image, v: nat)
    requires GoodImage(img) && img.Image?
    ensures HeapVpn(img, v) ==> v < USER_TOP && v != CODE_VPN && v != STACK_VPN && PlaceOk(img, v, RWU)
    ensures MmapVpn(img, v) ==>
              v < USER_TOP && v != CODE_VPN && v != STACK_VPN && !HeapVpn(img, v) && PlaceOk(img, v, RU)
  {
    Layout(img, v);
  }

  // ---- stores ----

  predicate Writable(k: Kernel, i: nat, v: nat, off: nat)
    requires Live(k, i)
  {
    var t := k.procs[i].t;
    v in t.ptes && t.ptes[v].perm.u && t.ptes[v].perm.w && off < |FrameAt(k, t.ptes[v].ppn)|
  }

  /** A writable user page is the stack or a heap page, and no other process holds it. */
  lemma WritableIsPrivate(img: Image, v: nat)
    requires GoodImage(img) && img.Image? && v in img.t.ptes && img.t.ptes[v].perm.u && img.t.ptes[v].perm.w
    ensures (v == STACK_VPN || HeapVpn(img, v)) && v < USER_TOP && img.t.ptes[v].ppn in PrivatePages(img)
  {
    Layout(img, v);
    if v != CODE_VPN && v != STACK_VPN { assert PlaceOk(img, v, img.t.ptes[v].perm); }
    assert !Sharable(img.t, v);
  }

  lemma StoreInv(k: Kernel, i: nat, v: nat, off: nat, val: nat)
    requires Inv(k) && Live(k, i)
    ensures Inv(StoreWord(k, i, v, off, val)) && StoreWord(k, i, v, off, val).procs == k.procs
  {
    hide Acct, GoodImage, Exclusive, Held;
  }

  /** A store that goes through changes exactly one word of one process's memory. */
  lemma StoreAbs(k: Kernel, i: nat, v: nat, off: nat, val: nat)
    requires Inv(k) && Live(k, i) && Runs(k.procs[i]) && Writable(k, i, v, off)
    ensures AbsOf(k, i).Flat? && Abs(StoreWord(k, i, v, off, val)) == Abs(k)[i := Stored(AbsOf(k, i), v, off, val)]
  {
    hide Inv, GoodImage, Held, FrameAt, StoreWord, AbsOf, PrivatePages, Stored;
    AbsLive(k, i);
    var k' := StoreWord(k, i, v, off, val);
    var img := k.procs[i];
    var p := img.t.ptes[v].ppn;
    InvImage(k, i);
    WritableIsPrivate(img, v);
    PrivateAlone(k, i, p);
    StoreFrames(k, i, v, off, val);
    StoreView(k, k', i, v, off, val);
    forall j | 0 <= j < |k.procs| && j != i ensures AbsOf(k', j) == AbsOf(k, j) {
      InvImage(k, j);
      AbsSame(k, k', j);
    }
    AbsUpdate(k, k', i, Stored(AbsOf(k, i), v, off, val));
  }

  lemma PrivateAlone(k: Kernel, i: nat, p: nat)
    requires Inv(k) && i < |k.procs| && p in PrivatePages(k.procs[i])
    ensures forall j :: 0 <= j < |k.procs| && j != i ==> p !in Held(k.procs[j])
  {
    hide Acct, GoodImage, Held, PrivatePages;
  }

  lemma StoreFrames(k: Kernel, i: nat, v: nat, off: nat, val: nat)
    requires Live(k, i) && Writable(k, i, v, off)
    ensures var k', p := StoreWord(k, i, v, off, val), k.procs[i].t.ptes[v].ppn;
            && k'.procs == k.procs && FrameAt(k', p) == SetWord(FrameAt(k, p), off, val)
            && forall x :: x != p ==> FrameAt(k', x) == FrameAt(k, x)
  {
  }

  lemma StoreView(k: Kernel, k': Kernel, i: nat, v: nat, off: nat, val: nat)
    requires Live(k, i) && Runs(k.procs[i]) && k'.procs == k.procs && GoodImage(k.procs[i]) && Writable(k, i, v, off)
    requires v == STACK_VPN || HeapVpn(k.procs[i], v)
    requires var p := k.procs[i].t.ptes[v].ppn;
             FrameAt(k', p) == SetWord(FrameAt(k, p), off, val)
               && forall x :: x != p ==> FrameAt(k', x) == FrameAt(k, x)
    ensures AbsOf(k, i).Flat? && AbsOf(k', i) == Stored(AbsOf(k, i), v, off, val)
  {
    hide GoodImage, FrameAt, SetWord, FileFrames;
    var img := k.procs[i];
    PlacesOf(img, v);
    LeavesDiffer(img, v);
    HeapBound(img);
    forall w | HEAP_VPN <= w < PageEnd(img.heapTop) && w != v ensures HeapFrame(k', img, w) == HeapFrame(k, img, w) {
    }
    FileFramesSame(k, k', img, img);
    hide HeapFrame;
    if v == STACK_VPN {
      StackView(k, k', i, off, val);
    } else {
      HeapStored(k, k', img, v, off, val);
      HeapView(k, k', i, v, off, val);
    }
  }

  lemma HeapStored(k: Kernel, k': Kernel, img: Image, v: nat, off: nat, val: nat)
    requires img.Image? && v in img.t.ptes && off < |FrameAt(k, img.t.ptes[v].ppn)|
    requires FrameAt(k', img.t.ptes[v].ppn) == SetWord(FrameAt(k, img.t.ptes[v].ppn), off, val)
    ensures off < |HeapFrame(k, img, v)| && HeapFrame(k', img, v) == SetWord(HeapFrame(k, img, v), off, val)
  {
    hide FrameAt, SetWord;
  }

  lemma StackView(k: Kernel, k': Kernel, i: nat, off: nat, val: nat)
    requires Live(k, i) && Runs(k.procs[i]) && k'.procs == k.procs
             && FileFrames(k', k.procs[i]) == FileFrames(k, k.procs[i])
    requires off < |FrameAt(k, k.procs[i].stack)|
             && FrameAt(k', k.procs[i].stack) == SetWord(FrameAt(k, k.procs[i].stack), off, val)
    requires FrameAt(k', k.procs[i].code) == FrameAt(k, k.procs[i].code)
    requires forall w :: HEAP_VPN <= w < PageEnd(k.procs[i].heapTop) ==>
             HeapFrame(k', k.procs[i], w) == HeapFrame(k, k.procs[i], w)
    ensures AbsOf(k', i) == Stored(AbsOf(k, i), STACK_VPN, off, val)
  {
    hide FrameAt, SetWord, HeapFrame, FileFrames;
    assert AbsOf(k', i).heap == AbsOf(k, i).heap;
  }

  lemma HeapView(k: Kernel, k': Kernel, i: nat, v: nat, off: nat, val: nat)
    requires Live(k, i) && Runs(k.procs[i]) && k'.procs == k.procs && HeapVpn(k.procs[i], v)
             && FileFrames(k', k.procs[i]) == FileFrames(k, k.procs[i])
    requires off < |HeapFrame(k, k.procs[i], v)|
             && HeapFrame(k', k.procs[i], v) == SetWord(HeapFrame(k, k.procs[i], v), off, val)
    requires FrameAt(k', k.procs[i].code) == FrameAt(k, k.procs[i].code)
             && FrameAt(k', k.procs[i].stack) == FrameAt(k, k.procs[i].stack)
    requires forall w :: HEAP_VPN <= w < PageEnd(k.procs[i].heapTop) && w != v ==>
             HeapFrame(k', k.procs[i], w) == HeapFrame(k, k.procs[i], w)
    ensures AbsOf(k', i) == Stored(AbsOf(k, i), v, off, val)
  {
    hide FrameAt, SetWord, HeapFrame, FileFrames;
    var a, b := AbsOf(k, i), AbsOf(k', i);
    assert b.heap == a.heap[v := SetWord(a.heap[v], off, val)];
  }

  lemma LeavesDiffer(img: Image, v: nat)
    requires GoodImage(img) && Runs(img) && UserLeaf(img.t, v)
    ensures forall w :: w in img.t.ptes && w < USER_TOP && w != v ==> img.t.ptes[w].ppn != img.t.ptes[v].ppn
    ensures img.t.ptes[CODE_VPN].ppn == img.code && img.t.ptes[STACK_VPN].ppn == img.stack
    ensures v == CODE_VPN ==> !img.t.ptes[v].perm.w
  {
    forall w | w in img.t.ptes && w < USER_TOP && w != v ensures img.t.ptes[w].ppn != img.t.ptes[v].ppn {
      assert UserLeaf(img.t, w);
    }
  }

  // ---- a whole store instruction ----

  /** An access: whether it went through, and whether a fault on the way was handled. */
  datatype Access = Access(done: bool, faulted: bool, k: Kernel)

  /** The store, its fault and the retry. */
  function StoreAccess(k: Kernel, i: nat, v: nat, off: nat, val: nat, contents: Frame): Access
    requires Live(k, i)
  {
    if Writable(k, i, v, off) then Access(true, false, StoreWord(k, i, v, off, val))
    else
      var f := PageFault(k, i, v, true, contents);
      if f.handled && Live(f.k, i) && Writable(f.k, i, v, off) then Access(true, true, StoreWord(f.k, i, v, off, val))
      else Access(false, f.handled, f.k)
  }

  /** What an access does to one's own memory. */
  function StoreEffect(f: Flat, v: nat, off: nat, val: nat, contents: Frame, done: bool, faulted: bool): Flat
    requires f.Flat?
  {
    var g := Faulted(f, v, contents, faulted);
    if done then Stored(g, v, off, val) else g
  }

  /** A store instruction acts on the process's own flat memory or, if it cannot be carried out, on nothing. */
  lemma StoreAccessAbs(k: Kernel, i: nat, v: nat, off: nat, val: nat, contents: Frame)
    requires Inv(k) && Live(k, i) && Runs(k.procs[i])
    ensures var o := StoreAccess(k, i, v, off, val, contents);
            Inv(o.k) && AbsOf(k, i).Flat?
              && Abs(o.k) == Abs(k)[i := StoreEffect(AbsOf(k, i), v, off, val, contents, o.done, o.faulted)]
  {
    hide Inv, PageFault, StoreWord, Stored, AbsOf, Writable, Faulted;
    AbsLive(k, i);
    if Writable(k, i, v, off) {
      StoreInv(k, i, v, off, val);
      StoreAbs(k, i, v, off, val);
      NoFault(AbsOf(k, i), v, contents);
    } else {
      var f := PageFault(k, i, v, true, contents);
      PageFaultInv(k, i, v, true, contents);
      PageFaultAbs(k, i, v, true, contents);
      AbsAt(k, f.k, i, Faulted(AbsOf(k, i), v, contents, f.handled));
      if f.handled && Live(f.k, i) && Writable(f.k, i, v, off) {
        StoreInv(f.k, i, v, off, val);
        StoreAbs(f.k, i, v, off, val);
        UpdateTwice(Abs(k), i, Faulted(AbsOf(k, i), v, contents, f.handled), Stored(AbsOf(f.k, i), v, off, val));
      }
    }
  }

  lemma UpdateTwice<T>(s: seq<T>, i: nat, a: T, b: T)
    requires i < |s|
    ensures s[i := a][i := b] == s[i := b]
  {
  }

  /** The slot that changed, read back. */
  lemma AbsAt(k: Kernel, k': Kernel, i: nat, f: Flat)
    requires i < |k.procs| && f.Flat? && Abs(k') == Abs(k)[i := f]
    ensures |k'.procs| == |k.procs| && AbsOf(k', i) == f && Runs(k'.procs[i])
  {
    assert |Abs(k')| == |k'.procs| && |Abs(k)| == |k.procs|;
    assert Abs(k')[i] == AbsOf(k', i);
  }

  // ---- sbrk and mmap ----

  /** Room to grow: the heap stays below the mapping area. */
  lemma GrownGood(img: Image, top: nat)
    requires GoodImage(img) && img.Image? && img.heapTop <= top <= MMAPBASE
    ensures var img' := img.(heapTop := top);
            && GoodImage(img') && Held(img') == Held(img) && PrivatePages(img') == PrivatePages(img)
            && forall v :: PageEnd(img.heapTop) <= v < PageEnd(top) ==> v !in img.t.ptes
  {
    hide PagesApart, TableOk, UserPages, Nodes;
    var img' := img.(heapTop := top);
    PagesApartFields(img, img');
    forall v | v in img'.t.ptes && v != CODE_VPN && v != STACK_VPN ensures PlaceOk(img', v, img'.t.ptes[v].perm) {
      assert PlaceOk(img, v, img.t.ptes[v].perm);
    }
    forall v | PageEnd(img.heapTop) <= v < PageEnd(top) ensures v !in img.t.ptes {
      assert v in img.t.ptes ==> PlaceOk(img, v, img.t.ptes[v].perm);
    }
  }

  lemma SbrkView(k: Kernel, i: nat, n: int)
    requires Live(k, i) && Runs(k.procs[i]) && n > 0 && HEAPBASE <= k.procs[i].heapTop
    requires forall v :: PageEnd(k.procs[i].heapTop) <= v < PageEnd(k.procs[i].heapTop + n) ==> v !in k.procs[i].t.ptes
    ensures AbsOf(Sbrk(k, i, n), i) == GrownHeap(AbsOf(k, i), n)
  {
    hide ZeroFrame, FrameAt;
    var k' := Sbrk(k, i, n);
    var a, b := GrownHeap(AbsOf(k, i), n), AbsOf(k', i);
    FrameFields(k, k');
    forall v | v in b.heap ensures v in a.heap && a.heap[v] == b.heap[v] {
      assert b.heap[v] == HeapFrame(k', k'.procs[i], v) == HeapFrame(k, k.procs[i], v);
    }
    assert a.heap.Keys == b.heap.Keys;
    assert a.heap == b.heap;
    FileFramesSame(k, k', k.procs[i], k'.procs[i]);
  }

  lemma SbrkInv(k: Kernel, i: nat, n: int)
    requires Inv(k) && Live(k, i) && 0 < n && k.procs[i].heapTop + n <= MMAPBASE
    ensures Inv(Sbrk(k, i, n))
  {
    hide Inv, InvWith, GoodImage, Held, PrivatePages;
    InvImage(k, i);
    var img' := k.procs[i].(heapTop := k.procs[i].heapTop + n);
    GrownGood(k.procs[i], img'.heapTop);
    InvNone(k);
    RelabelStep(k, {}, i, img');
    InvNone(Sbrk(k, i, n));
  }

  /** sbrk: the caller's heap gains zero pages, nobody else notices. */
  lemma SbrkAbs(k: Kernel, i: nat, n: int)
    requires Inv(k) && Live(k, i) && Runs(k.procs[i]) && k.procs[i].heapTop + n <= MMAPBASE
    ensures Inv(Sbrk(k, i, n)) && AbsOf(k, i).Flat? && Abs(Sbrk(k, i, n)) == Abs(k)[i := GrownHeap(AbsOf(k, i), n)]
  {
    AbsLive(k, i);
    InvImage(k, i);
    var k' := Sbrk(k, i, n);
    var f := GrownHeap(AbsOf(k, i), n);
    if n > 0 {
      hide Inv, GoodImage, Held, FrameAt, GrownHeap, AbsOf, Abs;
      SbrkInv(k, i, n);
      GrownGood(k.procs[i], k.procs[i].heapTop + n);
      HeapStarts(k.procs[i]);
      SbrkView(k, i, n);
      OthersSame(k, k', i);
      AbsUpdate(k, k', i, f);
    } else {
      hide Inv, GoodImage, FrameAt, AbsOf;
      AbsUpdate(k, k', i, f);
    }
  }

  lemma HeapStarts(img: Image)
    requires GoodImage(img) && img.Image?
    ensures HEAPBASE <= img.heapTop
  {
  }

  /** With the frames untouched, only the replaced image's view can change. */
  lemma OthersSame(k: Kernel, k': Kernel, i: nat)
    requires Inv(k) && i < |k.procs| == |k'.procs| && k'.procs == k.procs[i := k'.procs[i]] && k'.frames == k.frames
    ensures forall j :: 0 <= j < |k.procs| && j != i ==> AbsOf(k', j) == AbsOf(k, j)
  {
    hide Inv, GoodImage, Held, FrameAt, AbsOf;
    FrameFields(k, k');
    forall j | 0 <= j < |k.procs| && j != i ensures AbsOf(k', j) == AbsOf(k, j) {
      InvImage(k, j);
      AbsSame(k, k', j);
    }
  }

  lemma MappedGood(img: Image, size: nat)
    requires GoodImage(img) && img.Image? && img.mapped.NoMap? && size <= MAX_MMAP
    ensures var img' := img.(mapped := MapOf(size));
            GoodImage(img') && Held(img') == Held(img) && PrivatePages(img') == PrivatePages(img)
  {
    hide PagesApart, TableOk, UserPages, Nodes;
    var img' := img.(mapped := MapOf(size));
    PagesApartFields(img, img');
    forall v | v in img'.t.ptes && v != CODE_VPN && v != STACK_VPN ensures PlaceOk(img', v, img'.t.ptes[v].perm) {
      assert PlaceOk(img, v, img.t.ptes[v].perm);
    }
  }

  /** The caller's mapping, with no page of it loaded. */
  function WithFile(f: Flat, size: nat): Flat
    requires f.Flat?
  {
    f.(file := MapOf(size))
  }

  lemma MmapInv(k: Kernel, i: nat, size: nat)
    requires Inv(k) && Live(k, i) && k.procs[i].mapped.NoMap? && size <= MAX_MMAP
    ensures Inv(Mmap(k, i, size))
  {
    hide Inv, InvWith, GoodImage, Held, PrivatePages;
    InvImage(k, i);
    MappedGood(k.procs[i], size);
    InvNone(k);
    RelabelStep(k, {}, i, Mmap(k, i, size).procs[i]);
    InvNone(Mmap(k, i, size));
  }

  /** Nothing is mapped where a file would go before the first mmap. */
  lemma NoFileYet(img: Image, size: nat)
    requires GoodImage(img) && img.Image? && img.mapped.NoMap? && size <= MAX_MMAP
    ensures forall v :: v in img.t.ptes ==> !MmapVpn(img.(mapped := MapOf(size)), v)
  {
    hide TableOk, PagesApart;
    forall v | v in img.t.ptes ensures !MmapVpn(img.(mapped := MapOf(size)), v) {
      assert v == CODE_VPN || v == STACK_VPN || PlaceOk(img, v, img.t.ptes[v].perm);
    }
  }

  lemma MmapView(k: Kernel, i: nat, size: nat)
    requires Live(k, i) && Runs(k.procs[i]) && GoodImage(k.procs[i]) && k.procs[i].mapped.NoMap? && size <= MAX_MMAP
    ensures AbsOf(k, i).Flat? && AbsOf(Mmap(k, i, size), i) == WithFile(AbsOf(k, i), size)
  {
    hide GoodImage, FrameAt;
    var img, k' := k.procs[i], Mmap(k, i, size);
    var img' := k'.procs[i];
    NoFileYet(img, size);
    FrameFields(k, k');
    assert FileFrames(k, img) == map[] && FileFrames(k', img') == map[];
    hide FileFrames;
    var a, b := AbsOf(k, i).heap, AbsOf(k', i).heap;
    assert a.Keys == b.Keys && forall w :: w in a ==> a[w] == b[w];
    assert a == b;
  }

  /** mmap only records the file; no memory changes hands. */
  lemma MmapAbs(k: Kernel, i: nat, size: nat)
    requires Inv(k) && Live(k, i) && Runs(k.procs[i]) && k.procs[i].mapped.NoMap? && size <= MAX_MMAP
    ensures Inv(Mmap(k, i, size)) && AbsOf(k, i).Flat?
            && Abs(Mmap(k, i, size)) == Abs(k)[i := WithFile(AbsOf(k, i), size)]
  {
    hide Inv, GoodImage, AbsOf, WithFile;
    var k' := Mmap(k, i, size);
    InvImage(k, i);
    MmapInv(k, i, size);
    MmapView(k, i, size);
    OthersSame(k, k', i);
    AbsUpdate(k, k', i, WithFile(AbsOf(k, i), size));
  }

  // ---- exec ----

  lemma ExecFailsAbs(k: Kernel, i: nat, contents: Frame)
    requires Inv(k) && Live(k, i) && k.pool.free != []
    ensures Abs(Exec(k, i, false, contents)) == Abs(k)
  {
    hide Inv, InvWith, GoodImage, Held, AbsOf, FrameAt, TakePage, FreePage;
    var p := k.pool.free[0];
    var k1 := TakePage(k, contents);
    var k' := Exec(k, i, false, contents);
    TakeOne(k, contents);
    FreeStep(k1, {p}, p);
    FreePageProcs(k1, p);
    forall j | 0 <= j < |k.procs| ensures AbsOf(k', j) == AbsOf(k, j) {
      InvImage(k, j);
      AbsSame(k, k', j);
    }
  }

  lemma ExecView(k: Kernel, k': Kernel, i: nat, contents: Frame)
    requires i < |k.procs| && Runs(k.procs[i]) && i < |k'.procs| && Runs(k'.procs[i])
             && k'.procs[i].heapTop == HEAPBASE && k'.procs[i].mapped == NoMap
    requires FrameAt(k', k'.procs[i].code) == contents && FrameAt(k', k'.procs[i].stack) == FrameAt(k, k.procs[i].stack)
    ensures AbsOf(k', i) == Replaced(AbsOf(k, i), contents)
  {
    hide FrameAt;
    assert AbsOf(k', i).heap == map[] && FileFrames(k', k'.procs[i]) == map[];
  }

  /** exec from the point where the new code page p is loaded and in flight. */
  lemma ExecLoaded(k1: Kernel, i: nat, p: nat)
    requires InvWith(k1, {p}) && Live(k1, i) && Runs(k1.procs[i])
             && forall j :: 0 <= j < |k1.procs| ==> p !in Held(k1.procs[j])
    ensures var k' := SwapCode(ClearImage(k1, i), i, p);
            && |k'.procs| == |k1.procs| && Live(k', i) && InvWith(k', {}) && Runs(k'.procs[i])
            && k'.procs[i].mapped == NoMap
            && k'.procs[i].code == p && k'.procs[i].stack == k1.procs[i].stack && k'.procs[i].heapTop == HEAPBASE
            && FrameAt(k', p) == FrameAt(k1, p) && FrameAt(k', k1.procs[i].stack) == FrameAt(k1, k1.procs[i].stack)
            && (forall j :: 0 <= j < |k1.procs| && j != i ==> k'.procs[j] == k1.procs[j])
            && forall j, x :: 0 <= j < |k1.procs| && j != i && x in Held(k1.procs[j]) ==>
              FrameAt(k', x) == FrameAt(k1, x)
  {
    hide InvWith, GoodImage, Held, FrameAt, NoMapLeaf, ClearImage, SwapCode;
    ClearInv(k1, i, p);
    var k3 := ClearImage(k1, i);
    SwapInv(k3, i, p);
    var k' := SwapCode(k3, i, p);
    OwnHeld(k3.procs[i]);
    ImageIsGood(k', {}, i);
    OwnHeld(k'.procs[i]);
    forall j, x | 0 <= j < |k1.procs| && j != i && x in Held(k1.procs[j]) ensures FrameAt(k', x) == FrameAt(k1, x) {
      assert x in Held(k3.procs[j]) && x in Held(k'.procs[j]);
    }
  }

  /** exec: the caller gets the new program, its own stack page and an empty heap; nobody else notices. */
  lemma ExecAbs(k: Kernel, i: nat, contents: Frame)
    requires Inv(k) && Live(k, i) && Runs(k.procs[i]) && k.pool.free != []
    ensures AbsOf(k, i).Flat? && Abs(Exec(k, i, true, contents)) == Abs(k)[i := Replaced(AbsOf(k, i), contents)]
  {
    hide Inv, InvWith, GoodImage, Held, AbsOf, FrameAt, ClearImage, SwapCode, TakePage, Replaced;
    AbsLive(k, i);
    var p := k.pool.free[0];
    var k1 := TakePage(k, contents);
    var k' := Exec(k, i, true, contents);
    TakeOne(k, contents);
    InvImage(k, i);
    OwnHeld(k.procs[i]);
    assert Live(k1, i);
    ExecLoaded(k1, i, p);
    assert k' == SwapCode(ClearImage(k1, i), i, p);
    ExecView(k, k', i, contents);
    forall j | 0 <= j < |k.procs| && j != i ensures AbsOf(k', j) == AbsOf(k, j) {
      InvImage(k, j);
      AbsSame(k, k', j);
    }
    AbsUpdate(k, k', i, Replaced(AbsOf(k, i), contents));
  }

  // ---- fork ----

  lemma ParentView(k: Kernel, k': Kernel, i: nat)
    requires Live(k, i) && Live(k', i) && |k'.procs| == |k.procs| && GoodImage(k.procs[i])
    requires k'.procs[i] == k.procs[i].(t := k'.procs[i].t) && SamePlaces(k.procs[i].t, k'.procs[i].t)
    requires forall x :: x in Held(k.procs[i]) ==> FrameAt(k', x) == FrameAt(k, x)
    ensures AbsOf(k', i) == AbsOf(k, i)
  {
    hide FrameAt, GoodImage, Held, FileFrames;
    var t, t' := k.procs[i].t, k'.procs[i].t;
    assert forall v :: v in t.ptes.Keys <==> v in t'.ptes.Keys;
    UserFrames(k, k', k.procs[i]);
    FileFramesSame(k, k', k.procs[i], k'.procs[i]);
    AbsByPlaces(k, k', i);
  }

  lemma ChildView(k: Kernel, i: nat, c: nat, stack: nat, off: nat)
    requires Live(k, i) && Live(k, c) && Runs(k.procs[i]) && off + 32 <= |FrameAt(k, k.procs[i].stack)|
    requires k.procs[c] == ChildOf(k.procs[i], k.procs[c].t, stack)
    requires Shared0(k.procs[c].t, k.procs[i], stack, PageEnd(k.procs[i].heapTop))
    requires FrameAt(k, stack) == Patched(FrameAt(k, k.procs[i].stack), off)
    ensures AbsOf(k, i).Flat? && off + 32 <= |AbsOf(k, i).stack| && AbsOf(k, c) == Copied(AbsOf(k, i), off)
  {
    hide FrameAt, Patched, TableOk, UserPages, Nodes, UserInjective;
    var a, b := AbsOf(k, i).heap, AbsOf(k, c).heap;
    forall v: nat | HEAP_VPN <= v < PageEnd(k.procs[i].heapTop)
      ensures HeapFrame(k, k.procs[c], v) == HeapFrame(k, k.procs[i], v) {
      assert SameLeaf(k.procs[c].t, k.procs[i].t, v);
    }
    assert FileFrames(k, k.procs[c]) == map[];
    assert a.Keys == b.Keys && forall v :: v in a ==> a[v] == b[v];
    assert a == b;
  }

  lemma InvEtext(k: Kernel)
    requires Inv(k)
    ensures KERN_FIRST < k.etext < RAM_END && |k.procs| == NPROC
  {
  }

  /** What fork leaves behind, in one piece; whole says whether the child got its first low node. */
  ghost predicate Forked(k: Kernel, k': Kernel, i: nat, c: nat, stack: nat, off: nat, whole: bool) {
    && Live(k, i) && Live(k', i) && Live(k', c) && c != i && |k'.procs| == |k.procs|
    && off + 32 <= |FrameAt(k, k.procs[i].stack)|
    && k'.procs == k.procs[i := k.procs[i].(t := k'.procs[i].t)][c := ChildOf(k.procs[i], k'.procs[c].t, stack)]
    && SamePlaces(k.procs[i].t, k'.procs[i].t)
    && (whole ==> Shared0(k'.procs[c].t, k'.procs[i], stack, PageEnd(k.procs[i].heapTop)))
    && (!whole ==> forall v :: !UserLeaf(k'.procs[c].t, v))
    && k'.frames == k.frames[stack := Patched(FrameAt(k, k.procs[i].stack), off)]
    && forall j :: 0 <= j < |k.procs| ==> stack !in Held(k.procs[j])
  }

  lemma ForkIsForked(k: Kernel, i: nat, c: nat, off: nat)
    requires Inv(k) && Live(k, i) && c < |k.procs| && c != i && k.procs[c].NoImage? && |k.pool.free| >= FORK_MIN
    requires off + 32 <= |FrameAt(k, k.procs[i].stack)| && KERN_FIRST < k.etext < RAM_END
    ensures Inv(Fork(k, i, c, off)) && Forked(k, Fork(k, i, c, off), i, c, k.pool.free[0], off,
            |k.pool.free| >= FORK_PAGES)
  {
    hide Inv, Held, FrameAt, Fork, Patched, Shared0, SamePlaces;
    if |k.pool.free| == FORK_MIN {
      ForkShort(k, i, c, off);
    } else {
      ForkInv(k, i, c, off);
    }
  }

  lemma ForkedFrames(k: Kernel, k': Kernel, i: nat, c: nat, stack: nat, off: nat, whole: bool, j: nat)
    requires Forked(k, k', i, c, stack, off, whole) && j < |k.procs|
    ensures forall x :: x in Held(k.procs[j]) ==> FrameAt(k', x) == FrameAt(k, x)
    ensures FrameAt(k', stack) == Patched(FrameAt(k, k.procs[i].stack), off)
  {
    hide Held, FrameAt, Patched, Shared0, SamePlaces;
    SetFrame(k, k', stack, Patched(FrameAt(k, k.procs[i].stack), off));
  }

  lemma ForkedParent(k: Kernel, k': Kernel, i: nat, c: nat, stack: nat, off: nat, whole: bool)
    requires Forked(k, k', i, c, stack, off, whole) && GoodImage(k.procs[i])
    ensures AbsOf(k', i) == AbsOf(k, i)
  {
    hide Held, FrameAt, Patched, Shared0, SamePlaces, GoodImage, AbsOf;
    ForkedFrames(k, k', i, c, stack, off, whole, i);
    ParentView(k, k', i);
  }

  lemma ForkedChild(k: Kernel, k': Kernel, i: nat, c: nat, stack: nat, off: nat, whole: bool)
    requires Forked(k, k', i, c, stack, off, whole) && GoodImage(k.procs[i]) && Runs(k.procs[i])
    ensures AbsOf(k', i) == AbsOf(k, i) && AbsOf(k, i).Flat? && off + 32 <= |AbsOf(k, i).stack|
    ensures AbsOf(k', c) == if whole then Copied(AbsOf(k, i), off) else Dead
  {
    hide Held, FrameAt, Patched, Shared0, SamePlaces, GoodImage, AbsOf, Copied;
    ForkedParent(k, k', i, c, stack, off, whole);
    AbsLive(k, i);
    if whole {
      ForkedFrames(k, k', i, c, stack, off, whole, i);
      OwnHeld(k.procs[i]);
      PlacesRun(k.procs[i].t, k'.procs[i].t);
      ChildView(k', i, c, stack, off);
    } else {
      assert !UserLeaf(k'.procs[c].t, CODE_VPN);
      BareIsDead(k', c);
    }
  }

  lemma BareIsDead(k: Kernel, c: nat)
    requires Live(k, c) && CODE_VPN !in k.procs[c].t.ptes
    ensures AbsOf(k, c) == Dead
  {
  }

  lemma PlacesRun(t: Table, t': Table)
    requires SamePlaces(t, t')
    ensures forall v :: v in t'.ptes <==> v in t.ptes
  {
    assert forall v :: v in t'.ptes.Keys <==> v in t.ptes.Keys;
  }

  lemma ForkedOther(k: Kernel, k': Kernel, i: nat, c: nat, stack: nat, off: nat, whole: bool, j: nat)
    requires Forked(k, k', i, c, stack, off, whole) && j < |k.procs| && j != i && j != c && GoodImage(k.procs[j])
    ensures AbsOf(k', j) == AbsOf(k, j)
  {
    hide Held, FrameAt, Patched, Shared0, SamePlaces, GoodImage, AbsOf;
    ForkedFrames(k, k', i, c, stack, off, whole, j);
    AbsSame(k, k', j);
  }

  /** fork with a single page: the child has no table, nobody else notices. */
  lemma ForkNullAbs(k: Kernel, i: nat, c: nat, off: nat)
    requires Inv(k) && Live(k, i) && c < |k.procs| && c != i && k.procs[c].NoImage? && |k.pool.free| == 1
    requires off + 32 <= |FrameAt(k, k.procs[i].stack)| && KERN_FIRST < k.etext < RAM_END
    ensures Abs(Fork(k, i, c, off)) == Abs(k)[c := Dead]
  {
    hide Inv, GoodImage, Held, AbsOf, FrameAt, Fork, Patched;
    var k', stack := Fork(k, i, c, off), k.pool.free[0];
    ForkNullInv(k, i, c, off);
    SetFrame(k, k', stack, Patched(FrameAt(k, k.procs[i].stack), off));
    NoTableIsDead(k', c);
    forall j | 0 <= j < |k.procs| && j != c ensures AbsOf(k', j) == AbsOf(k, j) {
      InvImage(k, j);
      AbsSame(k, k', j);
    }
    AbsUpdate(k, k', c, Dead);
  }

  lemma NoTableIsDead(k: Kernel, c: nat)
    requires c < |k.procs| && !k.procs[c].Image?
    ensures AbsOf(k, c) == Dead
  {
  }

  lemma ForkBuiltAbs(k: Kernel, i: nat, c: nat, off: nat)
    requires Inv(k) && Live(k, i) && Runs(k.procs[i]) && c < |k.procs| && c != i && k.procs[c].NoImage?
    requires |k.pool.free| >= FORK_MIN && off + 32 <= |FrameAt(k, k.procs[i].stack)|
    ensures KERN_FIRST < k.etext < RAM_END && AbsOf(k, i).Flat? && off + 32 <= |AbsOf(k, i).stack|
    ensures Abs(Fork(k, i, c, off)) == Abs(k)[c := if |k.pool.free| >= FORK_PAGES then Copied(AbsOf(k, i), off)
            else Dead]
  {
    hide Inv, GoodImage, Held, AbsOf, FrameAt, Fork, Copied, Abs;
    InvEtext(k);
    ForkIsForked(k, i, c, off);
    var k', stack, whole := Fork(k, i, c, off), k.pool.free[0], |k.pool.free| >= FORK_PAGES;
    assert |k'.procs| == |k.procs|;
    hide Forked;
    InvImage(k, i);
    ForkedChild(k, k', i, c, stack, off, whole);
    forall j | 0 <= j < |k.procs| && j != c ensures AbsOf(k', j) == AbsOf(k, j) {
      InvImage(k, j);
      if j != i { ForkedOther(k, k', i, c, stack, off, whole, j); }
    }
    AbsUpdate(k, k', c, if whole then Copied(AbsOf(k, i), off) else Dead);
  }

  /**
    fork, whenever it returns: everybody reads what they read before, and the child reads a
    full copy if FORK_PAGES were free.  With one page fewer it comes into its slot with
    nothing mapped, with a single page and an untouched heap it has no table at all.
   */
  lemma ForkAbs(k: Kernel, i: nat, c: nat, off: nat)
    requires Inv(k) && Live(k, i) && Runs(k.procs[i]) && c < |k.procs| && c != i && k.procs[c].NoImage?
    requires ForkReturns(k, i) && off + 32 <= |FrameAt(k, k.procs[i].stack)|
    ensures KERN_FIRST < k.etext < RAM_END && AbsOf(k, i).Flat? && off + 32 <= |AbsOf(k, i).stack|
    ensures Inv(Fork(k, i, c, off))
    ensures Abs(Fork(k, i, c, off)) == Abs(k)[c := if |k.pool.free| >= FORK_PAGES then Copied(AbsOf(k, i), off)
            else Dead]
    ensures c < |Fork(k, i, c, off).procs|
    ensures |k.pool.free| >= 71 ==> IsForkCopy(AbsOf(k, i), AbsOf(Fork(k, i, c, off), c), off)
  {
    hide Inv, GoodImage, Held, AbsOf, FrameAt, Fork, Copied, NoHeapLeaf, IsForkCopy;
    ForkKeeps(k, i, c, off);
    if |k.pool.free| == 1 {
      ForkNullAbs(k, i, c, off);
      AbsLive(k, i);
    } else {
      ForkBuiltAbs(k, i, c, off);
      CopiedIs(AbsOf(k, i), off);
    }
    assert |Abs(Fork(k, i, c, off))| == |Abs(k)|;
    assert Abs(Fork(k, i, c, off))[c] == AbsOf(Fork(k, i, c, off), c);
  }

  /**
    The child reads what the parent reads, but for its trap frame on the stack page: a0, the
    word at 8, is 0, and sepc, the word at 30, is past the four bytes of the ecall.
   */
  predicate IsForkCopy(f: Flat, g: Flat, off: nat) {
    && f.Flat? && g.Flat? && g.code == f.code && g.heapTop == f.heapTop && g.heap == f.heap
    && g.file == NoMap && g.pages == map[] && |g.stack| == |f.stack| && off + 30 < |f.stack|
    && g.stack[off + 8] == 0 && g.stack[off + 30] == (f.stack[off + 30] + 4) % 0x1_0000_0000_0000_0000
    && forall w :: 0 <= w < |f.stack| && w != off + 8 && w != off + 30 ==> g.stack[w] == f.stack[w]
  }

  lemma CopiedIs(f: Flat, off: nat)
    requires f.Flat? && off + 32 <= |f.stack|
    ensures IsForkCopy(f, Copied(f, off), off)
  {
  }

  /** So the child is the eager copy if and only if FORK_PAGES pages are free. */
  lemma EagerIffPages(k: Kernel, i: nat, c: nat, off: nat)
    requires Inv(k) && Live(k, i) && Runs(k.procs[i]) && c < |k.procs| && c != i && k.procs[c].NoImage?
    requires ForkReturns(k, i) && off + 32 <= |FrameAt(k, k.procs[i].stack)|
    ensures KERN_FIRST < k.etext < RAM_END && AbsOf(k, i).Flat? && off + 32 <= |AbsOf(k, i).stack|
    ensures var r := Fork(k, i, c, off);
            c < |r.procs| && (AbsOf(r, c) == Copied(AbsOf(k, i), off) <==> |k.pool.free| >= FORK_PAGES)
  {
    hide Inv, AbsOf, FrameAt, Fork, NoHeapLeaf;
    ForkAbs(k, i, c, off);
    var r := Fork(k, i, c, off);
    assert |Abs(r)| == |r.procs| && |Abs(k)| == |k.procs|;
    assert Abs(r)[c] == AbsOf(r, c);
    assert Copied(AbsOf(k, i), off).Flat?;
  }

  // ---- exit and wait ----

  /** Reaping an image takes nothing from anybody else. */
  lemma ReapAbs(k: Kernel, i: nat, order: seq<nat>)
    requires Inv(k) && Reapable(k, i, order)
    ensures Inv(FreeImage(k, i, order)) && Abs(FreeImage(k, i, order)) == Abs(k)[i := Dead]
  {
    var k' := FreeImage(k, i, order);
    hide Inv, GoodImage, Held, FrameAt, FreeImage, Nodes;
    FreeImageInv(k, i, order);
    assert AbsOf(k', i) == Dead;
    hide AbsOf;
    forall j | 0 <= j < |k.procs| && j != i ensures AbsOf(k', j) == AbsOf(k, j) {
      InvImage(k, j);
      AbsSame(k, k', j);
    }
    AbsUpdate(k, k', i, Dead);
  }
}
