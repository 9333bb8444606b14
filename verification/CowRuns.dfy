/**
  Whole runs: any sequence of stores, loads, sbrk, mmap, exec, fork and reaping keeps the
  invariant and acts on the processes' flat memories as the eager specification says.
 */
module CowRuns {
  import opened Kalloc
  import opened Paging
  import opened Images
  import opened ProcTable
  import opened Cow
  import opened CowSafety
  import opened CowFork
  import opened CowRefine

  // ---- loads ----

  predicate Readable(k: Kernel, i: nat, v: nat)
    requires Live(k, i)
  {
    var t := k.procs[i].t;
    v in t.ptes && t.ptes[v].perm.u && t.ptes[v].perm.r
  }

  datatype Loaded = Loaded(frame: Frame, access: Access)

  /** A load from page v, its fault and the retry. */
  function LoadAccess(k: Kernel, i: nat, v: nat, contents: Frame): Loaded
    requires Live(k, i)
  {
    if Readable(k, i, v) then Loaded(FrameAt(k, k.procs[i].t.ptes[v].ppn), Access(true, false, k))
    else
      var f := PageFault(k, i, v, false, contents);
      if f.handled && Live(f.k, i) && Readable(f.k, i, v)
        then Loaded(FrameAt(f.k, f.k.procs[i].t.ptes[v].ppn), Access(true, true, f.k))
      else Loaded(LostFrame(), Access(false, f.handled, f.k))
  }

  /** The page of a flat memory at v. */
  predicate InFlat(f: Flat, v: nat) { f.Flat? && (v == CODE_VPN || v == STACK_VPN || v in f.heap || v in f.pages) }

  function FlatPage(f: Flat, v: nat): Frame
    requires InFlat(f, v)
  {
    if v == CODE_VPN then f.code else if v == STACK_VPN then f.stack else if v in f.heap then f.heap[v] else f.pages[v]
  }

  lemma ReadableView(k: Kernel, i: nat, v: nat)
    requires Live(k, i) && Runs(k.procs[i]) && GoodImage(k.procs[i]) && v in k.procs[i].t.ptes
             && k.procs[i].t.ptes[v].perm.u
    ensures InFlat(AbsOf(k, i), v) && FrameAt(k, k.procs[i].t.ptes[v].ppn) == FlatPage(AbsOf(k, i), v)
  {
    hide FrameAt, TableOk, PagesApart;
    var img := k.procs[i];
    Layout(img, v);
    if v != CODE_VPN && v != STACK_VPN { assert PlaceOk(img, v, img.t.ptes[v].perm); }
  }

  /**
    A load shows at most as a page of the mapped file, and what it returns is the page of the
    process's flat memory.
   */
  lemma LoadAccessAbs(k: Kernel, i: nat, v: nat, contents: Frame)
    requires Inv(k) && Live(k, i) && Runs(k.procs[i])
    ensures var l, f := LoadAccess(k, i, v, contents), AbsOf(k, i);
            && Inv(l.access.k) && f.Flat? && Abs(l.access.k) == Abs(k)[i := Faulted(f, v, contents, l.access.faulted)]
            && (l.access.done ==>
                  && InFlat(Faulted(f, v, contents, l.access.faulted), v)
                  && l.frame == FlatPage(Faulted(f, v, contents, l.access.faulted), v))
  {
    hide Inv, PageFault, AbsOf, FlatPage, FrameAt, InFlat, Faulted, GoodImage;
    AbsLive(k, i);
    var f := PageFault(k, i, v, false, contents);
    PageFaultInv(k, i, v, false, contents);
    PageFaultAbs(k, i, v, false, contents);
    AbsAt(k, f.k, i, Faulted(AbsOf(k, i), v, contents, f.handled));
    InvImage(k, i);
    InvImage(f.k, i);
    NoFault(AbsOf(k, i), v, contents);
    assert Abs(k)[i := AbsOf(k, i)] == Abs(k);
    if Readable(k, i, v) {
      ReadableView(k, i, v);
    } else if f.handled && Live(f.k, i) && Readable(f.k, i, v) {
      ReadableView(f.k, i, v);
    }
  }

  // ---- when accesses go through ----

  predicate SizedFlat(f: Flat) {
    f.Flat? ==>
      && |f.code| == PAGE_WORDS && |f.stack| == PAGE_WORDS
      && (forall v :: v in f.heap ==> |f.heap[v]| == PAGE_WORDS)
      && forall v :: v in f.pages ==> |f.pages[v]| == PAGE_WORDS
  }

  /** The first low node, which the code page hangs in, serves the whole heap. */
  lemma HeapNode(img: Image, v: nat)
    requires GoodImage(img) && Runs(img) && HeapVpn(img, v)
    ensures 0 in img.t.mids && 0 in img.t.lows && STACK_VPN < v < MMAP_VPN
  {
    Layout(img, v);
    LeafNode(img.t, CODE_VPN);
  }

  /** So a heap page needs no more than itself. */
  lemma HeapDemand(k: Kernel, i: nat, v: nat, contents: Frame, perm: Perm)
    requires Live(k, i) && Runs(k.procs[i]) && GoodImage(k.procs[i]) && HeapVpn(k.procs[i], v)
    ensures DemandPage(k, i, v, contents, perm).handled <==> k.pool.free != [] && v !in k.procs[i].t.ptes
  {
    hide GoodImage, DemandPage, Runs;
    HeapNode(k.procs[i], v);
    DemandIff(k, i, v, contents, perm);
  }

  /** After a handled store fault on a heap page the page is mapped writable. */
  lemma FaultMakesWritable(k: Kernel, i: nat, v: nat, contents: Frame)
    requires Inv(k) && Live(k, i) && Runs(k.procs[i]) && HeapVpn(k.procs[i], v) && k.pool.free != []
    requires !(v in k.procs[i].t.ptes && k.procs[i].t.ptes[v].perm.w)
    ensures var f := PageFault(k, i, v, true, contents);
            && f.handled && Live(f.k, i) && v in f.k.procs[i].t.ptes
            && f.k.procs[i].t.ptes[v].perm.u && f.k.procs[i].t.ptes[v].perm.w
  {
    var img := k.procs[i];
    hide Inv, GoodImage, CowFault, DemandPage;
    InvImage(k, i);
    HeapNode(img, v);
    if v in img.t.ptes {
      HeapLeafPerm(img, v);
      CowFaultEffect(k, i, v);
    } else {
      PlacesOf(img, v);
      HeapDemand(k, i, v, ZeroFrame(), RWU);
      DemandPageInv(k, i, v, ZeroFrame(), RWU);
      NotCow(k, i, v);
    }
  }

  lemma NotCow(k: Kernel, i: nat, v: nat)
    requires Live(k, i) && v !in k.procs[i].t.ptes
    ensures CowFault(k, i, v) == Outcome(false, k)
  {
  }

  lemma HeapLeafPerm(img: Image, v: nat)
    requires GoodImage(img) && img.Image? && HeapVpn(img, v) && v in img.t.ptes
    ensures HeapPerm(img.t.ptes[v].perm)
  {
    Layout(img, v);
    assert PlaceOk(img, v, img.t.ptes[v].perm);
  }

  /** A page already in the image that the table refuses to write: only copy-on-write pages can be helped. */
  lemma FaultRefuses(k: Kernel, i: nat, v: nat, contents: Frame)
    requires Inv(k) && Live(k, i) && v != STACK_VPN
    requires !(HeapVpn(k.procs[i], v) && ((v in k.procs[i].t.ptes && k.procs[i].t.ptes[v].perm.w) || k.pool.free != []))
    ensures var f := PageFault(k, i, v, true, contents);
            f.handled && Live(f.k, i) ==>
              !(v in f.k.procs[i].t.ptes && f.k.procs[i].t.ptes[v].perm.u && f.k.procs[i].t.ptes[v].perm.w)
  {
    hide Inv, PageFault;
    InvImage(k, i);
    PageFaultInv(k, i, v, true, contents);
    var f := PageFault(k, i, v, true, contents);
    if k.pool.free == [] {
      NothingLeft(k, i, v, contents);
    } else {
      FaultKeepsTop(k, i, v, contents);
      InvImage(f.k, i);
      if v in f.k.procs[i].t.ptes && f.k.procs[i].t.ptes[v].perm.u && f.k.procs[i].t.ptes[v].perm.w {
        WritableIsPrivate(f.k.procs[i], v);
      }
    }
  }

  lemma NothingLeft(k: Kernel, i: nat, v: nat, contents: Frame)
    requires Live(k, i) && k.pool.free == []
    ensures PageFault(k, i, v, true, contents) == Outcome(false, k)
  {
  }

  lemma FaultKeepsTop(k: Kernel, i: nat, v: nat, contents: Frame)
    requires Inv(k) && Live(k, i)
    ensures var f := PageFault(k, i, v, true, contents);
            Live(f.k, i) && f.k.procs[i].heapTop == k.procs[i].heapTop
  {
    hide Inv;
  }

  // ---- when a load goes through ----

  /** Pages that a fault on an unmapped page takes: the page, and a low node if there is none yet. */
  function Demand(t: Table, v: nat): nat { if LowKey(v) in t.lows then 1 else 2 }

  lemma DemandIff(k: Kernel, i: nat, v: nat, contents: Frame, perm: Perm)
    requires Live(k, i) && Runs(k.procs[i]) && GoodImage(k.procs[i]) && v < USER_TOP
    ensures var t := k.procs[i].t;
            DemandPage(k, i, v, contents, perm).handled <==> v !in t.ptes && |k.pool.free| >= Demand(t, v)
  {
    var t := k.procs[i].t;
    LeafNode(t, CODE_VPN);
    hide GoodImage;
    assert MidKey(v) == 0 && LowKey(CODE_VPN) == 0 && 0 in t.mids;
    if k.pool.free != [] {
      var pte, pool := Pte(k.pool.free[0], perm), Taken(k.pool);
      assert |pool.free| == |k.pool.free| - 1;
      MapPageChangesOne(t, pool, v, pte);
      WalkKeepsLeaves(t, pool, v);
      assert MapPage(t, pool, v, pte).ok <==> v !in t.ptes && |k.pool.free| >= Demand(t, v);
      hide MapPage, Freed;
    }
  }

  lemma ReadableIff(k: Kernel, i: nat, v: nat)
    requires Live(k, i) && Runs(k.procs[i]) && GoodImage(k.procs[i])
    ensures Readable(k, i, v) <==> v == CODE_VPN || v == STACK_VPN
                                   || (v in k.procs[i].t.ptes && (HeapVpn(k.procs[i], v) || MmapVpn(k.procs[i], v)))
  {
    hide TableOk, PagesApart;
    var img := k.procs[i];
    Layout(img, v);
    if v in img.t.ptes && v != CODE_VPN && v != STACK_VPN { assert PlaceOk(img, v, img.t.ptes[v].perm); }
  }

  /** What a load needs: code, stack, or a heap or file page that is there or can be brought in. */
  predicate CanLoad(k: Kernel, i: nat, v: nat)
    requires Live(k, i)
  {
    var img := k.procs[i];
    || v == CODE_VPN || v == STACK_VPN
    || ((HeapVpn(img, v) || MmapVpn(img, v)) && (v in img.t.ptes || |k.pool.free| >= Demand(img.t, v)))
  }

  /** After a handled fault of a load the page is readable. */
  lemma FaultMakesReadable(k: Kernel, i: nat, v: nat, contents: Frame)
    requires Inv(k) && Live(k, i) && v !in k.procs[i].t.ptes && v != CODE_VPN && v != STACK_VPN
    ensures var f := PageFault(k, i, v, false, contents); f.handled ==> Live(f.k, i) && Readable(f.k, i, v)
  {
    InvImage(k, i);
    PlacesOf(k.procs[i], v);
    Layout(k.procs[i], v);
    hide Inv, GoodImage, ShapeOk, DemandPage, CowFault, ZeroFrame;
    if HeapVpn(k.procs[i], v) {
      DemandPageInv(k, i, v, ZeroFrame(), RWU);
    } else if MmapVpn(k.procs[i], v) {
      DemandPageInv(k, i, v, contents, RU);
    }
  }

  /** A load goes through exactly then: running out of pages for the page or its node is the only failure. */
  lemma LoadGoesThrough(k: Kernel, i: nat, v: nat, contents: Frame)
    requires Inv(k) && Live(k, i) && Runs(k.procs[i])
    ensures LoadAccess(k, i, v, contents).access.done <==> CanLoad(k, i, v)
  {
    InvImage(k, i);
    hide Inv, GoodImage, DemandPage, CowFault, ZeroFrame, Readable, FrameAt;
    var img := k.procs[i];
    ReadableIff(k, i, v);
    if !Readable(k, i, v) && (HeapVpn(img, v) || MmapVpn(img, v)) {
      LayoutOf(img, v);
      DemandIff(k, i, v, ZeroFrame(), RWU);
      DemandIff(k, i, v, contents, RU);
      FaultMakesReadable(k, i, v, contents);
    }
  }

  lemma LayoutOf(img: Image, v: nat)
    requires GoodImage(img) && img.Image?
    ensures HeapVpn(img, v) || MmapVpn(img, v) ==> STACK_VPN < v < USER_TOP
  {
    Layout(img, v);
  }

  /** What a store needs: the stack, or a heap page that is writable or can be given a page. */
  predicate CanStore(k: Kernel, i: nat, v: nat)
    requires Live(k, i)
  {
    || v == STACK_VPN
    || (HeapVpn(k.procs[i], v) && ((v in k.procs[i].t.ptes && k.procs[i].t.ptes[v].perm.w) || k.pool.free != []))
  }

  /**
    A store goes through exactly when the page is the stack or lies in the heap and is
    either writable already or can be given a page: memory running out is the only failure.
   */
  lemma StoreGoesThrough(k: Kernel, i: nat, v: nat, off: nat, val: nat, contents: Frame)
    requires Inv(k) && Live(k, i) && Runs(k.procs[i]) && SizedFlat(AbsOf(k, i)) && off < PAGE_WORDS
             && |contents| == PAGE_WORDS
    ensures StoreAccess(k, i, v, off, val, contents).done <==> CanStore(k, i, v)
  {
    hide Inv, PageFault, AbsOf, FrameAt, SizedFlat, GoodImage;
    InvImage(k, i);
    AbsLive(k, i);
    var mine := v in k.procs[i].t.ptes && k.procs[i].t.ptes[v].perm.u && k.procs[i].t.ptes[v].perm.w;
    if mine {
      WritableIsPrivate(k.procs[i], v);
      SizedLeaf(k, i, v);
    } else if v == STACK_VPN || (HeapVpn(k.procs[i], v) && k.pool.free != []) {
      NotMine(k.procs[i], v);
      FaultMakesWritable(k, i, v, contents);
      var f := PageFault(k, i, v, true, contents);
      PageFaultInv(k, i, v, true, contents);
      PageFaultAbs(k, i, v, true, contents);
      AbsAt(k, f.k, i, Faulted(AbsOf(k, i), v, contents, f.handled));
      FaultedSized(AbsOf(k, i), v, contents, f.handled);
      InvImage(f.k, i);
      FaultKeepsTop(k, i, v, contents);
      SizedLeaf(f.k, i, v);
    } else {
      NotMine(k.procs[i], v);
      FaultRefuses(k, i, v, contents);
    }
  }

  lemma FaultedSized(f: Flat, v: nat, contents: Frame, handled: bool)
    requires f.Flat? && SizedFlat(f) && |contents| == PAGE_WORDS
    ensures SizedFlat(Faulted(f, v, contents, handled))
  {
  }

  lemma NotMine(img: Image, v: nat)
    requires GoodImage(img) && Runs(img) && !(v in img.t.ptes && img.t.ptes[v].perm.u && img.t.ptes[v].perm.w)
    ensures v != STACK_VPN
    ensures HeapVpn(img, v) ==> !(v in img.t.ptes && img.t.ptes[v].perm.w)
  {
    if HeapVpn(img, v) && v in img.t.ptes { HeapLeafPerm(img, v); }
  }

  lemma SizedLeaf(k: Kernel, i: nat, v: nat)
    requires Live(k, i) && Runs(k.procs[i]) && GoodImage(k.procs[i]) && SizedFlat(AbsOf(k, i))
             && v in k.procs[i].t.ptes && k.procs[i].t.ptes[v].perm.u
    ensures |FrameAt(k, k.procs[i].t.ptes[v].ppn)| == PAGE_WORDS
  {
    hide GoodImage, AbsOf, FrameAt;
    ReadableView(k, i, v);
  }

  // ---- runs ----

  datatype Act =
    | Store(i: nat, v: nat, off: nat, val: nat, contents: Frame)
    | Load(i: nat, v: nat, contents: Frame)
    | Grow(i: nat, n: int)
    | MapFile(i: nat, size: nat)
    | Replace(i: nat, loaded: bool, contents: Frame)
    | Spawn(i: nat, c: nat, off: nat)
    | Reap(i: nat, order: seq<nat>)

  /** What the code takes for granted when it performs the action; only a process that runs calls the kernel. */
  ghost predicate Enabled(k: Kernel, a: Act) {
    (a.Reap? || (Live(k, a.i) && Runs(k.procs[a.i]))) &&
    match a
    case Store(i, v, off, val, contents) => |contents| == PAGE_WORDS
    case Load(i, v, contents) => |contents| == PAGE_WORDS
    case Grow(i, n) => k.procs[i].heapTop + n <= MMAPBASE
    case MapFile(i, size) => k.procs[i].mapped.NoMap? && size <= MAX_MMAP
    case Replace(i, loaded, contents) => k.pool.free != [] && |contents| == PAGE_WORDS
    case Spawn(i, c, off) =>
      && c < |k.procs| && k.procs[c].NoImage? && ForkReturns(k, i)
      && off + 32 <= |FrameAt(k, k.procs[i].stack)| && KERN_FIRST < k.etext < RAM_END
    case Reap(i, order) => Reapable(k, i, order)
  }

  /** The code's step: whether it went through, and whether a fault on the way was handled. */
  ghost function Step(k: Kernel, a: Act): Access
    requires Enabled(k, a)
  {
    match a
    case Store(i, v, off, val, contents) => StoreAccess(k, i, v, off, val, contents)
    case Load(i, v, contents) => LoadAccess(k, i, v, contents).access
    case Grow(i, n) => Access(true, false, Sbrk(k, i, n))
    case MapFile(i, size) => Access(true, false, Mmap(k, i, size))
    case Replace(i, loaded, contents) => Access(loaded, false, Exec(k, i, loaded, contents))
    case Spawn(i, c, off) => Access(|k.pool.free| >= FORK_PAGES, false, Fork(k, i, c, off))
    case Reap(i, order) => Access(true, false, FreeImage(k, i, order))
  }

  /** How a step came out. */
  datatype Effect = Effect(done: bool, faulted: bool)

  function EffectOf(o: Access): Effect { Effect(o.done, o.faulted) }

  /** The same action on flat memories, with fork copying everything. */
  function EagerStep(fs: seq<Flat>, a: Act, e: Effect): seq<Flat> {
    if a.i >= |fs| then fs
    else if a.Reap? then fs[a.i := Dead]
    else if fs[a.i].Dead? then fs
    else
      var f := fs[a.i];
      match a
      case Store(i, v, off, val, contents) => fs[i := StoreEffect(f, v, off, val, contents, e.done, e.faulted)]
      case Load(i, v, contents) => fs[i := Faulted(f, v, contents, e.faulted)]
      case Grow(i, n) => fs[i := GrownHeap(f, n)]
      case MapFile(i, size) => fs[i := WithFile(f, size)]
      case Replace(i, loaded, contents) => if e.done then fs[i := Replaced(f, contents)] else fs
      case Spawn(i, c, off) => if e.done && c < |fs| && off + 32 <= |f.stack| then fs[c := Copied(f, off)] else fs
      case Reap(i, order) => fs
  }

  lemma SpawnRefines(k: Kernel, i: nat, c: nat, off: nat)
    requires Inv(k) && Enabled(k, Spawn(i, c, off))
    ensures KERN_FIRST < k.etext < RAM_END && Inv(Fork(k, i, c, off))
    ensures Abs(Fork(k, i, c, off)) == EagerStep(Abs(k), Spawn(i, c, off), Effect(|k.pool.free| >= FORK_PAGES, false))
  {
    hide Inv, AbsOf, Fork, FrameAt, Copied;
    ForkAbs(k, i, c, off);
    EmptySlot(k, c);
    assert Abs(k)[i] == AbsOf(k, i) && Abs(k)[c] == AbsOf(k, c);
    assert Abs(k)[c := Dead] == Abs(k);
  }

  lemma EmptySlot(k: Kernel, c: nat)
    requires c < |k.procs| && k.procs[c].NoImage?
    ensures AbsOf(k, c) == Dead
  {
  }

  /** Each step keeps the invariant and does to the flat memories what the eager system does. */
  lemma StepRefines(k: Kernel, a: Act)
    requires Inv(k) && Enabled(k, a)
    ensures var o := Step(k, a); Inv(o.k) && Abs(o.k) == EagerStep(Abs(k), a, EffectOf(o))
  {
    if a.Spawn? {
      SpawnRefines(k, a.i, a.c, a.off);
    } else if a.Reap? {
      hide Inv, AbsOf, FreeImage;
      ReapAbs(k, a.i, a.order);
    } else {
      OtherRefines(k, a);
    }
  }

  lemma OtherRefines(k: Kernel, a: Act)
    requires Inv(k) && Enabled(k, a) && !a.Spawn? && !a.Reap?
    ensures var o := Step(k, a); Inv(o.k) && Abs(o.k) == EagerStep(Abs(k), a, EffectOf(o))
  {
    hide Inv, AbsOf, FrameAt, StoreAccess, LoadAccess, Exec, Sbrk, Mmap, StoreEffect, Faulted, GrownHeap, Replaced,
         WithFile, InFlat, FlatPage;
    AbsLive(k, a.i);
    assert Abs(k)[a.i] == AbsOf(k, a.i);
    match a
    case Store(i, v, off, val, contents) => StoreAccessAbs(k, i, v, off, val, contents);
    case Load(i, v, contents) => LoadAccessAbs(k, i, v, contents);
    case Grow(i, n) => SbrkAbs(k, i, n);
    case MapFile(i, size) => MmapAbs(k, i, size);
    case Replace(i, loaded, contents) =>
      ExecInv(k, i, loaded, contents);
      if loaded { ExecAbs(k, i, contents); } else { ExecFailsAbs(k, i, contents); }
  }

  /** A run of the code: each state is the step of the one before. */
  ghost predicate Run(ks: seq<Kernel>, acts: seq<Act>, es: seq<Effect>) {
    && |ks| == |acts| + 1 && |es| == |acts| && Inv(ks[0])
    && forall n :: 0 <= n < |acts| ==> Follows(ks[n], acts[n], es[n], ks[n + 1])
  }

  ghost predicate Follows(k: Kernel, a: Act, e: Effect, k': Kernel) {
    Enabled(k, a) && Step(k, a) == Access(e.done, e.faulted, k')
  }

  lemma Prefix(ks: seq<Kernel>, acts: seq<Act>, es: seq<Effect>)
    requires Run(ks, acts, es) && acts != []
    ensures var n := |acts| - 1; Run(ks[..n + 1], acts[..n], es[..n]) && Follows(ks[n], acts[n], es[n], ks[n + 1])
  {
    hide Inv, Follows;
  }

  function EagerRun(fs: seq<Flat>, acts: seq<Act>, es: seq<Effect>): seq<Flat>
    requires |es| == |acts|
  {
    if acts == [] then fs
    else EagerStep(EagerRun(fs, acts[..|acts| - 1], es[..|acts| - 1]), acts[|acts| - 1], es[|acts| - 1])
  }

  /** Over every run, exact counts, private pages and every process's memory are those of eager fork. */
  lemma {:induction false} RunRefinesEager(ks: seq<Kernel>, acts: seq<Act>, es: seq<Effect>)
    requires Run(ks, acts, es)
    ensures |ks| == |acts| + 1 && |es| == |acts| && Inv(ks[|acts|]) && Abs(ks[|acts|]) == EagerRun(Abs(ks[0]), acts, es)
    decreases |acts|
  {
    assert |ks| == |acts| + 1 && |es| == |acts| && Inv(ks[0]);
    hide Inv, Enabled, Step, EagerStep, Abs, Run;
    if acts != [] {
      var n := |acts| - 1;
      Prefix(ks, acts, es);
      RunRefinesEager(ks[..n + 1], acts[..n], es[..n]);
      assert ks[..n + 1][n] == ks[n];
      StepRefines(ks[n], acts[n]);
    }
  }

  // ---- what the eager memories keep ----

  ghost predicate Sized(fs: seq<Flat>) { forall j :: 0 <= j < |fs| ==> SizedFlat(fs[j]) }

  predicate SizedAct(a: Act)
  {
    (a.Replace? ==> |a.contents| == PAGE_WORDS) && (a.Store? ==> |a.contents| == PAGE_WORDS)
      && (a.Load? ==> |a.contents| == PAGE_WORDS)
  }

  lemma EagerStepSized(fs: seq<Flat>, a: Act, e: Effect)
    requires Sized(fs) && SizedAct(a)
    ensures Sized(EagerStep(fs, a, e)) && |EagerStep(fs, a, e)| == |fs|
  {
  }

  lemma FollowsSized(k: Kernel, a: Act, e: Effect, k': Kernel)
    requires Inv(k) && Follows(k, a, e, k') && Sized(Abs(k))
    ensures Inv(k') && Sized(Abs(k'))
  {
    hide Inv, Step, EagerStep, Abs, Sized;
    StepRefines(k, a);
    EnabledSized(k, a);
    EagerStepSized(Abs(k), a, e);
  }

  lemma EnabledSized(k: Kernel, a: Act)
    requires Enabled(k, a)
    ensures SizedAct(a)
  {
  }

  /** Page sizes hold over every run. */
  lemma {:induction false} RunSized(ks: seq<Kernel>, acts: seq<Act>, es: seq<Effect>, n: nat)
    requires Run(ks, acts, es) && Sized(Abs(ks[0])) && n <= |acts|
    ensures Inv(ks[n]) && Sized(Abs(ks[n]))
  {
    hide Inv, Follows, Abs, Sized;
    if n > 0 {
      RunSized(ks, acts, es, n - 1);
      assert Follows(ks[n - 1], acts[n - 1], es[n - 1], ks[n - 1 + 1]);
      FollowsSized(ks[n - 1], acts[n - 1], es[n - 1], ks[n]);
    }
  }

  /** In every reachable state, exactly when a process's loads and stores go through. */
  lemma AccessInRun(ks: seq<Kernel>, acts: seq<Act>, es: seq<Effect>, n: nat, i: nat, v: nat, off: nat, val: nat,
                    contents: Frame)
    requires Run(ks, acts, es) && Sized(Abs(ks[0])) && n <= |acts| && Live(ks[n], i) && Runs(ks[n].procs[i])
    requires off < PAGE_WORDS && |contents| == PAGE_WORDS
    ensures LoadAccess(ks[n], i, v, contents).access.done <==> CanLoad(ks[n], i, v)
    ensures StoreAccess(ks[n], i, v, off, val, contents).done <==> CanStore(ks[n], i, v)
  {
    RunSized(ks, acts, es, n);
    assert SizedFlat(AbsOf(ks[n], i)) by { assert Abs(ks[n])[i] == AbsOf(ks[n], i); }
    hide Inv, Run, AbsOf, SizedFlat, LoadAccess, StoreAccess, CanLoad, CanStore, Sized;
    LoadGoesThrough(ks[n], i, v, contents);
    StoreGoesThrough(ks[n], i, v, off, val, contents);
  }

  // ---- a loaded page of a mapped file ----

  /** Page v of process j's mapped file is loaded and holds these bytes. */
  ghost predicate HasPage(f: Flat, v: nat, bytes: Frame) { f.Flat? && v in f.pages && f.pages[v] == bytes }

  /** The action takes process j's mapping away: a successful exec, or its parent's wait. */
  predicate Unmaps(a: Act, e: Effect, j: nat) { a.i == j && ((a.Replace? && e.done) || a.Reap?) }

  lemma EagerKeepsPage(fs: seq<Flat>, a: Act, e: Effect, j: nat, v: nat, bytes: Frame)
    requires j < |fs| && HasPage(fs[j], v, bytes) && !Unmaps(a, e, j) && (a.Spawn? ==> a.c != j)
    requires a.i == j && (a.Store? || a.Load?) && a.v == v ==> !e.faulted
    ensures |EagerStep(fs, a, e)| == |fs| && HasPage(EagerStep(fs, a, e)[j], v, bytes)
  {
  }

  /** A fault on a loaded page is never handled, so nothing is loaded over it. */
  lemma LoadedFaultsNot(k: Kernel, i: nat, v: nat, store: bool, contents: Frame)
    requires Inv(k) && Live(k, i) && Runs(k.procs[i]) && AbsOf(k, i).Flat? && v in AbsOf(k, i).pages
    ensures !PageFault(k, i, v, store, contents).handled
  {
    InvImage(k, i);
    assert MmapVpn(k.procs[i], v) && v in k.procs[i].t.ptes;
    hide Inv, GoodImage, AbsOf, CowFault, DemandPage, ZeroFrame;
    PlacesOf(k.procs[i], v);
    FileLeaf(k.procs[i], v);
    CowFaultInv(k, i, v);
    DemandPageInv(k, i, v, contents, RU);
  }

  lemma FileLeaf(img: Image, v: nat)
    requires GoodImage(img) && img.Image? && MmapVpn(img, v) && v in img.t.ptes
    ensures img.t.ptes[v].perm == RU
  {
    Layout(img, v);
    assert PlaceOk(img, v, img.t.ptes[v].perm);
  }

  lemma NotFaulted(k: Kernel, a: Act)
    requires Inv(k) && Enabled(k, a) && (a.Store? || a.Load?) && a.v in AbsOf(k, a.i).pages
    ensures !Step(k, a).faulted
  {
    hide Inv, PageFault, StoreWord, Writable, Readable;
    LoadedFaultsNot(k, a.i, a.v, a.Store?, a.contents);
  }

  lemma StepKeepsPage(k: Kernel, a: Act, e: Effect, k': Kernel, j: nat, v: nat, bytes: Frame)
    requires Inv(k) && Follows(k, a, e, k') && j < |k.procs| && HasPage(AbsOf(k, j), v, bytes) && !Unmaps(a, e, j)
    ensures Inv(k') && j < |k'.procs| && HasPage(AbsOf(k', j), v, bytes)
  {
    hide Inv, AbsOf, Step, EagerStep, Runs;
    StepRefines(k, a);
    if a.i == j && (a.Store? || a.Load?) && a.v == v { NotFaulted(k, a); }
    if a.Spawn? { EmptySlot(k, a.c); }
    assert Abs(k)[j] == AbsOf(k, j);
    EagerKeepsPage(Abs(k), a, e, j, v, bytes);
    assert |Abs(k')| == |k'.procs| && Abs(k')[j] == AbsOf(k', j);
  }

  /**
    Over every run a loaded page of a mapped file keeps its bytes, whatever anybody does, until
    its process execs or is reaped.
   */
  lemma {:induction false} LoadedPageStays(ks: seq<Kernel>, acts: seq<Act>, es: seq<Effect>, j: nat, v: nat,
                                           bytes: Frame, n: nat)
    requires Run(ks, acts, es) && j < |ks[0].procs| && HasPage(AbsOf(ks[0], j), v, bytes)
    requires n <= |acts| && forall m :: 0 <= m < n ==> !Unmaps(acts[m], es[m], j)
    ensures Inv(ks[n]) && j < |ks[n].procs| && HasPage(AbsOf(ks[n], j), v, bytes)
  {
    hide Inv, Follows, AbsOf, HasPage, Unmaps;
    if n > 0 {
      LoadedPageStays(ks, acts, es, j, v, bytes, n - 1);
      assert Follows(ks[n - 1], acts[n - 1], es[n - 1], ks[n - 1 + 1]);
      StepKeepsPage(ks[n - 1], acts[n - 1], es[n - 1], ks[n], j, v, bytes);
    }
  }

  /** In every reachable state a writable user page of one process is held by no other. */
  lemma WritableAlone(ks: seq<Kernel>, acts: seq<Act>, es: seq<Effect>, i: nat, v: nat)
    requires Run(ks, acts, es) && Live(ks[|acts|], i)
    requires var t := ks[|acts|].procs[i].t; v in t.ptes && t.ptes[v].perm.u && t.ptes[v].perm.w
    ensures var k := ks[|acts|]; forall j :: 0 <= j < |k.procs| && j != i ==>
            k.procs[i].t.ptes[v].ppn !in Held(k.procs[j])
  {
    hide Inv, Run, EagerRun, GoodImage, PrivatePages, Held;
    RunRefinesEager(ks, acts, es);
    InvImage(ks[|acts|], i);
    WritableIsPrivate(ks[|acts|].procs[i], v);
    PrivateAlone(ks[|acts|], i, ks[|acts|].procs[i].t.ptes[v].ppn);
  }
}
