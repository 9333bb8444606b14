/**
  Page conservation: free pages are exactly those nobody holds, and a child's whole life
  gives back every page it took.
 */
module CowLife {
  import opened Kalloc
  import opened Paging
  import opened Images
  import opened ProcTable
  import opened Cow
  import opened CowSafety
  import opened CowFork
  import opened CowRefine
  import opened CowRuns

  function AllHeld(procs: seq<Image>): set<nat> {
    if procs == [] then {} else Held(procs[0]) + AllHeld(procs[1..])
  }

  lemma {:induction false} InAllHeld(procs: seq<Image>, p: nat)
    ensures p in AllHeld(procs) <==> exists i :: 0 <= i < |procs| && p in Held(procs[i])
  {
    hide Held;
    if procs != [] {
      InAllHeld(procs[1..], p);
      if i :| 0 <= i < |procs| && p in Held(procs[i]) {
        assert i > 0 ==> procs[i] == procs[1..][i - 1];
      }
    }
  }

  lemma {:induction false} NoDupSize(s: seq<nat>)
    requires NoDup(s)
    ensures |SetOf(s)| == |s|
  {
    if s != [] {
      NoDupSize(s[1..]);
      assert s == [s[0]] + s[1..];
      assert SetOf(s) == {s[0]} + SetOf(s[1..]);
    }
  }

  /** Everything held by the kernel and the live images. */
  function InUse(k: Kernel): set<nat> { k.kern + AllHeld(k.procs) }

  lemma {:induction false} HoldersSome(procs: seq<Image>, p: nat)
    ensures Holders(procs, p) == 0 <==> p !in AllHeld(procs)
  {
    hide Held;
    if procs != [] { HoldersSome(procs[1..], p); }
  }

  lemma InUseIff(k: Kernel, p: nat)
    requires Inv(k)
    ensures p in InUse(k) ==> Managed(p, k.first)
    ensures Managed(p, k.first) ==> (p in k.pool.free <==> p !in InUse(k))
  {
    assert Acct(k.pool, k.first, k.procs, k.kern);
    hide Inv, GoodImage, Held, Exclusive;
    HoldersSome(k.procs, p);
    InAllHeld(k.procs, p);
  }

  lemma FreeManaged(k: Kernel, p: nat)
    requires Inv(k) && p in k.pool.free
    ensures Managed(p, k.first)
  {
    hide GoodImage, Held, Exclusive;
  }

  /** The free list and the pages in use split the managed memory between them. */
  lemma FreeIsUnused(k: Kernel)
    requires Inv(k) && RAM_FIRST <= k.first <= RAM_END
    ensures SetOf(k.pool.free) == Span(k.first, RAM_END) - InUse(k) && InUse(k) <= Span(k.first, RAM_END)
  {
    hide Inv, InUse;
    forall p ensures p in InUse(k) ==> p in Span(k.first, RAM_END) {
      InUseIff(k, p);
    }
    forall p ensures p in SetOf(k.pool.free) <==> p in Span(k.first, RAM_END) - InUse(k) {
      InUseIff(k, p);
      if p in k.pool.free { FreeManaged(k, p); }
    }
  }

  /** freecnt plus the number of pages in use is the same in every reachable state. */
  lemma Conservation(k: Kernel)
    requires Inv(k) && RAM_FIRST <= k.first <= RAM_END
    ensures |k.pool.free| + |InUse(k)| == RAM_END - k.first
  {
    FreeIsUnused(k);
    assert NoDup(k.pool.free);
    NoDupSize(k.pool.free);
    SpanSize(k.first, RAM_END);
    var all, used := Span(k.first, RAM_END), InUse(k);
    hide Inv, Span, InUse;
    assert all == (all - used) + used;
  }

  // ---- a step of one process leaves the other images alone ----

  lemma {:induction false} FreeRangeFixed(k: Kernel, i: nat, v: nat, end: nat)
    requires Live(k, i)
    ensures var r := FreeRange(k, i, v, end); r.kern == k.kern && r.first == k.first
    decreases end - v
  {
    if v < end { FreeRangeFixed(FreeLeaf(k, i, v), i, v + 1, end); }
  }

  lemma {:induction false} FreeAllFixed(k: Kernel, ps: seq<nat>)
    ensures FreeAll(k, ps).kern == k.kern && FreeAll(k, ps).first == k.first
    decreases |ps|
  {
    if ps != [] { FreeAllFixed(FreePage(k, ps[0]), ps[1..]); }
  }

  lemma FreeRegionsFixed(k: Kernel, i: nat)
    requires Live(k, i)
    ensures FreeHeap(k, i).kern == k.kern && FreeHeap(k, i).first == k.first
    ensures FreeMap(k, i).kern == k.kern && FreeMap(k, i).first == k.first
  {
    FreeRangeFixed(k, i, HEAP_VPN, PageEnd(k.procs[i].heapTop));
    if k.procs[i].mapped.MapOf? { FreeRangeFixed(k, i, MMAP_VPN, MMAP_VPN + PageEnd(k.procs[i].mapped.size)); }
  }

  lemma ClearFixed(k: Kernel, i: nat)
    requires Live(k, i)
    ensures ClearImage(k, i).kern == k.kern && ClearImage(k, i).first == k.first
  {
    hide FreeHeap, FreeMap;
    FreeRegionsFixed(k, i);
    var k1 := FreeHeap(k, i);
    FreeRegionsFixed(k1.(procs := k1.procs[i := k1.procs[i].(heapTop := HEAPBASE)]), i);
  }

  lemma ReapFixed(k: Kernel, i: nat, order: seq<nat>)
    requires Occupied(k, i)
    ensures FreeImage(k, i, order).kern == k.kern && FreeImage(k, i, order).first == k.first
  {
    hide FreeHeap, FreeMap, FreeAll;
    if k.procs[i].Tableless? {
      FreeAllFixed(k.(procs := k.procs[i := NoImage]), HalfPages(k.procs[i]));
    } else {
      FreeRegionsFixed(k, i);
      FreeRegionsFixed(FreeHeap(k, i), i);
      var k1 := FreeMap(FreeHeap(k, i), i);
      FreeAllFixed(k1.(procs := k1.procs[i := NoImage]), LastPages(k1.procs[i], order));
    }
  }

  /** Only slot i changed. */
  predicate Local(k: Kernel, k': Kernel, i: nat) {
    && i < |k.procs| == |k'.procs| && k'.kern == k.kern && k'.first == k.first
    && forall j :: 0 <= j < |k.procs| && j != i ==> k'.procs[j] == k.procs[j]
  }

  lemma FaultLocal(k: Kernel, i: nat, v: nat, store: bool, contents: Frame)
    requires Live(k, i)
    ensures Local(k, PageFault(k, i, v, store, contents).k, i)
  {
    hide MapPage, Taken, Freed, ZeroFrame;
  }

  lemma ExecLocal(k: Kernel, i: nat, loaded: bool, contents: Frame)
    requires Inv(k) && Live(k, i) && k.pool.free != []
    ensures Local(k, Exec(k, i, loaded, contents), i)
  {
    hide Inv, InvWith, GoodImage, Held, ClearImage, FrameAt, NoMapLeaf, Taken, Freed, Shrinks, Ref;
    var k1 := TakePage(k, contents);
    TakeOne(k, contents);
    ClearInv(k1, i, k.pool.free[0]);
    ClearFixed(k1, i);
    assert Local(k, ClearImage(k1, i), i);
  }

  lemma ReapLocal(k: Kernel, i: nat, order: seq<nat>)
    requires Inv(k) && Reapable(k, i, order)
    ensures Local(k, FreeImage(k, i, order), i) && FreeImage(k, i, order).procs[i].NoImage?
  {
    hide Inv, FreeImage, Shrinks;
    FreeImageInv(k, i, order);
    ReapFixed(k, i, order);
  }

  lemma StoreLocal(k: Kernel, i: nat, v: nat, off: nat, val: nat, contents: Frame)
    requires Live(k, i)
    ensures Local(k, StoreAccess(k, i, v, off, val, contents).k, i)
  {
    hide PageFault, FrameAt;
    FaultLocal(k, i, v, true, contents);
  }

  lemma LoadLocal(k: Kernel, i: nat, v: nat, contents: Frame)
    requires Live(k, i)
    ensures Local(k, LoadAccess(k, i, v, contents).access.k, i)
  {
    hide PageFault, FrameAt;
    FaultLocal(k, i, v, false, contents);
  }

  lemma StepLocal(k: Kernel, a: Act)
    requires Inv(k) && Enabled(k, a) && !a.Spawn?
    ensures Local(k, Step(k, a).k, a.i)
  {
    hide Inv, StoreAccess, LoadAccess, Exec, FreeImage, FrameAt, NoDup, SetOf, Nodes;
    match a
    case Store(i, v, off, val, contents) => StoreLocal(k, i, v, off, val, contents);
    case Load(i, v, contents) => LoadLocal(k, i, v, contents);
    case Grow(i, n) =>
    case MapFile(i, size) =>
    case Replace(i, loaded, contents) => ExecLocal(k, i, loaded, contents);
    case Reap(i, order) => ReapLocal(k, i, order);
  }

  // ---- the pages in use without slot c ----

  function Without(k: Kernel, c: nat): set<nat>
    requires c < |k.procs|
  {
    k.kern + AllHeld(k.procs[c := NoImage])
  }

  lemma WithoutSame(k: Kernel, k': Kernel, c: nat)
    requires c < |k.procs| == |k'.procs| && k'.kern == k.kern
    requires forall j :: 0 <= j < |k.procs| && j != c ==> Held(k'.procs[j]) == Held(k.procs[j])
    ensures Without(k', c) == Without(k, c)
  {
    hide Held, AllHeld;
    var a, b := k.procs[c := NoImage], k'.procs[c := NoImage];
    forall p ensures p in AllHeld(a) <==> p in AllHeld(b) {
      InAllHeld(a, p);
      InAllHeld(b, p);
      forall j | 0 <= j < |a| ensures Held(a[j]) == Held(b[j]) { }
    }
    assert AllHeld(a) == AllHeld(b);
  }

  /** Slot i gains pages nobody else holds. */
  lemma WithoutGrows(k: Kernel, k': Kernel, c: nat, i: nat)
    requires c < |k.procs| == |k'.procs| && i < |k.procs| && i != c && Local(k, k', i) && Inv(k')
    requires Held(k.procs[i]) <= Held(k'.procs[i]) <= Held(k.procs[i]) + PrivatePages(k'.procs[i])
    ensures |Without(k', c)| + |Held(k.procs[i])| == |Without(k, c)| + |Held(k'.procs[i])|
  {
    hide Inv, Held, PrivatePages, AllHeld, Without;
    var more := Held(k'.procs[i]) - Held(k.procs[i]);
    forall p | p in more ensures p !in Without(k, c) {
      NewIsApart(k, k', c, i, p);
    }
    WithoutPlus(k, k', c, i, more);
    assert Held(k'.procs[i]) == Held(k.procs[i]) + more;
  }

  lemma NewIsApart(k: Kernel, k': Kernel, c: nat, i: nat, p: nat)
    requires c < |k.procs| == |k'.procs| && i < |k.procs| && i != c && Local(k, k', i) && Inv(k')
    requires p in PrivatePages(k'.procs[i]) && p in Held(k'.procs[i]) && p !in Held(k.procs[i])
    ensures p !in Without(k, c)
  {
    hide Inv, Held, PrivatePages, AllHeld;
    PrivateAlone(k', i, p);
    NotKern(k', i, p);
    InAllHeld(k.procs[c := NoImage], p);
    NothingHeld();
  }

  lemma WithoutPlus(k: Kernel, k': Kernel, c: nat, i: nat, more: set<nat>)
    requires c < |k.procs| == |k'.procs| && i < |k.procs| && i != c && Local(k, k', i)
    requires Held(k'.procs[i]) == Held(k.procs[i]) + more
    ensures Without(k', c) == Without(k, c) + more
  {
    hide Held, AllHeld;
    var a, b := k.procs[c := NoImage], k'.procs[c := NoImage];
    forall p ensures p in AllHeld(b) <==> p in AllHeld(a) || p in more {
      InAllHeld(a, p);
      InAllHeld(b, p);
      assert forall j :: 0 <= j < |a| && j != i ==> a[j] == b[j];
      assert p in more ==> p in Held(b[i]);
      assert forall j :: 0 <= j < |a| && p in Held(a[j]) ==> p in Held(b[j]);
    }
  }

  lemma NotKern(k: Kernel, i: nat, p: nat)
    requires Inv(k) && i < |k.procs| && p in Held(k.procs[i])
    ensures p !in k.kern
  {
    hide GoodImage, Held, Exclusive, Acct;
  }

  // ---- demand faults only add private pages ----

  lemma ValuesGrow(m: map<nat, nat>, k: nat, v: nat)
    requires k !in m
    ensures m.Values <= m[k := v].Values
  {
    ValuesInsert(m, k, v);
  }

  lemma WalkGrows(t: Table, pool: Pool, v: nat)
    ensures Nodes(t) <= Nodes(Walk(t, pool, v).t)
  {
    var g := WalkMid(t, pool, v);
    if MidKey(v) !in t.mids && pool.free != [] { ValuesGrow(t.mids, MidKey(v), pool.free[0]); }
    if g.ok && LowKey(v) !in g.t.lows && g.pool.free != [] { ValuesGrow(g.t.lows, LowKey(v), g.pool.free[0]); }
  }

  lemma MapPageGrows(t: Table, pool: Pool, v: nat, pte: Pte)
    ensures Nodes(t) <= Nodes(MapPage(t, pool, v, pte).t)
  {
    hide Walk;
    WalkGrows(t, pool, v);
  }

  /** The image with nodes added and perhaps one more private leaf. */
  lemma ImageGrows(img: Image, img': Image, v: nat, pte: Pte)
    requires img.Image? && img'.Image? && img' == img.(t := img'.t) && Nodes(img.t) <= Nodes(img'.t)
    requires img'.t.ptes == img.t.ptes
             || (v !in img.t.ptes && img'.t.ptes == img.t.ptes[v := pte] && v < USER_TOP && v != CODE_VPN
               && !pte.perm.cow)
    ensures Held(img) <= Held(img') <= Held(img) + PrivatePages(img')
  {
    hide Nodes;
    var t, t' := img.t, img'.t;
    forall w | w in t.ptes && w < USER_TOP ensures t.ptes[w].ppn in UserPages(t') {
      assert t'.ptes[w].ppn == t.ptes[w].ppn;
    }
    forall w | w in t'.ptes && w < USER_TOP ensures t'.ptes[w].ppn in Held(img) + PrivatePages(img') {
      if w in t.ptes { assert t.ptes[w].ppn in UserPages(t); } else { assert w == v && !Sharable(t', w); }
    }
  }

  lemma DemandGrows(k: Kernel, i: nat, v: nat, contents: Frame, perm: Perm)
    requires Live(k, i) && v < USER_TOP && v != CODE_VPN && !perm.cow
    ensures var k' := DemandPage(k, i, v, contents, perm).k;
            Live(k', i) && Held(k.procs[i]) <= Held(k'.procs[i]) <= Held(k.procs[i]) + PrivatePages(k'.procs[i])
  {
    hide Held, PrivatePages, Nodes, MapPage, Freed;
    if k.pool.free != [] {
      var pte := Pte(k.pool.free[0], perm);
      var img := k.procs[i];
      var g := MapPage(img.t, Taken(k.pool), v, pte);
      MapPageGrows(img.t, Taken(k.pool), v, pte);
      MapPageChangesOne(img.t, Taken(k.pool), v, pte);
      ImageGrows(img, img.(t := g.t), v, pte);
      assert DemandPage(k, i, v, contents, perm).k.procs[i] == img.(t := g.t);
    }
  }

  lemma FaultGrows(k: Kernel, i: nat, v: nat, store: bool, contents: Frame)
    requires Live(k, i) && GoodImage(k.procs[i]) && !(store && CowHandles(k, i, v))
    ensures var k' := PageFault(k, i, v, store, contents).k;
            Live(k', i) && Held(k.procs[i]) <= Held(k'.procs[i]) <= Held(k.procs[i]) + PrivatePages(k'.procs[i])
  {
    Layout(k.procs[i], v);
    hide Held, PrivatePages, DemandPage, GoodImage, ZeroFrame;
    if HeapVpn(k.procs[i], v) {
      DemandGrows(k, i, v, ZeroFrame(), RWU);
    } else if MmapVpn(k.procs[i], v) {
      DemandGrows(k, i, v, contents, RU);
    }
  }

  /** A load or store of process i. */
  predicate Touches(k: Kernel, a: Act, i: nat) { Live(k, i) && a.i == i && (a.Load? || a.Store?) }

  /** The access copies a shared page. */
  predicate Copies(k: Kernel, a: Act, i: nat) { Live(k, i) && a.i == i && a.Store? && CowHandles(k, i, a.v) }

  lemma TouchGrows(k: Kernel, a: Act, i: nat)
    requires Inv(k) && Enabled(k, a) && Touches(k, a, i) && !Copies(k, a, i)
    ensures var k' := Step(k, a).k;
            |k'.procs| == |k.procs| && Held(k.procs[i]) <= Held(k'.procs[i]) <= Held(k.procs[i])
              + PrivatePages(k'.procs[i])
  {
    hide Inv, Held, PrivatePages, PageFault, FrameAt, GoodImage;
    InvImage(k, i);
    FaultGrows(k, i, a.v, a.Store?, a.contents);
    FaultLocal(k, i, a.v, a.Store?, a.contents);
  }

  // ---- copies of shared pages ----

  /** The page that goes, and the page that comes. */
  lemma CopySwaps(k: Kernel, a: Act, i: nat)
    requires Inv(k) && Enabled(k, a) && Copies(k, a, i)
    ensures var k', q, p := Step(k, a).k, k.procs[i].t.ptes[a.v].ppn, k.pool.free[0];
            && |k'.procs| == |k.procs| && q in Held(k.procs[i]) && Held(k'.procs[i]) == Held(k.procs[i]) - {q} + {p}
            && p !in k.kern && forall j :: 0 <= j < |k.procs| ==> p !in Held(k.procs[j])
  {
    hide Inv, Held, PrivatePages, FrameAt, GoodImage, CowFault;
    var v, img := a.v, k.procs[i];
    InvImage(k, i);
    CowIsHeap(img, v);
    CowFaultEffect(k, i, v);
    HeapFits(img, v, CowCopy(k, i, v));
    SetLeafGood(img, v, CowCopy(k, i, v));
    HeadNotKern(k);
    NotWritable(k, i, v, a.off);
    StoredProcs(CowFault(k, i, v).k, i, v, a.off, a.val);
  }

  lemma NotWritable(k: Kernel, i: nat, v: nat, off: nat)
    requires Inv(k) && Live(k, i) && CowHandles(k, i, v)
    ensures !Writable(k, i, v, off)
  {
    hide Inv, GoodImage, FrameAt;
    InvImage(k, i);
    CowIsHeap(k.procs[i], v);
  }

  lemma StoredProcs(k: Kernel, i: nat, v: nat, off: nat, val: nat)
    requires Live(k, i)
    ensures StoreWord(k, i, v, off, val).procs == k.procs
  {
  }

  lemma HeadNotKern(k: Kernel)
    requires Inv(k) && k.pool.free != []
    ensures k.pool.free[0] !in k.kern
  {
    hide Inv, InvWith, Held;
    InvNone(k);
    TakeStep(k, {}, LostFrame());
  }

  /** Everything in use outside images i and c. */
  function Rest(k: Kernel, i: nat, c: nat): set<nat>
    requires i < |k.procs| && c < |k.procs|
  {
    k.kern + AllHeld(k.procs[c := NoImage][i := NoImage])
  }

  lemma WithoutSplits(k: Kernel, i: nat, c: nat)
    requires i < |k.procs| && c < |k.procs| && i != c
    ensures Without(k, c) == Rest(k, i, c) + Held(k.procs[i])
  {
    hide Held, AllHeld;
    var a, b := k.procs[c := NoImage], k.procs[c := NoImage][i := NoImage];
    forall p ensures p in AllHeld(a) <==> p in AllHeld(b) || p in Held(k.procs[i]) {
      InAllHeld(a, p);
      InAllHeld(b, p);
      NothingHeld();
      assert a[i] == k.procs[i] && forall j :: 0 <= j < |a| && j != i ==> b[j] == a[j];
    }
  }

  lemma RestSame(k: Kernel, k': Kernel, i: nat, c: nat)
    requires Local(k, k', i) && c < |k.procs|
    ensures Rest(k', i, c) == Rest(k, i, c)
  {
    assert k'.procs[c := NoImage][i := NoImage] == k.procs[c := NoImage][i := NoImage];
  }

  /** The old page stays in use: an image other than parent and child holds it. */
  ghost predicate ThirdHolds(k: Kernel, i: nat, c: nat, q: nat) {
    exists j :: 0 <= j < |k.procs| && j != i && j != c && q in Held(k.procs[j])
  }

  lemma RestIffThird(k: Kernel, i: nat, c: nat, q: nat)
    requires Inv(k) && i < |k.procs| && c < |k.procs| && i != c && q in Held(k.procs[i])
    ensures q in Rest(k, i, c) <==> ThirdHolds(k, i, c, q)
  {
    NotKern(k, i, q);
    hide Inv, Held, AllHeld;
    var b := k.procs[c := NoImage][i := NoImage];
    InAllHeld(b, q);
    NothingHeld();
    assert forall j :: 0 <= j < |b| && j != i && j != c ==> b[j] == k.procs[j];
    if j :| 0 <= j < |k.procs| && j != i && j != c && q in Held(k.procs[j]) { assert q in Held(b[j]); }
  }

  /** A copy costs one page exactly when a third image keeps the old one in use. */
  ghost function Cost(k: Kernel, a: Act, i: nat, c: nat): nat {
    if Copies(k, a, i) && ThirdHolds(k, i, c, k.procs[i].t.ptes[a.v].ppn) then 1 else 0
  }

  lemma SwapSizes(r: set<nat>, h: set<nat>, q: nat, p: nat)
    requires q in h && p !in h && p !in r
    ensures |h - {q} + {p}| == |h|
    ensures |r + (h - {q} + {p})| == |r + h| + (if q in r then 1 else 0)
  {
    assert h == (h - {q}) + {q};
    var base := r + (h - {q});
    assert r + (h - {q} + {p}) == base + {p};
    if q in r {
      assert r + h == base;
    } else {
      assert r + h == base + {q};
    }
  }

  lemma CopyBalance(k: Kernel, a: Act, i: nat, c: nat)
    requires Inv(k) && Enabled(k, a) && Copies(k, a, i) && i != c && c < |k.procs| && Local(k, Step(k, a).k, i)
    ensures Balance(Step(k, a).k, i, c) == Balance(k, i, c) + Cost(k, a, i, c)
  {
    hide Inv, Held, Step, Without, Enabled, Rest, ThirdHolds, AllHeld;
    var k', q, p := Step(k, a).k, k.procs[i].t.ptes[a.v].ppn, k.pool.free[0];
    CopySwaps(k, a, i);
    WithoutSplits(k, i, c);
    WithoutSplits(k', i, c);
    RestSame(k, k', i, c);
    RestIffThird(k, i, c, q);
    FreshNotRest(k, i, c, p);
    SwapSizes(Rest(k, i, c), Held(k.procs[i]), q, p);
  }

  lemma FreshNotRest(k: Kernel, i: nat, c: nat, p: nat)
    requires i < |k.procs| && c < |k.procs| && p !in k.kern && forall j :: 0 <= j < |k.procs| ==> p !in Held(k.procs[j])
    ensures p !in Rest(k, i, c)
  {
    hide Held, AllHeld;
    InAllHeld(k.procs[c := NoImage][i := NoImage], p);
    NothingHeld();
  }

  // ---- a child's life ----

  /** What may happen while the child lives: its own calls but fork, and any access of the parent. */
  ghost predicate LifeAct(k: Kernel, a: Act, i: nat, c: nat) {
    (a.i == c && !a.Spawn? && !a.Reap?) || Touches(k, a, i)
  }

  /** The pages in use without the child, less those of the parent. */
  function Balance(k: Kernel, i: nat, c: nat): int
    requires i < |k.procs| && c < |k.procs|
  {
    |Without(k, c)| - |Held(k.procs[i])|
  }

  lemma LifeStep(k: Kernel, a: Act, i: nat, c: nat)
    requires Inv(k) && Enabled(k, a) && LifeAct(k, a, i, c) && i != c && i < |k.procs| && c < |k.procs|
    ensures var k' := Step(k, a).k;
            && |k'.procs| == |k.procs| && k'.first == k.first
            && Balance(k', i, c) == Balance(k, i, c) + Cost(k, a, i, c)
            && (a.i == c ==> k'.procs[i] == k.procs[i] && Cost(k, a, i, c) == 0)
  {
    hide Inv, Held, Step, PrivatePages, Without, Enabled, ThirdHolds;
    assert !a.Spawn?;
    StepLocal(k, a);
    var k' := Step(k, a).k;
    if a.i == c {
      WithoutSame(k, k', c);
    } else if Copies(k, a, i) {
      CopyBalance(k, a, i, c);
    } else {
      TouchGrows(k, a, i);
      StepRefines(k, a);
      WithoutGrows(k, k', c, i);
    }
  }

  lemma ForkHeld(img: Image, t': Table)
    requires img.Image? && SamePlaces(img.t, t')
    ensures Held(img.(t := t')) == Held(img)
  {
    assert Nodes(t') == Nodes(img.t);
    assert UserPages(t') == UserPages(img.t) by {
      forall w | w in img.t.ptes && w < USER_TOP ensures img.t.ptes[w].ppn in UserPages(t') {
        assert w in t'.ptes.Keys && t'.ptes[w].ppn == img.t.ptes[w].ppn;
      }
      forall w | w in t'.ptes && w < USER_TOP ensures t'.ptes[w].ppn in UserPages(img.t) {
        assert w in t'.ptes.Keys && t'.ptes[w].ppn == img.t.ptes[w].ppn;
      }
    }
    hide Nodes, UserPages, SamePlaces;
  }

  /** fork leaves every other image with the pages it had. */
  lemma ForkBalance(k: Kernel, i: nat, c: nat, off: nat)
    requires Inv(k) && Enabled(k, Spawn(i, c, off))
    ensures KERN_FIRST < k.etext < RAM_END
    ensures var k' := Fork(k, i, c, off);
            |k'.procs| == |k.procs| && k'.first == k.first && Balance(k', i, c) == Balance(k, i, c)
              && Held(k'.procs[i]) == Held(k.procs[i])
  {
    hide Inv, Held, SamePlaces, Shared0, FrameAt, Without, Fork, Patched;
    InvEtext(k);
    ForkFixed(k, i, c, off);
    var k' := Fork(k, i, c, off);
    if |k.pool.free| == 1 {
      ForkNullInv(k, i, c, off);
    } else {
      ForkIsForked(k, i, c, off);
      ForkHeld(k.procs[i], k'.procs[i].t);
    }
    WithoutSame(k, k', c);
  }

  lemma ForkFixed(k: Kernel, i: nat, c: nat, off: nat)
    requires Live(k, i) && c < |k.procs| && c != i && k.pool.free != [] && off + 32 <= |FrameAt(k, k.procs[i].stack)|
    requires KERN_FIRST < k.etext < RAM_END
    ensures Fork(k, i, c, off).kern == k.kern && Fork(k, i, c, off).first == k.first
  {
    hide NewTable, CowShare, Shared, Taken, Patched, FrameAt;
  }

  lemma DeadCounts(k: Kernel, c: nat)
    requires c < |k.procs| && k.procs[c].NoImage?
    ensures Without(k, c) == InUse(k)
  {
    assert k.procs[c := NoImage] == k.procs;
  }

  ghost predicate LifeActs(ks: seq<Kernel>, acts: seq<Act>, i: nat, c: nat) {
    |ks| == |acts| + 1 && forall n :: 0 <= n < |acts| ==> LifeAct(ks[n], acts[n], i, c)
  }

  ghost predicate ByChild(acts: seq<Act>, c: nat) { forall n :: 0 <= n < |acts| ==> acts[n].i == c }

  /** What the parent's copies cost over the first n steps of a run. */
  ghost function Costs(ks: seq<Kernel>, acts: seq<Act>, i: nat, c: nat, n: nat): nat
    requires |ks| == |acts| + 1 && n <= |acts|
  {
    if n == 0 then 0 else Costs(ks, acts, i, c, n - 1) + Cost(ks[n - 1], acts[n - 1], i, c)
  }

  /** Between the ends of a life the balance has moved by the cost of the copies. */
  ghost predicate Level(k: Kernel, z: Kernel, i: nat, c: nat, byChild: bool, cost: nat) {
    && i < |k.procs| == |z.procs| && c < |k.procs| && Inv(z) && z.first == k.first
    && Balance(z, i, c) == Balance(k, i, c) + cost && (byChild ==> z.procs[i] == k.procs[i] && cost == 0)
  }

  /** Step n of a life. */
  lemma LifeAt(ks: seq<Kernel>, acts: seq<Act>, es: seq<Effect>, i: nat, c: nat, n: nat)
    requires Run(ks, acts, es) && LifeActs(ks, acts, i, c) && n < |acts|
    ensures Follows(ks[n], acts[n], es[n], ks[n + 1]) && LifeAct(ks[n], acts[n], i, c)
            && (ByChild(acts, c) ==> acts[n].i == c)
  {
    hide Follows, LifeAct, Inv;
  }

  lemma LevelStep(k: Kernel, y: Kernel, a: Act, e: Effect, z: Kernel, i: nat, c: nat, byChild: bool, cost: nat)
    requires Level(k, y, i, c, byChild, cost) && Follows(y, a, e, z) && LifeAct(y, a, i, c) && i != c
             && (byChild ==> a.i == c)
    ensures Level(k, z, i, c, byChild, cost + Cost(y, a, i, c))
  {
    hide Inv, Enabled, Step, LifeAct, Balance, EagerStep, Cost;
    LifeStep(y, a, i, c);
    StepRefines(y, a);
  }

  lemma LevelStart(k: Kernel, i: nat, c: nat, byChild: bool)
    requires Inv(k) && i < NPROC && c < NPROC
    ensures Level(k, k, i, c, byChild, 0)
  {
    InvEtext(k);
    hide Inv, Balance;
  }

  lemma CostsAt(ks: seq<Kernel>, acts: seq<Act>, i: nat, c: nat, n: nat)
    requires |ks| == |acts| + 1 && n <= |acts|
    ensures Costs(ks, acts, i, c, n) == if n == 0 then 0
            else Costs(ks, acts, i, c, n - 1) + Cost(ks[n - 1], acts[n - 1], i, c)
  {
    hide Cost;
  }

  /** The middle of the child's life. */
  lemma {:induction false} LifeRun(ks: seq<Kernel>, acts: seq<Act>, es: seq<Effect>, i: nat, c: nat, n: nat)
    requires Run(ks, acts, es) && LifeActs(ks, acts, i, c) && i != c && i < NPROC && c < NPROC && n <= |acts|
    ensures Level(ks[0], ks[n], i, c, ByChild(acts, c), Costs(ks, acts, i, c, n))
  {
    hide *;
    RunLength(ks, acts, es);
    CostsAt(ks, acts, i, c, n);
    if n == 0 {
      LevelStart(ks[0], i, c, ByChild(acts, c));
    } else {
      LifeRun(ks, acts, es, i, c, n - 1);
      LifeAt(ks, acts, es, i, c, n - 1);
      LevelStep(ks[0], ks[n - 1], acts[n - 1], es[n - 1], ks[n], i, c, ByChild(acts, c), Costs(ks, acts, i, c, n - 1));
    }
  }

  /** Two states without the child, and the balance between them. */
  lemma LevelCounts(k: Kernel, z: Kernel, i: nat, c: nat, cost: nat)
    requires Inv(k) && Inv(z) && RAM_FIRST <= k.first <= RAM_END && z.first == k.first
    requires i < |k.procs| == |z.procs| && c < |k.procs| && k.procs[c].NoImage? && z.procs[c].NoImage?
    requires Balance(z, i, c) == Balance(k, i, c) + cost
    ensures |z.pool.free| + |Held(z.procs[i])| + cost == |k.pool.free| + |Held(k.procs[i])|
  {
    hide Inv, Held, Without, InUse;
    DeadCounts(k, c);
    DeadCounts(z, c);
    Conservation(k);
    Conservation(z);
  }

  lemma ReapLevel(k: Kernel, y: Kernel, i: nat, c: nat, byChild: bool, cost: nat, order: seq<nat>)
    requires Reapable(y, c, order) && Level(k, y, i, c, byChild, cost) && i != c
    ensures Level(k, FreeImage(y, c, order), i, c, byChild, cost) && FreeImage(y, c, order).procs[c].NoImage?
  {
    hide Inv, Held, Without, FreeImage, Nodes, SetOf, NoDup;
    ReapLocal(y, c, order);
    var z := FreeImage(y, c, order);
    assert Inv(z) by { FreeImageInv(y, c, order); }
    WithoutSame(y, z, c);
  }

  lemma ReapStep(k: Kernel, c: nat, order: seq<nat>)
    requires Inv(k) && Enabled(k, Reap(c, order))
    ensures Reapable(k, c, order) && Step(k, Reap(c, order)) == Access(true, false, FreeImage(k, c, order))
  {
    hide Inv, FreeImage;
  }

  lemma SpawnStep(k: Kernel, i: nat, c: nat, off: nat)
    requires Inv(k) && Enabled(k, Spawn(i, c, off))
    ensures i < |k.procs| == NPROC && c < |k.procs| && i != c && k.procs[c].NoImage?
    ensures |Step(k, Spawn(i, c, off)).k.procs| == |k.procs| && Step(k, Spawn(i, c, off)).k.first == k.first
    ensures Balance(Step(k, Spawn(i, c, off)).k, i, c) == Balance(k, i, c)
            && Held(Step(k, Spawn(i, c, off)).k.procs[i]) == Held(k.procs[i])
  {
    hide Inv, Fork, Balance, Held;
    InvEtext(k);
    ForkBalance(k, i, c, off);
  }

  lemma RunLength(ks: seq<Kernel>, acts: seq<Act>, es: seq<Effect>)
    requires Run(ks, acts, es)
    ensures |ks| == |acts| + 1 && |es| == |acts| && Inv(ks[0])
  {
  }

  lemma LifeEnds(k: Kernel, x: Kernel, y: Kernel, i: nat, c: nat, byChild: bool, cost: nat, order: seq<nat>)
    requires Inv(k) && RAM_FIRST <= k.first <= RAM_END && i < |k.procs| && c < |k.procs| && i != c
             && k.procs[c].NoImage?
    requires |x.procs| == |k.procs| && x.first == k.first && Balance(x, i, c) == Balance(k, i, c)
             && Held(x.procs[i]) == Held(k.procs[i])
    requires Level(x, y, i, c, byChild, cost) && Enabled(y, Reap(c, order))
    ensures Inv(y)
    ensures var z := Step(y, Reap(c, order)).k;
            && |z.procs| == |k.procs|
            && |z.pool.free| + |Held(z.procs[i])| + cost == |k.pool.free| + |Held(k.procs[i])|
            && (byChild ==> |z.pool.free| == |k.pool.free|)
  {
    hide Inv, Enabled, Held, Balance, FreeImage, Step;
    ReapStep(y, c, order);
    ReapLevel(x, y, i, c, byChild, cost, order);
    LevelCounts(k, FreeImage(y, c, order), i, c, cost);
  }

  /**
    fork, any life of the child that does not fork, exit and wait: the free pages are what
    they were, less what the parent's own demand faults took meanwhile, and less one page
    for each of the parent's copies whose original a third process still holds.
   */
  lemma ChildLifetime(k: Kernel, off: nat, ks: seq<Kernel>, acts: seq<Act>, es: seq<Effect>, order: seq<nat>, i: nat,
                      c: nat)
    requires Inv(k) && RAM_FIRST <= k.first <= RAM_END && Enabled(k, Spawn(i, c, off))
    requires Run(ks, acts, es) && ks[0] == Step(k, Spawn(i, c, off)).k && LifeActs(ks, acts, i, c)
    requires Enabled(ks[|acts|], Reap(c, order))
    ensures Inv(ks[|acts|])
    ensures var z := Step(ks[|acts|], Reap(c, order)).k;
            && |z.procs| == |k.procs| && i < |k.procs|
            && |z.pool.free| + |Held(z.procs[i])| + Costs(ks, acts, i, c, |acts|) == |k.pool.free| + |Held(k.procs[i])|
            && (ByChild(acts, c) ==> |z.pool.free| == |k.pool.free|)
  {
    hide *;
    RunLength(ks, acts, es);
    SpawnStep(k, i, c, off);
    LifeRun(ks, acts, es, i, c, |acts|);
    LifeEnds(k, ks[0], ks[|acts|], i, c, ByChild(acts, c), Costs(ks, acts, i, c, |acts|), order);
  }
}
