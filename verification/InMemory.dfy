/**
  A kernel state as it lies in memory: the trees of all images and the contents of their
  pages.  Each lemma says that what one step of src/proc.c writes leaves memory holding the
  state that the operation of module Cow gives.
 */
module InMemory {
  import opened Kalloc
  import opened Paging
  import opened Images
  import opened ProcTable
  import opened Cow
  import opened CowSafety
  import opened CowFork
  import opened CowRefine
  import opened Sv39
  import opened Vm

  // ---- memory that holds a kernel state ----

  /** The pages whose contents matter to an image: what its leaves lead to, and its code and stack page. */
  function Seen(img: Image): set<nat>
    requires img.Image?
  {
    UserPages(img.t) + OwnPages(img)
  }

  /** Image j's tree and the contents of its pages are in memory. */
  ghost predicate Lies(mem: Memory, k: Kernel, j: nat) {
    && j < |k.procs|
    && (k.procs[j].Image? ==> Represents(mem, k.procs[j].t) && Contents(mem, k, Seen(k.procs[j])))
    && (k.procs[j].Tableless? ==> Contents(mem, k, Held(k.procs[j])))
  }

  ghost predicate Contents(mem: Memory, k: Kernel, ps: set<nat>) {
    forall p :: p in ps ==> p in mem && mem[p] == FrameAt(k, p)
  }

  ghost predicate RamThere(mem: Memory, first: nat) { forall p :: Managed(p, first) ==> p in mem }

  /** The kernel state k, with some pages in flight, is what memory and allocator hold. */
  ghost predicate Holds(mem: Memory, pool: Pool, k: Kernel, loose: set<nat>) {
    && InvWith(k, loose) && pool == k.pool && Sized(mem) && RamThere(mem, k.first)
    && forall j :: 0 <= j < |k.procs| ==> Lies(mem, k, j)
  }

  lemma LiesKept(mem: Memory, mem': Memory, k: Kernel, k': Kernel, j: nat, w: set<nat>)
    requires Lies(mem, k, j) && j < |k'.procs| && k'.procs[j] == k.procs[j]
    requires SameBut(mem, mem', w) && w !! Held(k.procs[j])
    requires forall x :: x in Held(k.procs[j]) ==> FrameAt(k', x) == FrameAt(k, x)
    ensures Lies(mem', k', j)
  {
    hide Represents, Nodes, UserPages, FrameAt;
    if k.procs[j].Image? {
      RepFrame(mem, mem', k.procs[j].t, w);
    }
  }

  /** Only image i changed, and only pages nobody else holds were written. */
  lemma HoldsStep(mem: Memory, mem': Memory, k: Kernel, k': Kernel, i: nat, w: set<nat>, loose: set<nat>,
                  loose': set<nat>)
    requires Holds(mem, k.pool, k, loose) && InvWith(k', loose') && i < |k.procs| == |k'.procs| && k'.first == k.first
    requires Sized(mem') && mem.Keys <= mem'.Keys && SameBut(mem, mem', w) && Lies(mem', k', i)
    requires forall j :: 0 <= j < |k.procs| && j != i ==> k'.procs[j] == k.procs[j] && w !! Held(k.procs[j])
    requires forall j, x :: 0 <= j < |k.procs| && j != i && x in Held(k.procs[j]) ==> FrameAt(k', x) == FrameAt(k, x)
    ensures Holds(mem', k'.pool, k', loose')
  {
    hide InvWith, Lies, Held, FrameAt, Sized;
    forall j | 0 <= j < |k.procs| ensures Lies(mem', k', j) {
      if j != i { LiesKept(mem, mem', k, k', j, w); }
    }
    assert forall p :: Managed(p, k.first) ==> p in mem.Keys;
  }

  // ---- what the invariant says about memory ----

  lemma FreeNotHeld(k: Kernel, loose: set<nat>, j: nat)
    requires InvWith(k, loose) && j < |k.procs|
    ensures SetOfFree(k.pool) !! Held(k.procs[j]) && NoDup(k.pool.free)
  {
    hide GoodImage, Held, Exclusive;
    forall p | p in Held(k.procs[j]) ensures p !in k.pool.free {
      HoldersBound(k.procs, p);
    }
  }

  lemma NodesPrivate(k: Kernel, loose: set<nat>, i: nat, j: nat)
    requires InvWith(k, loose) && Live(k, i) && j < |k.procs| && j != i
    ensures Nodes(k.procs[i].t) !! Held(k.procs[j])
  {
    hide Acct, GoodImage, Held, Nodes;
    forall p | p in Nodes(k.procs[i].t) ensures p !in Held(k.procs[j]) {
      assert p in PrivatePages(k.procs[i]);
    }
  }

  /** The tree of a live image, its leaves and the free list never meet. */
  lemma ImageApart(k: Kernel, loose: set<nat>, i: nat)
    requires InvWith(k, loose) && Live(k, i)
    ensures Apart(k.pool, k.procs[i].t) && Seen(k.procs[i]) !! Nodes(k.procs[i].t)
    ensures Seen(k.procs[i]) + Nodes(k.procs[i].t) <= Held(k.procs[i])
    ensures SetOfFree(k.pool) !! Seen(k.procs[i])
    ensures forall p :: p in Held(k.procs[i]) ==> Managed(p, k.first)
  {
    FreeNotHeld(k, loose, i);
    assert GoodImage(k.procs[i]) && Acct(k.pool, k.first, k.procs, k.kern + loose);
    hide InvWith, Nodes, UserPages, Seen, ShapeOk, LeavesOk, GoodPool;
    forall p | p in k.pool.free ensures p !in Nodes(k.procs[i].t) { assert p in SetOfFree(k.pool); }
  }

  lemma ImageLeaf(k: Kernel, loose: set<nat>, i: nat, v: nat)
    requires InvWith(k, loose) && Live(k, i) && v in k.procs[i].t.ptes && v < USER_TOP
    ensures var p := k.procs[i].t.ptes[v].ppn;
            p in Seen(k.procs[i]) && p !in Nodes(k.procs[i].t) && p !in k.pool.free && Managed(p, k.first)
  {
    ImageApart(k, loose, i);
    hide InvWith, Nodes, Held;
    var p := k.procs[i].t.ptes[v].ppn;
    assert p in UserPages(k.procs[i].t);
    assert p !in SetOfFree(k.pool);
  }

  lemma ImageShows(k: Kernel, loose: set<nat>, i: nat)
    requires InvWith(k, loose) && Live(k, i)
    ensures LeavesShow(k.procs[i].t)
  {
    var img := k.procs[i];
    assert GoodImage(img);
    hide InvWith, ShapeOk, PagesApart;
    forall v | v in img.t.ptes ensures img.t.ptes[v].perm.r {
      assert v != CODE_VPN && v != STACK_VPN ==> PlaceOk(img, v, img.t.ptes[v].perm);
    }
  }

  lemma LiesFacts(mem: Memory, pool: Pool, k: Kernel, loose: set<nat>, i: nat)
    requires Holds(mem, pool, k, loose) && Live(k, i)
    ensures Represents(mem, k.procs[i].t) && Contents(mem, k, Seen(k.procs[i]))
    ensures Apart(pool, k.procs[i].t) && pool == k.pool && Sized(mem)
  {
    hide InvWith, Represents, Contents, Apart, Sized;
    assert Lies(mem, k, i);
    ImageApart(k, loose, i);
  }

  // ---- a copy-on-write fault ----

  lemma CowFaultLies(mem: Memory, mem': Memory, k: Kernel, k': Kernel, i: nat, v: nat, f: nat)
    requires Live(k, i) && CowHandles(k, i, v) && v < USER_TOP && |k'.procs| == |k.procs| && f == k.pool.free[0]
    requires k'.procs == k.procs[i := k.procs[i].(t := SetPte(k.procs[i].t, v, CowCopy(k, i, v)))]
    requires Contents(mem, k, Seen(k.procs[i])) && FrameAt(k', f) == FrameAt(k, k.procs[i].t.ptes[v].ppn)
    requires forall x :: x in Held(k'.procs[i]) && x != f ==> FrameAt(k', x) == FrameAt(k, x)
    requires Copy(mem, k.procs[i].t, mem', k'.procs[i].t, k'.pool, k.procs[i].t.ptes[v].ppn, f)
    requires InvWith(k', {}) && Seen(k'.procs[i]) <= Seen(k.procs[i]) + {f}
             && k.procs[i].t.ptes[v].ppn in Seen(k.procs[i])
    ensures Lies(mem', k', i)
  {
    hide InvWith, Represents, Nodes, Seen, FrameAt, Held;
    ImageApart(k', {}, i);
    var t, t' := k.procs[i].t, k'.procs[i].t;
    forall p | p in Seen(k'.procs[i]) ensures p in mem' && mem'[p] == FrameAt(k', p) {
      if p != f { assert p !in Nodes(t) + {f} + SetOfFree(k'.pool); }
    }
  }

  lemma CowPages(t: Table, v: nat, pte: Pte)
    requires v in t.ptes && v < USER_TOP
    ensures UserPages(SetPte(t, v, pte)) <= UserPages(t) + {pte.ppn} && t.ptes[v].ppn in UserPages(t)
  {
    var t' := SetPte(t, v, pte);
    forall w | w in t'.ptes && w < USER_TOP ensures t'.ptes[w].ppn in UserPages(t) + {pte.ppn} {
      assert w != v ==> w in t.ptes && t'.ptes[w] == t.ptes[w];
    }
  }

  /** Everything a step of image i leaves alone. */
  ghost predicate Others(k: Kernel, k': Kernel, i: nat) {
    && |k'.procs| == |k.procs| && k'.first == k.first
    && (forall j :: 0 <= j < |k.procs| && j != i ==> k'.procs[j] == k.procs[j])
    && (forall j, x :: 0 <= j < |k.procs| && j != i && x in Held(k.procs[j]) ==> FrameAt(k', x) == FrameAt(k, x))
  }

  /** Writing to the tree of image i, to free pages and to pages that were free touches nobody else. */
  lemma WritesApart(k: Kernel, k': Kernel, loose: set<nat>, loose': set<nat>, i: nat, w: set<nat>)
    requires InvWith(k, loose) && InvWith(k', loose') && Live(k, i) && Others(k, k', i)
    requires w <= Nodes(k.procs[i].t) + SetOfFree(k.pool) + SetOfFree(k'.pool)
    ensures forall j :: 0 <= j < |k.procs| && j != i ==> w !! Held(k.procs[j])
  {
    hide InvWith, Nodes, Held, FrameAt, SetOfFree;
    forall j | 0 <= j < |k.procs| && j != i ensures w !! Held(k.procs[j]) {
      NodesPrivate(k, loose, i, j);
      FreeNotHeld(k, loose, j);
      FreeNotHeld(k', loose', j);
    }
  }

  lemma HoldsAfter(mem: Memory, mem': Memory, k: Kernel, k': Kernel, i: nat, w: set<nat>, loose: set<nat>,
                   loose': set<nat>)
    requires Holds(mem, k.pool, k, loose) && InvWith(k', loose') && Live(k, i) && Others(k, k', i) && Lies(mem', k', i)
    requires Sized(mem') && mem.Keys <= mem'.Keys && SameBut(mem, mem', w)
    requires w <= Nodes(k.procs[i].t) + SetOfFree(k.pool) + SetOfFree(k'.pool)
    ensures Holds(mem', k'.pool, k', loose')
  {
    hide InvWith, Nodes, Held, FrameAt, SetOfFree, Lies, Sized, SameBut;
    HoldsWith(mem, k.pool, k, loose);
    WritesApart(k, k', loose, loose', i, w);
    HoldsStep(mem, mem', k, k', i, w, loose, loose');
  }

  lemma CopyFacts(m0: Memory, t: Table, m: Memory, t': Table, pool': Pool, q: nat, f: nat)
    requires Copy(m0, t, m, t', pool', q, f)
    ensures SameBut(m0, m, Nodes(t) + {f} + SetOfFree(pool')) && Sized(m)
  {
    hide Represents, Apart, Nodes, Sized, SetOfFree;
  }

  lemma CowFaultOthers(k: Kernel, i: nat, v: nat)
    requires Inv(k) && Live(k, i) && CowHandles(k, i, v)
    ensures Others(k, Cow.CowFault(k, i, v).k, i) && Inv(Cow.CowFault(k, i, v).k)
  {
    hide Inv, FrameAt, Held, Cow.CowFault, Freed, Taken;
    CowFaultPool(k, i, v);
    CowFaultEffect(k, i, v);
    assert forall j, x :: 0 <= j < |k.procs| && j != i && x in Held(k.procs[j]) ==> x != k.pool.free[0];
  }

  lemma CowFaultHolds(mem: Memory, mem': Memory, k: Kernel, i: nat, v: nat)
    requires Holds(mem, k.pool, k, {}) && Live(k, i) && CowHandles(k, i, v)
    requires var t, q := k.procs[i].t, k.procs[i].t.ptes[v].ppn;
             Copy(mem, t, mem', SetPte(t, v, CowCopy(k, i, v)), Freed(Taken(k.pool), q), q, k.pool.free[0])
    requires mem.Keys <= mem'.Keys
    ensures Holds(mem', Freed(Taken(k.pool), k.procs[i].t.ptes[v].ppn), Cow.CowFault(k, i, v).k, {})
    ensures Cow.CowFault(k, i, v).k.pool == Freed(Taken(k.pool), k.procs[i].t.ptes[v].ppn)
  {
    hide Inv, InvWith, Nodes, UserPages, Seen, FrameAt, Held, Cow.CowFault, Freed, Taken, Lies, Contents, Sized, Holds,
         Others, Copy, SetOfFree;
    HoldsInv(mem, k.pool, k);
    var k', f := Cow.CowFault(k, i, v).k, k.pool.free[0];
    CowFaultPool(k, i, v);
    CowFaultOthers(k, i, v);
    InvNone(k');
    CopyFacts(mem, k.procs[i].t, mem', SetPte(k.procs[i].t, v, CowCopy(k, i, v)), k'.pool, k.procs[i].t.ptes[v].ppn, f);
    CowFaultHere(mem, mem', k, k', i, v, f);
    FirstIsFree(k.pool);
    HoldsAfter(mem, mem', k, k', i, Nodes(k.procs[i].t) + {f} + SetOfFree(k'.pool), {}, {});
  }

  lemma FirstIsFree(pool: Pool)
    requires pool.free != []
    ensures {pool.free[0]} <= SetOfFree(pool)
  {
  }

  lemma HoldsWith(mem: Memory, pool: Pool, k: Kernel, loose: set<nat>)
    requires Holds(mem, pool, k, loose)
    ensures InvWith(k, loose) && Sized(mem) && pool == k.pool
  {
    hide InvWith, Lies, Sized;
  }

  lemma HoldsInv(mem: Memory, pool: Pool, k: Kernel)
    requires Holds(mem, pool, k, {})
    ensures Inv(k) && InvWith(k, {})
  {
    hide Inv, InvWith, Lies, Sized;
    InvNone(k);
  }

  lemma CowFaultHere(mem: Memory, mem': Memory, k: Kernel, k': Kernel, i: nat, v: nat, f: nat)
    requires Holds(mem, k.pool, k, {}) && Live(k, i) && CowHandles(k, i, v) && f == k.pool.free[0]
             && k' == Cow.CowFault(k, i, v).k && Inv(k)
    requires var t, q := k.procs[i].t, k.procs[i].t.ptes[v].ppn;
             Copy(mem, t, mem', SetPte(t, v, CowCopy(k, i, v)), k'.pool, q, f)
    ensures Lies(mem', k', i)
  {
    hide Inv, InvWith, Nodes, UserPages, Seen, FrameAt, Held, Cow.CowFault, Freed, Taken, Lies, Contents, Holds, Copy;
    CowFaultEffect(k, i, v);
    InvNone(k);
    InvNone(k');
    HeapBelow(k, i, v);
    CowPages(k.procs[i].t, v, CowCopy(k, i, v));
    SeenGrows(k.procs[i], k'.procs[i].t, {f});
    SeenLeaf(k.procs[i], v);
    LiesFacts(mem, k.pool, k, {}, i);
    CowFaultLies(mem, mem', k, k', i, v, f);
  }

  lemma CowFaultPool(k: Kernel, i: nat, v: nat)
    requires Live(k, i) && CowHandles(k, i, v)
    ensures Cow.CowFault(k, i, v).k.pool == Freed(Taken(k.pool), k.procs[i].t.ptes[v].ppn)
            && Cow.CowFault(k, i, v).k.first == k.first
  {
    hide Freed, Taken;
  }

  lemma HeapBelow(k: Kernel, i: nat, v: nat)
    requires InvWith(k, {}) && Live(k, i) && HeapVpn(k.procs[i], v)
    ensures v < USER_TOP
  {
    assert GoodImage(k.procs[i]);
    Layout(k.procs[i], v);
  }

  /** Image i's view of memory after a step, from what was written. */
  lemma LiesBy(mem: Memory, mem': Memory, k: Kernel, k': Kernel, i: nat, w: set<nat>, extra: set<nat>)
    requires Live(k, i) && Live(k', i) && Contents(mem, k, Seen(k.procs[i])) && Represents(mem', k'.procs[i].t)
    requires Seen(k'.procs[i]) <= Seen(k.procs[i]) + extra && Contents(mem', k', Seen(k'.procs[i]) * extra)
    requires SameBut(mem, mem', w) && w !! (Seen(k'.procs[i]) - extra)
    requires forall x :: x in Seen(k'.procs[i]) && x !in extra ==> FrameAt(k', x) == FrameAt(k, x)
    ensures Lies(mem', k', i)
  {
    hide Represents, Seen, FrameAt;
    forall p | p in Seen(k'.procs[i]) ensures p in mem' && mem'[p] == FrameAt(k', p) {
      assert p in extra ==> p in Seen(k'.procs[i]) * extra;
    }
  }

  // ---- kalloc and kfree between steps ----

  lemma TakeHolds(mem: Memory, k: Kernel, contents: Frame)
    requires Holds(mem, k.pool, k, {}) && k.pool.free != [] && |contents| == PAGE_WORDS
    ensures var p, k1 := k.pool.free[0], TakePage(k, contents);
            Holds(mem[p := contents], k1.pool, k1, {p}) && Contents(mem[p := contents], k1, {p}) && p in mem
              && Managed(p, k.first)
  {
    hide Holds, Contents;
    TakeMore(mem, k, {}, contents);
    assert {} + {k.pool.free[0]} == {k.pool.free[0]};
  }

  /** The same with pages in flight already. */
  lemma TakeMore(mem: Memory, k: Kernel, loose: set<nat>, contents: Frame)
    requires Holds(mem, k.pool, k, loose) && k.pool.free != [] && |contents| == PAGE_WORDS
    ensures var p, k1 := k.pool.free[0], TakePage(k, contents);
            && Holds(mem[p := contents], k1.pool, k1, loose + {p}) && Contents(mem[p := contents], k1, {p})
            && p in mem && p !in loose && Managed(p, k.first)
            && (Contents(mem, k, loose) ==> Contents(mem[p := contents], k1, loose))
  {
    hide InvWith, Lies, FrameAt, Held, Represents, UserPages, Seen, Taken;
    var p, k1, mem' := k.pool.free[0], TakePage(k, contents), mem[k.pool.free[0] := contents];
    TakeStep(k, loose, contents);
    SetFrame(k, k1, p, contents);
    HeadManaged(k, loose);
    assert SameBut(mem, mem', {p});
    forall j | 0 <= j < |k1.procs| ensures Lies(mem', k1, j) {
      LiesKept(mem, mem', k, k1, j, {p});
    }
  }

  lemma HeadManaged(k: Kernel, loose: set<nat>)
    requires InvWith(k, loose) && k.pool.free != []
    ensures Managed(k.pool.free[0], k.first)
  {
    hide GoodImage, Held, Exclusive;
  }

  /** kfree of a page in flight. */
  lemma FreeHolds(mem: Memory, mem': Memory, k: Kernel, loose: set<nat>, p: nat)
    requires Holds(mem, k.pool, k, loose) && p in loose
    requires SameBut(mem, mem', {p}) && p in mem' && |mem'[p]| == PAGE_WORDS && (Ref(k.pool, p) > 1 ==> mem' == mem)
    ensures Holds(mem', Freed(k.pool, p), FreePage(k, p), loose - {p})
  {
    var k' := FreePage(k, p);
    FreedSet(k.pool, p);
    FreeStep(k, loose, p);
    assert Sized(mem') && RamThere(mem', k.first);
    hide InvWith, Lies, FrameAt, Held, Freed, SetOfFree;
    assert SameBut(mem, mem', SetOfFree(k'.pool));
    forall j | 0 <= j < |k.procs| ensures Lies(mem', k', j) {
      FreeNotHeld(k', loose - {p}, j);
      LiesKept(mem, mem', k, k', j, SetOfFree(k'.pool));
    }
  }

  // ---- demand paging ----

  lemma MapPagePages(t: Table, pool: Pool, v: nat, pte: Pte)
    requires v < USER_TOP
    ensures UserPages(MapPage(t, pool, v, pte).t) <= UserPages(t) + {pte.ppn}
    ensures !MapPage(t, pool, v, pte).ok ==> UserPages(MapPage(t, pool, v, pte).t) == UserPages(t)
  {
    var t' := MapPage(t, pool, v, pte).t;
    MapPageChangesOne(t, pool, v, pte);
    hide MapPage;
    forall w | w in t'.ptes && w < USER_TOP ensures t'.ptes[w].ppn in UserPages(t) + {pte.ppn} {
      assert w in t.ptes ==> t.ptes[w].ppn in UserPages(t);
    }
  }

  lemma CarriedFacts(m0: Memory, pool0: Pool, t: Table, m: Memory, g: Grown)
    requires Carried(m0, pool0, t, m, g)
    ensures Represents(m, g.t) && SameBut(m0, m, Nodes(g.t)) && Nodes(g.t) <= Nodes(t) + SetOfFree(pool0)
            && Nodes(t) <= Nodes(g.t)
    ensures Sized(m0) ==> Sized(m)
    ensures Apart(g.pool, g.t) && g.t.root == t.root && SetOfFree(g.pool) <= SetOfFree(pool0)
  {
    hide Represents, Apart, Nodes, Sized, SetOfFree;
  }

  /** What DemandPage leaves in memory, whether the mapping succeeded or the page went back. */
  lemma DemandHolds(mem: Memory, m2: Memory, m3: Memory, k: Kernel, i: nat, v: nat, contents: Frame, perm: Perm,
                    g: Grown)
    requires Holds(mem, k.pool, k, {}) && Live(k, i) && k.pool.free != [] && |contents| == PAGE_WORDS
    requires v < USER_TOP && v != CODE_VPN && v != STACK_VPN && PlaceOk(k.procs[i], v, perm)
    requires g == MapPage(k.procs[i].t, Taken(k.pool), v, Pte(k.pool.free[0], perm))
    requires Carried(mem[k.pool.free[0] := contents], Taken(k.pool), k.procs[i].t, m2, g)
    requires if g.ok then m3 == m2
             else SameBut(m2, m3, {k.pool.free[0]}) && k.pool.free[0] in m3 && |m3[k.pool.free[0]]| == PAGE_WORDS
    requires mem.Keys <= m3.Keys
    ensures var k' := DemandPage(k, i, v, contents, perm).k;
            Holds(m3, k'.pool, k', {}) && k'.pool == (if g.ok then g.pool else Freed(g.pool, k.pool.free[0]))
              && Live(k', i)
            && k'.procs == k.procs[i := k.procs[i].(t := g.t)] && DemandPage(k, i, v, contents, perm).handled == g.ok
  {
    HoldsInv(mem, k.pool, k);
    DemandShape(k, i, v, contents, perm, g);
    var k', p, t := DemandPage(k, i, v, contents, perm).k, k.pool.free[0], k.procs[i].t;
    hide Inv, InvWith, Nodes, UserPages, Seen, FrameAt, Held, DemandPage, MapPage, Freed, Taken, Lies, Contents, Holds,
         Carried, SetOfFree, Represents, PlaceOk, Sized;
    DemandPageInv(k, i, v, contents, perm);
    InvNone(k');
    DemandWrites(mem, m2, m3, k, i, contents, g);
    DemandHere(mem, m3, k, k', i, v, contents, perm, g);
    DemandOthers(k, i, v, contents, perm);
    HoldsAfter(mem, m3, k, k', i, Nodes(g.t) + {p}, {}, {});
  }

  lemma DemandShape(k: Kernel, i: nat, v: nat, contents: Frame, perm: Perm, g: Grown)
    requires Live(k, i) && k.pool.free != [] && g == MapPage(k.procs[i].t, Taken(k.pool), v, Pte(k.pool.free[0], perm))
    ensures var o := DemandPage(k, i, v, contents, perm);
            && o.handled == g.ok && o.k.procs == k.procs[i := k.procs[i].(t := g.t)] && o.k.first == k.first
            && o.k.pool == (if g.ok then g.pool else Freed(g.pool, k.pool.free[0]))
  {
    hide MapPage, Freed, Taken;
  }

  lemma DemandDry(k: Kernel, i: nat, v: nat, contents: Frame, perm: Perm)
    requires Live(k, i) && k.pool.free == []
    ensures DemandPage(k, i, v, contents, perm) == Outcome(false, k)
  {
  }

  lemma DemandOthers(k: Kernel, i: nat, v: nat, contents: Frame, perm: Perm)
    requires Inv(k) && Live(k, i) && v < USER_TOP && v != CODE_VPN && v != STACK_VPN && PlaceOk(k.procs[i], v, perm)
    ensures Others(k, DemandPage(k, i, v, contents, perm).k, i)
  {
    hide Inv, DemandPage, Held, FrameAt, MapPage, Taken, PlaceOk;
    DemandPageInv(k, i, v, contents, perm);
    if k.pool.free != [] {
      DemandShape(k, i, v, contents, perm, MapPage(k.procs[i].t, Taken(k.pool), v, Pte(k.pool.free[0], perm)));
    } else {
      DemandDry(k, i, v, contents, perm);
    }
  }

  lemma DemandWrites(mem: Memory, m2: Memory, m3: Memory, k: Kernel, i: nat, contents: Frame, g: Grown)
    requires Holds(mem, k.pool, k, {}) && Live(k, i) && k.pool.free != [] && |contents| == PAGE_WORDS
    requires Carried(mem[k.pool.free[0] := contents], Taken(k.pool), k.procs[i].t, m2, g)
    requires if g.ok then m3 == m2
             else SameBut(m2, m3, {k.pool.free[0]}) && k.pool.free[0] in m3 && |m3[k.pool.free[0]]| == PAGE_WORDS
    ensures SameBut(mem, m3, Nodes(g.t) + {k.pool.free[0]}) && Sized(m3) && k.pool.free[0] !in Nodes(g.t)
            && Represents(m3, g.t)
    ensures Nodes(g.t) + {k.pool.free[0]} <= Nodes(k.procs[i].t) + SetOfFree(k.pool)
    ensures g.ok ==> k.pool.free[0] in m3 && m3[k.pool.free[0]] == contents
  {
    hide Nodes, Represents, Holds, Carried, Apart, Taken, Sized, SetOfFree, Contents, UserPages, Seen, Ref;
    var p, t := k.pool.free[0], k.procs[i].t;
    LiesFacts(mem, k.pool, k, {}, i);
    CarriedFacts(mem[p := contents], Taken(k.pool), t, m2, g);
    TakenApart(k.pool, t);
    HeadTaken(k.pool, t);
    SizedSet(mem, p, contents);
    if !g.ok {
      RepFrame(m2, m3, g.t, {p});
      SizedBut(m2, m3, p);
    }
  }

  lemma HeadTaken(pool: Pool, t: Table)
    requires Apart(pool, t) && pool.free != []
    ensures pool.free[0] !in SetOfFree(Taken(pool)) && {pool.free[0]} <= SetOfFree(pool)
  {
    hide Nodes;
  }

  lemma SizedSet(m: Memory, p: nat, f: Frame)
    requires Sized(m) && |f| == PAGE_WORDS
    ensures Sized(m[p := f]) && SameBut(m, m[p := f], {p})
  {
  }

  lemma SizedBut(m: Memory, m': Memory, p: nat)
    requires Sized(m) && SameBut(m, m', {p}) && p in m' && |m'[p]| == PAGE_WORDS
    ensures Sized(m')
  {
  }

  lemma DemandHere(mem: Memory, m3: Memory, k: Kernel, k': Kernel, i: nat, v: nat, contents: Frame, perm: Perm,
                   g: Grown)
    requires Holds(mem, k.pool, k, {}) && Live(k, i) && k.pool.free != [] && Inv(k) && InvWith(k', {})
    requires v < USER_TOP && v != CODE_VPN && v != STACK_VPN && PlaceOk(k.procs[i], v, perm)
    requires g == MapPage(k.procs[i].t, Taken(k.pool), v, Pte(k.pool.free[0], perm))
             && k' == DemandPage(k, i, v, contents, perm).k
    requires k'.procs == k.procs[i := k.procs[i].(t := g.t)] && DemandPage(k, i, v, contents, perm).handled == g.ok
    requires SameBut(mem, m3, Nodes(g.t) + {k.pool.free[0]}) && Represents(m3, g.t)
    requires g.ok ==> k.pool.free[0] in m3 && m3[k.pool.free[0]] == contents
    ensures Lies(m3, k', i)
  {
    hide Inv, InvWith, Nodes, UserPages, Seen, FrameAt, Held, DemandPage, MapPage, Freed, Taken, Lies, Holds,
         SetOfFree, Represents, PlaceOk, Sized, Apart;
    var p, t := k.pool.free[0], k.procs[i].t;
    InvNone(k);
    LiesFacts(mem, k.pool, k, {}, i);
    DemandPageInv(k, i, v, contents, perm);
    MapPagePages(t, Taken(k.pool), v, Pte(p, perm));
    ImageApart(k, {}, i);
    ImageApart(k', {}, i);
    HeadNotHeld(k, i);
    var extra := if g.ok then {p} else {};
    SeenGrows(k.procs[i], g.t, extra);
    LiesBy(mem, m3, k, k', i, Nodes(g.t) + {p}, extra);
  }

  lemma SeenGrows(img: Image, t': Table, extra: set<nat>)
    requires img.Image? && UserPages(t') <= UserPages(img.t) + extra
    ensures Seen(img.(t := t')) <= Seen(img) + extra
  {
    hide UserPages;
  }

  lemma SeenLeaf(img: Image, v: nat)
    requires img.Image? && v in img.t.ptes && v < USER_TOP
    ensures img.t.ptes[v].ppn in Seen(img)
  {
  }

  lemma HeadNotHeld(k: Kernel, i: nat)
    requires Inv(k) && k.pool.free != [] && i < |k.procs|
    ensures k.pool.free[0] !in Held(k.procs[i])
  {
    hide Inv, InvWith, Held;
    InvNone(k);
    FreeNotHeld(k, {}, i);
    FirstIsFree(k.pool);
  }

  // ---- giving a range back ----

  lemma {:induction false} FreeRangeIsUnmap(k: Kernel, i: nat, v: nat, end: nat)
    requires Live(k, i)
    ensures var g, r := Unmap(k.procs[i].t, k.pool, v, end), Cow.FreeRange(k, i, v, end);
            g.ok && r.procs[i].t == g.t && r.pool == g.pool && r.first == k.first
    decreases end - v
  {
    hide Freed, Ref;
    if v < end {
      FreeRangeIsUnmap(FreeLeaf(k, i, v), i, v + 1, end);
    }
  }

  lemma RangeFreeable(mem: Memory, k: Kernel, loose: set<nat>, i: nat, v: nat, end: nat)
    requires Holds(mem, k.pool, k, loose) && Live(k, i) && end <= USER_TOP
    ensures Freeable(mem, k.pool, k.procs[i].t, v, end)
  {
    hide InvWith, Nodes, UserPages, Seen, Lies, Sized, GoodImage;
    var t := k.procs[i].t;
    ImageIsGood(k, loose, i);
    forall u | v <= u < end && u in t.ptes
      ensures InRam(t.ptes[u].ppn) && t.ptes[u].ppn in mem && t.ptes[u].ppn !in Nodes(t)
              && t.ptes[u].ppn !in k.pool.free {
      ImageLeaf(k, loose, i, u);
    }
    forall u, w | v <= u < w < end && u in t.ptes && w in t.ptes ensures t.ptes[u].ppn != t.ptes[w].ppn {
      LeafApart(k.procs[i], u, w);
    }
  }

  lemma FewerPages(t: Table, t': Table)
    requires forall w :: w in t'.ptes ==> w in t.ptes && t'.ptes[w] == t.ptes[w]
    ensures UserPages(t') <= UserPages(t)
  {
    forall w | w in t'.ptes && w < USER_TOP ensures t'.ptes[w].ppn in UserPages(t) {
      assert w in t.ptes;
    }
  }

  lemma ReclaimedFacts(m0: Memory, pool0: Pool, t: Table, m: Memory, g: Grown)
    requires Reclaimed(m0, pool0, t, m, g)
    ensures Represents(m, g.t) && g.t.root == t.root && Nodes(g.t) == Nodes(t) && m0.Keys <= m.Keys && Sized(m)
    ensures SameBut(m0, m, Nodes(t) + SetOfFree(g.pool))
  {
    hide Represents, Apart, Nodes, Sized, SetOfFree;
  }

  lemma ShrinksOthers(k: Kernel, r: Kernel, loose: set<nat>, i: nat, img: Image)
    requires Shrinks(k, r, loose) && i < |k.procs| && r.procs == k.procs[i := img] && r.first == k.first
    ensures Others(k, r, i)
  {
    hide Held, FrameAt;
    forall j, x | 0 <= j < |k.procs| && j != i && x in Held(k.procs[j]) ensures FrameAt(r, x) == FrameAt(k, x) {
      assert x in Held(r.procs[j]);
    }
  }

  lemma FlightNotFree(k: Kernel, loose: set<nat>)
    requires InvWith(k, loose)
    ensures loose !! SetOfFree(k.pool)
  {
    hide GoodImage, Held, Exclusive;
    forall p | p in loose ensures p !in k.pool.free {
      assert p in k.kern + loose;
    }
  }

  /** vm_free_range leaves memory holding the state with the range given back; pages in flight keep their contents. */
  lemma FreeRangeHolds(mem: Memory, mem': Memory, k: Kernel, loose: set<nat>, i: nat, v: nat, end: nat, g: Grown)
    requires Holds(mem, k.pool, k, loose) && Live(k, i) && STACK_VPN < v && end <= USER_TOP && loose !! Held(k.procs[i])
    requires g == Unmap(k.procs[i].t, k.pool, v, end) && Reclaimed(mem, k.pool, k.procs[i].t, mem', g)
    ensures var r := Cow.FreeRange(k, i, v, end);
            Holds(mem', g.pool, r, loose) && r.pool == g.pool && r.procs[i].t == g.t
            && (Contents(mem, k, loose) ==> Contents(mem', r, loose))
  {
    hide InvWith, Nodes, UserPages, Seen, Lies, Sized, Held, Cow.FreeRange, Unmap, Reclaimed, Holds, FrameAt,
         Represents, SetOfFree, Others, Apart, Contents;
    HoldsWith(mem, k.pool, k, loose);
    var r := Cow.FreeRange(k, i, v, end);
    FreeRangeIsUnmap(k, i, v, end);
    FreeRangeInv(k, loose, i, v, end);
    ReclaimedFacts(mem, k.pool, k.procs[i].t, mem', g);
    ShrinksOthers(k, r, loose, i, r.procs[i]);
    FewerPages(k.procs[i].t, g.t);
    assert UserPages(g.t) <= UserPages(k.procs[i].t) + {};
    SeenGrows(k.procs[i], g.t, {});
    RangeHere(mem, mem', k, r, loose, i);
    HoldsAfter(mem, mem', k, r, i, Nodes(k.procs[i].t) + SetOfFree(r.pool), loose, loose);
    FlightKept(mem, mem', k, r, loose, i);
  }

  lemma FlightKept(mem: Memory, mem': Memory, k: Kernel, r: Kernel, loose: set<nat>, i: nat)
    requires Live(k, i) && InvWith(r, loose) && Shrinks(k, r, loose) && loose !! Held(k.procs[i])
             && Nodes(k.procs[i].t) <= Held(k.procs[i])
    requires SameBut(mem, mem', Nodes(k.procs[i].t) + SetOfFree(r.pool))
    ensures Contents(mem, k, loose) ==> Contents(mem', r, loose)
  {
    hide InvWith, Nodes, Held, SetOfFree, FrameAt;
    FlightNotFree(r, loose);
  }

  lemma RangeHere(mem: Memory, mem': Memory, k: Kernel, r: Kernel, loose: set<nat>, i: nat)
    requires Holds(mem, k.pool, k, loose) && Live(k, i) && Live(r, i) && InvWith(r, loose) && Shrinks(k, r, loose)
    requires Represents(mem', r.procs[i].t) && Nodes(r.procs[i].t) == Nodes(k.procs[i].t)
             && Seen(r.procs[i]) <= Seen(k.procs[i])
    requires SameBut(mem, mem', Nodes(k.procs[i].t) + SetOfFree(r.pool))
    ensures Lies(mem', r, i) && Nodes(k.procs[i].t) <= Held(k.procs[i])
  {
    hide InvWith, Nodes, UserPages, Seen, Lies, Held, Holds, FrameAt, Represents, SetOfFree, Apart, Sized;
    HoldsWith(mem, k.pool, k, loose);
    LiesFacts(mem, k.pool, k, loose, i);
    ImageApart(r, loose, i);
    ImageApart(k, loose, i);
    assert Seen(r.procs[i]) * {} == {};
    LiesBy(mem, mem', k, r, i, Nodes(k.procs[i].t) + SetOfFree(r.pool), {});
  }

  // ---- exec ----

  /** Changing bookkeeping fields of an image writes no memory. */
  lemma RelabelHolds(mem: Memory, k: Kernel, loose: set<nat>, i: nat, img: Image)
    requires Holds(mem, k.pool, k, loose) && Live(k, i) && img.Image? && img.t == k.procs[i].t
             && img.code == k.procs[i].code && img.stack == k.procs[i].stack
    requires InvWith(k.(procs := k.procs[i := img]), loose)
    ensures Holds(mem, k.pool, k.(procs := k.procs[i := img]), loose)
    ensures Contents(mem, k, loose) ==> Contents(mem, k.(procs := k.procs[i := img]), loose)
  {
    hide InvWith, Represents, UserPages, Sized;
    var k' := k.(procs := k.procs[i := img]);
    FrameFields(k, k');
    forall j | 0 <= j < |k.procs| ensures Lies(mem, k', j) {
      assert Lies(mem, k, j);
    }
  }

  /** remap_user_code and the kfree of the old code page. */
  lemma SwapHolds(mem: Memory, m1: Memory, m2: Memory, k: Kernel, i: nat, p: nat)
    requires Holds(mem, k.pool, k, {p}) && Live(k, i) && Runs(k.procs[i]) && NoMapLeaf(k.procs[i])
             && GoodImage(k.procs[i]) && Contents(mem, k, {p})
    requires forall j :: 0 <= j < |k.procs| ==> p !in Held(k.procs[j])
    requires Carried(mem, k.pool, k.procs[i].t, m1, Grown(true, SetPte(k.procs[i].t, CODE_VPN, Pte(p, RXU)), k.pool))
    requires var q := k.procs[i].code;
             SameBut(m1, m2, {q}) && q in m2 && |m2[q]| == PAGE_WORDS && (Ref(k.pool, q) > 1 ==> m2 == m1)
               && mem.Keys <= m2.Keys
    ensures Holds(m2, Freed(k.pool, k.procs[i].code), SwapCode(k, i, p), {})
  {
    hide InvWith, UserPages, Seen, Nodes, Lies, Sized, Held, Holds, FrameAt, Represents, SetOfFree, Others, Apart,
         Contents, Carried, Freed, Ref, SwapCode, NoMapLeaf, GoodImage;
    HoldsWith(mem, k.pool, k, {p});
    var t, q := k.procs[i].t, k.procs[i].code;
    var t' := SetPte(t, CODE_VPN, Pte(p, RXU));
    SwapFields(k, i, p);
    var r := SwapCode(k, i, p);
    SwapInv(k, i, p);
    SwapOthers(k, r, i, p);
    CarriedFacts(mem, k.pool, t, m1, Grown(true, t', k.pool));
    SwapWrites(mem, m1, m2, k.pool, t, t', q);
    SwapHere(mem, m2, k, r, i, p);
    HoldsAfter(mem, m2, k, r, i, Nodes(t) + SetOfFree(r.pool), {p}, {});
  }

  lemma SwapFields(k: Kernel, i: nat, p: nat)
    requires Live(k, i)
    ensures var r := SwapCode(k, i, p);
            r.pool == Freed(k.pool, k.procs[i].code) && r.first == k.first
            && r.procs == k.procs[i :=
              k.procs[i].(mapped := NoMap, code := p, t := SetPte(k.procs[i].t, CODE_VPN, Pte(p, RXU)))]
    ensures Nodes(SetPte(k.procs[i].t, CODE_VPN, Pte(p, RXU))) == Nodes(k.procs[i].t)
  {
    hide Freed;
  }

  lemma SwapOthers(k: Kernel, r: Kernel, i: nat, p: nat)
    requires Live(k, i) && |r.procs| == |k.procs| && r.first == k.first
    requires forall j :: 0 <= j < |k.procs| && j != i ==> r.procs[j] == k.procs[j]
    requires forall j, x :: 0 <= j < |k.procs| && x in Held(r.procs[j]) ==> FrameAt(r, x) == FrameAt(k, x)
    ensures Others(k, r, i)
  {
    hide Held, FrameAt;
  }

  lemma SwapWrites(mem: Memory, m1: Memory, m2: Memory, pool: Pool, t: Table, t': Table, q: nat)
    requires SameBut(mem, m1, Nodes(t')) && Nodes(t') == Nodes(t) && (Sized(mem) ==> Sized(m1)) && Represents(m1, t')
    requires SameBut(m1, m2, {q}) && q in m2 && |m2[q]| == PAGE_WORDS && (Ref(pool, q) > 1 ==> m2 == m1)
    ensures SameBut(mem, m2, Nodes(t) + SetOfFree(Freed(pool, q))) && (Sized(mem) ==> Sized(m2))
    ensures q !in Nodes(t) ==> Represents(m2, t')
  {
    hide Nodes, Freed, Represents;
    FreedSet(pool, q);
    if q !in Nodes(t) { RepFrame(m1, m2, t', {q}); }
  }

  lemma SwapHere(mem: Memory, m2: Memory, k: Kernel, r: Kernel, i: nat, p: nat)
    requires Holds(mem, k.pool, k, {p}) && Live(k, i) && Runs(k.procs[i]) && Live(r, i) && InvWith(r, {})
             && GoodImage(k.procs[i]) && Contents(mem, k, {p}) && |r.procs| == |k.procs|
    requires r.procs[i].code == p && r.procs[i].stack == k.procs[i].stack
    requires r.procs[i].t == SetPte(k.procs[i].t, CODE_VPN, Pte(p, RXU)) && Nodes(r.procs[i].t) == Nodes(k.procs[i].t)
             && p in Held(r.procs[i])
    requires forall j, x :: 0 <= j < |k.procs| && x in Held(r.procs[j]) ==> FrameAt(r, x) == FrameAt(k, x)
    requires SameBut(mem, m2, Nodes(k.procs[i].t) + SetOfFree(r.pool))
    requires k.procs[i].code !in Nodes(k.procs[i].t) ==> Represents(m2, r.procs[i].t)
    ensures Lies(m2, r, i)
  {
    hide InvWith, UserPages, Seen, Nodes, Lies, Sized, Held, Holds, FrameAt, Represents, SetOfFree, Apart, GoodImage;
    HoldsWith(mem, k.pool, k, {p});
    CodeLeaf(k.procs[i]);
    var t, t' := k.procs[i].t, r.procs[i].t;
    ImageLeaf(k, {p}, i, CODE_VPN);
    LiesFacts(mem, k.pool, k, {p}, i);
    ImageApart(r, {}, i);
    CowPages(t, CODE_VPN, Pte(p, RXU));
    SeenSwaps(k.procs[i], r.procs[i], p);
    FreeNotHeld(r, {}, i);
    LiesBy(mem, m2, k, r, i, Nodes(t) + SetOfFree(r.pool), {p});
  }

  lemma SeenSwaps(img: Image, img': Image, p: nat)
    requires img.Image? && img'.Image? && img'.code == p && img'.stack == img.stack
             && UserPages(img'.t) <= UserPages(img.t) + {p}
    ensures Seen(img') <= Seen(img) + {p}
  {
    hide UserPages;
  }

  lemma CodeLeaf(img: Image)
    requires GoodImage(img) && Runs(img)
    ensures CODE_VPN in img.t.ptes && img.t.ptes[CODE_VPN].ppn == img.code
    ensures STACK_VPN in img.t.ptes && img.t.ptes[STACK_VPN].ppn == img.stack
  {
  }

  // ---- reclaiming an image ----

  lemma ManagedThere(mem: Memory, pool: Pool, k: Kernel, loose: set<nat>, i: nat)
    requires Holds(mem, pool, k, loose) && Live(k, i)
    ensures forall p :: p in Held(k.procs[i]) ==> p in mem && |mem[p]| == PAGE_WORDS
  {
    hide InvWith, Lies, Held;
    ImageApart(k, loose, i);
  }

  /** One kfree among several: only pages that are free afterwards were written. */
  lemma KfreeWrites(mem: Memory, m1: Memory, m2: Memory, pool: Pool, p: nat)
    requires SameBut(mem, m1, SetOfFree(pool)) && SameBut(m1, m2, {p}) && (Ref(pool, p) > 1 ==> m2 == m1)
    ensures SameBut(mem, m2, SetOfFree(Freed(pool, p))) && SetOfFree(pool) <= SetOfFree(Freed(pool, p))
  {
    hide Freed;
    FreedSet(pool, p);
  }

  lemma {:induction false} FreedAllSet(pool: Pool, ps: seq<nat>)
    ensures SetOfFree(pool) <= SetOfFree(FreedAll(pool, ps))
    decreases |ps|
  {
    hide Freed, SetOfFree;
    if ps != [] {
      FreedSet(pool, ps[0]);
      FreedAllSet(Freed(pool, ps[0]), ps[1..]);
    }
  }

  lemma {:induction false} FreeAllPool(k: Kernel, ps: seq<nat>)
    ensures FreeAll(k, ps).pool == FreedAll(k.pool, ps) && FreeAll(k, ps).first == k.first
    decreases |ps|
  {
    hide Freed;
    if ps != [] { FreeAllPool(FreePage(k, ps[0]), ps[1..]); }
  }

  /** The tail of proc_freeimage: three kfrees and free_pagetable. */
  lemma FreeLastHolds(mem: Memory, mem': Memory, k: Kernel, i: nat, order: seq<nat>)
    requires Holds(mem, k.pool, k, {}) && Live(k, i) && NoHeapLeaf(k.procs[i]) && NoMapLeaf(k.procs[i])
    requires NoDup(order) && SetOf(order) == Nodes(k.procs[i].t)
    requires var pool' := FreedAll(k.pool, LastPages(k.procs[i], order));
             SameBut(mem, mem', Nodes(k.procs[i].t) + SetOfFree(pool')) && Sized(mem') && mem.Keys <= mem'.Keys
    ensures Holds(mem', FreedAll(k.pool, LastPages(k.procs[i], order)), FreeLast(k, i, order), {})
  {
    hide InvWith, UserPages, Seen, Nodes, Lies, Sized, Held, Holds, FrameAt, SetOfFree, Others, FreeLast, FreedAll,
         LastPages, NoHeapLeaf, NoMapLeaf, Shrinks;
    HoldsWith(mem, k.pool, k, {});
    var r := FreeLast(k, i, order);
    FreeLastInv(k, i, order);
    FreeLastPool(k, i, order);
    ShrinksOthers(k, r, {}, i, NoImage);
    DeadLies(mem', r, i);
    HoldsAfter(mem, mem', k, r, i, Nodes(k.procs[i].t) + SetOfFree(r.pool), {}, {});
  }

  lemma FreeLastPool(k: Kernel, i: nat, order: seq<nat>)
    requires Live(k, i)
    ensures FreeLast(k, i, order).pool == FreedAll(k.pool, LastPages(k.procs[i], order))
            && FreeLast(k, i, order).first == k.first
  {
    hide FreeAll, FreedAll, LastPages;
    FreeAllPool(k.(procs := k.procs[i := NoImage]), LastPages(k.procs[i], order));
  }

  /** An image without a table is in memory as soon as its pages are. */
  lemma EnterHolds(mem: Memory, k: Kernel, k': Kernel, loose: set<nat>, c: nat)
    requires Holds(mem, k.pool, k, loose) && Inv(k') && c < |k.procs| == |k'.procs| && k'.first == k.first
             && k'.frames == k.frames
    requires k'.procs[c].Tableless? && Contents(mem, k, Held(k'.procs[c]))
    requires forall j :: 0 <= j < |k.procs| && j != c ==> k'.procs[j] == k.procs[j]
    ensures Holds(mem, k'.pool, k', {})
  {
    hide Inv, InvWith, Represents, UserPages, Seen, Sized, Held;
    InvNone(k');
    FrameFields(k, k');
    hide FrameAt;
    forall j | 0 <= j < |k'.procs| ensures Lies(mem, k', j) {
      if j != c { assert Lies(mem, k, j); }
    }
  }

  lemma DeadLies(mem: Memory, k: Kernel, i: nat)
    requires i < |k.procs| && k.procs[i].NoImage?
    ensures Lies(mem, k, i)
  {
  }

  // ---- fork ----

  /** What fork wrote: the two trees and the child's stack page. */
  ghost predicate ForkWrote(mem: Memory, mem': Memory, k: Kernel, k': Kernel, i: nat, c: nat, stack: nat, off: nat)
    requires Live(k, i) && Live(k', i) && Live(k', c)
  {
    && Represents(mem', k'.procs[i].t) && Represents(mem', k'.procs[c].t)
    && stack in mem' && mem'[stack] == FrameAt(k', stack) && Sized(mem') && mem.Keys <= mem'.Keys
    && Nodes(k'.procs[c].t) <= SetOfFree(k.pool) && stack in k.pool.free
    && SameBut(mem, mem', Nodes(k.procs[i].t) + Nodes(k'.procs[c].t) + {stack})
  }

  lemma ForkApart(k: Kernel, k': Kernel, i: nat, c: nat, stack: nat, off: nat, whole: bool, j: nat)
    requires Inv(k) && Inv(k') && Forked(k, k', i, c, stack, off, whole) && j < |k.procs|
    requires Nodes(k'.procs[c].t) <= SetOfFree(k.pool) && stack in k.pool.free
    ensures (Nodes(k'.procs[c].t) + {stack}) !! Held(k.procs[j])
    ensures j != i ==> Nodes(k.procs[i].t) !! Held(k.procs[j])
  {
    hide Inv, InvWith, Nodes, Held, Shared0, SamePlaces, Patched, FrameAt, SetOfFree;
    InvNone(k);
    FreeNotHeld(k, {}, j);
    if j != i { NodesPrivate(k, {}, i, j); }
    assert stack in SetOfFree(k.pool) by { FreeIn(k.pool, stack); }
  }

  lemma FreeIn(pool: Pool, p: nat)
    requires p in pool.free
    ensures p in SetOfFree(pool)
  {
  }

  lemma SamePlacesPages(t: Table, t': Table)
    requires SamePlaces(t, t')
    ensures UserPages(t') == UserPages(t) && Nodes(t') == Nodes(t)
  {
    forall w | w in t.ptes && w < USER_TOP ensures t.ptes[w].ppn in UserPages(t') {
      assert w in t'.ptes.Keys && t'.ptes[w].ppn == t.ptes[w].ppn;
    }
    forall w | w in t'.ptes && w < USER_TOP ensures t'.ptes[w].ppn in UserPages(t) {
      assert w in t'.ptes.Keys && t'.ptes[w].ppn == t.ptes[w].ppn;
    }
  }

  lemma ForkParentLies(mem: Memory, mem': Memory, k: Kernel, k': Kernel, i: nat, c: nat, stack: nat, off: nat,
                       whole: bool)
    requires Holds(mem, k.pool, k, {}) && Inv(k) && Inv(k') && Forked(k, k', i, c, stack, off, whole)
             && ForkWrote(mem, mem', k, k', i, c, stack, off)
    ensures Lies(mem', k', i)
  {
    hide Inv, InvWith, Nodes, Held, Shared0, SamePlaces, Patched, FrameAt, SetOfFree, UserPages, Seen, Lies,
         Represents, Holds, Apart, Sized;
    var t, t' := k.procs[i].t, k'.procs[i].t;
    InvNone(k);
    InvNone(k');
    SamePlacesPages(t, t');
    LiesFacts(mem, k.pool, k, {}, i);
    ForkedFrames(k, k', i, c, stack, off, whole, i);
    ForkApart(k, k', i, c, stack, off, whole, i);
    ImageApart(k, {}, i);
    SeenPlaces(k.procs[i], t');
    assert Seen(k'.procs[i]) * {} == {};
    LiesBy(mem, mem', k, k', i, Nodes(t) + Nodes(k'.procs[c].t) + {stack}, {});
  }

  lemma ForkChildLies(mem: Memory, mem': Memory, k: Kernel, k': Kernel, i: nat, c: nat, stack: nat, off: nat,
                      whole: bool)
    requires Inv(k') && Forked(k, k', i, c, stack, off, whole) && ForkWrote(mem, mem', k, k', i, c, stack, off)
             && Lies(mem', k', i)
    ensures Lies(mem', k', c)
  {
    hide Inv, Nodes, SamePlaces, Patched, FrameAt, SetOfFree, Represents, Sized, Shared0, UserPages;
    var t, t' := k'.procs[i].t, k'.procs[c].t;
    InvImage(k', i);
    if !whole { NoLeafPages(t'); }
    forall p | p in Seen(k'.procs[c]) ensures p in mem' && mem'[p] == FrameAt(k', p) {
      if p != stack && p in UserPages(t') {
        assert Shared0(t', k'.procs[i], stack, PageEnd(k'.procs[i].heapTop));
        ChildFromParent(k'.procs[i], t', stack, p);
      }
    }
  }

  lemma NoLeafPages(t: Table)
    requires forall v :: !UserLeaf(t, v)
    ensures UserPages(t) == {}
  {
    assert forall v :: v in t.ptes && v < USER_TOP ==> UserLeaf(t, v);
  }

  lemma SeenPlaces(img: Image, t': Table)
    requires img.Image? && UserPages(t') == UserPages(img.t)
    ensures Seen(img.(t := t')) == Seen(img)
  {
    hide UserPages;
  }

  lemma ChildFromParent(parent: Image, child: Table, stack: nat, p: nat)
    requires GoodImage(parent) && parent.Image? && Shared0(child, parent, stack, PageEnd(parent.heapTop))
             && p in UserPages(child) && p != stack
    ensures p in Seen(parent)
  {
    hide GoodImage, Shared0;
    var v :| v in child.ptes && v < USER_TOP && child.ptes[v].ppn == p;
    ChildLeaf(parent, child, stack, v);
    if v == STACK_VPN { ChildStack(child, parent, stack); }
  }

  lemma ChildStack(child: Table, parent: Image, stack: nat)
    requires parent.Image? && Shared0(child, parent, stack, PageEnd(parent.heapTop))
    ensures STACK_VPN in child.ptes && child.ptes[STACK_VPN].ppn == stack
  {
  }

  /** fork leaves memory holding both processes. */
  lemma ForkHolds(mem: Memory, mem': Memory, k: Kernel, k': Kernel, i: nat, c: nat, stack: nat, off: nat, whole: bool)
    requires Holds(mem, k.pool, k, {}) && Inv(k) && Inv(k') && Forked(k, k', i, c, stack, off, whole)
             && ForkWrote(mem, mem', k, k', i, c, stack, off)
    requires k'.first == k.first
    ensures Holds(mem', k'.pool, k', {})
  {
    hide Inv, InvWith, Nodes, Held, Shared0, SamePlaces, Patched, FrameAt, SetOfFree, UserPages, Seen, Lies,
         Represents, Apart, Sized;
    InvNone(k');
    ForkParentLies(mem, mem', k, k', i, c, stack, off, whole);
    ForkChildLies(mem, mem', k, k', i, c, stack, off, whole);
    forall j | 0 <= j < |k'.procs| ensures Lies(mem', k', j) {
      if j != i && j != c {
        ForkApart(k, k', i, c, stack, off, whole, j);
        ForkedFrames(k, k', i, c, stack, off, whole, j);
        LiesKept(mem, mem', k, k', j, Nodes(k.procs[i].t) + Nodes(k'.procs[c].t) + {stack});
      }
    }
    assert forall p :: Managed(p, k.first) ==> p in mem.Keys;
  }
}
