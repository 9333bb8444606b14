/**
  fork: with FORK_PAGES free pages it succeeds, the child shares exactly the parent's code
  and heap pages read-only, and the counts stay exact.
 */
module CowFork {
  import opened Kalloc
  import opened Paging
  import opened Images
  import opened ProcTable
  import opened Cow
  import opened CowSafety

  /** A child table under construction: shared up to page v, its pages all in flight. */
  ghost predicate Half(k: Kernel, i: nat, child: Table, stack: nat, v: nat) {
    && Live(k, i) && InvWith(k, Nodes(child) + UserPages(child))
    && Shared0(child, k.procs[i], stack, v)
    && (forall j :: 0 <= j < |k.procs| ==> Nodes(child) !! Held(k.procs[j]) && stack !in Held(k.procs[j]))
  }

  /** The child's leaves: code, stack, and the parent's heap leaves below v, same page, read-only. */
  ghost predicate Shared0(child: Table, parent: Image, stack: nat, v: nat)
    requires parent.Image?
  {
    && TableOk(child) && 0 in child.mids && 0 in child.lows
    && CODE_VPN in child.ptes && child.ptes[CODE_VPN] == Pte(parent.code, RXU)
    && STACK_VPN in child.ptes && child.ptes[STACK_VPN] == Pte(stack, RWU)
    && (forall w :: w in child.ptes && w >= USER_TOP ==> KernelPerm(child.ptes[w].perm))
    && (forall w: nat :: UserLeaf(child, w) ==> w == CODE_VPN || w == STACK_VPN || HEAP_VPN <= w < v)
    && (forall w: nat :: HEAP_VPN <= w < v ==> SameLeaf(child, parent.t, w))
    && UserInjective(child) && UserPages(child) !! Nodes(child)
  }

  predicate SameLeaf(child: Table, parent: Table, w: nat) {
    && (w in child.ptes <==> w in parent.ptes)
    && (w in child.ptes ==> child.ptes[w] == parent.ptes[w] && parent.ptes[w].perm.cow)
  }

  /** Mapping below the first 512 pages of a table that has its first nodes takes no memory. */
  lemma MapLow(t: Table, pool: Pool, v: nat, pte: Pte)
    requires 0 in t.mids && 0 in t.lows && v < 512 && v !in t.ptes
    ensures MapPage(t, pool, v, pte) == Grown(true, SetPte(t, v, pte), pool)
  {
    assert MidKey(v) == 0 && LowKey(v) == 0;
  }

  // ---- one turn of uvm_cow_share ----

  lemma SamePages(img: Image, v: nat, perm: Perm)
    requires img.Image? && v in img.t.ptes
    ensures var img' := img.(t := SetPte(img.t, v, Pte(img.t.ptes[v].ppn, perm)));
            Held(img') == Held(img) && (PagesApart(img) ==> PagesApart(img'))
  {
    var t, t' := img.t, SetPte(img.t, v, Pte(img.t.ptes[v].ppn, perm));
    forall w | w in t'.ptes ensures w in t.ptes && t'.ptes[w].ppn == t.ptes[w].ppn { }
    assert UserPages(t') == UserPages(t) by {
      forall w | w in t.ptes && w < USER_TOP ensures t.ptes[w].ppn in UserPages(t') {
        assert t'.ptes[w].ppn == t.ptes[w].ppn;
      }
    }
    assert UserInjective(t) ==> UserInjective(t') by {
      forall a, b | UserInjective(t) && UserLeaf(t', a) && UserLeaf(t', b) && t'.ptes[a].ppn == t'.ptes[b].ppn
        ensures a == b {
        assert UserLeaf(t, a) && UserLeaf(t, b);
      }
    }
    assert Nodes(t') == Nodes(t);
    hide UserInjective, UserPages, Nodes;
  }

  /** Making a heap leaf copy-on-write keeps the image well formed with the same pages. */
  lemma MarkCow(img: Image, v: nat)
    requires GoodImage(img) && img.Image? && HeapVpn(img, v) && v in img.t.ptes
    ensures var img' := img.(t := SetPte(img.t, v, Pte(img.t.ptes[v].ppn, CowPerm(img.t.ptes[v].perm))));
            && GoodImage(img') && Held(img') == Held(img) && PrivatePages(img') <= PrivatePages(img)
            && CowPerm(img.t.ptes[v].perm).cow
  {
    hide PagesApart, PrivatePages, Held, TableOk;
    var perm := CowPerm(img.t.ptes[v].perm);
    Layout(img, v);
    assert PlaceOk(img, v, img.t.ptes[v].perm);
    SamePages(img, v, perm);
    MarkPrivate(img, v, perm);
    var img' := img.(t := SetPte(img.t, v, Pte(img.t.ptes[v].ppn, perm)));
    assert LeavesOk(img');
    assert TableOk(img'.t) by { SameNodes(img.t, img'.t); }
  }

  lemma SameNodes(t: Table, t': Table)
    requires TableOk(t) && t' == t.(ptes := t'.ptes) && t'.ptes.Keys <= t.ptes.Keys
    ensures TableOk(t')
  {
    forall v | v in t'.ptes ensures v in t.ptes { assert v in t'.ptes.Keys; }
  }

  lemma MarkPrivate(img: Image, v: nat, perm: Perm)
    requires img.Image? && v in img.t.ptes && !(img.t.ptes[v].perm.cow && !perm.cow)
    ensures PrivatePages(img.(t := SetPte(img.t, v, Pte(img.t.ptes[v].ppn, perm)))) <= PrivatePages(img)
  {
    var t' := SetPte(img.t, v, Pte(img.t.ptes[v].ppn, perm));
    forall w | w in t'.ptes && w < USER_TOP && !Sharable(t', w) ensures t'.ptes[w].ppn in PrivatePages(img) {
      assert w in img.t.ptes && !Sharable(img.t, w);
    }
  }

  /** The page to share is not in flight yet. */
  lemma NotYetShared(k: Kernel, i: nat, child: Table, stack: nat, v: nat)
    requires Half(k, i, child, stack, v) && HeapVpn(k.procs[i], v) && v in k.procs[i].t.ptes
    ensures var q := k.procs[i].t.ptes[v].ppn;
            q in Held(k.procs[i]) && q !in UserPages(child) && q !in Nodes(child)
  {
    HalfGood(k, i, child, stack, v);
    var img := k.procs[i];
    var q := img.t.ptes[v].ppn;
    Layout(img, v);
    hide InvWith, UserInjective, Nodes, TableOk, LeavesOk, ShapeOk, Held;
    LeafHeld(img, v);
    OtherLeaf(img, v);
    forall w | UserLeaf(child, w) ensures child.ptes[w].ppn != q {
      if w == CODE_VPN {
        assert child.ptes[w].ppn == img.code;
      } else if w == STACK_VPN {
        assert child.ptes[w].ppn == stack;
      } else {
        assert SameLeaf(child, img.t, w);
        LeafApart(img, w, v);
      }
    }
  }

  lemma HalfGood(k: Kernel, i: nat, child: Table, stack: nat, v: nat)
    requires Half(k, i, child, stack, v)
    ensures GoodImage(k.procs[i])
  {
    hide GoodImage, Acct, Exclusive, Held, UserPages, Nodes, Shared0;
  }

  lemma LeafHeld(img: Image, v: nat)
    requires img.Image? && UserLeaf(img.t, v)
    ensures img.t.ptes[v].ppn in UserPages(img.t) && img.t.ptes[v].ppn in Held(img)
  {
  }

  lemma LeafApart(img: Image, v: nat, w: nat)
    requires GoodImage(img) && img.Image? && UserLeaf(img.t, v) && UserLeaf(img.t, w) && v != w
    ensures img.t.ptes[v].ppn != img.t.ptes[w].ppn
  {
  }

  function ShareOne(k: Kernel, i: nat, v: nat): Kernel
    requires Live(k, i) && v in k.procs[i].t.ptes
  {
    var pte := Pte(k.procs[i].t.ptes[v].ppn, CowPerm(k.procs[i].t.ptes[v].perm));
    WithTable(k, i, SetPte(k.procs[i].t, v, pte)).(pool := Shared(k.pool, pte.ppn))
  }

  /** kref_inc: one more reference to a page that image i holds is in flight. */
  lemma ShareFlight(k: Kernel, loose: set<nat>, i: nat, q: nat)
    requires InvWith(k, loose) && i < |k.procs| && q in Held(k.procs[i]) && q !in loose
    ensures InvWith(k.(pool := Shared(k.pool, q)), loose + {q})
  {
    hide Held, GoodImage, Exclusive;
    assert k.kern !! Held(k.procs[i]);
    ShareAcct(k.pool, k.first, k.procs, k.kern + loose, i, q);
    assert (k.kern + loose) + {q} == k.kern + (loose + {q});
  }

  lemma ShareInv(k: Kernel, loose: set<nat>, i: nat, v: nat)
    requires InvWith(k, loose) && Live(k, i) && GoodImage(k.procs[i]) && HeapVpn(k.procs[i], v)
             && v in k.procs[i].t.ptes
    requires k.procs[i].t.ptes[v].ppn in Held(k.procs[i]) && k.procs[i].t.ptes[v].ppn !in loose
    ensures InvWith(ShareOne(k, i, v), loose + {k.procs[i].t.ptes[v].ppn})
    ensures Held(ShareOne(k, i, v).procs[i]) == Held(k.procs[i])
  {
    hide InvWith, GoodImage, Held, PrivatePages, Shared;
    var img := k.procs[i];
    var q := img.t.ptes[v].ppn;
    var img' := img.(t := SetPte(img.t, v, Pte(q, CowPerm(img.t.ptes[v].perm))));
    MarkCow(img, v);
    RelabelStep(k, loose, i, img');
    var k1 := k.(procs := k.procs[i := img']);
    ShareFlight(k1, loose, i, q);
    assert ShareOne(k, i, v) == k1.(pool := Shared(k.pool, q));
  }

  lemma ChildGains(child: Table, parent: Image, stack: nat, v: nat, pte: Pte)
    requires parent.Image? && Shared0(child, parent, stack, v) && HEAP_VPN <= v < MMAP_VPN
    requires v in parent.t.ptes && pte.ppn == parent.t.ptes[v].ppn && pte.perm.cow
    requires pte.ppn !in UserPages(child) + Nodes(child)
    ensures var child' := SetPte(child, v, pte);
            && Shared0(child', parent.(t := SetPte(parent.t, v, pte)), stack, v + 1) && v !in child.ptes
            && Nodes(child') == Nodes(child) && UserPages(child') == UserPages(child) + {pte.ppn}
  {
    var child' := SetPte(child, v, pte);
    var parent' := parent.(t := SetPte(parent.t, v, pte));
    assert !UserLeaf(child, v);
    SetLeaf(child, v, pte);
    assert LowKey(v) == 0;
    hide UserInjective, UserPages, Nodes;
    forall w: nat | HEAP_VPN <= w < v + 1 ensures SameLeaf(child', parent'.t, w) {
      assert w < v ==> SameLeaf(child, parent.t, w);
    }
    assert TableOk(child');
    forall w: nat | UserLeaf(child', w) ensures w == CODE_VPN || w == STACK_VPN || HEAP_VPN <= w < v + 1 {
      assert w == v || UserLeaf(child, w);
    }
  }

  lemma HalfStep(k: Kernel, i: nat, child: Table, stack: nat, v: nat)
    requires Half(k, i, child, stack, v) && HeapVpn(k.procs[i], v) && v in k.procs[i].t.ptes
    ensures var pte := Pte(k.procs[i].t.ptes[v].ppn, CowPerm(k.procs[i].t.ptes[v].perm));
            Half(ShareOne(k, i, v), i, SetPte(child, v, pte), stack, v + 1) && v !in child.ptes
  {
    var img := k.procs[i];
    var pte := Pte(img.t.ptes[v].ppn, CowPerm(img.t.ptes[v].perm));
    assert GoodImage(img);
    NotYetShared(k, i, child, stack, v);
    Layout(img, v);
    MarkCow(img, v);
    hide InvWith, GoodImage, Held, Nodes, UserPages, Shared0, Shared, CowPerm;
    var loose := Nodes(child) + UserPages(child);
    ShareInv(k, loose, i, v);
    ChildGains(child, img, stack, v, pte);
    HalfMove(k, ShareOne(k, i, v), i, child, SetPte(child, v, pte), stack, v, pte.ppn);
  }

  lemma HalfMove(k: Kernel, k': Kernel, i: nat, child: Table, child': Table, stack: nat, v: nat, q: nat)
    requires Half(k, i, child, stack, v) && Live(k', i)
    requires InvWith(k', Nodes(child) + UserPages(child) + {q}) && Held(k'.procs[i]) == Held(k.procs[i])
    requires k'.procs == k.procs[i := k'.procs[i]]
    requires Nodes(child') == Nodes(child) && UserPages(child') == UserPages(child) + {q}
    requires Shared0(child', k'.procs[i], stack, v + 1)
    ensures Half(k', i, child', stack, v + 1)
  {
    hide InvWith, Held, Nodes, UserPages, Shared0;
    assert Nodes(child') + UserPages(child') == Nodes(child) + UserPages(child) + {q};
  }

  lemma HalfSkip(k: Kernel, i: nat, child: Table, stack: nat, v: nat)
    requires Half(k, i, child, stack, v) && v !in k.procs[i].t.ptes && HEAP_VPN <= v < USER_TOP
    ensures Half(k, i, child, stack, v + 1)
  {
    hide InvWith, UserInjective, UserPages, Nodes, Held;
    assert UserLeaf(child, v) ==> false;
    forall w | HEAP_VPN <= w < v + 1 ensures SameLeaf(child, k.procs[i].t, w) {
      assert w < v ==> SameLeaf(child, k.procs[i].t, w);
    }
  }

  /** The parent's leaves after sharing: the same pages at the same places. */
  ghost predicate SamePlaces(t: Table, t': Table) {
    t' == t.(ptes := t'.ptes) && t'.ptes.Keys == t.ptes.Keys
      && forall w :: w in t.ptes ==> t'.ptes[w].ppn == t.ptes[w].ppn
  }

  lemma HalfFacts(k: Kernel, i: nat, child: Table, stack: nat, v: nat)
    requires Half(k, i, child, stack, v)
    ensures Live(k, i) && GoodImage(k.procs[i]) && PageEnd(k.procs[i].heapTop) <= MMAP_VPN
    ensures 0 in child.mids && 0 in child.lows
  {
    assert GoodImage(k.procs[i]);
  }

  /** uvm_cow_share over the rest of the heap never fails and keeps everything in balance. */
  lemma {:induction false} ShareAll(k: Kernel, i: nat, child: Table, stack: nat, v: nat, end: nat)
    requires Live(k, i) && Half(k, i, child, stack, v) && HEAP_VPN <= v <= end == PageEnd(k.procs[i].heapTop)
    ensures var s := CowShare(k.procs[i].t, child, k.pool, v, end);
            && s.ok && SamePlaces(k.procs[i].t, s.parent)
            && Half(WithTable(k, i, s.parent).(pool := s.pool), i, s.child, stack, end)
    decreases end - v
  {
    hide Half, GoodImage, MapPage, CowPerm, Shared;
    var img := k.procs[i];
    HalfFacts(k, i, child, stack, v);
    if v == end {
      assert k.procs[i := img.(t := img.t)] == k.procs;
    } else if v in img.t.ptes {
      var pte := Pte(img.t.ptes[v].ppn, CowPerm(img.t.ptes[v].perm));
      HalfStep(k, i, child, stack, v);
      MapLow(child, k.pool, v, pte);
      ShareAll(ShareOne(k, i, v), i, SetPte(child, v, pte), stack, v + 1, end);
      ShareAllStep(k, i, child, v, end);
    } else {
      HalfSkip(k, i, child, stack, v);
      ShareAll(k, i, child, stack, v + 1, end);
    }
  }

  lemma ShareAllStep(k: Kernel, i: nat, child: Table, v: nat, end: nat)
    requires Live(k, i) && v < end && v in k.procs[i].t.ptes
    requires var pte := Pte(k.procs[i].t.ptes[v].ppn, CowPerm(k.procs[i].t.ptes[v].perm));
             MapPage(child, k.pool, v, pte) == Grown(true, SetPte(child, v, pte), k.pool)
    ensures var pte := Pte(k.procs[i].t.ptes[v].ppn, CowPerm(k.procs[i].t.ptes[v].perm));
            var k' := ShareOne(k, i, v);
            var s, s' := CowShare(k.procs[i].t, child, k.pool, v, end),
              CowShare(k'.procs[i].t, SetPte(child, v, pte), k'.pool, v + 1, end);
            && s == s' && (SamePlaces(k'.procs[i].t, s.parent) ==> SamePlaces(k.procs[i].t, s.parent))
            && WithTable(k, i, s.parent).(pool := s.pool) == WithTable(k', i, s.parent).(pool := s.pool)
  {
    hide MapPage, Shared;
    var k' := ShareOne(k, i, v);
    assert k'.procs[i].t.ptes.Keys == k.procs[i].t.ptes.Keys;
    var s := CowShare(k.procs[i].t, child, k.pool, v, end);
    assert k'.procs[i := k'.procs[i].(t := s.parent)] == k.procs[i := k.procs[i].(t := s.parent)];
  }

  // ---- the child enters the table ----

  function ChildOf(parent: Image, child: Table, stack: nat): Image
    requires parent.Image?
  {
    Image(child, parent.code, stack, NoPage, parent.heapTop, NoMap)
  }

  ghost predicate Complete(k: Kernel, i: nat, child: Table, stack: nat) {
    Live(k, i) && Half(k, i, child, stack, PageEnd(k.procs[i].heapTop))
  }

  lemma ChildLeaf(parent: Image, child: Table, stack: nat, v: nat)
    requires GoodImage(parent) && parent.Image? && Shared0(child, parent, stack, PageEnd(parent.heapTop))
             && v in child.ptes
    ensures v != CODE_VPN && v != STACK_VPN ==> PlaceOk(ChildOf(parent, child, stack), v, child.ptes[v].perm)
    ensures v < USER_TOP && !Sharable(child, v) ==> child.ptes[v].ppn == stack
    ensures v < USER_TOP && v != CODE_VPN && v != STACK_VPN ==>
              v in parent.t.ptes && parent.t.ptes[v].ppn == child.ptes[v].ppn && Sharable(parent.t, v)
    ensures v == CODE_VPN ==> child.ptes[v].ppn == parent.code
  {
    hide UserPages, Nodes, UserInjective, TableOk;
    if v < USER_TOP && v != CODE_VPN && v != STACK_VPN {
      assert UserLeaf(child, v) && SameLeaf(child, parent.t, v);
      assert PlaceOk(parent, v, parent.t.ptes[v].perm);
    }
  }

  lemma ChildGood(parent: Image, child: Table, stack: nat)
    requires GoodImage(parent) && parent.Image? && Shared0(child, parent, stack, PageEnd(parent.heapTop))
    ensures var img := ChildOf(parent, child, stack);
            && GoodImage(img) && Held(img) == Nodes(child) + UserPages(child)
            && PrivatePages(img) <= Nodes(child) + {stack}
  {
    var img := ChildOf(parent, child, stack);
    hide UserPages, Nodes, UserInjective, Held, PlaceOk, TableOk;
    forall v | v in child.ptes
      ensures v != CODE_VPN && v != STACK_VPN ==> PlaceOk(img, v, child.ptes[v].perm)
      ensures v < USER_TOP && !Sharable(child, v) ==> child.ptes[v].ppn == stack
    {
      ChildLeaf(parent, child, stack, v);
    }
    OwnMapped(child, parent, stack);
    ChildHeld(img);
  }

  lemma OwnMapped(child: Table, parent: Image, stack: nat)
    requires parent.Image? && Shared0(child, parent, stack, PageEnd(parent.heapTop))
    ensures {parent.code, stack} <= UserPages(child) && parent.code != stack && {parent.code, stack} !! Nodes(child)
    ensures forall v :: UserLeaf(child, v) && child.ptes[v].ppn == parent.code ==> v == CODE_VPN
    ensures forall v :: UserLeaf(child, v) && child.ptes[v].ppn == stack ==> v == STACK_VPN
  {
    assert UserLeaf(child, CODE_VPN) && UserLeaf(child, STACK_VPN);
    assert child.ptes[CODE_VPN].ppn == parent.code && child.ptes[STACK_VPN].ppn == stack;
    hide TableOk, Nodes;
  }

  lemma ChildHeld(img: Image)
    requires img.Image? && img.kstack.NoPage? && OwnPages(img) <= UserPages(img.t)
    ensures Held(img) == Nodes(img.t) + UserPages(img.t) && KstackPages(img) == {}
  {
    hide UserPages, Nodes;
  }

  /** A sharable leaf's page is not one of the image's private pages. */
  lemma SharableNotPrivate(img: Image, v: nat)
    requires GoodImage(img) && img.Image? && UserLeaf(img.t, v) && Sharable(img.t, v)
    ensures img.t.ptes[v].ppn in Held(img) && img.t.ptes[v].ppn !in PrivatePages(img)
  {
    hide ShapeOk, LeavesOk;
    assert img.t.ptes[v].ppn in UserPages(img.t);
    forall w | w in img.t.ptes && w < USER_TOP && !Sharable(img.t, w) ensures img.t.ptes[w].ppn != img.t.ptes[v].ppn {
      assert UserLeaf(img.t, w);
    }
  }

  /** Every page the child did not get fresh is one the parent holds and does not keep private. */
  lemma ChildShares(parent: Image, child: Table, stack: nat, p: nat)
    requires GoodImage(parent) && parent.Image? && Shared0(child, parent, stack, PageEnd(parent.heapTop))
    requires p in UserPages(child) && p != stack
    ensures p in Held(parent) && p !in PrivatePages(parent)
  {
    hide Held, PrivatePages, GoodImage, Nodes, UserInjective, TableOk;
    var v :| v in child.ptes && v < USER_TOP && child.ptes[v].ppn == p;
    ChildLeaf(parent, child, stack, v);
    if v == CODE_VPN {
      CodeNotPrivate(parent);
    } else {
      assert v != STACK_VPN;
      SharableNotPrivate(parent, v);
    }
  }

  /** The code page is held, and not private. */
  lemma CodeNotPrivate(img: Image)
    requires GoodImage(img) && img.Image?
    ensures img.code in Held(img) && img.code !in PrivatePages(img)
  {
    hide ShapeOk, LeavesOk, Nodes, UserInjective;
    forall w | w in img.t.ptes && w < USER_TOP && !Sharable(img.t, w) ensures img.t.ptes[w].ppn != img.code {
      assert UserLeaf(img.t, w);
    }
  }

  lemma ForkExclusive(k: Kernel, i: nat, c: nat, child: Table, stack: nat)
    requires Complete(k, i, child, stack) && c < |k.procs| && k.procs[c].NoImage?
    ensures Exclusive(k.procs[c := ChildOf(k.procs[i], child, stack)])
  {
    hide GoodImage, Nodes, UserPages, Held, PrivatePages, InvWith, Shared0;
    var img := ChildOf(k.procs[i], child, stack);
    var r := k.procs[c := img];
    HalfFacts(k, i, child, stack, PageEnd(k.procs[i].heapTop));
    HalfExclusive(k, i, child, stack, PageEnd(k.procs[i].heapTop));
    ChildGood(k.procs[i], child, stack);
    forall a, b, p | 0 <= a < |r| && 0 <= b < |r| && a != b && p in PrivatePages(r[a]) ensures p !in Held(r[b]) {
      if a == c {
        assert p in Nodes(child) + {stack};
      } else if b == c {
        ChildPrivate(k, i, child, stack, a, p);
      }
    }
  }

  lemma HalfExclusive(k: Kernel, i: nat, child: Table, stack: nat, v: nat)
    requires Half(k, i, child, stack, v)
    ensures Exclusive(k.procs)
  {
    hide Exclusive, Acct, GoodImage, Held;
  }

  /** No image's private page is a page of the finished child. */
  lemma ChildPrivate(k: Kernel, i: nat, child: Table, stack: nat, a: nat, p: nat)
    requires Complete(k, i, child, stack) && Exclusive(k.procs) && GoodImage(k.procs[i]) && a < |k.procs|
             && p in PrivatePages(k.procs[a])
    ensures p !in Nodes(child) + UserPages(child)
  {
    hide GoodImage, Nodes, UserPages, Held, PrivatePages, InvWith, Shared0;
    PrivateIsHeld(k.procs[a]);
    if p in UserPages(child) && p != stack { ChildShares(k.procs[i], child, stack, p); }
  }

  lemma ChildAcct(k: Kernel, c: nat, img: Image, loose: set<nat>)
    requires InvWith(k, loose) && c < |k.procs| && k.procs[c].NoImage? && Held(img) == loose
    ensures Acct(k.pool, k.first, k.procs[c := img], k.kern)
  {
    hide GoodImage, Exclusive, Acct;
    assert Held(k.procs[c]) == {};
    forall p ensures One(p in Held(img)) + One(p in k.kern) == One(p in Held(k.procs[c])) + One(p in k.kern + loose) { }
    MoveAcct(k.pool, k.first, k.procs, k.kern + loose, c, img, k.kern);
  }

  /** The finished child takes everything in flight into slot c. */
  lemma AdoptChild(k: Kernel, i: nat, c: nat, child: Table, stack: nat)
    requires Complete(k, i, child, stack) && c < |k.procs| && k.procs[c].NoImage?
    ensures Inv(k.(procs := k.procs[c := ChildOf(k.procs[i], child, stack)]))
  {
    var img := ChildOf(k.procs[i], child, stack);
    hide GoodImage, Nodes, UserPages, PrivatePages, Shared0, Exclusive, Acct, Held;
    HalfFacts(k, i, child, stack, PageEnd(k.procs[i].heapTop));
    ChildGood(k.procs[i], child, stack);
    ForkExclusive(k, i, c, child, stack);
    ChildAcct(k, c, img, Nodes(child) + UserPages(child));
    InvAssemble(k, Nodes(child) + UserPages(child), c, img);
  }

  lemma InvAssemble(k: Kernel, loose: set<nat>, c: nat, img: Image)
    requires InvWith(k, loose) && c < |k.procs| && GoodImage(img) && Held(img) == loose
    requires Exclusive(k.procs[c := img]) && Acct(k.pool, k.first, k.procs[c := img], k.kern)
    ensures Inv(k.(procs := k.procs[c := img]))
  {
    hide GoodImage, Exclusive, Acct, Held;
  }

  // ---- fork ----

  lemma FreshShared(parent: Image, t: Table, stack: nat)
    requires parent.Image? && TableOk(t) && 0 in t.mids && 0 in t.lows && parent.code != stack
    requires forall v :: UserLeaf(t, v) <==> v == CODE_VPN || v == STACK_VPN
    requires forall v :: v in t.ptes && v >= USER_TOP ==> KernelPerm(t.ptes[v].perm)
    requires CODE_VPN in t.ptes && STACK_VPN in t.ptes
    requires t.ptes[CODE_VPN] == Pte(parent.code, RXU) && t.ptes[STACK_VPN] == Pte(stack, RWU)
    requires parent.code !in Nodes(t) && stack !in Nodes(t)
    ensures UserPages(t) == {parent.code, stack} && Shared0(t, parent, stack, HEAP_VPN)
  {
    hide TableOk, Nodes;
    assert UserLeaf(t, CODE_VPN) && UserLeaf(t, STACK_VPN);
    assert UserPages(t) == {parent.code, stack} by {
      forall v | v in t.ptes && v < USER_TOP ensures v == CODE_VPN || v == STACK_VPN { assert UserLeaf(t, v); }
    }
  }

  /** The new table's nodes join the flight. */
  lemma NewTableFlight(k: Kernel, loose: set<nat>, code: nat, stack: nat)
    requires InvWith(k, loose) && NewTable(k.pool, k.etext, code, stack).ok
    ensures var g := NewTable(k.pool, k.etext, code, stack);
            && InvWith(k.(pool := g.pool), Nodes(g.t) + loose) && TableOk(g.t) && Nodes(g.t) !! loose
            && forall j :: 0 <= j < |k.procs| ==> Nodes(g.t) !! Held(k.procs[j])
  {
    var g := NewTable(k.pool, k.etext, code, stack);
    hide NewTable, GoodImage, Held, Nodes, TableOk, Exclusive, Acct;
    NewTableAcct(k.pool, k.etext, code, stack, k.first, k.procs, k.kern + loose);
    assert (k.kern + loose) + Nodes(g.t) == k.kern + (Nodes(g.t) + loose);
  }

  /** proc_pagetable starts the child with code and stack, nothing of the heap shared yet. */
  lemma NewTableHalf(k: Kernel, i: nat, stack: nat)
    requires Live(k, i) && InvWith(k, {stack, k.procs[i].code}) && k.procs[i].code != stack
             && KERN_FIRST < k.etext < RAM_END
    requires (forall j :: 0 <= j < |k.procs| ==> stack !in Held(k.procs[j])) && |k.pool.free| >= TABLE_PAGES
    ensures var g := NewTable(k.pool, k.etext, k.procs[i].code, stack);
            g.ok && Half(k.(pool := g.pool), i, g.t, stack, HEAP_VPN)
  {
    hide InvWith, NewTable, GoodImage, Held, Nodes, TableOk, Shared0, UserPages;
    var code := k.procs[i].code;
    assert {stack, code} == {code, stack};
    var g := NewTable(k.pool, k.etext, code, stack);
    NewTableSucceeds(k.pool, k.etext, code, stack);
    NewTableFlight(k, {stack, code}, code, stack);
    assert UserLeaf(g.t, CODE_VPN) && UserLeaf(g.t, STACK_VPN);
    FreshShared(k.procs[i], g.t, stack);
  }

  lemma OwnHeld(img: Image)
    requires img.Image?
    ensures img.code in Held(img) && img.stack in Held(img)
  {
    hide Nodes, UserPages;
  }

  /** Up to the shared heap: the stack page, one more reference to the code page, and the new table. */
  lemma ForkStart(k: Kernel, i: nat, contents: Frame)
    requires Inv(k) && Live(k, i) && k.pool.free != []
    ensures var stack, code := k.pool.free[0], k.procs[i].code;
            var k1 := TakePage(k, contents);
            var k2 := k1.(pool := Shared(k1.pool, code));
            && InvWith(k2, {stack, code}) && code != stack && |k2.pool.free| == |k.pool.free| - 1
            && forall j :: 0 <= j < |k.procs| ==> stack !in Held(k.procs[j])
  {
    hide Inv, InvWith, GoodImage, Held;
    var stack, code := k.pool.free[0], k.procs[i].code;
    var k1 := TakePage(k, contents);
    OwnHeld(k.procs[i]);
    InvNone(k);
    TakeStep(k, {}, contents);
    assert {} + {stack} == {stack} && {stack} + {code} == {stack, code};
    ShareFlight(k1, {stack}, i, code);
  }

  /** fork with FORK_PAGES free pages: it shares the whole heap, and the invariant holds with the child in slot c. */
  lemma ForkInv(k: Kernel, i: nat, c: nat, off: nat)
    requires Inv(k) && Live(k, i) && c < |k.procs| && c != i && k.procs[c].NoImage? && |k.pool.free| >= FORK_PAGES
    requires off + 32 <= |FrameAt(k, k.procs[i].stack)|
    ensures var img, stack := k.procs[i], k.pool.free[0];
            var r := Fork(k, i, c, off);
            && Inv(r) && |r.procs| == |k.procs| && r.procs[i].Image? && r.procs[c].Image?
            && r.procs == k.procs[i := img.(t := r.procs[i].t)][c := ChildOf(img, r.procs[c].t, stack)]
            && SamePlaces(img.t, r.procs[i].t) && Shared0(r.procs[c].t, r.procs[i], stack, PageEnd(img.heapTop))
            && r.frames == k.frames[stack := Patched(FrameAt(k, img.stack), off)]
            && forall j :: 0 <= j < |k.procs| ==> stack !in Held(k.procs[j])
  {
    hide Inv, InvWith, GoodImage, Held, Taken, Shared, NewTable, CowShare, Patched, Shared0, FrameAt;
    var img, stack := k.procs[i], k.pool.free[0];
    var contents := Patched(FrameAt(k, img.stack), off);
    var k1 := TakePage(k, contents);
    var k2 := k1.(pool := Shared(k1.pool, img.code));
    ForkBounds(k, i);
    ForkStart(k, i, contents);
    NewTableHalf(k2, i, stack);
    var g := NewTable(k2.pool, k.etext, img.code, stack);
    var k3 := k2.(pool := g.pool);
    ShareAll(k3, i, g.t, stack, HEAP_VPN, PageEnd(img.heapTop));
    var s := CowShare(img.t, g.t, g.pool, HEAP_VPN, PageEnd(img.heapTop));
    var k4 := WithTable(k3, i, s.parent).(pool := s.pool);
    AdoptChild(k4, i, c, s.child, stack);
    assert ForkBuilt(k, i, c, off) == k4.(procs := k4.procs[c := ChildOf(k4.procs[i], s.child, stack)]);
  }

  lemma ForkBounds(k: Kernel, i: nat)
    requires Inv(k) && Live(k, i)
    ensures HEAP_VPN <= PageEnd(k.procs[i].heapTop) <= MMAP_VPN && KERN_FIRST < k.etext < RAM_END
  {
    hide Acct, Exclusive, Held, LeavesOk, PagesApart, TableOk;
    assert GoodImage(k.procs[i]);
  }

  // ---- fork with one page too few ----

  /** A child table without its first low node, and no page to make one: sharing stops at the first heap page. */
  lemma {:induction false} ShareNothing(parent: Table, child: Table, pool: Pool, v: nat, end: nat)
    requires pool.free == [] && 0 in child.mids && 0 !in child.lows && end <= 512
    ensures var s := CowShare(parent, child, pool, v, end);
            && s.child == child && s.pool == pool
            && (s.ok <==> forall u :: v <= u < end ==> u !in parent.ptes)
            && (s.ok ==> s.parent == parent)
            && (!s.ok ==> exists u :: v <= u < end && Turned(parent, s.parent, u))
    decreases end - v
  {
    if v < end {
      if v in parent.ptes {
        NoLowFails(child, pool, v, Pte(parent.ptes[v].ppn, CowPerm(parent.ptes[v].perm)));
        hide MapPage, CowPerm;
        assert Turned(parent, CowShare(parent, child, pool, v, end).parent, v);
      } else {
        hide MapPage, CowPerm;
        ShareNothing(parent, child, pool, v + 1, end);
      }
    }
  }

  /** The table with the entry at u turned copy-on-write. */
  predicate Turned(t: Table, t': Table, u: nat) {
    u in t.ptes && t' == SetPte(t, u, Pte(t.ptes[u].ppn, CowPerm(t.ptes[u].perm)))
  }

  /** The parent after sharing stopped: the same pages at the same places, all counts as before. */
  lemma ShortParent(k: Kernel, loose: set<nat>, i: nat, t': Table)
    requires InvWith(k, loose) && Live(k, i)
    requires t' == k.procs[i].t
             || exists u :: HEAP_VPN <= u < PageEnd(k.procs[i].heapTop) && Turned(k.procs[i].t, t', u)
    ensures InvWith(WithTable(k, i, t'), loose) && SamePlaces(k.procs[i].t, t')
    ensures Held(k.procs[i].(t := t')) == Held(k.procs[i])
  {
    hide InvWith, GoodImage, Held, PrivatePages, CowPerm;
    var img := k.procs[i];
    if t' == img.t {
      assert k.procs[i := img.(t := t')] == k.procs;
    } else {
      var u :| HEAP_VPN <= u < PageEnd(img.heapTop) && Turned(img.t, t', u);
      ImageIsGood(k, loose, i);
      MarkCow(img, u);
      RelabelStep(k, loose, i, img.(t := t'));
      TurnedPlaces(img.t, t', u);
    }
  }

  lemma TurnedPlaces(t: Table, t': Table, u: nat)
    requires Turned(t, t', u)
    ensures SamePlaces(t, t')
  {
  }

  /**
    A child whose table maps nothing of the user's still owns its nodes, its stack page and a
    share of the code page.
   */
  lemma BareGood(parent: Image, t: Table, stack: nat)
    requires GoodImage(parent) && parent.Image? && TableOk(t) && parent.code != stack
             && {parent.code, stack} !! Nodes(t)
    requires forall v :: v in t.ptes ==> v >= USER_TOP && KernelPerm(t.ptes[v].perm)
    ensures var img := ChildOf(parent, t, stack);
            GoodImage(img) && Held(img) == Nodes(t) + {parent.code, stack} && PrivatePages(img) <= Nodes(t) + {stack}
  {
    hide TableOk, Nodes;
    var img := ChildOf(parent, t, stack);
    assert UserPages(t) == {};
    assert forall v :: !UserLeaf(t, v);
    assert LeavesOk(img);
    assert PagesApart(img);
  }

  /** A new image whose pages are fresh, or held by image i and not private to it. */
  lemma SharedExclusive(procs: seq<Image>, i: nat, c: nat, img: Image)
    requires i < |procs| && c < |procs| && c != i && procs[c].NoImage? && Exclusive(procs)
    requires forall j :: 0 <= j < |procs| ==> PrivatePages(img) !! Held(procs[j])
    requires forall p :: p in Held(img) ==>
               || (p in Held(procs[i]) && p !in PrivatePages(procs[i]))
               || forall j :: 0 <= j < |procs| ==> p !in Held(procs[j])
    ensures Exclusive(procs[c := img])
  {
    var r := procs[c := img];
    hide Held, PrivatePages;
    forall a, b, p | 0 <= a < |r| && 0 <= b < |r| && a != b && p in PrivatePages(r[a]) ensures p !in Held(r[b]) {
      if a == c {
        assert r[b] == procs[b];
      } else {
        assert r[a] == procs[a];
        PrivateIsHeld(procs[a]);
        if b != c { assert p !in Held(procs[b]); }
      }
    }
  }

  lemma BareAdopted(k: Kernel, i: nat, c: nat, t: Table, stack: nat)
    requires Live(k, i) && InvWith(k, Nodes(t) + {stack, k.procs[i].code}) && c < |k.procs| && c != i
             && k.procs[c].NoImage?
    requires TableOk(t) && k.procs[i].code != stack && {k.procs[i].code, stack} !! Nodes(t)
    requires forall v :: v in t.ptes ==> v >= USER_TOP && KernelPerm(t.ptes[v].perm)
    requires forall j :: 0 <= j < |k.procs| ==> Nodes(t) !! Held(k.procs[j]) && stack !in Held(k.procs[j])
    ensures Inv(k.(procs := k.procs[c := ChildOf(k.procs[i], t, stack)]))
  {
    hide GoodImage, Nodes, PrivatePages, Exclusive, Acct, Held, TableOk;
    var parent := k.procs[i];
    var img, loose := ChildOf(parent, t, stack), Nodes(t) + {stack, parent.code};
    ImageIsGood(k, loose, i);
    BareGood(parent, t, stack);
    assert Held(img) == loose;
    CodeNotPrivate(parent);
    SharedExclusive(k.procs, i, c, img);
    ChildAcct(k, c, img, loose);
    InvAssemble(k, loose, c, img);
  }

  /** fork with exactly FORK_MIN free pages: every count is exact, and the child maps nothing at all. */
  lemma ForkShort(k: Kernel, i: nat, c: nat, off: nat)
    requires Inv(k) && Live(k, i) && c < |k.procs| && c != i && k.procs[c].NoImage? && |k.pool.free| == FORK_MIN
    requires off + 32 <= |FrameAt(k, k.procs[i].stack)|
    ensures var img, stack := k.procs[i], k.pool.free[0];
            var r := Fork(k, i, c, off);
            && Inv(r) && |r.procs| == |k.procs| && r.procs[i].Image? && r.procs[c].Image? && r.pool.free == []
            && r.procs == k.procs[i := img.(t := r.procs[i].t)][c := ChildOf(img, r.procs[c].t, stack)]
            && SamePlaces(img.t, r.procs[i].t) && (forall v :: !UserLeaf(r.procs[c].t, v))
            && r.frames == k.frames[stack := Patched(FrameAt(k, img.stack), off)]
            && forall j :: 0 <= j < |k.procs| ==> stack !in Held(k.procs[j])
  {
    hide Inv, InvWith, GoodImage, Held, Taken, Shared, NewTable, CowShare, Patched, FrameAt, TableOk, Nodes, Turned;
    var img, stack := k.procs[i], k.pool.free[0];
    var contents := Patched(FrameAt(k, img.stack), off);
    var k1 := TakePage(k, contents);
    var k2 := k1.(pool := Shared(k1.pool, img.code));
    ForkBounds(k, i);
    ForkStart(k, i, contents);
    NewTableOkIff(k2.pool, k.etext, img.code, stack);
    NewTableFlight(k2, {stack, img.code}, img.code, stack);
    var g := NewTable(k2.pool, k.etext, img.code, stack);
    var k3 := k2.(pool := g.pool);
    var s := CowShare(img.t, g.t, g.pool, HEAP_VPN, PageEnd(img.heapTop));
    ShareNothing(img.t, g.t, g.pool, HEAP_VPN, PageEnd(img.heapTop));
    ShortParent(k3, Nodes(g.t) + {stack, img.code}, i, s.parent);
    var k4 := WithTable(k3, i, s.parent);
    BareAdopted(k4, i, c, g.t, stack);
    assert ForkBuilt(k, i, c, off) == k4.(procs := k4.procs[c := ChildOf(k4.procs[i], g.t, stack)]);
  }

  // ---- fork with one page ----

  lemma TablelessGood(img: Image)
    requires img.Tableless? && img.ustack.SomePage? && img.code != img.ustack.page
    ensures GoodImage(img) && Held(img) == {img.ustack.page, img.code} && PrivatePages(img) == {img.ustack.page}
  {
  }

  /**
    fork with a single free page, nothing to share: counts are exact, the child holds stack and
    code and has no table.
   */
  lemma ForkNullInv(k: Kernel, i: nat, c: nat, off: nat)
    requires Inv(k) && Live(k, i) && c < |k.procs| && c != i && k.procs[c].NoImage? && |k.pool.free| == 1
    requires off + 32 <= |FrameAt(k, k.procs[i].stack)|
    ensures var img, stack := k.procs[i], k.pool.free[0];
            var r := Fork(k, i, c, off);
            && Inv(r) && r.pool.free == [] && r.procs == k.procs[c := Tableless(img.code, SomePage(stack))]
            && r.frames == k.frames[stack := Patched(FrameAt(k, img.stack), off)]
            && forall j :: 0 <= j < |k.procs| ==> stack !in Held(k.procs[j])
  {
    hide Inv, GoodImage, Held, PrivatePages, Exclusive, Acct, Patched, FrameAt;
    var img, stack := k.procs[i], k.pool.free[0];
    var contents := Patched(FrameAt(k, img.stack), off);
    var k1 := TakePage(k, contents);
    var k2 := k1.(pool := Shared(k1.pool, img.code));
    ForkBounds(k, i);
    ForkStart(k, i, contents);
    var child := Tableless(img.code, SomePage(stack));
    TablelessGood(child);
    ImageIsGood(k2, {stack, img.code}, i);
    OwnHeld(img);
    CodeNotPrivate(img);
    SharedExclusive(k2.procs, i, c, child);
    ChildAcct(k2, c, child, {stack, img.code});
    InvAssemble(k2, {stack, img.code}, c, child);
    assert Fork(k, i, c, off) == k2.(procs := k2.procs[c := child]);
  }

  lemma {:induction false} NullShareReturnsIff(parent: Table, v: nat, end: nat)
    ensures NullShareEnding(parent, v, end) == Returns <==> forall u :: v <= u < end ==> u !in parent.ptes
    ensures NullShareEnding(parent, v, end) != Hangs
    decreases end - v
  {
    if v < end { NullShareReturnsIff(parent, v + 1, end); }
  }

  /**
    How fork comes out: it returns with enough pages for the child's table, or with one page and
    no heap page to share.
   */
  lemma ForkReturnsIff(k: Kernel, i: nat)
    requires Inv(k) && Live(k, i)
    ensures KERN_FIRST < k.etext < RAM_END
    ensures ForkEnding(k, i) == Returns <==> ForkReturns(k, i)
    ensures ForkEnding(k, i) == Hangs <==> 2 <= |k.pool.free| < FORK_MIN
  {
    hide Inv, NewTable;
    ForkBounds(k, i);
    if k.pool.free != [] {
      var pool2 := Shared(Taken(k.pool), k.procs[i].code);
      assert |pool2.free| == |k.pool.free| - 1;
      NewTableOkIff(pool2, k.etext, k.procs[i].code, k.pool.free[0]);
      NullShareReturnsIff(k.procs[i].t, HEAP_VPN, PageEnd(k.procs[i].heapTop));
    }
  }

  /** Whenever fork returns, every count is exact; the child can run if and only if FORK_PAGES pages were free. */
  lemma ForkKeeps(k: Kernel, i: nat, c: nat, off: nat)
    requires Inv(k) && Live(k, i) && c < |k.procs| && c != i && k.procs[c].NoImage? && ForkReturns(k, i)
    requires off + 32 <= |FrameAt(k, k.procs[i].stack)|
    ensures KERN_FIRST < k.etext < RAM_END && Inv(Fork(k, i, c, off))
    ensures Runs(Fork(k, i, c, off).procs[c]) <==> |k.pool.free| >= FORK_PAGES
  {
    hide Inv, Fork, FrameAt, SamePlaces, Patched, Held, Shared0;
    ForkBounds(k, i);
    if |k.pool.free| == 1 {
      ForkNullInv(k, i, c, off);
    } else if |k.pool.free| == FORK_MIN {
      ForkShort(k, i, c, off);
      assert !UserLeaf(Fork(k, i, c, off).procs[c].t, CODE_VPN);
    } else {
      ForkInv(k, i, c, off);
      SharedRuns(Fork(k, i, c, off).procs[c].t, Fork(k, i, c, off).procs[i], k.pool.free[0],
        PageEnd(k.procs[i].heapTop));
    }
  }

  lemma SharedRuns(child: Table, parent: Image, stack: nat, v: nat)
    requires parent.Image? && Shared0(child, parent, stack, v)
    ensures CODE_VPN in child.ptes && STACK_VPN in child.ptes
  {
  }
}
