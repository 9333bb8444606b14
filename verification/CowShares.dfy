/**
  uvm_cow_share as fork calls it, with any number of free pages that lets fork get that far:
  whether it finishes or gives up because a node cannot be allocated, the counts are exact.
 */
module CowShares {
  import opened Kalloc
  import opened Paging
  import opened Images
  import opened ProcTable
  import opened Cow
  import opened CowSafety
  import opened CowFork

  /** A child tree in flight whose user leaves are the parent's pages at the same places, or its code and stack page. */
  ghost predicate Echoes(child: Table, parent: Image, stack: nat, v: nat)
    requires parent.Image?
  {
    && TableOk(child) && UserInjective(child) && UserPages(child) !! Nodes(child)
    && forall w: nat :: UserLeaf(child, w) ==> Echo(child, parent, stack, v, w)
  }

  predicate Echo(child: Table, parent: Image, stack: nat, v: nat, w: nat)
    requires parent.Image? && UserLeaf(child, w)
  {
    var p := child.ptes[w].ppn;
    || (w == CODE_VPN && p == parent.code)
    || (w == STACK_VPN && p == stack)
    || (HEAP_VPN <= w < v && w in parent.t.ptes && parent.t.ptes[w].ppn == p)
  }

  /** Pages in flight beside the child's tree: those fork has taken and proc_pagetable could not map. */
  ghost predicate Beside(extra: set<nat>, child: Table, parent: Image)
    requires parent.Image?
  {
    && extra !! Nodes(child) + UserPages(child)
    && forall w :: HeapVpn(parent, w) && w in parent.t.ptes ==> parent.t.ptes[w].ppn !in extra
  }

  ghost predicate InFlight(k: Kernel, i: nat, child: Table, stack: nat, v: nat, extra: set<nat>) {
    && Live(k, i) && InvWith(k, Nodes(child) + UserPages(child) + extra) && Echoes(child, k.procs[i], stack, v)
    && Beside(extra, child, k.procs[i])
    && (forall j :: 0 <= j < |k.procs| ==> Nodes(child) !! Held(k.procs[j]) && stack !in Held(k.procs[j]))
  }

  /** The page at v is not in flight yet, and v is vacant in the child. */
  lemma NotEchoedYet(img: Image, child: Table, stack: nat, v: nat)
    requires GoodImage(img) && img.Image? && Echoes(child, img, stack, v) && HeapVpn(img, v) && v in img.t.ptes
    requires stack !in Held(img) && Nodes(child) !! Held(img)
    ensures var q := img.t.ptes[v].ppn;
            q in Held(img) && q !in UserPages(child) && q !in Nodes(child) && v !in child.ptes
  {
    Layout(img, v);
    OtherLeaf(img, v);
    hide UserInjective, Nodes, TableOk, Held, ShapeOk, PagesApart;
    var q := img.t.ptes[v].ppn;
    LeafHeld(img, v);
    forall w | UserLeaf(child, w) ensures child.ptes[w].ppn != q && w != v {
      assert Echo(child, img, stack, v, w);
      if w != CODE_VPN && w != STACK_VPN {
        LeafApart(img, w, v);
      }
    }
    assert !UserLeaf(child, v);
  }

  /** mappages on the child's tree: whatever nodes it hangs join the flight. */
  lemma NodesJoin(k: Kernel, child: Table, v: nat, pages: set<nat>)
    requires InvWith(k, Nodes(child) + pages) && TableOk(child) && Nodes(child) !! pages
    requires forall j :: 0 <= j < |k.procs| ==> Nodes(child) !! Held(k.procs[j])
    ensures var g := Walk(child, k.pool, v);
            && InvWith(k.(pool := g.pool), Nodes(g.t) + pages) && TableOk(g.t) && g.t.ptes == child.ptes
            && Nodes(g.t) !! pages
            && forall j :: 0 <= j < |k.procs| ==> Nodes(g.t) !! Held(k.procs[j])
  {
    var g, loose := Walk(child, k.pool, v), Nodes(child) + pages;
    assert NodesKnown(child, k.procs, k.kern + loose);
    hide Walk, Nodes, TableOk, Held, GoodImage, Exclusive, Acct, NodesKnown;
    WalkExtends(child, k.pool, v, k.first, k.procs, k.kern + loose);
    var more := Nodes(g.t) - Nodes(child);
    assert (k.kern + loose) + more == k.kern + (Nodes(g.t) + pages);
  }

  lemma EchoesGrow(child: Table, t': Table, parent: Image, stack: nat, v: nat)
    requires parent.Image? && Echoes(child, parent, stack, v) && TableOk(t') && t'.ptes == child.ptes
             && Nodes(t') !! UserPages(child)
    ensures Echoes(t', parent, stack, v) && UserPages(t') == UserPages(child)
  {
    hide Nodes, TableOk;
    forall w: nat | UserLeaf(t', w) ensures Echo(t', parent, stack, v, w) {
      assert UserLeaf(child, w) && Echo(child, parent, stack, v, w);
    }
  }

  lemma EchoesAdd(child: Table, parent: Image, stack: nat, v: nat, pte: Pte)
    requires parent.Image? && Echoes(child, parent, stack, v) && HEAP_VPN <= v < MMAP_VPN && LowKey(v) in child.lows
    requires v in parent.t.ptes && pte.ppn == parent.t.ptes[v].ppn && v !in child.ptes
             && pte.ppn !in UserPages(child) + Nodes(child)
    ensures var t' := SetPte(child, v, pte);
            Echoes(t', parent, stack, v + 1) && UserPages(t') == UserPages(child) + {pte.ppn}
              && Nodes(t') == Nodes(child)
  {
    var t' := SetPte(child, v, pte);
    SetLeaf(child, v, pte);
    NewLeafOk(child, v, pte);
    hide Nodes, TableOk, UserPages, UserInjective;
    forall w: nat | UserLeaf(t', w) ensures Echo(t', parent, stack, v + 1, w) {
      if w != v { assert UserLeaf(child, w) && Echo(child, parent, stack, v, w); }
    }
  }

  /** The echo does not depend on the parent's permissions, nor on how far the loop has come. */
  lemma EchoesKept(child: Table, parent: Image, parent': Image, stack: nat, v: nat, v': nat)
    requires parent.Image? && parent'.Image? && Echoes(child, parent, stack, v) && v <= v'
             && parent'.code == parent.code
    requires forall w :: w in parent.t.ptes ==> w in parent'.t.ptes && parent'.t.ptes[w].ppn == parent.t.ptes[w].ppn
    ensures Echoes(child, parent', stack, v')
  {
    hide Nodes, TableOk, UserPages, UserInjective;
    forall w: nat | UserLeaf(child, w) ensures Echo(child, parent', stack, v', w) {
      assert Echo(child, parent, stack, v, w);
    }
  }

  /** Neither does what is beside it. */
  lemma BesideKept(extra: set<nat>, child: Table, parent: Image, parent': Image)
    requires parent.Image? && parent'.Image? && Beside(extra, child, parent) && parent'.heapTop == parent.heapTop
    requires parent'.t.ptes.Keys == parent.t.ptes.Keys
             && forall w :: w in parent.t.ptes ==> parent'.t.ptes[w].ppn == parent.t.ptes[w].ppn
    ensures Beside(extra, child, parent')
  {
    hide Nodes, UserPages;
    forall w | HeapVpn(parent', w) && w in parent'.t.ptes ensures parent'.t.ptes[w].ppn !in extra {
      assert w in parent.t.ptes.Keys;
    }
  }

  /** The parent's entry turns read-only first. */
  lemma MarkStep(k: Kernel, i: nat, child: Table, stack: nat, v: nat, extra: set<nat>)
    requires InFlight(k, i, child, stack, v, extra) && HeapVpn(k.procs[i], v) && v in k.procs[i].t.ptes
    ensures var k1 := WithTable(k, i,
            SetPte(k.procs[i].t, v, Pte(k.procs[i].t.ptes[v].ppn, CowPerm(k.procs[i].t.ptes[v].perm))));
            InFlight(k1, i, child, stack, v, extra) && Held(k1.procs[i]) == Held(k.procs[i])
  {
    hide InvWith, GoodImage, Nodes, UserPages, Held, Echoes, PrivatePages, CowPerm, Beside;
    var img := k.procs[i];
    var img' := img.(t := SetPte(img.t, v, Pte(img.t.ptes[v].ppn, CowPerm(img.t.ptes[v].perm))));
    ImageIsGood(k, Nodes(child) + UserPages(child) + extra, i);
    MarkCow(img, v);
    RelabelStep(k, Nodes(child) + UserPages(child) + extra, i, img');
    EchoesKept(child, img, img', stack, v, v);
    BesideKept(extra, child, img, img');
  }

  function MapThen(k: Kernel, child: Table, v: nat, pte: Pte): (Grown, Kernel) {
    var g := MapPage(child, k.pool, v, pte);
    (g, k.(pool := if g.ok then Shared(g.pool, pte.ppn) else g.pool))
  }

  /** mappages into the child, and one more reference exactly if it succeeded. */
  lemma MapThenInFlight(k: Kernel, i: nat, child: Table, stack: nat, v: nat, pte: Pte, extra: set<nat>)
    requires InFlight(k, i, child, stack, v, extra) && HeapVpn(k.procs[i], v) && v in k.procs[i].t.ptes
             && pte.ppn == k.procs[i].t.ptes[v].ppn
    ensures var (g, k') := MapThen(k, child, v, pte); InFlight(k', i, g.t, stack, v + 1, extra)
  {
    hide InvWith, GoodImage, Nodes, UserPages, Held, Walk, TableOk, Shared, UserInjective, Echo;
    var img, pages := k.procs[i], UserPages(child) + extra;
    assert Nodes(child) + UserPages(child) + extra == Nodes(child) + pages;
    ImageIsGood(k, Nodes(child) + pages, i);
    HeapPlace(img, v);
    NotEchoedYet(img, child, stack, v);
    NodesJoin(k, child, v, pages);
    var w := Walk(child, k.pool, v);
    EchoesGrow(child, w.t, img, stack, v);
    var k1 := k.(pool := w.pool);
    var g := MapPage(child, k.pool, v, pte);
    if w.ok {
      assert v !in w.t.ptes && g == Grown(true, SetPte(w.t, v, pte), w.pool);
      WalkReaches(child, k.pool, v);
      EchoesAdd(w.t, img, stack, v, pte);
      ShareFlight(k1, Nodes(w.t) + pages, i, pte.ppn);
      assert Nodes(w.t) + pages + {pte.ppn} == Nodes(g.t) + UserPages(g.t) + extra;
    } else {
      assert g == w;
      assert Nodes(w.t) + pages == Nodes(g.t) + UserPages(g.t) + extra;
      EchoesKept(w.t, img, img, stack, v, v + 1);
    }
  }

  lemma HeapPlace(img: Image, v: nat)
    requires GoodImage(img) && img.Image? && HeapVpn(img, v)
    ensures HEAP_VPN <= v < MMAP_VPN
  {
    Layout(img, v);
  }

  lemma InFlightSkip(k: Kernel, i: nat, child: Table, stack: nat, v: nat, extra: set<nat>)
    requires InFlight(k, i, child, stack, v, extra)
    ensures InFlight(k, i, child, stack, v + 1, extra)
  {
    hide InvWith, Nodes, UserPages, Held, Echoes, Beside;
    EchoesKept(child, k.procs[i], k.procs[i], stack, v, v + 1);
  }

  lemma ShareUnfolds(k: Kernel, i: nat, child: Table, v: nat, end: nat)
    requires Live(k, i) && v < end && v in k.procs[i].t.ptes
    ensures var img := k.procs[i];
            var pte := Pte(img.t.ptes[v].ppn, CowPerm(img.t.ptes[v].perm));
            var k1 := WithTable(k, i, SetPte(img.t, v, pte));
            var (g, k2) := MapThen(k1, child, v, pte);
            CowShare(img.t, child, k.pool, v, end)
            == if g.ok then CowShare(k2.procs[i].t, g.t, k2.pool, v + 1, end)
              else Sharing(false, k2.procs[i].t, g.t, k2.pool)
  {
    hide MapPage, Shared, CowPerm;
  }

  /** Finished or not, uvm_cow_share leaves every count equal to the number of holders. */
  lemma {:induction false} ShareCounts(k: Kernel, i: nat, child: Table, stack: nat, v: nat, end: nat, extra: set<nat>)
    requires InFlight(k, i, child, stack, v, extra) && HEAP_VPN <= v && end == PageEnd(k.procs[i].heapTop)
    ensures var s := CowShare(k.procs[i].t, child, k.pool, v, end);
            InvWith(WithTable(k, i, s.parent).(pool := s.pool), Nodes(s.child) + UserPages(s.child) + extra)
    decreases end - v
  {
    hide InFlight, GoodImage, InvWith, Nodes, UserPages, MapPage, CowPerm, Shared;
    InFlightInv(k, i, child, stack, v, extra);
    var img := k.procs[i];
    if v >= end {
      assert k.procs[i := img.(t := img.t)] == k.procs;
    } else if v in img.t.ptes {
      var pte := Pte(img.t.ptes[v].ppn, CowPerm(img.t.ptes[v].perm));
      var k1 := WithTable(k, i, SetPte(img.t, v, pte));
      MarkStep(k, i, child, stack, v, extra);
      MapThenInFlight(k1, i, child, stack, v, pte, extra);
      ShareUnfolds(k, i, child, v, end);
      var (g, k2) := MapThen(k1, child, v, pte);
      InFlightInv(k2, i, g.t, stack, v + 1, extra);
      TwoUpdates(k, k2, i);
      if g.ok {
        ShareCounts(k2, i, g.t, stack, v + 1, end, extra);
      }
    } else {
      InFlightSkip(k, i, child, stack, v, extra);
      ShareCounts(k, i, child, stack, v + 1, end, extra);
    }
  }

  lemma TwoUpdates(k: Kernel, k2: Kernel, i: nat)
    requires Live(k, i) && Live(k2, i) && k2 == WithTable(k, i, k2.procs[i].t).(pool := k2.pool)
    ensures forall t, pool :: WithTable(k2, i, t).(pool := pool) == WithTable(k, i, t).(pool := pool)
    ensures WithTable(k, i, k2.procs[i].t).(pool := k2.pool) == k2
  {
    forall t, pool ensures WithTable(k2, i, t).(pool := pool) == WithTable(k, i, t).(pool := pool) {
      assert k2.procs[i := k2.procs[i].(t := t)] == k.procs[i := k.procs[i].(t := t)];
    }
  }

  lemma InFlightInv(k: Kernel, i: nat, child: Table, stack: nat, v: nat, extra: set<nat>)
    requires InFlight(k, i, child, stack, v, extra)
    ensures Live(k, i) && InvWith(k, Nodes(child) + UserPages(child) + extra)
  {
    hide InvWith, Nodes, UserPages, Held, Echoes, Beside;
  }

  // ---- fork's call ----

  /** A table with no user leaves but code and stack, or none. */
  ghost predicate OwnLeaves(t: Table, code: nat, stack: nat) {
    && (forall v :: UserLeaf(t, v) ==> v == CODE_VPN || v == STACK_VPN)
    && (CODE_VPN in t.ptes ==> t.ptes[CODE_VPN].ppn == code) && (STACK_VPN in t.ptes ==> t.ptes[STACK_VPN].ppn == stack)
  }

  lemma OwnUserPages(t: Table, code: nat, stack: nat)
    requires OwnLeaves(t, code, stack) && code != stack
    ensures UserPages(t) <= {code, stack} && UserInjective(t)
  {
    forall v | v in t.ptes && v < USER_TOP ensures v == CODE_VPN || v == STACK_VPN { assert UserLeaf(t, v); }
  }

  lemma HeapNotOwn(parent: Image, stack: nat, v: nat)
    requires GoodImage(parent) && parent.Image? && stack !in Held(parent) && HeapVpn(parent, v) && v in parent.t.ptes
    ensures parent.t.ptes[v].ppn !in {parent.code, stack}
  {
    hide Held, UserPages, Nodes, TableOk;
    Layout(parent, v);
    OtherLeaf(parent, v);
    LeafHeld(parent, v);
  }

  /** What proc_pagetable gives fork, whole or bare. */
  lemma NewTableEchoes(parent: Image, t: Table, stack: nat)
    requires GoodImage(parent) && parent.Image? && TableOk(t) && parent.code != stack
    requires {parent.code, stack} !! Nodes(t) && stack !in Held(parent) && OwnLeaves(t, parent.code, stack)
    ensures var extra := {parent.code, stack} - UserPages(t);
            && Echoes(t, parent, stack, HEAP_VPN) && Beside(extra, t, parent)
            && UserPages(t) + extra == {parent.code, stack}
  {
    hide Nodes, TableOk, UserPages, Held, GoodImage, UserInjective;
    OwnUserPages(t, parent.code, stack);
    forall v | HeapVpn(parent, v) && v in parent.t.ptes ensures parent.t.ptes[v].ppn !in {parent.code, stack} {
      HeapNotOwn(parent, stack, v);
    }
    forall v: nat | UserLeaf(t, v) ensures Echo(t, parent, stack, HEAP_VPN, v) { }
  }

  /** The state in which proc_fork calls uvm_cow_share. */
  lemma ForkInFlight(k: Kernel, i: nat, stack: nat)
    requires Live(k, i) && InvWith(k, {stack, k.procs[i].code}) && k.procs[i].code != stack
             && KERN_FIRST < k.etext < RAM_END
    requires (forall j :: 0 <= j < |k.procs| ==> stack !in Held(k.procs[j])) && |k.pool.free| >= KERNEL_PAGES
    ensures var g := NewTable(k.pool, k.etext, k.procs[i].code, stack);
            var extra := {k.procs[i].code, stack} - UserPages(g.t);
            g.ok && InFlight(k.(pool := g.pool), i, g.t, stack, HEAP_VPN, extra)
              && (|k.pool.free| == KERNEL_PAGES ==> extra == {k.procs[i].code, stack})
  {
    hide InvWith, NewTable, GoodImage, Held, Nodes, TableOk, UserPages;
    var code := k.procs[i].code;
    var g := NewTable(k.pool, k.etext, code, stack);
    NewTableOkIff(k.pool, k.etext, code, stack);
    NewTableFlight(k, {stack, code}, code, stack);
    ImageIsGood(k, {stack, code}, i);
    if |k.pool.free| >= TABLE_PAGES {
      NewTableSucceeds(k.pool, k.etext, code, stack);
      assert UserLeaf(g.t, CODE_VPN) && UserLeaf(g.t, STACK_VPN);
    } else {
      assert forall v :: !UserLeaf(g.t, v);
      NoLeafNoPage(g.t);
    }
    NewTableEchoes(k.procs[i], g.t, stack);
    var extra := {code, stack} - UserPages(g.t);
    assert Nodes(g.t) + {stack, code} == Nodes(g.t) + UserPages(g.t) + extra;
  }

  lemma NoLeafNoPage(t: Table)
    requires forall v :: !UserLeaf(t, v)
    ensures UserPages(t) == {}
  {
    assert forall v :: v in t.ptes && v < USER_TOP ==> UserLeaf(t, v);
  }
}
