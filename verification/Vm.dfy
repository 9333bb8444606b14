/**
  src/vm.c on the tree in memory.  Every method takes the table its root stands for as a
  ghost argument and is proved to do in memory what the operation on flat tables does.
 */
module Vm {
  import opened Kalloc
  import opened Paging
  import opened Images
  import opened ProcTable
  import opened Cow
  import opened Sv39

  /** Pages on the free list serve in no tree, and none is listed twice. */
  ghost predicate Apart(pool: Pool, t: Table) {
    NoDup(pool.free) && forall p :: p in pool.free ==> p !in Nodes(t)
  }

  /** Every page of memory holds 512 words. */
  predicate Sized(mem: Memory) { forall p :: p in mem ==> |mem[p]| == PAGE_WORDS }

  function SetOfFree(pool: Pool): set<nat> { SetOf(pool.free) }

  /**
    From memory m0 and pool pool0 holding table t to memory m holding g's table: only pages
    of the tree were written, and pages new in the tree came from the free list.
   */
  ghost predicate Carried(m0: Memory, pool0: Pool, t: Table, m: Memory, g: Grown) {
    && Represents(m, g.t) && Apart(g.pool, g.t) && SameBut(m0, m, Nodes(g.t)) && g.t.root == t.root
    && Nodes(t) <= Nodes(g.t) <= Nodes(t) + SetOfFree(pool0) && SetOfFree(g.pool) <= SetOfFree(pool0)
    && (Sized(m0) ==> Sized(m))
  }

  lemma CarriedTrans(m0: Memory, pool0: Pool, t: Table, m1: Memory, g: Grown, m2: Memory, h: Grown)
    requires Carried(m0, pool0, t, m1, g) && Carried(m1, g.pool, g.t, m2, h)
    ensures Carried(m0, pool0, t, m2, h)
  {
    hide Represents, Apart, Nodes, Sized, SetOfFree;
  }

  lemma CarriedNone(m: Memory, pool: Pool, t: Table, ok: bool)
    requires Represents(m, t) && Apart(pool, t)
    ensures Carried(m, pool, t, m, Grown(ok, t, pool))
  {
    hide Represents, Apart, Nodes, Sized, SetOfFree;
  }

  lemma CarriedRep(m0: Memory, pool0: Pool, t: Table, m: Memory, g: Grown)
    requires Carried(m0, pool0, t, m, g)
    ensures Represents(m, g.t) && Apart(g.pool, g.t) && g.t.root == t.root && TableOk(g.t)
  {
    hide NodePage, MidsOk, LowsOk, Apart, TableOk;
  }

  lemma CarriedHang(m0: Memory, pool0: Pool, t: Table, g: Grown, pt: nat, i: nat, w: nat)
    requires pool0.free != [] && g.pool == Taken(pool0) && g.t.root == t.root
    requires Nodes(g.t) == Nodes(t) + {pool0.free[0]} && Apart(g.pool, g.t) && pt in Nodes(t)
    requires var m1 := m0[pool0.free[0] := ZeroFrame()];
             pt in m1 && i < |m1[pt]| && Represents(SetEntry(m1, pt, i, w), g.t)
    ensures Carried(m0, pool0, t, SetEntry(m0[pool0.free[0] := ZeroFrame()], pt, i, w), g)
  {
    hide Represents, Apart, Nodes;
  }

  /** What one turn of walk's loop amounts to. */
  function TurnOf(t: Table, pool: Pool, level: nat, vpn: nat, alloc: bool): Grown {
    if alloc then (if level == 2 then WalkMid(t, pool, vpn) else WalkLow(t, pool, vpn))
    else Grown(if level == 2 then MidKey(vpn) in t.mids else LowKey(vpn) in t.lows, t, pool)
  }

  function WalkOf(t: Table, pool: Pool, vpn: nat, alloc: bool): Grown {
    if alloc then Walk(t, pool, vpn) else Grown(LowKey(vpn) in t.lows, t, pool)
  }

  lemma ApartTaken(pool: Pool, t: Table, t': Table)
    requires Apart(pool, t) && pool.free != [] && Nodes(t') == Nodes(t) + {pool.free[0]}
    ensures Apart(Taken(pool), t')
  {
    hide Nodes;
  }

  /** Storing the entry of a zeroed page is what the turn does to the table. */
  lemma TurnHangs(mem: Memory, pool: Pool, t: Table, level: nat, va: nat, pt: nat)
    requires 1 <= level <= 2 && Represents(mem, t) && va < MAXVA && Apart(pool, t) && pool.free != []
    requires if level == 2 then pt == t.root && MidKey(va / 4096) !in t.mids
             else MidKey(va / 4096) in t.mids && pt == t.mids[MidKey(va / 4096)] && LowKey(va / 4096) !in t.lows
    ensures var g := TurnOf(t, pool, level, va / 4096, true);
            var m1 := mem[pool.free[0] := ZeroFrame()];
            && g.ok && g.pool == Taken(pool) && pt in m1 && |m1[pt]| == 512
            && Carried(mem, pool, t, SetEntry(m1, pt, Px(level, va), NodeEntry(pool.free[0])), g)
            && (if level == 2 then MidKey(va / 4096) in g.t.mids && g.t.mids[MidKey(va / 4096)] == pool.free[0]
                else LowKey(va / 4096) in g.t.lows && g.t.lows[LowKey(va / 4096)] == pool.free[0])
  {
    var p, vpn := pool.free[0], va / 4096;
    PxKeys(va);
    var g := TurnOf(t, pool, level, vpn, true);
    assert g.pool == Taken(pool) && |Taken(pool).free| < |pool.free|;
    assert TableOk(t);
    if level == 2 {
      HangMid(t, pool, vpn);
      RepHangMid(mem, t, MidKey(vpn), p);
    } else {
      HangLow(t, pool, vpn);
      RepHangLow(mem, t, LowKey(vpn), p);
      assert LowKey(vpn) % 512 == Px(1, va);
      assert pt in t.mids.Values;
    }
    hide Represents, TableOk;
    ApartTaken(pool, t, g.t);
    CarriedHang(mem, pool, t, g, pt, Px(level, va), NodeEntry(p));
  }

  lemma TurnSkips(t: Table, pool: Pool, level: nat, vpn: nat, alloc: bool)
    requires 1 <= level <= 2
    requires var found := if level == 2 then MidKey(vpn) in t.mids else LowKey(vpn) in t.lows;
             found || !alloc || pool.free == []
    ensures var found := if level == 2 then MidKey(vpn) in t.mids else LowKey(vpn) in t.lows;
            TurnOf(t, pool, level, vpn, alloc) == Grown(found, t, pool)
  {
  }

  lemma TurnsAreWalk(t: Table, pool: Pool, h: Grown, g: Grown, level: nat, va: nat, alloc: bool)
    requires 1 <= level <= 2 && h.ok && va < MAXVA && TableOk(t) && g == TurnOf(h.t, h.pool, level, va / 4096, alloc)
    requires h == if level == 2 then Grown(true, t, pool) else TurnOf(t, pool, 2, va / 4096, alloc)
    ensures level == 1 || !g.ok ==> g == WalkOf(t, pool, va / 4096, alloc)
  {
    PxKeys(va);
  }

  lemma PtIsNode(t: Table, level: nat, va: nat, pt: nat)
    requires 1 <= level <= 2
    requires if level == 2 then pt == t.root else MidKey(va / 4096) in t.mids && pt == t.mids[MidKey(va / 4096)]
    ensures pt in Nodes(t)
  {
    if level == 1 { assert pt in t.mids.Values; }
  }

  lemma NodeNotFree(pool: Pool, t: Table, p: nat)
    requires Apart(pool, t) && p in Nodes(t)
    ensures p !in pool.free
  {
    hide Nodes;
  }

  lemma TakenNot(pool: Pool)
    requires NoDup(pool.free) && pool.free != []
    ensures pool.free[0] !in Taken(pool).free
  {
  }

  /** A turn that finds a valid entry follows it. */
  lemma TurnReads(mem: Memory, t: Table, level: nat, va: nat, pt: nat)
    requires 1 <= level <= 2 && Represents(mem, t) && va < MAXVA
    requires if level == 2 then pt == t.root else MidKey(va / 4096) in t.mids && pt == t.mids[MidKey(va / 4096)]
    ensures pt in mem && |mem[pt]| == 512
    ensures var w, m := mem[pt][Px(level, va)], if level == 2 then t.mids else t.lows;
            var k := if level == 2 then MidKey(va / 4096) else LowKey(va / 4096);
            && (Has(w, PTE_V) <==> k in m) && (k in m ==> PageOf(w) == m[k])
  {
    hide Represents;
    if level == 2 {
      RootReads(mem, t, va);
      if MidKey(va / 4096) in t.mids { NodeEntryTells(t.mids[MidKey(va / 4096)]); }
    } else {
      MidReads(mem, t, va);
      if LowKey(va / 4096) in t.lows { NodeEntryTells(t.lows[LowKey(va / 4096)]); }
    }
  }

  // ---- leaves ----

  lemma CarriedLeaf(m: Memory, pool: Pool, t: Table, v: nat, w: nat, ptes: map<nat, Pte>, ok: bool)
    requires Represents(m, t) && Apart(pool, t) && LowKey(v) in t.lows && LeafWord(w, ptes, v)
    requires forall u :: u != v ==> (u in ptes <==> u in t.ptes) && (u in ptes ==> ptes[u] == t.ptes[u])
    ensures var low := t.lows[LowKey(v)];
            low in m && |m[low]| == 512
              && Carried(m, pool, t, SetEntry(m, low, v % 512, w), Grown(ok, t.(ptes := ptes), pool))
  {
    RepLeaf(m, t, v, w, ptes);
    assert t.lows[LowKey(v)] in t.lows.Values;
    hide Represents, LeafWord, LowKey;
  }

  lemma LeafWordOf(ptes: map<nat, Pte>, v: nat, p: nat, flags: bv10)
    requires flags & PTE_V != 0
    ensures LeafWord(Entry(p, flags), ptes[v := Pte(p, PermOfFlags(flags))], v)
  {
    EntryRoundTrip(p, flags);
    hide Entry, FlagsOf, PageOf, PermOfFlags;
  }

  lemma NewLeafWord(ptes: map<nat, Pte>, v: nat, p: nat, flags: bv10)
    ensures LeafWord(Entry(p, flags | PTE_V), ptes[v := Pte(p, PermOfFlags(flags))], v)
  {
    WithV(flags);
    hide Entry, LeafWord, PermOfFlags;
    LeafWordOf(ptes, v, p, flags | PTE_V);
  }

  /** One turn of mappages on a vacant entry. */
  lemma MapStores(m: Memory, pool: Pool, t: Table, va: nat, p: nat, flags: bv10)
    requires Represents(m, t) && Apart(pool, t) && va < MAXVA && LowKey(va / 4096) in t.lows && va / 4096 !in t.ptes
    ensures var v, low := va / 4096, t.lows[LowKey(va / 4096)];
            && low in m && |m[low]| == 512
            && Carried(m, pool, t, SetEntry(m, low, Px(0, va), Entry(p, flags | PTE_V)),
                       Grown(true, t.(ptes := t.ptes[v := Pte(p, PermOfFlags(flags))]), pool))
  {
    LowReads(m, t, va);
    hide Represents, Carried, Apart, LeafWord, Entry, PermOfFlags, LowKey;
    NewLeafWord(t.ptes, va / 4096, p, flags);
    CarriedLeaf(m, pool, t, va / 4096, Entry(p, flags | PTE_V), t.ptes[va / 4096 := Pte(p, PermOfFlags(flags))], true);
  }

  lemma LeafValid(m: Memory, t: Table, va: nat)
    requires Represents(m, t) && va < MAXVA && LowKey(va / 4096) in t.lows
    ensures var low := t.lows[LowKey(va / 4096)];
            && low in m && |m[low]| == 512 && (Has(m[low][Px(0, va)], PTE_V) <==> va / 4096 in t.ptes)
            && (va / 4096 in t.ptes ==>
                  && PageOf(m[low][Px(0, va)]) == t.ptes[va / 4096].ppn
                  && PermOf(m[low][Px(0, va)]) == t.ptes[va / 4096].perm)
  {
    hide Represents;
    LowReads(m, t, va);
  }

  lemma NoLowNoLeaf(m: Memory, t: Table, v: nat)
    requires Represents(m, t) && v in t.ptes
    ensures LowKey(v) in t.lows
  {
  }

  lemma MapPageIs(t: Table, pool: Pool, v: nat, pte: Pte)
    ensures var g := Walk(t, pool, v);
            MapPage(t, pool, v, pte)
            == if !g.ok || v in g.t.ptes then g.(ok := false) else g.(t := g.t.(ptes := g.t.ptes[v := pte]))
  {
    hide Walk;
  }

  lemma CarriedFails(m0: Memory, pool0: Pool, t: Table, m: Memory, g: Grown, ok: bool)
    requires Carried(m0, pool0, t, m, g)
    ensures Carried(m0, pool0, t, m, g.(ok := ok))
  {
    hide Represents, Apart, Nodes;
  }

  // ---- giving leaves back ----

  /** vm_free_range on the flat table: every leaf in [v, end) goes, and its page loses one reference. */
  function Unmap(t: Table, pool: Pool, v: nat, end: nat): Grown
    decreases end - v
  {
    if v >= end then Grown(true, t, pool)
    else if v in t.ptes then Unmap(ClearPte(t, v), Freed(pool, t.ptes[v].ppn), v + 1, end)
    else Unmap(t, pool, v + 1, end)
  }

  /** Each leaf of the range leads to a page of its own that is in use and not a node. */
  ghost predicate Freeable(mem: Memory, pool: Pool, t: Table, v: nat, end: nat) {
    && (forall u :: v <= u < end && u in t.ptes ==>
      InRam(t.ptes[u].ppn) && t.ptes[u].ppn in mem && t.ptes[u].ppn !in Nodes(t) && t.ptes[u].ppn !in pool.free)
    && (forall u, w :: v <= u < w < end && u in t.ptes && w in t.ptes ==> t.ptes[u].ppn != t.ptes[w].ppn)
  }

  /** Only pages of the tree and pages that are free now were written. */
  ghost predicate Reclaimed(m0: Memory, pool0: Pool, t: Table, m: Memory, g: Grown) {
    && Represents(m, g.t) && Apart(g.pool, g.t) && g.t.root == t.root && Nodes(g.t) == Nodes(t)
    && SetOfFree(pool0) <= SetOfFree(g.pool) && SameBut(m0, m, Nodes(t) + SetOfFree(g.pool)) && m0.Keys <= m.Keys
    && Sized(m)
  }

  lemma ReclaimedTrans(m0: Memory, pool0: Pool, t: Table, m1: Memory, g: Grown, m2: Memory, h: Grown)
    requires Reclaimed(m0, pool0, t, m1, g) && Reclaimed(m1, g.pool, g.t, m2, h)
    ensures Reclaimed(m0, pool0, t, m2, h)
  {
    hide Represents, Apart, Nodes, Sized, SetOfFree;
  }

  lemma ReclaimedNone(m: Memory, pool: Pool, t: Table)
    requires Represents(m, t) && Apart(pool, t) && Sized(m)
    ensures Reclaimed(m, pool, t, m, Grown(true, t, pool))
  {
    hide Represents, Apart, Nodes, Sized, SetOfFree;
  }

  lemma ReclaimedRep(m0: Memory, pool0: Pool, t: Table, m: Memory, g: Grown)
    requires Reclaimed(m0, pool0, t, m, g)
    ensures Represents(m, g.t) && Apart(g.pool, g.t) && g.t.root == t.root && Sized(m)
  {
    hide Represents, Apart, Nodes, Sized, SetOfFree;
  }

  lemma FreedSet(pool: Pool, p: nat)
    ensures SetOfFree(Freed(pool, p)) == if Ref(pool, p) > 1 then SetOfFree(pool) else SetOfFree(pool) + {p}
    ensures NoDup(pool.free) && p !in pool.free ==> NoDup(Freed(pool, p).free)
  {
  }

  /** Clearing the entry of a freed page. */
  lemma ClearReclaims(m0: Memory, pool: Pool, t: Table, v: nat, m1: Memory, m2: Memory)
    requires Represents(m0, t) && Apart(pool, t) && Sized(m0) && v in t.ptes && LowKey(v) in t.lows
    requires var p := t.ptes[v].ppn;
             && p in m0 && p !in Nodes(t) && p !in pool.free
             && SameBut(m0, m1, {p}) && p in m1 && |m1[p]| == PAGE_WORDS && (Ref(pool, p) > 1 ==> m1 == m0)
    requires t.lows[LowKey(v)] in m1 && |m1[t.lows[LowKey(v)]]| == 512
             && m2 == SetEntry(m1, t.lows[LowKey(v)], v % 512, 0)
    ensures Reclaimed(m0, pool, t, m2, Grown(true, ClearPte(t, v), Freed(pool, t.ptes[v].ppn)))
  {
    hide Represents, Freed, LowKey, Nodes, LeafWord;
    var p := t.ptes[v].ppn;
    FreedSet(pool, p);
    RepFrame(m0, m1, t, {p});
    ClearedWord(t.ptes, v);
    RepLeaf(m1, t, v, 0, t.ptes - {v});
    LowIsNode(t, LowKey(v));
    SameNodes(t, t.ptes - {v});
    assert Sized(m2);
    var pool' := Freed(pool, p);
    assert forall q :: q in pool'.free ==> q in SetOfFree(pool');
  }

  lemma ClearedWord(ptes: map<nat, Pte>, v: nat)
    ensures LeafWord(0, ptes - {v}, v)
  {
    ZeroWord();
  }

  lemma SameNodes(t: Table, ptes: map<nat, Pte>)
    ensures Nodes(t.(ptes := ptes)) == Nodes(t)
  {
  }

  lemma LowIsNode(t: Table, k: nat)
    requires k in t.lows
    ensures t.lows[k] in Nodes(t)
  {
    assert t.lows[k] in t.lows.Values;
  }

  lemma FreeableStep(mem: Memory, mem': Memory, pool: Pool, t: Table, v: nat, end: nat)
    requires Freeable(mem, pool, t, v, end) && v < end && mem.Keys <= mem'.Keys
    ensures v in t.ptes ==> Freeable(mem', Freed(pool, t.ptes[v].ppn), ClearPte(t, v), v + 1, end)
    ensures v !in t.ptes ==> Freeable(mem', pool, t, v + 1, end)
  {
    if v in t.ptes {
      FreedSet(pool, t.ptes[v].ppn);
      assert Nodes(ClearPte(t, v)) == Nodes(t);
      hide Nodes, Freed;
      var pool' := Freed(pool, t.ptes[v].ppn);
      forall u | v + 1 <= u < end && u in t.ptes ensures t.ptes[u].ppn !in pool'.free {
        assert forall q :: q in pool'.free ==> q in SetOfFree(pool');
        assert t.ptes[u].ppn !in SetOfFree(pool);
      }
    }
  }

  // ---- copy on write ----

  lemma ApartShared(pool: Pool, t: Table, p: nat)
    requires Apart(pool, t)
    ensures Apart(Shared(pool, p), t) && SetOfFree(Shared(pool, p)) == SetOfFree(pool)
  {
  }

  lemma RewriteLeaf(m: Memory, pool: Pool, t: Table, va: nat, p: nat, flags: bv10)
    requires Represents(m, t) && Apart(pool, t) && va < MAXVA && va / 4096 in t.ptes && flags & PTE_V != 0
    ensures LowKey(va / 4096) in t.lows
    ensures var v, low := va / 4096, t.lows[LowKey(va / 4096)];
            && low in m && |m[low]| == 512
            && Carried(m, pool, t, SetEntry(m, low, Px(0, va), Entry(p, flags)),
              Grown(true, SetPte(t, v, Pte(p, PermOfFlags(flags))), pool))
            && Nodes(SetPte(t, v, Pte(p, PermOfFlags(flags)))) == Nodes(t)
  {
    hide Represents, Carried, Apart, LowKey, PermOfFlags, LeafWord, Entry, SetEntry;
    NoLowNoLeaf(m, t, va / 4096);
    LowReads(m, t, va);
    var pte := Pte(p, PermOfFlags(flags));
    LeafWordOf(t.ptes, va / 4096, p, flags);
    CarriedLeaf(m, pool, t, va / 4096, Entry(p, flags), t.ptes[va / 4096 := pte], true);
  }

  lemma MapPagesOne(t: Table, pool: Pool, v: nat, p: nat, perm: Perm)
    ensures Paging.MapPages(t, pool, v, 1, p, perm) == MapPage(t, pool, v, Pte(p, perm))
  {
    hide MapPage, Paging.MapPages;
    MapPagesStep(t, pool, v, 1, p, perm);
    var g := MapPage(t, pool, v, Pte(p, perm));
    MapPagesStep(g.t, g.pool, v + 1, 0, p + 1, perm);
  }

  /** Two trees, one being filled from the other: only their own pages were written. */
  ghost predicate Sharing2(m0: Memory, pool0: Pool, tp: Table, tc: Table, m: Memory, s: Sharing) {
    && Represents(m, s.parent) && Represents(m, s.child) && Apart(s.pool, s.parent) && Apart(s.pool, s.child)
    && s.parent.root == tp.root && s.child.root == tc.root
    && Nodes(s.parent) == Nodes(tp) && Nodes(tc) <= Nodes(s.child) <= Nodes(tc) + SetOfFree(pool0)
    && Nodes(s.parent) !! Nodes(s.child) && SetOfFree(s.pool) <= SetOfFree(pool0)
    && SameBut(m0, m, Nodes(tp) + Nodes(s.child)) && (Sized(m0) ==> Sized(m))
  }

  lemma SharingNone(m: Memory, pool: Pool, tp: Table, tc: Table)
    requires Represents(m, tp) && Represents(m, tc) && Apart(pool, tp) && Apart(pool, tc) && Nodes(tp) !! Nodes(tc)
    ensures Sharing2(m, pool, tp, tc, m, Sharing(true, tp, tc, pool))
  {
    hide Represents, Apart, Nodes, Sized, SetOfFree;
  }

  lemma SharingRep(m0: Memory, pool0: Pool, tp: Table, tc: Table, m: Memory, s: Sharing)
    requires Sharing2(m0, pool0, tp, tc, m, s)
    ensures Represents(m, s.parent) && Represents(m, s.child) && Apart(s.pool, s.parent) && Apart(s.pool, s.child)
    ensures s.parent.root == tp.root && s.child.root == tc.root && Nodes(s.parent) !! Nodes(s.child)
  {
    hide Represents, Apart, Nodes, Sized, SetOfFree;
  }

  lemma SharingTrans(m0: Memory, pool0: Pool, tp: Table, tc: Table, m1: Memory, s: Sharing, m2: Memory, s': Sharing)
    requires Sharing2(m0, pool0, tp, tc, m1, s) && Sharing2(m1, s.pool, s.parent, s.child, m2, s')
    ensures Sharing2(m0, pool0, tp, tc, m2, s')
  {
    hide Represents, Apart, Nodes, Sized, SetOfFree;
  }

  /** A change to the parent's tree alone. */
  lemma SharingParent(m0: Memory, pool0: Pool, tp: Table, tc: Table, m: Memory, g: Grown)
    requires Represents(m0, tc) && Apart(pool0, tp) && Apart(pool0, tc) && Nodes(tp) !! Nodes(tc)
    requires Carried(m0, pool0, tp, m, g) && Nodes(g.t) == Nodes(tp) && g.pool == pool0
    ensures Sharing2(m0, pool0, tp, tc, m, Sharing(true, g.t, tc, pool0))
  {
    hide Represents, Apart, Nodes, Sized, SetOfFree;
    RepFrame(m0, m, tc, Nodes(g.t));
  }

  lemma FreeNotNodes(pool: Pool, t: Table)
    requires Apart(pool, t)
    ensures SetOfFree(pool) !! Nodes(t)
  {
    hide Nodes;
  }

  /** A change to the child's tree alone; fresh nodes may join it. */
  lemma SharingChild(m0: Memory, pool0: Pool, tp: Table, tc: Table, m: Memory, g: Grown, ok: bool)
    requires Represents(m0, tp) && Apart(pool0, tp) && Apart(pool0, tc) && Nodes(tp) !! Nodes(tc)
    requires Carried(m0, pool0, tc, m, g)
    ensures Sharing2(m0, pool0, tp, tc, m, Sharing(ok, tp, g.t, g.pool))
  {
    FreeNotNodes(pool0, tp);
    ApartLess(pool0, g.pool, tp, g.t);
    hide Represents, Apart, Nodes, Sized, SetOfFree;
    RepFrame(m0, m, tp, Nodes(g.t));
  }

  lemma ApartLess(pool: Pool, pool': Pool, t: Table, t': Table)
    requires Apart(pool, t) && SetOfFree(pool') <= SetOfFree(pool) && Apart(pool', t')
    ensures Apart(pool', t)
  {
    hide Nodes;
    forall p | p in pool'.free ensures p !in Nodes(t) { assert p in SetOfFree(pool'); }
  }

  lemma SharingRef(m0: Memory, pool0: Pool, tp: Table, tc: Table, m: Memory, s: Sharing, p: nat, ok: bool)
    requires Sharing2(m0, pool0, tp, tc, m, s)
    ensures Sharing2(m0, pool0, tp, tc, m, s.(pool := Shared(s.pool, p), ok := ok))
  {
    ApartShared(s.pool, s.parent, p);
    ApartShared(s.pool, s.child, p);
    hide Represents, Apart, Nodes, Sized, SetOfFree, Shared;
  }

  /** What one turn of uvm_cow_share amounts to. */
  function ShareTurn(parent: Table, child: Table, pool: Pool, v: nat): Sharing {
    if v !in parent.ptes then Sharing(true, parent, child, pool)
    else
      var pte := Pte(parent.ptes[v].ppn, CowPerm(parent.ptes[v].perm));
      var g := MapPage(child, pool, v, pte);
      Sharing(g.ok, SetPte(parent, v, pte), g.t, if g.ok then Shared(g.pool, pte.ppn) else g.pool)
  }

  lemma ShareTurns(parent: Table, child: Table, pool: Pool, v: nat, end: nat)
    requires v < end
    ensures var s := ShareTurn(parent, child, pool, v);
            Cow.CowShare(parent, child, pool, v, end) == if s.ok
              then Cow.CowShare(s.parent, s.child, s.pool, v + 1, end) else s
  {
    hide MapPage;
  }

  lemma ShareEnds(parent: Table, child: Table, pool: Pool, v: nat, end: nat)
    requires v >= end
    ensures Cow.CowShare(parent, child, pool, v, end) == Sharing(true, parent, child, pool)
  {
  }

  lemma WFlags(f: bv10)
    ensures SharedFlags(f) == if f & PTE_W != 0 then (f & !PTE_W) | PTE_COW else f
  {
  }

  lemma SamePte(t: Table, v: nat, f: bv10)
    requires v in t.ptes && t.ptes[v].perm == PermOfFlags(f) && f & PTE_W == 0
    ensures CowPerm(t.ptes[v].perm) == t.ptes[v].perm && SetPte(t, v, t.ptes[v]) == t
  {
    assert t.ptes[v := t.ptes[v]] == t.ptes;
  }

  /** Leaves of the range lead to RAM pages. */
  predicate RamLeaves(t: Table, v: nat, end: nat) { forall u :: v <= u < end && u in t.ptes ==> InRam(t.ptes[u].ppn) }

  lemma RamLeavesStep(parent: Table, child: Table, pool: Pool, v: nat, end: nat)
    requires RamLeaves(parent, v, end) && v < end
    ensures RamLeaves(ShareTurn(parent, child, pool, v).parent, v + 1, end)
  {
    hide MapPage;
  }

  /** The flags uvm_cow_share gives both entries. */
  function SharedFlags(f: bv10): bv10 { if f & PTE_W != 0 then (f & !PTE_W) | PTE_COW else f }

  lemma SharedFlagsPerm(f: bv10)
    requires f & PTE_V != 0
    ensures PermOfFlags(SharedFlags(f)) == CowPerm(PermOfFlags(f)) && SharedFlags(f) & PTE_V != 0
  {
    CowFlags(f);
  }

  /**
    After a handled copy-on-write fault: the copy is in place, and only the tree, the copy and
    free pages were written.
   */
  ghost predicate Copy(m0: Memory, t: Table, m: Memory, t': Table, pool': Pool, q: nat, f: nat) {
    && Represents(m, t') && Apart(pool', t') && t'.root == t.root && Nodes(t') == Nodes(t)
    && q in m0 && f in m && m[f] == m0[q] && SameBut(m0, m, Nodes(t) + {f} + SetOfFree(pool')) && Sized(m)
  }

  /** The four steps of uvm_cow_fault: copy, rewrite the entry, drop the old page. */
  lemma CopyDone(m0: Memory, pool: Pool, t: Table, va: nat, flags: bv10, m1: Memory, m2: Memory, m3: Memory)
    requires Represents(m0, t) && Apart(pool, t) && Sized(m0) && va < MAXVA && va / 4096 in t.ptes
             && LowKey(va / 4096) in t.lows
    requires pool.free != [] && flags & PTE_V != 0 && t.ptes[va / 4096].ppn in m0
    requires t.ptes[va / 4096].ppn !in Nodes(t) && t.ptes[va / 4096].ppn !in pool.free
    requires m1 == m0[pool.free[0] := m0[t.ptes[va / 4096].ppn]]
    requires var low := t.lows[LowKey(va / 4096)];
             low in m1 && |m1[low]| == 512 && m2 == SetEntry(m1, low, Px(0, va), Entry(pool.free[0], flags))
    requires var q := t.ptes[va / 4096].ppn;
             SameBut(m2, m3, {q}) && q in m3 && |m3[q]| == PAGE_WORDS && (Ref(Taken(pool), q) > 1 ==> m3 == m2)
    ensures var q, f := t.ptes[va / 4096].ppn, pool.free[0];
            Copy(m0, t, m3, SetPte(t, va / 4096, Pte(f, PermOfFlags(flags))), Freed(Taken(pool), q), q, f)
  {
    hide Represents, Nodes, LowKey, Freed, Taken, PermOfFlags, Carried;
    var q, f, v := t.ptes[va / 4096].ppn, pool.free[0], va / 4096;
    var t' := SetPte(t, v, Pte(f, PermOfFlags(flags)));
    RepFrame(m0, m1, t, {f});
    TakenApart(pool, t);
    RewriteLeaf(m1, Taken(pool), t, va, f, flags);
    CarriedRep(m1, Taken(pool), t, m2, Grown(true, t', Taken(pool)));
    SameNodes(t, t'.ptes);
    RepFrame(m2, m3, t', {q});
    FreedApart(Taken(pool), t', q);
    FreedSet(Taken(pool), q);
    LowIsNode(t, LowKey(v));
    assert Sized(m3);
  }

  lemma TakenApart(pool: Pool, t: Table)
    requires Apart(pool, t) && pool.free != []
    ensures Apart(Taken(pool), t) && pool.free[0] !in Nodes(t) && pool.free[0] !in Taken(pool).free
            && SetOfFree(Taken(pool)) <= SetOfFree(pool)
    ensures forall q :: q !in pool.free ==> q !in Taken(pool).free
  {
    hide Nodes;
  }

  lemma FreedApart(pool: Pool, t: Table, q: nat)
    requires Apart(pool, t) && q !in Nodes(t) && q !in pool.free
    ensures Apart(Freed(pool, q), t)
  {
    hide Nodes;
    FreedSet(pool, q);
    forall p | p in Freed(pool, q).free ensures p !in Nodes(t) { assert p in SetOfFree(Freed(pool, q)); }
  }

  lemma CowBit(w: nat)
    ensures Has(w, PTE_COW) <==> PermOf(w).cow
  {
  }

  lemma StillThere(m1: Memory, m2: Memory, node: nat, i: nat, w: nat, page: nat)
    requires node in m1 && i < |m1[node]| && m2 == SetEntry(m1, node, i, w) && page in m1 && node != page
    ensures page in m2 && m2[page] == m1[page] && m2.Keys == m1.Keys
  {
  }

  lemma LowKeyOne()
    ensures LowKey(CODE_VPN) == 0 && 0x1000 / 4096 == CODE_VPN
  {
  }

  lemma CodeFlags()
    ensures PermOfFlags(PTE_R | PTE_X | PTE_U | PTE_V) == RXU && (PTE_R | PTE_X | PTE_U | PTE_V) & PTE_V != 0
    ensures PermOfFlags(PTE_R | PTE_X | PTE_U) == RXU && PermOfFlags(PTE_R | PTE_W | PTE_U) == RWU
  {
  }

  lemma LowHasMid(m: Memory, t: Table, va: nat)
    requires Represents(m, t) && va < MAXVA
    ensures LowKey(va / 4096) in t.lows ==> MidKey(va / 4096) in t.mids
  {
    PxKeys(va);
  }

  lemma PxSmall(level: nat, va: nat)
    requires level <= 2
    ensures Px(level, va) < 512
  {
  }

  // ---- building a table ----

  lemma EmptyApart(pool: Pool)
    requires NoDup(pool.free) && pool.free != []
    ensures Apart(Taken(pool), Empty(pool.free[0]))
  {
  }

  lemma RangesDoFit(etext: nat)
    requires KERN_FIRST < etext < RAM_END
    ensures RangesFit(KernelRanges(etext))
  {
  }

  lemma EmptyRep(m: Memory, root: nat)
    ensures Represents(m[root := ZeroFrame()], Empty(root)) && Nodes(Empty(root)) == {root}
  {
    ZeroNode(map[], 0);
  }

  lemma MapAllStep(t: Table, pool: Pool, rs: seq<Range>)
    ensures rs == [] ==> MapAll(t, pool, rs) == Grown(true, t, pool)
    ensures rs != [] ==>
              var g := Paging.MapPages(t, pool, rs[0].vpn, rs[0].n, rs[0].vpn, rs[0].perm);
              MapAll(t, pool, rs) == if g.ok then MapAll(g.t, g.pool, rs[1..]) else g
  {
    hide Paging.MapPages;
  }

  predicate RangesFit(rs: seq<Range>) { forall i :: 0 <= i < |rs| ==> rs[i].n > 0 && rs[i].vpn + rs[i].n <= VPNS }

  // ---- freeing the tree ----

  predicate At(t: Table, level: nat, key: nat) {
    if level == 0 then key in t.lows else if level == 1 then key in t.mids else key == 0
  }

  function PageAt(t: Table, level: nat, key: nat): nat
    requires At(t, level, key)
  {
    if level == 0 then t.lows[key] else if level == 1 then t.mids[key] else t.root
  }

  function Child(level: nat, key: nat, i: nat): nat { if level == 2 then i else key * 512 + i }

  /** The nodes hanging under the first n entries of a node. */
  function Under(t: Table, level: nat, key: nat, n: nat): set<nat> {
    if level == 0 then {}
    else if level == 1 then set k | k in t.lows && key * 512 <= k < key * 512 + n :: t.lows[k]
    else (set a | a in t.mids && a < n :: t.mids[a]) + (set k | k in t.lows && k / 512 < n :: t.lows[k])
  }

  /** The nodes of the subtree at a node. */
  function Sub(t: Table, level: nat, key: nat): set<nat>
    requires At(t, level, key)
  {
    {PageAt(t, level, key)} + Under(t, level, key, 512)
  }

  predicate KeysFit(t: Table) { (forall a :: a in t.mids ==> a < 512) && (forall k :: k in t.lows ==> k < 0x4_0000) }

  lemma WholeTree(t: Table)
    requires KeysFit(t)
    ensures Sub(t, 2, 0) == Nodes(t)
  {
    forall p | p in t.mids.Values ensures p in Under(t, 2, 0, 512) { var a :| a in t.mids && t.mids[a] == p; }
    forall p | p in t.lows.Values ensures p in Under(t, 2, 0, 512) { var k :| k in t.lows && t.lows[k] == p; }
  }

  /** The next entry's subtree is disjoint from what hangs under the entries before it. */
  lemma UnderStep(t: Table, level: nat, key: nat, n: nat)
    requires TableOk(t) && level <= 2 && At(t, level, key) && n < 512
    ensures var c := Child(level, key, n);
            if level > 0 && At(t, level - 1, c) then
              Under(t, level, key, n + 1) == Under(t, level, key, n) + Sub(t, level - 1, c)
                && Under(t, level, key, n) !! Sub(t, level - 1, c)
            else Under(t, level, key, n + 1) == Under(t, level, key, n)
  {
    if level == 1 {
      UnderLow(t, key, n);
    } else if level == 2 {
      UnderMid(t, n);
    }
  }

  lemma UnderLow(t: Table, a: nat, n: nat)
    requires TableOk(t)
    ensures var k := a * 512 + n;
            if k in t.lows then Under(t, 1, a, n + 1) == Under(t, 1, a, n) + {t.lows[k]}
              && t.lows[k] !in Under(t, 1, a, n)
            else Under(t, 1, a, n + 1) == Under(t, 1, a, n)
  {
  }

  lemma UnderMid(t: Table, n: nat)
    requires TableOk(t)
    ensures if n in t.mids then Under(t, 2, 0, n + 1) == Under(t, 2, 0, n) + Sub(t, 1, n)
            && Under(t, 2, 0, n) !! Sub(t, 1, n)
            else Under(t, 2, 0, n + 1) == Under(t, 2, 0, n)
  {
    var u, u', s := Under(t, 2, 0, n), Under(t, 2, 0, n + 1), Under(t, 1, n, 512);
    forall k | k in t.lows ensures k / 512 == n <==> n * 512 <= k < n * 512 + 512 { }
    forall p | p in s ensures p in u' && p in t.lows.Values && p !in u {
      var k :| k in t.lows && n * 512 <= k < n * 512 + 512 && t.lows[k] == p;
      assert k / 512 < n + 1;
    }
    if n in t.mids {
      assert t.mids[n] in t.mids.Values && t.mids[n] in u';
      assert t.mids[n] !in u;
      forall p | p in u' ensures p in u || p in s || p == t.mids[n] { }
    } else {
      forall p | p in u' ensures p in u { }
    }
  }

  lemma RootNotUnder(t: Table, level: nat, key: nat, n: nat)
    requires TableOk(t) && level <= 2 && At(t, level, key)
    ensures PageAt(t, level, key) !in Under(t, level, key, n)
  {
    if level == 1 {
      assert t.mids[key] in t.mids.Values;
      forall p | p in Under(t, 1, key, n) ensures p in t.lows.Values { }
    } else if level == 2 {
      forall p | p in Under(t, 2, key, n) ensures p in t.mids.Values + t.lows.Values { }
    }
  }

  /** No leaf can be taken for a node. */
  predicate LeavesShow(t: Table)
  {
    forall v :: v in t.ptes ==> t.ptes[v].perm.r || t.ptes[v].perm.w || t.ptes[v].perm.x
  }

  lemma ChildReads(m: Memory, t: Table, level: nat, key: nat, i: nat)
    requires Represents(m, t) && LeavesShow(t) && level <= 2 && At(t, level, key) && i < 512
    ensures var pt, c := PageAt(t, level, key), Child(level, key, i);
            && pt in m && |m[pt]| == 512 && (IsNode(m[pt][i]) <==> level > 0 && At(t, level - 1, c))
            && (level > 0 && At(t, level - 1, c) ==> PageOf(m[pt][i]) == PageAt(t, level - 1, c))
  {
    hide TableOk, NodeWord, LeafWord, NodePage, LeafPage, IsNode;
    if level == 0 {
      LeafAt(m[t.lows[key]], t.ptes, key * 512, i);
      LeafShows(m[t.lows[key]][i], t, key * 512 + i);
    } else if level == 1 {
      NodeAt(m[t.mids[key]], t.lows, key * 512, i);
      NodeShows(m[t.mids[key]][i], t.lows, key * 512 + i);
    } else {
      NodeAt(m[t.root], t.mids, 0, i);
      NodeShows(m[t.root][i], t.mids, i);
    }
  }

  lemma NodeShows(w: nat, m: map<nat, nat>, k: nat)
    requires NodeWord(w, m, k)
    ensures (IsNode(w) <==> k in m) && (k in m ==> PageOf(w) == m[k])
  {
    if k in m { NodeEntryTells(m[k]); }
  }

  lemma LeafShows(w: nat, t: Table, v: nat)
    requires LeafWord(w, t.ptes, v) && LeavesShow(t)
    ensures !IsNode(w)
  {
    if v in t.ptes { LeafIsNoNode(w); }
  }

  lemma ReadsAll(m: Memory, t: Table, level: nat, key: nat)
    requires Represents(m, t) && LeavesShow(t) && level <= 2 && At(t, level, key)
    ensures PageAt(t, level, key) in m && |m[PageAt(t, level, key)]| == 512
  {
    ChildReads(m, t, level, key, 0);
  }

  lemma StartUnder(t: Table, level: nat, key: nat, pool: Pool)
    ensures NoDup([]) && SetOf([]) == Under(t, level, key, 0) && FreedAll(pool, []) == pool
  {
  }

  lemma UnderGrows(t: Table, level: nat, key: nat, n: nat)
    requires n < 512
    ensures Under(t, level, key, n + 1) <= Under(t, level, key, 512)
  {
  }

  lemma RepTable(m: Memory, t: Table)
    requires Represents(m, t)
    ensures TableOk(t) && KeysFit(t)
  {
  }

  lemma NodesThere(m: Memory, t: Table)
    requires Represents(m, t)
    ensures forall p :: p in Nodes(t) ==> p in m
  {
    hide TableOk, NodePage, LeafPage;
    forall p | p in t.mids.Values ensures p in m { var a :| a in t.mids && t.mids[a] == p; }
    forall p | p in t.lows.Values ensures p in m { var k :| k in t.lows && t.lows[k] == p; }
  }

  lemma EntryCleared(m: Memory, pt: nat, i: nat)
    requires pt in m && |m[pt]| == 512 && i < 512
    ensures var m' := SetEntry(m, pt, i, 0);
            && SameBut(m, m', {pt}) && m'.Keys == m.Keys && pt in m' && |m'[pt]| == 512 && (Sized(m) ==> Sized(m'))
            && forall j :: i < j < 512 ==> m'[pt][j] == m[pt][j]
  {
  }

  lemma NotInFree(pool: Pool, p: nat)
    requires p !in SetOfFree(pool)
    ensures p !in pool.free
  {
  }

  lemma FreedOne(pool: Pool, p: nat)
    ensures FreedAll(pool, [p]) == Freed(pool, p) && NoDup([p]) && SetOf([p]) == {p}
  {
    hide Freed;
    assert FreedAll(Freed(pool, p), [p][1..]) == Freed(pool, p);
  }

  function FreedAll(pool: Pool, ps: seq<nat>): Pool
    decreases |ps|
  {
    if ps == [] then pool else FreedAll(Freed(pool, ps[0]), ps[1..])
  }

  lemma {:induction false} FreedAllAppend(pool: Pool, a: seq<nat>, b: seq<nat>)
    ensures FreedAll(pool, a + b) == FreedAll(FreedAll(pool, a), b)
    decreases |a|
  {
    hide Freed;
    if a == [] {
      assert a + b == b;
    } else {
      assert (a + b)[1..] == a[1..] + b;
      FreedAllAppend(Freed(pool, a[0]), a[1..], b);
    }
  }

  lemma JoinOrders(a: seq<nat>, b: seq<nat>)
    requires NoDup(a) && NoDup(b) && SetOf(a) !! SetOf(b)
    ensures NoDup(a + b) && SetOf(a + b) == SetOf(a) + SetOf(b)
  {
    forall i, j | 0 <= i < |a| && 0 <= j < |b| ensures a[i] != b[j] {
      assert a[i] in SetOf(a) && b[j] in SetOf(b);
    }
    assert forall x :: x in a + b <==> x in a || x in b;
  }

  class PageTables {
    const ram: Ram

    constructor (ram: Ram)
      ensures this.ram == ram
    {
      this.ram := ram;
    }

    /** One turn of walk's loop. */
    method Turn(pt: nat, level: nat, va: nat, alloc: bool, ghost t: Table) returns (next: int, ghost g: Grown)
      requires 1 <= level <= 2 && Represents(ram.mem, t) && va < MAXVA && Apart(ram.pool, t)
      requires if level == 2 then pt == t.root else MidKey(va / 4096) in t.mids && pt == t.mids[MidKey(va / 4096)]
      requires ram.Valid()
      modifies ram
      ensures ram.Valid()
      ensures g == TurnOf(t, old(ram.pool), level, va / 4096, alloc) && ram.pool == g.pool
      ensures Carried(old(ram.mem), old(ram.pool), t, ram.mem, g) && (next >= 0 <==> g.ok)
              && (!alloc ==> ram.mem == old(ram.mem))
      ensures g.ok ==> if level == 2 then MidKey(va / 4096) in g.t.mids && next == g.t.mids[MidKey(va / 4096)]
                       else LowKey(va / 4096) in g.t.lows && next == g.t.lows[LowKey(va / 4096)]
    {
      hide Represents, Nodes, Has, PageOf, Apart, Carried, TurnOf, MidKey, LowKey, SetEntry, ZeroFrame, Ram.Valid;
      g := TurnOf(t, ram.pool, level, va / 4096, alloc);
      TurnReads(ram.mem, t, level, va, pt);
      var idx := Px(level, va);
      var w := ram.mem[pt][idx];
      if Has(w, PTE_V) || !alloc || ram.pool.free == [] {
        TurnSkips(t, ram.pool, level, va / 4096, alloc);
        CarriedNone(ram.mem, ram.pool, t, g.ok);
      } else {
        TurnHangs(ram.mem, ram.pool, t, level, va, pt);
        PtIsNode(t, level, va, pt);
        NodeNotFree(ram.pool, t, pt);
        TakenApart(ram.pool, t);
      }
      if Has(w, PTE_V) {
        next := PageOf(w);
      } else {
        if !alloc {
          return -1, g;
        }
        next := ram.Kalloc();
        if next < 0 {
          return;
        }
        ram.WritePage(next, ZeroFrame());
        ram.WriteWord(pt, idx, NodeEntry(next));
      }
    }

    /** Leads to the low node that holds va's entry; node is -1 for a null result. */
    method Walk(root: nat, va: nat, alloc: bool, ghost t: Table) returns (node: int, ghost g: Grown)
      requires root == t.root && Represents(ram.mem, t) && va < MAXVA && Apart(ram.pool, t)
      requires ram.Valid()
      modifies ram
      ensures ram.Valid()
      ensures g == WalkOf(t, old(ram.pool), va / 4096, alloc) && ram.pool == g.pool
      ensures Carried(old(ram.mem), old(ram.pool), t, ram.mem, g) && (node >= 0 <==> g.ok)
              && (!alloc ==> ram.mem == old(ram.mem))
      ensures g.ok ==> LowKey(va / 4096) in g.t.lows && node == g.t.lows[LowKey(va / 4096)]
    {
      hide Represents, Nodes, Apart, Sized, Carried, TurnOf, WalkOf, MidKey, LowKey, TableOk, Ram.Valid;
      g := Grown(true, t, ram.pool);
      CarriedNone(ram.mem, ram.pool, t, true);
      CarriedRep(ram.mem, ram.pool, t, ram.mem, g);
      node := root;
      var level := 2;
      while level > 0
        invariant ram.Valid() && 0 <= level <= 2 && node >= 0 && g.ok && ram.pool == g.pool
                  && Carried(old(ram.mem), old(ram.pool), t, ram.mem, g)
        invariant level == 2 ==> g == Grown(true, t, old(ram.pool)) && node == root
        invariant level == 1 ==> g == TurnOf(t, old(ram.pool), 2, va / 4096, alloc)
        invariant level == 1 ==> MidKey(va / 4096) in g.t.mids && node == g.t.mids[MidKey(va / 4096)]
        invariant level == 0 ==> g == WalkOf(t, old(ram.pool), va / 4096, alloc)
        invariant level == 0 ==> LowKey(va / 4096) in g.t.lows && node == g.t.lows[LowKey(va / 4096)]
        invariant !alloc ==> ram.mem == old(ram.mem)
      {
        ghost var m, h := ram.mem, g;
        CarriedRep(old(ram.mem), old(ram.pool), t, m, h);
        node, g := Turn(node, level, va, alloc, g.t);
        CarriedTrans(old(ram.mem), old(ram.pool), t, m, h, ram.mem, g);
        TurnsAreWalk(t, old(ram.pool), h, g, level, va, alloc);
        if node < 0 {
          return;
        }
        level := level - 1;
      }
    }

    /** One turn of mappages. */
    method MapOne(root: nat, a: nat, pa: nat, flags: bv10, ghost t: Table) returns (ok: bool, ghost g: Grown)
      requires root == t.root && Represents(ram.mem, t) && a < MAXVA && Apart(ram.pool, t)
      requires ram.Valid()
      modifies ram
      ensures ram.Valid()
      ensures g == MapPage(t, old(ram.pool), a / 4096, Pte(pa / 4096, PermOfFlags(flags))) && ram.pool == g.pool
              && ok == g.ok
      ensures Carried(old(ram.mem), old(ram.pool), t, ram.mem, g)
    {
      hide Represents, Apart, Carried, MapPage, LowKey, Has, PermOfFlags, Entry, SetEntry, TableOk, Ram.Valid;
      MapPageIs(t, ram.pool, a / 4096, Pte(pa / 4096, PermOfFlags(flags)));
      var node;
      node, g := Walk(root, a, true, t);
      CarriedRep(old(ram.mem), old(ram.pool), t, ram.mem, g);
      if node < 0 {
        return false, g;
      }
      LeafValid(ram.mem, g.t, a);
      var w := ram.mem[node][Px(0, a)];
      if Has(w, PTE_V) {
        CarriedFails(old(ram.mem), old(ram.pool), t, ram.mem, g, false);
        g := g.(ok := false);
        return false, g;
      }
      MapStores(ram.mem, ram.pool, g.t, a, pa / 4096, flags);
      ghost var m, h := ram.mem, g;
      LowIsNode(g.t, LowKey(a / 4096));
      NodeNotFree(ram.pool, g.t, node);
      ram.WriteWord(node, Px(0, a), Entry(pa / 4096, flags | PTE_V));
      g := g.(t := g.t.(ptes := g.t.ptes[a / 4096 := Pte(pa / 4096, PermOfFlags(flags))]));
      CarriedTrans(old(ram.mem), old(ram.pool), t, m, h, ram.mem, g);
      ok := true;
    }

    /** mappages: page by page from va's page to that of va + size - 1. */
    method MapPages(root: nat, va: nat, size: nat, pa: nat, flags: bv10, ghost t: Table)
      returns (rc: int, ghost g: Grown)
      requires root == t.root && Represents(ram.mem, t) && Apart(ram.pool, t) && size > 0 && va + size <= MAXVA
               && pa % 4096 == 0
      requires ram.Valid()
      modifies ram
      ensures ram.Valid()
      ensures g == Paging.MapPages(t, old(ram.pool), va / 4096, (va + size - 1) / 4096 - va / 4096 + 1, pa / 4096,
              PermOfFlags(flags))
      ensures ram.pool == g.pool && rc == (if g.ok then 0 else -1)
              && Carried(old(ram.mem), old(ram.pool), t, ram.mem, g)
    {
      hide Represents, Apart, Carried, MapPage, Paging.MapPages, PermOfFlags, TableOk, Ram.Valid;
      ghost var perm := PermOfFlags(flags);
      var a := va / 4096 * 4096;
      var last := (va + size - 1) / 4096 * 4096;
      var p := pa;
      ghost var n := last / 4096 - a / 4096 + 1;
      g := Grown(true, t, ram.pool);
      CarriedNone(ram.mem, ram.pool, t, true);
      while true
        invariant ram.Valid() && va / 4096 * 4096 <= a <= last < MAXVA && a % 4096 == 0 && p % 4096 == 0
                  && n == last / 4096 - a / 4096 + 1
        invariant g.ok && ram.pool == g.pool && Carried(old(ram.mem), old(ram.pool), t, ram.mem, g)
        invariant Paging.MapPages(g.t, g.pool, a / 4096, n, p / 4096, perm)
               == Paging.MapPages(t, old(ram.pool), va / 4096, (va + size - 1) / 4096 - va / 4096 + 1, pa / 4096, perm)
        decreases last - a
      {
        MapPagesStep(g.t, g.pool, a / 4096, n, p / 4096, perm);
        ghost var m, h := ram.mem, g;
        CarriedRep(old(ram.mem), old(ram.pool), t, m, h);
        var ok;
        ok, g := MapOne(root, a, p, flags, g.t);
        CarriedTrans(old(ram.mem), old(ram.pool), t, m, h, ram.mem, g);
        if !ok {
          return -1, g;
        }
        if a == last {
          MapPagesStep(g.t, g.pool, a / 4096 + 1, 0, p / 4096 + 1, perm);
          return 0, g;
        }
        a := a + 4096;
        p := p + 4096;
        n := n - 1;
      }
    }

    /** One turn of vm_free_range. */
    method FreeOne(root: nat, a: nat, ghost t: Table, ghost end: nat) returns (ghost g: Grown)
      requires root == t.root && Represents(ram.mem, t) && Apart(ram.pool, t) && Sized(ram.mem) && a < MAXVA
               && a / 4096 < end
      requires Freeable(ram.mem, ram.pool, t, a / 4096, end)
      requires ram.Valid()
      modifies ram
      ensures ram.Valid()
      ensures var v := a / 4096;
              g == if v in t.ptes then Grown(true, ClearPte(t, v), Freed(old(ram.pool), t.ptes[v].ppn))
                else Grown(true, t, old(ram.pool))
      ensures ram.pool == g.pool && Reclaimed(old(ram.mem), old(ram.pool), t, ram.mem, g)
              && Freeable(ram.mem, ram.pool, g.t, a / 4096 + 1, end)
    {
      hide Represents, Apart, Nodes, LowKey, Has, Freed, Carried, TableOk, PageOf, Ram.Valid;
      ghost var v := a / 4096;
      if v in t.ptes { NoLowNoLeaf(ram.mem, t, v); }
      ReclaimedNone(ram.mem, ram.pool, t);
      FreeableStep(ram.mem, ram.mem, ram.pool, t, v, end);
      var node;
      node, g := Walk(root, a, false, t);
      g := Grown(true, t, ram.pool);
      if node >= 0 {
        LeafValid(ram.mem, t, a);
        LowReads(ram.mem, t, a);
        var w := ram.mem[node][Px(0, a)];
        if Has(w, PTE_V) {
          LowIsNode(t, LowKey(v));
          NodeNotFree(ram.pool, t, node);
          FreedSet(ram.pool, PageOf(w));
          ram.Kfree(PageOf(w));
          ghost var m1 := ram.mem;
          NotInFree(ram.pool, node);
          ram.WriteWord(node, Px(0, a), 0);
          ClearReclaims(old(ram.mem), old(ram.pool), t, v, m1, ram.mem);
          g := Grown(true, ClearPte(t, v), ram.pool);
          FreeableStep(old(ram.mem), ram.mem, old(ram.pool), t, v, end);
        }
      }
    }

    /** vm_free_range over the pages from start up to end. */
    method FreeRange(root: nat, start: nat, end: nat, ghost t: Table) returns (ghost g: Grown)
      requires root == t.root && Represents(ram.mem, t) && Apart(ram.pool, t) && Sized(ram.mem) && start % 4096 == 0
               && end <= MAXVA
      requires Freeable(ram.mem, ram.pool, t, start / 4096, PageEnd(end))
      requires ram.Valid()
      modifies ram
      ensures ram.Valid()
      ensures g == Unmap(t, old(ram.pool), start / 4096, PageEnd(end)) && ram.pool == g.pool
      ensures Reclaimed(old(ram.mem), old(ram.pool), t, ram.mem, g)
    {
      hide Represents, Apart, Nodes, LowKey, Has, Freed, SetEntry, Carried, Reclaimed, Freeable, TableOk, Ram.Valid;
      var a := start;
      g := Grown(true, t, ram.pool);
      ReclaimedNone(ram.mem, ram.pool, t);
      while a < end
        invariant ram.Valid() && start <= a && a % 4096 == 0 && ram.pool == g.pool && g.ok
        invariant Reclaimed(old(ram.mem), old(ram.pool), t, ram.mem, g)
                  && Freeable(ram.mem, ram.pool, g.t, a / 4096, PageEnd(end))
        invariant Unmap(g.t, g.pool, a / 4096, PageEnd(end)) == Unmap(t, old(ram.pool), start / 4096, PageEnd(end))
      {
        ghost var m, h := ram.mem, g;
        ReclaimedRep(old(ram.mem), old(ram.pool), t, m, h);
        g := FreeOne(root, a, h.t, PageEnd(end));
        ReclaimedTrans(old(ram.mem), old(ram.pool), t, m, h, ram.mem, g);
        a := a + 4096;
      }
    }

    /** uvm_map: one page. */
    method UvmMap(root: nat, va: nat, pa: nat, flags: bv10, ghost t: Table) returns (rc: int, ghost g: Grown)
      requires root == t.root && Represents(ram.mem, t) && Apart(ram.pool, t) && va % 4096 == 0 && va < MAXVA
               && pa % 4096 == 0
      requires ram.Valid()
      modifies ram
      ensures ram.Valid()
      ensures g == MapPage(t, old(ram.pool), va / 4096, Pte(pa / 4096, PermOfFlags(flags)))
      ensures ram.pool == g.pool && rc == (if g.ok then 0 else -1)
              && Carried(old(ram.mem), old(ram.pool), t, ram.mem, g)
    {
      hide Represents, Apart, Carried, MapPage, Paging.MapPages, PermOfFlags, Ram.Valid;
      rc, g := MapPages(root, va, 4096, pa, flags, t);
      assert (va + 4096 - 1) / 4096 == va / 4096;
      MapPagesOne(t, old(ram.pool), va / 4096, pa / 4096, PermOfFlags(flags));
    }

    /** One turn of uvm_cow_share. */
    method ShareOne(parent: nat, child: nat, a: nat, ghost tp: Table, ghost tc: Table)
      returns (ok: bool, ghost s: Sharing)
      requires parent == tp.root && child == tc.root && Represents(ram.mem, tp) && Represents(ram.mem, tc)
      requires Apart(ram.pool, tp) && Apart(ram.pool, tc) && Nodes(tp) !! Nodes(tc) && a % 4096 == 0 && a < MAXVA
      requires a / 4096 in tp.ptes ==> InRam(tp.ptes[a / 4096].ppn)
      requires ram.Valid()
      modifies ram
      ensures ram.Valid()
      ensures s == ShareTurn(tp, tc, old(ram.pool), a / 4096) && ram.pool == s.pool && ok == s.ok
      ensures Sharing2(old(ram.mem), old(ram.pool), tp, tc, ram.mem, s)
    {
      hide Represents, Apart, Carried, MapPage, PermOfFlags, Nodes, LowKey, TableOk, Shared, Sharing2, SetEntry,
           SharedFlags, CowPerm, Entry, FlagsOf, Ram.Valid;
      ghost var v := a / 4096;
      ghost var m0, pool0 := ram.mem, ram.pool;
      if v in tp.ptes { NoLowNoLeaf(ram.mem, tp, v); }
      SharingNone(ram.mem, ram.pool, tp, tc);
      var node;
      ghost var g0;
      node, g0 := Walk(parent, a, false, tp);
      if node < 0 {
        return true, Sharing(true, tp, tc, ram.pool);
      }
      LeafValid(ram.mem, tp, a);
      var w := ram.mem[node][Px(0, a)];
      if !Has(w, PTE_V) {
        return true, Sharing(true, tp, tc, ram.pool);
      }
      var flags, page := FlagsOf(w), PageOf(w);
      SharedFlagsPerm(flags);
      ghost var pte := Pte(page, CowPerm(tp.ptes[v].perm));
      ghost var tp' := SetPte(tp, v, pte);
      if flags & PTE_W != 0 {
        RewriteLeaf(ram.mem, ram.pool, tp, a, page, SharedFlags(flags));
        flags := (flags & !PTE_W) | PTE_COW;
        assert flags == SharedFlags(FlagsOf(w)) by { WFlags(FlagsOf(w)); }
        LowIsNode(tp, LowKey(v));
        NodeNotFree(ram.pool, tp, node);
        ram.WriteWord(node, Px(0, a), Entry(page, flags));
        SharingParent(m0, pool0, tp, tc, ram.mem, Grown(true, tp', ram.pool));
      } else {
        assert flags == SharedFlags(FlagsOf(w)) by { WFlags(FlagsOf(w)); }
        SamePte(tp, v, flags);
      }
      ghost var m1, s1 := ram.mem, Sharing(true, tp', tc, ram.pool);
      SharingRep(m0, pool0, tp, tc, m1, s1);
      var rc;
      ghost var g;
      rc, g := UvmMap(child, a, page * 4096, flags, tc);
      SharingChild(m1, pool0, tp', tc, ram.mem, g, g.ok);
      ghost var s2 := Sharing(g.ok, tp', g.t, g.pool);
      SharingTrans(m0, pool0, tp, tc, m1, s1, ram.mem, s2);
      s := s2;
      if rc != 0 {
        return false, s;
      }
      SharingRef(m0, pool0, tp, tc, ram.mem, s2, page, true);
      ram.KrefInc(page);
      s := s2.(pool := ram.pool);
      ok := true;
    }

    /** uvm_cow_share over the pages from start up to end. */
    method CowShare(parent: nat, child: nat, start: nat, end: nat, ghost tp: Table, ghost tc: Table)
      returns (rc: int, ghost s: Sharing)
      requires parent == tp.root && child == tc.root && Represents(ram.mem, tp) && Represents(ram.mem, tc)
      requires Apart(ram.pool, tp) && Apart(ram.pool, tc) && Nodes(tp) !! Nodes(tc) && start % 4096 == 0 && end <= MAXVA
      requires RamLeaves(tp, start / 4096, PageEnd(end))
      requires ram.Valid()
      modifies ram
      ensures ram.Valid()
      ensures s == Cow.CowShare(tp, tc, old(ram.pool), start / 4096, PageEnd(end)) && ram.pool == s.pool
              && rc == (if s.ok then 0 else -1)
      ensures Sharing2(old(ram.mem), old(ram.pool), tp, tc, ram.mem, s)
    {
      hide Represents, Apart, Nodes, Sharing2, Cow.CowShare, ShareTurn, Ram.Valid;
      var a := start;
      s := Sharing(true, tp, tc, ram.pool);
      SharingNone(ram.mem, ram.pool, tp, tc);
      while a < end
        invariant ram.Valid() && start <= a && a % 4096 == 0 && ram.pool == s.pool && s.ok
                  && Sharing2(old(ram.mem), old(ram.pool), tp, tc, ram.mem, s)
        invariant RamLeaves(s.parent, a / 4096, PageEnd(end))
        invariant Cow.CowShare(s.parent, s.child, s.pool, a / 4096, PageEnd(end))
                  == Cow.CowShare(tp, tc, old(ram.pool), start / 4096, PageEnd(end))
      {
        ghost var m, s0 := ram.mem, s;
        SharingRep(old(ram.mem), old(ram.pool), tp, tc, m, s0);
        ShareTurns(s0.parent, s0.child, s0.pool, a / 4096, PageEnd(end));
        RamLeavesStep(s0.parent, s0.child, s0.pool, a / 4096, PageEnd(end));
        var ok;
        ok, s := ShareOne(parent, child, a, s0.parent, s0.child);
        SharingTrans(old(ram.mem), old(ram.pool), tp, tc, m, s0, ram.mem, s);
        if !ok {
          return -1, s;
        }
        a := a + 4096;
      }
      ShareEnds(s.parent, s.child, s.pool, a / 4096, PageEnd(end));
      rc := 0;
    }

    /** uvm_cow_share with a null child; the result tells whether it comes to a page that it would map there. */
    method CowShareNull(parent: nat, start: nat, end: nat, ghost tp: Table) returns (reached: bool)
      requires parent == tp.root && Represents(ram.mem, tp) && start % 4096 == 0 && end <= MAXVA
      ensures NullShareEnding(tp, start / 4096, PageEnd(end)) == if reached then NullAccess else Returns
    {
      hide Represents, Nodes, LowKey, Has, Ram.Valid;
      var a := start;
      while a < end
        invariant start <= a && a % 4096 == 0
        invariant NullShareEnding(tp, start / 4096, PageEnd(end)) == NullShareEnding(tp, a / 4096, PageEnd(end))
      {
        if a / 4096 in tp.ptes { NoLowNoLeaf(ram.mem, tp, a / 4096); }
        var node := ReadWalk(parent, a, tp);
        if node >= 0 {
          LeafValid(ram.mem, tp, a);
          if Has(ram.mem[node][Px(0, a)], PTE_V) {
            return true;
          }
        }
        a := a + 4096;
      }
      reached := false;
    }

    /** uvm_cow_fault: 1 (handled) or 0. */
    method CowFault(root: nat, va: nat, ghost t: Table) returns (handled: bool, ghost t': Table)
      requires root == t.root && Represents(ram.mem, t) && Apart(ram.pool, t) && Sized(ram.mem) && va < MAXVA
      requires va / 4096 in t.ptes && t.ptes[va / 4096].perm.cow ==>
                 InRam(t.ptes[va / 4096].ppn) && t.ptes[va / 4096].ppn in ram.mem && t.ptes[va / 4096].ppn !in Nodes(t)
                   && t.ptes[va / 4096].ppn !in ram.pool.free
      requires ram.Valid()
      modifies ram
      ensures ram.Valid()
      ensures handled <==> va / 4096 in t.ptes && t.ptes[va / 4096].perm.cow && old(ram.pool).free != []
      ensures !handled ==> t' == t && ram.mem == old(ram.mem) && ram.pool == old(ram.pool)
      ensures handled ==>
                var v, f := va / 4096, old(ram.pool).free[0];
                && t' == SetPte(t, v, Pte(f, t.ptes[v].perm.(cow := false, w := true)))
                && ram.pool == Freed(Taken(old(ram.pool)), t.ptes[v].ppn)
                && Copy(old(ram.mem), t, ram.mem, t', ram.pool, t.ptes[v].ppn, f)
                && old(ram.mem).Keys <= ram.mem.Keys
    {
      hide Represents, Apart, Nodes, LowKey, Freed, Taken, Copy, Carried, FlagsOf, SetEntry, Entry, PermOfFlags,
           Ram.Valid;
      ghost var v := va / 4096;
      t' := t;
      handled := false;
      if v in t.ptes { NoLowNoLeaf(ram.mem, t, v); }
      var node;
      ghost var g;
      node, g := Walk(root, va, false, t);
      if node < 0 {
        return;
      }
      LeafValid(ram.mem, t, va);
      var w := ram.mem[node][Px(0, va)];
      CowBit(w);
      if !Has(w, PTE_V) || !Has(w, PTE_COW) {
        return;
      }
      var page := PageOf(w);
      ghost var m0, pool0 := ram.mem, ram.pool;
      LowIsNode(t, LowKey(v));
      NodeNotFree(ram.pool, t, node);
      var fresh_ := ram.Kalloc();
      if fresh_ < 0 {
        return;
      }
      TakenApart(pool0, t);
      ram.WritePage(fresh_, ram.mem[page]);
      ghost var m1 := ram.mem;
      var flags := (FlagsOf(w) & !PTE_COW) | PTE_W;
      UncowFlags(FlagsOf(w));
      ram.WriteWord(node, Px(0, va), Entry(fresh_, flags));
      ghost var m2 := ram.mem;
      StillThere(m1, m2, node, Px(0, va), Entry(fresh_, flags), page);
      ram.Kfree(page);
      assert m0.Keys <= ram.mem.Keys by {
        forall p | p in m0.Keys ensures p in ram.mem.Keys { assert p in m2.Keys; }
      }
      CopyDone(m0, pool0, t, va, flags, m1, m2, ram.mem);
      t' := SetPte(t, v, Pte(fresh_, PermOfFlags(flags)));
      handled := true;
    }

    /** remap_user_code: the code page's entry now leads to page p. */
    method RemapUserCode(root: nat, p: nat, ghost t: Table) returns (ghost t': Table)
      requires root == t.root && Represents(ram.mem, t) && Apart(ram.pool, t)
      requires ram.Valid()
      modifies ram`mem
      ensures ram.Valid()
      ensures t' == if 0 in t.lows then SetPte(t, CODE_VPN, Pte(p, RXU)) else t
      ensures Carried(old(ram.mem), ram.pool, t, ram.mem, Grown(true, t', ram.pool))
    {
      hide Represents, Apart, Nodes, LowKey, Carried, SetEntry, Entry, LeafWord, PermOfFlags, Ram.Valid;
      t' := t;
      CarriedNone(ram.mem, ram.pool, t, true);
      LowKeyOne();
      var node := ReadWalk(root, 0x1000, t);
      if node >= 0 {
        LowReads(ram.mem, t, 0x1000);
        var flags := PTE_R | PTE_X | PTE_U | PTE_V;
        CodeFlags();
        LeafWordOf(t.ptes, CODE_VPN, p, flags);
        CarriedLeaf(ram.mem, ram.pool, t, CODE_VPN, Entry(p, flags), t.ptes[CODE_VPN := Pte(p, PermOfFlags(flags))],
          true);
        LowIsNode(t, 0);
        NodeNotFree(ram.pool, t, node);
        ram.WriteWord(node, Px(0, 0x1000), Entry(p, flags));
        t' := SetPte(t, CODE_VPN, Pte(p, RXU));
      }
    }

    /** walk without alloc, which writes nothing. */
    method ReadWalk(root: nat, va: nat, ghost t: Table) returns (node: int)
      requires root == t.root && Represents(ram.mem, t) && va < MAXVA
      ensures node >= 0 <==> LowKey(va / 4096) in t.lows
      ensures node >= 0 ==> node == t.lows[LowKey(va / 4096)]
    {
      hide Represents, LowKey, MidKey, Has, PageOf, Px, Ram.Valid;
      TurnReads(ram.mem, t, 2, va, root);
      LowHasMid(ram.mem, t, va);
      PxSmall(2, va);
      PxSmall(1, va);
      var w := ram.mem[root][Px(2, va)];
      if !Has(w, PTE_V) {
        return -1;
      }
      var mid := PageOf(w);
      TurnReads(ram.mem, t, 1, va, mid);
      w := ram.mem[mid][Px(1, va)];
      if !Has(w, PTE_V) {
        return -1;
      }
      node := PageOf(w);
    }

    /** map_kernel; a mapping that fails stops the machine. */
    method MapKernel(root: nat, rs: seq<Range>, ghost t: Table) returns (halted: bool, ghost g: Grown)
      requires root == t.root && Represents(ram.mem, t) && Apart(ram.pool, t) && RangesFit(rs)
      requires ram.Valid()
      modifies ram
      ensures ram.Valid()
      ensures g == MapAll(t, old(ram.pool), rs) && ram.pool == g.pool && halted == !g.ok
              && Carried(old(ram.mem), old(ram.pool), t, ram.mem, g)
    {
      hide Represents, Apart, Carried, Paging.MapPages, MapAll, PermBits, PermOfFlags, Ram.Valid;
      g := Grown(true, t, ram.pool);
      CarriedNone(ram.mem, ram.pool, t, true);
      var i := 0;
      while i < |rs|
        invariant ram.Valid() && i <= |rs| && g.ok && ram.pool == g.pool
                  && Carried(old(ram.mem), old(ram.pool), t, ram.mem, g)
        invariant MapAll(g.t, g.pool, rs[i..]) == MapAll(t, old(ram.pool), rs)
      {
        ghost var m, h := ram.mem, g;
        CarriedRep(old(ram.mem), old(ram.pool), t, m, h);
        MapAllStep(h.t, h.pool, rs[i..]);
        assert rs[i..][0] == rs[i] && rs[i..][1..] == rs[i + 1..];
        PermRoundTrip(rs[i].perm);
        var rc;
        rc, g := MapPages(root, rs[i].vpn * 4096, rs[i].n * 4096, rs[i].vpn * 4096, PermBits(rs[i].perm), h.t);
        CarriedTrans(old(ram.mem), old(ram.pool), t, m, h, ram.mem, g);
        if rc != 0 {
          return true, g;
        }
        i := i + 1;
      }
      MapAllStep(g.t, g.pool, rs[i..]);
      halted := false;
    }

    /** proc_pagetable; root is -1 when no page is left for the root. */
    method ProcPagetable(etext: nat, code: nat, stack: nat) returns (root: int, halted: bool, ghost g: Grown)
      requires KERN_FIRST < etext < RAM_END && NoDup(ram.pool.free)
      requires ram.Valid()
      modifies ram
      ensures ram.Valid()
      ensures g == NewTable(old(ram.pool), etext, code, stack) && ram.pool == g.pool && (g.ok <==> root >= 0 && !halted)
      ensures root < 0 <==> old(ram.pool).free == []
      ensures root < 0 ==> ram.mem == old(ram.mem) && ram.pool == old(ram.pool)
      ensures root >= 0 ==> old(ram.pool).free != [] && root == old(ram.pool).free[0] == g.t.root
      ensures root >= 0 ==> Carried(old(ram.mem)[root := ZeroFrame()], Taken(old(ram.pool)), Empty(root), ram.mem, g)
    {
      hide Represents, Apart, Carried, MapPage, MapAll, Nodes, PermOfFlags, KernelRanges, Ram.Valid;
      halted := false;
      g := Grown(false, Empty(0), ram.pool);
      ghost var pool0 := ram.pool;
      root := ram.Kalloc();
      if root < 0 {
        return;
      }
      TakenNot(pool0);
      ram.WritePage(root, ZeroFrame());
      ghost var m1, p1, t := ram.mem, ram.pool, Empty(root);
      EmptyRep(old(ram.mem), root);
      EmptyApart(pool0);
      RangesDoFit(etext);
      halted, g := MapKernel(root, KernelRanges(etext), t);
      if halted {
        CarriedRep(m1, p1, t, ram.mem, g);
        return;
      }
      CarriedRep(m1, p1, t, ram.mem, g);
      CodeFlags();
      ghost var m, h := ram.mem, g;
      var rc;
      rc, g := UvmMap(root, 0x1000, code * 4096, PTE_R | PTE_X | PTE_U, h.t);
      CarriedTrans(m1, p1, t, m, h, ram.mem, g);
      CarriedRep(m1, p1, t, ram.mem, g);
      m, h := ram.mem, g;
      rc, g := UvmMap(root, 0x4000, stack * 4096, PTE_R | PTE_W | PTE_U, h.t);
      CarriedTrans(m1, p1, t, m, h, ram.mem, g);
      CarriedFails(m1, p1, t, ram.mem, g, true);
      g := g.(ok := true);
      CarriedRep(m1, p1, t, ram.mem, g);
    }

    /**
      freewalk: gives back every node of the subtree exactly once and nothing else.  The
      recursion goes down one level at a time; m0 is the memory the walk started in.
     */
    method Freewalk(pt: nat, ghost t: Table, ghost level: nat, ghost key: nat, ghost m0: Memory)
      returns (ghost order: seq<nat>)
      requires level <= 2 && At(t, level, key) && pt == PageAt(t, level, key) && Represents(m0, t) && LeavesShow(t)
      requires forall p :: p in Sub(t, level, key) ==> p in ram.mem && p in m0 && ram.mem[p] == m0[p] && InRam(p)
      requires SetOfFree(ram.pool) !! Sub(t, level, key)
      requires ram.Valid()
      modifies ram
      ensures ram.Valid()
      decreases level
      ensures NoDup(order) && SetOf(order) == Sub(t, level, key) && ram.pool == FreedAll(old(ram.pool), order)
      ensures SameBut(old(ram.mem), ram.mem, Sub(t, level, key)) && old(ram.mem).Keys <= ram.mem.Keys
              && (Sized(old(ram.mem)) ==> Sized(ram.mem))
      ensures SetOfFree(ram.pool) <= SetOfFree(old(ram.pool)) + Sub(t, level, key)
    {
      hide Represents, LeavesShow, At, PageAt, Under, IsNode, PageOf, Freed, FreedAll, SetOf, NoDup, SetEntry, Child,
           Ram.Valid;
      order := [];
      var i := 0;
      ReadsAll(m0, t, level, key);
      StartUnder(t, level, key, ram.pool);
      while i < 512
        invariant 0 <= i <= 512 && NoDup(order) && SetOf(order) == Under(t, level, key, i)
                  && ram.pool == FreedAll(old(ram.pool), order)
        invariant SameBut(old(ram.mem), ram.mem, Under(t, level, key, i) + {pt}) && old(ram.mem).Keys <= ram.mem.Keys
        invariant pt in ram.mem && |ram.mem[pt]| == 512 && forall j :: i <= j < 512 ==> ram.mem[pt][j] == m0[pt][j]
        invariant Sized(old(ram.mem)) ==> Sized(ram.mem)
        invariant ram.Valid() && SetOfFree(ram.pool) <= SetOfFree(old(ram.pool)) + Under(t, level, key, i)
      {
        var w := ram.mem[pt][i];
        ChildReads(m0, t, level, key, i);
        RepTable(m0, t);
        UnderStep(t, level, key, i);
        RootNotUnder(t, level, key, i + 1);
        UnderGrows(t, level, key, i);
        if IsNode(w) {
          ghost var c := Child(level, key, i);
          ghost var m1, before := ram.mem, order;
          ghost var sub := Freewalk(PageOf(w), t, level - 1, c, m0);
          JoinOrders(before, sub);
          FreedAllAppend(old(ram.pool), before, sub);
          order := before + sub;
          assert pt in ram.mem && ram.mem[pt] == m1[pt];
          EntryCleared(ram.mem, pt, i);
          NotInFree(ram.pool, pt);
          ram.WriteWord(pt, i, 0);
        }
        i := i + 1;
      }
      RepTable(m0, t);
      RootNotUnder(t, level, key, 512);
      ghost var before, m1 := order, ram.mem;
      FreedOne(ram.pool, pt);
      NotInFree(ram.pool, pt);
      FreedSet(ram.pool, pt);
      ram.Kfree(pt);
      JoinOrders(before, [pt]);
      FreedAllAppend(old(ram.pool), before, [pt]);
      order := before + [pt];
    }

    /** free_pagetable. */
    method FreePagetable(root: nat, ghost t: Table) returns (ghost order: seq<nat>)
      requires root == t.root && Represents(ram.mem, t) && LeavesShow(t) && Apart(ram.pool, t)
               && forall p :: p in Nodes(t) ==> InRam(p)
      requires ram.Valid()
      modifies ram
      ensures ram.Valid()
      ensures NoDup(order) && SetOf(order) == Nodes(t) && ram.pool == FreedAll(old(ram.pool), order)
      ensures SameBut(old(ram.mem), ram.mem, Nodes(t)) && old(ram.mem).Keys <= ram.mem.Keys
              && (Sized(old(ram.mem)) ==> Sized(ram.mem))
    {
      hide Represents, LeavesShow, FreedAll, SetOf, NoDup, Nodes, Ram.Valid;
      RepTable(ram.mem, t);
      WholeTree(t);
      NodesThere(ram.mem, t);
      FreeNotNodes(ram.pool, t);
      order := Freewalk(root, t, 2, 0, ram.mem);
    }
  }
}
