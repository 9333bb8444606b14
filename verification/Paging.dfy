/**
  Sv39 page tables as values: the node pages of the three-level tree and the leaves as a
  flat map from virtual page number to entry.  walk, mappages and free_pagetable of
  src/vm.c on this form; module Sv39 proves that the tree in memory behaves like it.
 */
module Paging {
  import opened Kalloc

  datatype Perm = Perm(r: bool, w: bool, x: bool, u: bool, cow: bool)

  datatype Pte = Pte(ppn: nat, perm: Perm)

  /** mids is keyed by the top nine bits of the page number, lows by the top eighteen. */
  datatype Table = Table(root: nat, mids: map<nat, nat>, lows: map<nat, nat>, ptes: map<nat, Pte>)

  const VPNS: nat := 0x800_0000

  function MidKey(vpn: nat): nat { vpn / 0x4_0000 }
  function LowKey(vpn: nat): nat { vpn / 512 }

  function Nodes(t: Table): set<nat> { {t.root} + t.mids.Values + t.lows.Values }

  predicate Injective(m: map<nat, nat>) {
    forall a, b :: a in m && b in m && m[a] == m[b] ==> a == b
  }

  /** Every node is a page of its own, and no leaf hangs in the air. */
  predicate TableOk(t: Table) {
    && t.root !in t.mids.Values && t.root !in t.lows.Values && t.mids.Values !! t.lows.Values
    && Injective(t.mids) && Injective(t.lows)
    && (forall k :: k in t.lows ==> k / 512 in t.mids)
    && (forall v :: v in t.ptes ==> LowKey(v) in t.lows)
  }

  function Empty(root: nat): Table { Table(root, map[], map[], map[]) }

  datatype Grown = Grown(ok: bool, t: Table, pool: Pool)

  /** The level-2 turn of walk's loop: follow the entry or hang a fresh node there. */
  function WalkMid(t: Table, pool: Pool, vpn: nat): (g: Grown)
  {
    if MidKey(vpn) in t.mids then Grown(true, t, pool)
    else if pool.free == [] then Grown(false, t, pool)
    else Grown(true, t.(mids := t.mids[MidKey(vpn) := pool.free[0]]), Taken(pool))
  }

  /** The level-1 turn. */
  function WalkLow(t: Table, pool: Pool, vpn: nat): (g: Grown)
  {
    if LowKey(vpn) in t.lows then Grown(true, t, pool)
    else if pool.free == [] then Grown(false, t, pool)
    else Grown(true, t.(lows := t.lows[LowKey(vpn) := pool.free[0]]), Taken(pool))
  }

  /** walk with alloc: not ok when the allocator runs dry, keeping whatever node it already hung. */
  function Walk(t: Table, pool: Pool, vpn: nat): (g: Grown)
  {
    var g := WalkMid(t, pool, vpn);
    if g.ok then WalkLow(g.t, g.pool, vpn) else g
  }

  /** One turn of mappages: refuse an entry that is already valid. */
  function MapPage(t: Table, pool: Pool, vpn: nat, pte: Pte): (g: Grown)
  {
    var g := Walk(t, pool, vpn);
    if !g.ok || vpn in g.t.ptes then g.(ok := false)
    else g.(t := g.t.(ptes := g.t.ptes[vpn := pte]))
  }

  /** mappages over n pages from vpn on, stopping at the first failure. */
  function MapPages(t: Table, pool: Pool, vpn: nat, n: nat, ppn: nat, perm: Perm): (g: Grown)
    decreases n
  {
    if n == 0 then Grown(true, t, pool)
    else
      var g := MapPage(t, pool, vpn, Pte(ppn, perm));
      if g.ok then MapPages(g.t, g.pool, vpn + 1, n - 1, ppn + 1, perm) else g
  }

  // ---- what mapping changes ----

  lemma WalkKeepsLeaves(t: Table, pool: Pool, vpn: nat)
    ensures Walk(t, pool, vpn).t.ptes == t.ptes
  {
  }

  /** Only the mapped page number gets a new lookup, and a failed mapping changes none. */
  lemma MapPageChangesOne(t: Table, pool: Pool, vpn: nat, pte: Pte)
    ensures var g := MapPage(t, pool, vpn, pte);
            if g.ok then vpn !in t.ptes && g.t.ptes == t.ptes[vpn := pte] else g.t.ptes == t.ptes
  {
    hide Walk;
    WalkKeepsLeaves(t, pool, vpn);
  }

  lemma MapPagesStep(t: Table, pool: Pool, vpn: nat, n: nat, ppn: nat, perm: Perm)
    ensures n == 0 ==> MapPages(t, pool, vpn, n, ppn, perm) == Grown(true, t, pool)
    ensures n > 0 ==>
              var g := MapPage(t, pool, vpn, Pte(ppn, perm));
              MapPages(t, pool, vpn, n, ppn, perm) == if g.ok then MapPages(g.t, g.pool, vpn + 1, n - 1, ppn + 1, perm)
                else g
  {
    hide MapPage;
  }

  /** mappages that succeeds maps exactly the requested pages, in order, and no other lookup changes. */
  lemma {:induction false} MapPagesExact(t: Table, pool: Pool, vpn: nat, n: nat, ppn: nat, perm: Perm)
    requires MapPages(t, pool, vpn, n, ppn, perm).ok
    ensures var t' := MapPages(t, pool, vpn, n, ppn, perm).t;
            && (forall v :: vpn <= v < vpn + n ==> v !in t.ptes && v in t'.ptes)
            && (forall v :: vpn <= v < vpn + n ==> t'.ptes[v].ppn - v == ppn - vpn && t'.ptes[v].perm == perm)
            && (forall v :: !(vpn <= v < vpn + n) ==> (v in t'.ptes <==> v in t.ptes))
            && (forall v :: !(vpn <= v < vpn + n) && v in t.ptes ==> t'.ptes[v] == t.ptes[v])
    decreases n
  {
    hide *;
    MapPagesStep(t, pool, vpn, n, ppn, perm);
    if n > 0 {
      var g := MapPage(t, pool, vpn, Pte(ppn, perm));
      MapPageChangesOne(t, pool, vpn, Pte(ppn, perm));
      MapPagesExact(g.t, g.pool, vpn + 1, n - 1, ppn + 1, perm);
      forall v | vpn <= v < vpn + n ensures v !in t.ptes && v in MapPages(t, pool, vpn, n, ppn, perm).t.ptes {
        assert v != vpn ==> v !in g.t.ptes;
        assert vpn in g.t.ptes;
      }
    }
  }

  lemma MidReaches(t: Table, pool: Pool, vpn: nat)
    ensures var g := WalkMid(t, pool, vpn); g.ok ==> MidKey(vpn) in g.t.mids
  {
  }

  lemma WalkReaches(t: Table, pool: Pool, vpn: nat)
    requires Walk(t, pool, vpn).ok
    ensures var g := Walk(t, pool, vpn); MidKey(vpn) in g.t.mids && LowKey(vpn) in g.t.lows
  {
  }

  lemma MapPageReaches(t: Table, pool: Pool, vpn: nat, pte: Pte)
    requires MapPage(t, pool, vpn, pte).ok
    ensures var g := MapPage(t, pool, vpn, pte); MidKey(vpn) in g.t.mids && LowKey(vpn) in g.t.lows
  {
    WalkReaches(t, pool, vpn);
  }

  // ---- hanging a fresh node ----

  lemma ValuesInsert(m: map<nat, nat>, k: nat, v: nat)
    requires k !in m
    ensures m[k := v].Values == m.Values + {v}
  {
    var r := m[k := v];
    assert k in r && r[k] == v;
    forall x | x in m.Values ensures x in r.Values {
      var a :| a in m && m[a] == x;
      assert a in r && r[a] == x;
    }
  }

  lemma HangMid(t: Table, pool: Pool, vpn: nat)
    requires TableOk(t) && (pool.free != [] ==> pool.free[0] !in Nodes(t))
    ensures var g := WalkMid(t, pool, vpn);
            && TableOk(g.t) && g.t.root == t.root && g.t.ptes == t.ptes && g.t.lows == t.lows
            && (g.pool == pool || (pool.free != [] && g.pool == Taken(pool)))
            && Nodes(g.t) == (if g.pool == pool then Nodes(t) else Nodes(t) + {pool.free[0]})
            && (g.ok ==> MidKey(vpn) in g.t.mids) && (!g.ok ==> g.pool == pool && g.t == t)
  {
    if MidKey(vpn) !in t.mids && pool.free != [] {
      ValuesInsert(t.mids, MidKey(vpn), pool.free[0]);
      assert Taken(pool).free != pool.free by { assert |Taken(pool).free| < |pool.free|; }
    }
  }

  lemma HangLow(t: Table, pool: Pool, vpn: nat)
    requires TableOk(t) && (pool.free != [] ==> pool.free[0] !in Nodes(t))
    requires MidKey(vpn) in t.mids
    ensures var g := WalkLow(t, pool, vpn);
            && TableOk(g.t) && g.t.root == t.root && g.t.ptes == t.ptes && g.t.mids == t.mids
            && (g.pool == pool || (pool.free != [] && g.pool == Taken(pool)))
            && Nodes(g.t) == (if g.pool == pool then Nodes(t) else Nodes(t) + {pool.free[0]})
            && (g.ok ==> LowKey(vpn) in g.t.lows) && (!g.ok ==> g.pool == pool && g.t == t)
  {
    if LowKey(vpn) !in t.lows && pool.free != [] {
      ValuesInsert(t.lows, LowKey(vpn), pool.free[0]);
      assert Taken(pool).free != pool.free by { assert |Taken(pool).free| < |pool.free|; }
      assert LowKey(vpn) / 512 == MidKey(vpn);
    }
  }
}
