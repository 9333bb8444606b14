/**
  proc_pagetable of src/vm.c: a fresh table with the kernel's identity map and the user's
  code and stack page.  It takes 69 pages to get past the kernel's part and 70 to map the
  user's, and proc_pagetable does not tell the two apart.
 */
module ProcTable {
  import opened Kalloc
  import opened Paging
  import opened Images

  /** An identity-mapped range of the kernel. */
  datatype Range = Range(vpn: nat, n: nat, perm: Perm)

  const RW: Perm := Perm(true, true, false, false, false)
  const RX: Perm := Perm(true, false, true, false, false)

  const KERN_FIRST: nat := 0x8_0200
  const KERNEL_PAGES: nat := 69
  const TABLE_PAGES: nat := 70

  /** UART, virtio, PLIC, kernel text up to page etext, and the rest of RAM. */
  function KernelRanges(etext: nat): seq<Range>
    requires KERN_FIRST < etext < RAM_END
  {
    [Range(0x1_0000, 1, RW), Range(0x1_0001, 8, RW), Range(0xc000, 0x400, RW),
     Range(KERN_FIRST, etext - KERN_FIRST, RX), Range(etext, RAM_END - etext, RW)]
  }

  function MapAll(t: Table, pool: Pool, rs: seq<Range>): (g: Grown)
    decreases |rs|
  {
    if rs == [] then Grown(true, t, pool)
    else
      var g := MapPages(t, pool, rs[0].vpn, rs[0].n, rs[0].vpn, rs[0].perm);
      if g.ok then MapAll(g.t, g.pool, rs[1..]) else g
  }

  /** Not ok stands for the null result and for kvmmap's endless loop; a failed user mapping is ignored. */
  function NewTable(pool: Pool, etext: nat, code: nat, stack: nat): (g: Grown)
    requires KERN_FIRST < etext < RAM_END
  {
    if pool.free == [] then Grown(false, Empty(0), pool)
    else
      var g := MapAll(Empty(pool.free[0]), Taken(pool), KernelRanges(etext));
      if !g.ok then g else
      var h := MapPage(g.t, g.pool, CODE_VPN, Pte(code, RXU));
      MapPage(h.t, h.pool, STACK_VPN, Pte(stack, RWU)).(ok := true)
  }

  // ---- enough pages make every step succeed ----

  /** Free pages cover every node that the keys in ms and ks may still need. */
  predicate Room(t: Table, pool: Pool, ms: set<nat>, ks: set<nat>) {
    |ms - t.mids.Keys| + |ks - t.lows.Keys| <= |pool.free|
  }

  /** Adding a needed key to a map uses up exactly one of the keys still missing. */
  lemma KeyAdded(s: set<nat>, m: map<nat, nat>, k: nat, v: nat)
    requires k in s && k !in m
    ensures |s - m[k := v].Keys| == |s - m.Keys| - 1
  {
    assert s - m[k := v].Keys == (s - m.Keys) - {k};
  }

  lemma MidSucceeds(t: Table, pool: Pool, vpn: nat, ms: set<nat>, ks: set<nat>)
    requires Room(t, pool, ms, ks) && MidKey(vpn) in ms
    ensures var g := WalkMid(t, pool, vpn); g.ok && Room(g.t, g.pool, ms, ks)
  {
    if MidKey(vpn) !in t.mids && pool.free != [] {
      KeyAdded(ms, t.mids, MidKey(vpn), pool.free[0]);
    } else if MidKey(vpn) !in t.mids {
      KeyAdded(ms, t.mids, MidKey(vpn), 0);
    }
  }

  lemma LowSucceeds(t: Table, pool: Pool, vpn: nat, ms: set<nat>, ks: set<nat>)
    requires Room(t, pool, ms, ks) && LowKey(vpn) in ks
    ensures var g := WalkLow(t, pool, vpn); g.ok && Room(g.t, g.pool, ms, ks)
  {
    if LowKey(vpn) !in t.lows && pool.free != [] {
      KeyAdded(ks, t.lows, LowKey(vpn), pool.free[0]);
    } else if LowKey(vpn) !in t.lows {
      KeyAdded(ks, t.lows, LowKey(vpn), 0);
    }
  }

  lemma WalkSucceeds(t: Table, pool: Pool, vpn: nat, ms: set<nat>, ks: set<nat>)
    requires Room(t, pool, ms, ks) && MidKey(vpn) in ms && LowKey(vpn) in ks
    ensures var g := Walk(t, pool, vpn); g.ok && Room(g.t, g.pool, ms, ks)
  {
    hide WalkMid, WalkLow;
    MidSucceeds(t, pool, vpn, ms, ks);
    var g := WalkMid(t, pool, vpn);
    LowSucceeds(g.t, g.pool, vpn, ms, ks);
  }

  lemma MapPageSucceeds(t: Table, pool: Pool, vpn: nat, pte: Pte, ms: set<nat>, ks: set<nat>)
    requires Room(t, pool, ms, ks) && MidKey(vpn) in ms && LowKey(vpn) in ks && vpn !in t.ptes
    ensures var g := MapPage(t, pool, vpn, pte); g.ok && Room(g.t, g.pool, ms, ks)
  {
    hide Walk;
    WalkSucceeds(t, pool, vpn, ms, ks);
    WalkKeepsLeaves(t, pool, vpn);
  }

  predicate KeysIn(r: Range, ms: set<nat>, ks: set<nat>) {
    forall v :: r.vpn <= v < r.vpn + r.n ==> MidKey(v) in ms && LowKey(v) in ks
  }

  predicate Unmapped(r: Range, t: Table) { forall v :: r.vpn <= v < r.vpn + r.n ==> v !in t.ptes }

  lemma {:induction false} RangeSucceeds(t: Table, pool: Pool, r: Range, ppn: nat, ms: set<nat>, ks: set<nat>)
    requires Room(t, pool, ms, ks) && KeysIn(r, ms, ks) && Unmapped(r, t)
    ensures var g := MapPages(t, pool, r.vpn, r.n, ppn, r.perm); g.ok && Room(g.t, g.pool, ms, ks)
    decreases r.n
  {
    hide MapPages, MapPage, Room;
    MapPagesStep(t, pool, r.vpn, r.n, ppn, r.perm);
    if r.n > 0 {
      var pte := Pte(ppn, r.perm);
      var g := MapPage(t, pool, r.vpn, pte);
      var rest := Range(r.vpn + 1, r.n - 1, r.perm);
      assert MidKey(r.vpn) in ms && LowKey(r.vpn) in ks && r.vpn !in t.ptes;
      MapPageSucceeds(t, pool, r.vpn, pte, ms, ks);
      MapPageChangesOne(t, pool, r.vpn, pte);
      RangeSucceeds(g.t, g.pool, rest, ppn + 1, ms, ks);
    }
  }

  predicate ApartRanges(rs: seq<Range>) {
    forall i, j :: 0 <= i < j < |rs| ==> rs[i].vpn + rs[i].n <= rs[j].vpn || rs[j].vpn + rs[j].n <= rs[i].vpn
  }

  /** The ranges all get mapped, and nothing below lo does. */
  lemma {:induction false} AllSucceed(t: Table, pool: Pool, rs: seq<Range>, ms: set<nat>, ks: set<nat>, lo: nat)
    requires Room(t, pool, ms, ks) && ApartRanges(rs)
    requires forall i :: 0 <= i < |rs| ==>
             KeysIn(rs[i], ms, ks) && Unmapped(rs[i], t) && rs[i].vpn >= lo && KernelPerm(rs[i].perm)
    requires forall v :: v in t.ptes ==> v >= lo && KernelPerm(t.ptes[v].perm)
    ensures var g := MapAll(t, pool, rs);
            && g.ok && Room(g.t, g.pool, ms, ks)
            && (forall v :: v in g.t.ptes ==> v >= lo && KernelPerm(g.t.ptes[v].perm))
    decreases |rs|
  {
    hide MapPages, Room;
    if rs != [] {
      var r := rs[0];
      var g := MapPages(t, pool, r.vpn, r.n, r.vpn, r.perm);
      assert KeysIn(r, ms, ks) && Unmapped(r, t);
      RangeSucceeds(t, pool, r, r.vpn, ms, ks);
      MapPagesExact(t, pool, r.vpn, r.n, r.vpn, r.perm);
      forall i | 0 <= i < |rs[1..]|
        ensures KeysIn(rs[1..][i], ms, ks) && Unmapped(rs[1..][i], g.t) && rs[1..][i].vpn >= lo
                && KernelPerm(rs[1..][i].perm)
      {
        assert rs[1..][i] == rs[i + 1] && Unmapped(rs[i + 1], t);
      }
      AllSucceed(g.t, g.pool, rs[1..], ms, ks, lo);
    }
  }

  // ---- the kernel's own keys ----

  function KernelMids(): set<nat> { {0, 2} }

  function KernelLows(): set<nat> { {0, 96, 97, 128} + Span(1025, 1088) }

  predicate Within(a: nat, b: nat, k: nat) { a <= k < b }

  function Span(a: nat, b: nat): set<nat> { set k | 0 <= k < b && Within(a, b, k) }

  lemma {:induction false} SpanSize(a: nat, b: nat)
    requires a <= b
    ensures |Span(a, b)| == b - a
    decreases b - a
  {
    if a < b {
      SpanSize(a, b - 1);
      assert Span(a, b) == Span(a, b - 1) + {b - 1};
    }
  }

  lemma KernelKeyCount()
    ensures |KernelMids()| == 2 && |KernelLows()| == 67
  {
    SpanSize(1025, 1088);
    assert {0, 96, 97, 128} !! Span(1025, 1088);
  }

  lemma KernelKeys(etext: nat)
    requires KERN_FIRST < etext < RAM_END
    ensures forall i :: 0 <= i < 5 ==> KeysIn(KernelRanges(etext)[i], KernelMids(), KernelLows())
    ensures ApartRanges(KernelRanges(etext))
  {
    var rs := KernelRanges(etext);
    forall v | rs[0].vpn <= v < rs[0].vpn + rs[0].n || rs[1].vpn <= v < rs[1].vpn + rs[1].n
      ensures MidKey(v) == 0 && LowKey(v) == 128 {
    }
    forall v | rs[2].vpn <= v < rs[2].vpn + rs[2].n ensures MidKey(v) == 0 && (LowKey(v) == 96 || LowKey(v) == 97) {
    }
    forall v | KERN_FIRST <= v < RAM_END ensures MidKey(v) == 2 && LowKey(v) in Span(1025, 1088) {
    }
  }

  lemma KernelMapped(pool: Pool, etext: nat)
    requires KERN_FIRST < etext < RAM_END && |pool.free| >= TABLE_PAGES
    ensures var g := MapAll(Empty(pool.free[0]), Taken(pool), KernelRanges(etext));
            && g.ok && Room(g.t, g.pool, KernelMids(), KernelLows())
            && forall v :: v in g.t.ptes ==> v >= USER_TOP && KernelPerm(g.t.ptes[v].perm)
  {
    hide MapAll, KernelLows, KernelMids, KeysIn;
    var ms, ks := KernelMids(), KernelLows();
    var t, p := Empty(pool.free[0]), Taken(pool);
    KernelKeyCount();
    KernelKeys(etext);
    assert ms - t.mids.Keys == ms && ks - t.lows.Keys == ks;
    assert Room(t, p, ms, ks);
    AllSucceed(t, p, KernelRanges(etext), ms, ks, USER_TOP);
  }

  lemma UserMapped(t: Table, pool: Pool, vpn: nat, pte: Pte)
    requires Room(t, pool, KernelMids(), KernelLows()) && vpn < 512 && vpn !in t.ptes
    ensures var g := MapPage(t, pool, vpn, pte);
            && g.ok && Room(g.t, g.pool, KernelMids(), KernelLows()) && 0 in g.t.mids && 0 in g.t.lows
            && g.t.ptes == t.ptes[vpn := pte]
  {
    assert MidKey(vpn) == 0 && LowKey(vpn) == 0;
    MapPageSucceeds(t, pool, vpn, pte, KernelMids(), KernelLows());
    MapPageChangesOne(t, pool, vpn, pte);
    MapPageReaches(t, pool, vpn, pte);
  }

  /** With TABLE_PAGES free pages the build succeeds, and the user part holds just code and stack. */
  lemma NewTableSucceeds(pool: Pool, etext: nat, code: nat, stack: nat)
    requires KERN_FIRST < etext < RAM_END && |pool.free| >= TABLE_PAGES
    ensures var g := NewTable(pool, etext, code, stack);
            && g.ok && 0 in g.t.mids && 0 in g.t.lows
            && (forall v :: UserLeaf(g.t, v) <==> v == CODE_VPN || v == STACK_VPN)
            && (forall v :: v in g.t.ptes && v >= USER_TOP ==> KernelPerm(g.t.ptes[v].perm))
            && g.t.ptes[CODE_VPN] == Pte(code, RXU) && g.t.ptes[STACK_VPN] == Pte(stack, RWU)
  {
    hide MapPage, MapAll, Room, KernelRanges;
    KernelMapped(pool, etext);
    var g := MapAll(Empty(pool.free[0]), Taken(pool), KernelRanges(etext));
    UserMapped(g.t, g.pool, CODE_VPN, Pte(code, RXU));
    var h := MapPage(g.t, g.pool, CODE_VPN, Pte(code, RXU));
    UserMapped(h.t, h.pool, STACK_VPN, Pte(stack, RWU));
    var f := MapPage(h.t, h.pool, STACK_VPN, Pte(stack, RWU));
    assert NewTable(pool, etext, code, stack) == f;
    forall v ensures UserLeaf(f.t, v) <==> v == CODE_VPN || v == STACK_VPN {
    }
  }

  // ---- fewer pages: where it fails ----

  /** Every node comes from the free list. */
  function Spent(t: Table, pool: Pool): nat { |pool.free| + |t.mids| + |t.lows| }

  lemma WalkSpends(t: Table, pool: Pool, vpn: nat)
    ensures var g := Walk(t, pool, vpn); Spent(g.t, g.pool) == Spent(t, pool)
  {
  }

  lemma MapPageSpends(t: Table, pool: Pool, vpn: nat, pte: Pte)
    ensures var g := MapPage(t, pool, vpn, pte); Spent(g.t, g.pool) == Spent(t, pool)
  {
    hide Walk;
    WalkSpends(t, pool, vpn);
  }

  lemma WalkKeepsKeys(t: Table, pool: Pool, vpn: nat)
    ensures var g := Walk(t, pool, vpn); t.mids.Keys <= g.t.mids.Keys && t.lows.Keys <= g.t.lows.Keys
  {
  }

  /** A mapped range has all its nodes. */
  predicate HasKeys(t: Table, r: Range)
  {
    forall v :: r.vpn <= v < r.vpn + r.n ==> MidKey(v) in t.mids && LowKey(v) in t.lows
  }

  lemma MapPageKeys(t: Table, pool: Pool, vpn: nat, pte: Pte)
    ensures var g := MapPage(t, pool, vpn, pte);
            && t.mids.Keys <= g.t.mids.Keys && t.lows.Keys <= g.t.lows.Keys
            && (g.ok ==> MidKey(vpn) in g.t.mids && LowKey(vpn) in g.t.lows)
  {
    hide Walk;
    WalkKeepsKeys(t, pool, vpn);
    if MapPage(t, pool, vpn, pte).ok { WalkReaches(t, pool, vpn); }
  }

  lemma {:induction false} MapPagesKeys(t: Table, pool: Pool, r: Range, ppn: nat)
    ensures var g := MapPages(t, pool, r.vpn, r.n, ppn, r.perm);
            && t.mids.Keys <= g.t.mids.Keys && t.lows.Keys <= g.t.lows.Keys && Spent(g.t, g.pool) == Spent(t, pool)
            && (g.ok ==> HasKeys(g.t, r))
    decreases r.n
  {
    hide MapPages, MapPage, Spent;
    MapPagesStep(t, pool, r.vpn, r.n, ppn, r.perm);
    if r.n > 0 {
      var pte := Pte(ppn, r.perm);
      var g := MapPage(t, pool, r.vpn, pte);
      MapPageKeys(t, pool, r.vpn, pte);
      MapPageSpends(t, pool, r.vpn, pte);
      if g.ok {
        var rest := Range(r.vpn + 1, r.n - 1, r.perm);
        MapPagesKeys(g.t, g.pool, rest, ppn + 1);
        var h := MapPages(g.t, g.pool, rest.vpn, rest.n, ppn + 1, r.perm);
        assert MidKey(r.vpn) in g.t.mids.Keys && LowKey(r.vpn) in g.t.lows.Keys;
        if h.ok { HasKeysCons(h.t, r); }
      }
    }
  }

  lemma HasKeysCons(t: Table, r: Range)
    requires r.n > 0 && MidKey(r.vpn) in t.mids && LowKey(r.vpn) in t.lows
             && HasKeys(t, Range(r.vpn + 1, r.n - 1, r.perm))
    ensures HasKeys(t, r)
  {
  }

  lemma {:induction false} MapAllKeys(t: Table, pool: Pool, rs: seq<Range>)
    ensures var g := MapAll(t, pool, rs);
            && t.mids.Keys <= g.t.mids.Keys && t.lows.Keys <= g.t.lows.Keys && Spent(g.t, g.pool) == Spent(t, pool)
            && (g.ok ==> forall i :: 0 <= i < |rs| ==> HasKeys(g.t, rs[i]))
    decreases |rs|
  {
    hide MapPages, Spent, HasKeys;
    if rs != [] {
      var r := rs[0];
      var g := MapPages(t, pool, r.vpn, r.n, r.vpn, r.perm);
      MapPagesKeys(t, pool, r, r.vpn);
      if g.ok {
        MapAllKeys(g.t, g.pool, rs[1..]);
        var h := MapAll(g.t, g.pool, rs[1..]);
        KeysStay(g.t, h.t, r);
        if h.ok {
          forall i | 0 <= i < |rs| ensures HasKeys(h.t, rs[i]) {
            if i > 0 { assert rs[i] == rs[1..][i - 1]; }
          }
        }
      }
    }
  }

  lemma KeysStay(t: Table, t': Table, r: Range)
    requires HasKeys(t, r) && t.mids.Keys <= t'.mids.Keys && t.lows.Keys <= t'.lows.Keys
    ensures HasKeys(t', r)
  {
    forall v | r.vpn <= v < r.vpn + r.n ensures MidKey(v) in t'.mids && LowKey(v) in t'.lows {
      assert MidKey(v) in t.mids.Keys && LowKey(v) in t.lows.Keys;
    }
  }

  /** The low nodes of the kernel's own mappings. */
  function KernelOwnLows(): set<nat> { {96, 97, 128} + Span(1025, 1088) }

  lemma KernelOwnCount()
    ensures |KernelMids()| == 2 && |KernelOwnLows()| == 66
  {
    SpanSize(1025, 1088);
    assert {96, 97, 128} !! Span(1025, 1088);
  }

  /** A table that maps the kernel has at least these nodes. */
  lemma KernelNeeds(t: Table, etext: nat)
    requires KERN_FIRST < etext < RAM_END && forall i :: 0 <= i < 5 ==> HasKeys(t, KernelRanges(etext)[i])
    ensures KernelMids() <= t.mids.Keys && KernelOwnLows() <= t.lows.Keys
  {
    var rs := KernelRanges(etext);
    assert HasKeys(t, rs[0]) && HasKeys(t, rs[2]) && HasKeys(t, rs[3]) && HasKeys(t, rs[4]);
    assert LowKey(0x1_0000) == 128 && MidKey(0x1_0000) == 0 && LowKey(0xc000) == 96 && LowKey(0xc200) == 97;
    assert MidKey(RAM_END - 1) == 2;
    forall k | k in Span(1025, 1088) ensures k in t.lows.Keys {
      var v := k * 512;
      assert KERN_FIRST <= v < RAM_END && LowKey(v) == k;
      assert v < etext ==> rs[3].vpn <= v < rs[3].vpn + rs[3].n;
      assert v >= etext ==> rs[4].vpn <= v < rs[4].vpn + rs[4].n;
    }
  }

  lemma SubsetSize(a: set<nat>, b: set<nat>)
    requires a <= b
    ensures |a| <= |b| && (|a| == |b| ==> a == b)
  {
    assert b == a + (b - a);
  }

  lemma KernelOwnKeys(etext: nat)
    requires KERN_FIRST < etext < RAM_END
    ensures forall i :: 0 <= i < 5 ==> KeysIn(KernelRanges(etext)[i], KernelMids(), KernelOwnLows())
  {
    var rs := KernelRanges(etext);
    forall v | rs[0].vpn <= v < rs[0].vpn + rs[0].n || rs[1].vpn <= v < rs[1].vpn + rs[1].n
      ensures MidKey(v) == 0 && LowKey(v) == 128 {
    }
    forall v | rs[2].vpn <= v < rs[2].vpn + rs[2].n ensures MidKey(v) == 0 && (LowKey(v) == 96 || LowKey(v) == 97) {
    }
    forall v | KERN_FIRST <= v < RAM_END ensures MidKey(v) == 2 && LowKey(v) in Span(1025, 1088) {
    }
  }

  /** The kernel's part, page by page: it succeeds exactly with 68 pages beside the root, and takes exactly those. */
  lemma KernelPart(root: nat, pool: Pool, etext: nat)
    requires KERN_FIRST < etext < RAM_END
    ensures var g := MapAll(Empty(root), pool, KernelRanges(etext));
            && (g.ok <==> |pool.free| >= KERNEL_PAGES - 1)
            && (g.ok ==> KernelMids() <= g.t.mids.Keys && KernelOwnLows() <= g.t.lows.Keys)
            && (g.ok && |pool.free| == KERNEL_PAGES - 1 ==>
                  g.pool.free == [] && g.t.mids.Keys == KernelMids() && g.t.lows.Keys == KernelOwnLows())
            && (g.ok ==> forall v :: v in g.t.ptes ==> v >= USER_TOP && KernelPerm(g.t.ptes[v].perm))
  {
    hide MapAll, KernelOwnLows, KernelMids, KeysIn, HasKeys;
    var t, rs, ms, ks := Empty(root), KernelRanges(etext), KernelMids(), KernelOwnLows();
    var g := MapAll(t, pool, rs);
    KernelOwnCount();
    MapAllKeys(t, pool, rs);
    assert Spent(t, pool) == |pool.free|;
    if g.ok {
      KernelNeeds(g.t, etext);
      SubsetSize(ms, g.t.mids.Keys);
      SubsetSize(ks, g.t.lows.Keys);
      assert |g.t.mids| == |g.t.mids.Keys| && |g.t.lows| == |g.t.lows.Keys|;
    }
    if |pool.free| >= KERNEL_PAGES - 1 {
      KernelOwnKeys(etext);
      KernelKeys(etext);
      assert ms - t.mids.Keys == ms && ks - t.lows.Keys == ks;
      AllSucceed(t, pool, rs, ms, ks, USER_TOP);
    }
  }

  lemma NoLowFails(t: Table, pool: Pool, vpn: nat, pte: Pte)
    requires pool.free == [] && 0 in t.mids && 0 !in t.lows && vpn < 512
    ensures MapPage(t, pool, vpn, pte) == Grown(false, t, pool)
  {
    assert MidKey(vpn) == 0 && LowKey(vpn) == 0;
  }

  /**
    proc_pagetable returns a table if and only if 69 pages are free; with exactly 69 it maps
    neither code nor stack.
   */
  lemma NewTableOkIff(pool: Pool, etext: nat, code: nat, stack: nat)
    requires KERN_FIRST < etext < RAM_END
    ensures var g := NewTable(pool, etext, code, stack);
            && (g.ok <==> |pool.free| >= KERNEL_PAGES)
            && (|pool.free| == KERNEL_PAGES ==>
                  && g.pool.free == [] && 0 in g.t.mids && 0 !in g.t.lows
                  && forall v :: v in g.t.ptes ==> v >= USER_TOP && KernelPerm(g.t.ptes[v].perm))
            && (|pool.free| > KERNEL_PAGES ==> CODE_VPN in g.t.ptes && STACK_VPN in g.t.ptes)
  {
    hide MapAll, KernelRanges, MapPage;
    if pool.free != [] {
      var root, p := pool.free[0], Taken(pool);
      assert |p.free| == |pool.free| - 1;
      KernelPart(root, p, etext);
      if |pool.free| == KERNEL_PAGES {
        var g := MapAll(Empty(root), p, KernelRanges(etext));
        assert 0 in KernelMids() && 0 !in KernelOwnLows();
        assert 0 in g.t.mids.Keys && 0 !in g.t.lows.Keys;
        NoLowFails(g.t, g.pool, CODE_VPN, Pte(code, RXU));
        NoLowFails(g.t, g.pool, STACK_VPN, Pte(stack, RWU));
      } else if |pool.free| > KERNEL_PAGES {
        NewTableSucceeds(pool, etext, code, stack);
        assert UserLeaf(NewTable(pool, etext, code, stack).t, CODE_VPN)
               && UserLeaf(NewTable(pool, etext, code, stack).t, STACK_VPN);
      }
    }
  }

  // ---- what a new table maps ----

  /** Page v lies in one of the ranges. */
  ghost predicate InRanges(rs: seq<Range>, v: nat) { exists i :: 0 <= i < |rs| && rs[i].vpn <= v < rs[i].vpn + rs[i].n }

  /** Every range is mapped to itself with its permissions, and no other lookup changes. */
  lemma {:induction false} MapAllExact(t: Table, pool: Pool, rs: seq<Range>)
    requires MapAll(t, pool, rs).ok
    ensures var t' := MapAll(t, pool, rs).t;
            && (forall i, v :: 0 <= i < |rs| && rs[i].vpn <= v < rs[i].vpn + rs[i].n ==>
                  v in t'.ptes && t'.ptes[v] == Pte(v, rs[i].perm))
            && forall v: nat :: !InRanges(rs, v) ==>
                 (v in t'.ptes <==> v in t.ptes) && (v in t.ptes ==> t'.ptes[v] == t.ptes[v])
    decreases |rs|
  {
    hide MapPages;
    if rs != [] {
      var r, rest := rs[0], rs[1..];
      var g := MapPages(t, pool, r.vpn, r.n, r.vpn, r.perm);
      MapPagesExact(t, pool, r.vpn, r.n, r.vpn, r.perm);
      MapAllExact(g.t, g.pool, rest);
      var t' := MapAll(t, pool, rs).t;
      MapAllOnto(g.t, g.pool, rest);
      forall i, v | 0 <= i < |rs| && rs[i].vpn <= v < rs[i].vpn + rs[i].n
        ensures v in t'.ptes && t'.ptes[v] == Pte(v, rs[i].perm)
      {
        if i > 0 {
          assert rest[i - 1] == rs[i];
        } else {
          assert v in g.t.ptes;
        }
      }
      forall v: nat | !InRanges(rs, v)
        ensures (v in t'.ptes <==> v in t.ptes) && (v in t.ptes ==> t'.ptes[v] == t.ptes[v])
      {
        assert !(rs[0].vpn <= v < rs[0].vpn + rs[0].n);
        assert forall i :: 0 <= i < |rest| ==> rest[i] == rs[i + 1];
        assert !InRanges(rest, v);
      }
    }
  }

  /** mappages refuses what is mapped already, so nothing mapped is ever changed. */
  lemma {:induction false} MapAllOnto(t: Table, pool: Pool, rs: seq<Range>)
    ensures var t' := MapAll(t, pool, rs).t; forall v :: v in t.ptes ==> v in t'.ptes && t'.ptes[v] == t.ptes[v]
    decreases |rs|
  {
    hide MapPages;
    if rs != [] {
      var r := rs[0];
      var g := MapPages(t, pool, r.vpn, r.n, r.vpn, r.perm);
      MapPagesOnto(t, pool, r.vpn, r.n, r.vpn, r.perm);
      if g.ok { MapAllOnto(g.t, g.pool, rs[1..]); }
    }
  }

  lemma {:induction false} MapPagesOnto(t: Table, pool: Pool, vpn: nat, n: nat, ppn: nat, perm: Perm)
    ensures var t' := MapPages(t, pool, vpn, n, ppn, perm).t;
            forall v :: v in t.ptes ==> v in t'.ptes && t'.ptes[v] == t.ptes[v]
    decreases n
  {
    hide MapPages, MapPage;
    MapPagesStep(t, pool, vpn, n, ppn, perm);
    if n > 0 {
      var g := MapPage(t, pool, vpn, Pte(ppn, perm));
      MapPageChangesOne(t, pool, vpn, Pte(ppn, perm));
      if g.ok { MapPagesOnto(g.t, g.pool, vpn + 1, n - 1, ppn + 1, perm); }
    }
  }

  lemma UserOnto(t: Table, pool: Pool, p: Pte, q: Pte)
    requires CODE_VPN !in t.ptes && STACK_VPN !in t.ptes
    ensures var h := MapPage(t, pool, CODE_VPN, p);
            var t' := MapPage(h.t, h.pool, STACK_VPN, q).t;
            && (forall v :: v != CODE_VPN && v != STACK_VPN ==>
                  (v in t'.ptes <==> v in t.ptes) && (v in t.ptes ==> t'.ptes[v] == t.ptes[v]))
            && (CODE_VPN in t'.ptes ==> t'.ptes[CODE_VPN] == p) && (STACK_VPN in t'.ptes ==> t'.ptes[STACK_VPN] == q)
  {
    hide MapPage;
    MapPageChangesOne(t, pool, CODE_VPN, p);
    var h := MapPage(t, pool, CODE_VPN, p);
    MapPageChangesOne(h.t, h.pool, STACK_VPN, q);
  }

  /** Kernel text is mapped R|X, devices and the rest of memory R|W, all of it to itself. */
  ghost predicate KernelMap(t: Table, etext: nat) {
    && (forall v :: 0x80200 <= v < etext ==> v in t.ptes && t.ptes[v] == Pte(v, Perm(true, false, true, false, false)))
    && (forall v :: etext <= v < 0x88000 || 0x10000 <= v <= 0x10008 || 0xc000 <= v <= 0xc3ff ==>
          v in t.ptes && t.ptes[v] == Pte(v, Perm(true, true, false, false, false)))
    && forall v :: v in t.ptes && v >= 0xc000 ==>
         0x80200 <= v < 0x88000 || 0x10000 <= v <= 0x10008 || 0xc000 <= v <= 0xc3ff
  }

  lemma RangesMap(t: Table, etext: nat)
    requires KERN_FIRST < etext < RAM_END
    requires var rs := KernelRanges(etext);
             forall i, v :: 0 <= i < 5 && rs[i].vpn <= v < rs[i].vpn + rs[i].n ==>
               v in t.ptes && t.ptes[v] == Pte(v, rs[i].perm)
    requires forall v :: v in t.ptes ==> InRanges(KernelRanges(etext), v)
    ensures KernelMap(t, etext) && forall v :: v in t.ptes ==> v >= 0xc000
  {
    var rs := KernelRanges(etext);
    forall v | 0x80200 <= v < etext ensures v in t.ptes && t.ptes[v] == Pte(v, Perm(true, false, true, false, false)) {
      assert rs[3].vpn <= v < rs[3].vpn + rs[3].n;
    }
    forall v | etext <= v < 0x88000 || 0x10000 <= v <= 0x10008 || 0xc000 <= v <= 0xc3ff
      ensures v in t.ptes && t.ptes[v] == Pte(v, Perm(true, true, false, false, false))
    {
      var i := if v == 0x10000 then 0 else if v <= 0xc3ff then 2 else if v <= 0x10008 then 1 else 4;
      assert rs[i].vpn <= v < rs[i].vpn + rs[i].n;
    }
  }

  /**
    Whenever proc_pagetable returns a table: the kernel's map, and below it at most code R|X|U
    at page 1 and stack R|W|U at page 4.
   */
  lemma NewTableMaps(pool: Pool, etext: nat, code: nat, stack: nat)
    requires 0x80200 < etext < 0x88000 && NewTable(pool, etext, code, stack).ok
    ensures var t := NewTable(pool, etext, code, stack).t;
            && KernelMap(t, etext)
            && (forall v :: v in t.ptes && v < 0xc000 ==> v == 1 || v == 4)
            && (1 in t.ptes ==> t.ptes[1] == Pte(code, Perm(true, false, true, true, false)))
            && (4 in t.ptes ==> t.ptes[4] == Pte(stack, Perm(true, true, false, true, false)))
            && (1 in t.ptes && 4 in t.ptes <==> |pool.free| >= 70)
  {
    hide MapAll, MapPage, KernelRanges;
    var root, p := pool.free[0], Taken(pool);
    var rs := KernelRanges(etext);
    var g := MapAll(Empty(root), p, rs);
    MapAllExact(Empty(root), p, rs);
    RangesCount(etext);
    RangesMap(g.t, etext);
    UserOnto(g.t, g.pool, Pte(code, RXU), Pte(stack, RWU));
    NewTableOkIff(pool, etext, code, stack);
    hide KernelMap;
    KernelMapStays(g.t, NewTable(pool, etext, code, stack).t, etext);
  }

  lemma RangesCount(etext: nat)
    requires KERN_FIRST < etext < RAM_END
    ensures |KernelRanges(etext)| == 5
  {
  }

  lemma KernelMapStays(t: Table, t': Table, etext: nat)
    requires KernelMap(t, etext) && 0x80200 < etext < 0x88000
    requires forall v :: v != 1 && v != 4 ==>
             (v in t'.ptes <==> v in t.ptes) && (v in t.ptes ==> t'.ptes[v] == t.ptes[v])
    ensures KernelMap(t', etext)
  {
  }

  lemma {:induction false} MapAllExtends(t: Table, pool: Pool, rs: seq<Range>, first: nat, procs: seq<Image>,
                                         loose: set<nat>)
    requires Acct(pool, first, procs, loose) && TableOk(t) && NodesKnown(t, procs, loose)
    ensures Extends(t, MapAll(t, pool, rs), first, procs, loose)
    decreases |rs|
  {
    hide MapPages;
    if rs == [] {
      assert loose + (Nodes(t) - Nodes(t)) == loose;
    } else {
      var r := rs[0];
      var g := MapPages(t, pool, r.vpn, r.n, r.vpn, r.perm);
      MapPagesExtends(t, pool, r.vpn, r.n, r.vpn, r.perm, first, procs, loose);
      if g.ok {
        MapAllExtends(g.t, g.pool, rs[1..], first, procs, loose + (Nodes(g.t) - Nodes(t)));
        ExtendsTrans(t, g, MapAll(g.t, g.pool, rs[1..]), first, procs, loose);
      }
    }
  }

  lemma TwoPagesExtend(t: Table, pool: Pool, v: nat, p: Pte, w: nat, q: Pte, first: nat, procs: seq<Image>,
                       loose: set<nat>)
    requires Acct(pool, first, procs, loose) && TableOk(t) && NodesKnown(t, procs, loose)
    ensures var h := MapPage(t, pool, v, p); Extends(t, MapPage(h.t, h.pool, w, q), first, procs, loose)
  {
    hide MapPage;
    var h := MapPage(t, pool, v, p);
    MapPageExtends(t, pool, v, p, first, procs, loose);
    MapPageExtends(h.t, h.pool, w, q, first, procs, loose + (Nodes(h.t) - Nodes(t)));
    ExtendsTrans(t, h, MapPage(h.t, h.pool, w, q), first, procs, loose);
  }

  /** The new table's nodes are pages nobody held, each used once, now in flight. */
  lemma NewTableAcct(pool: Pool, etext: nat, code: nat, stack: nat, first: nat, procs: seq<Image>, loose: set<nat>)
    requires Acct(pool, first, procs, loose) && KERN_FIRST < etext < RAM_END && NewTable(pool, etext, code, stack).ok
    ensures var g := NewTable(pool, etext, code, stack);
            && TableOk(g.t) && Nodes(g.t) !! loose && (forall i :: 0 <= i < |procs| ==> Nodes(g.t) !! Held(procs[i]))
            && Acct(g.pool, first, procs, loose + Nodes(g.t))
  {
    hide MapPage, MapAll, KernelRanges;
    var root := pool.free[0];
    var t, p, l := Empty(root), Taken(pool), loose + {root};
    AllocAcct(pool, first, procs, loose);
    assert Nodes(t) == {root};
    var g := MapAll(t, p, KernelRanges(etext));
    MapAllExtends(t, p, KernelRanges(etext), first, procs, l);
    var f := NewTable(pool, etext, code, stack);
    TwoPagesExtend(g.t, g.pool, CODE_VPN, Pte(code, RXU), STACK_VPN, Pte(stack, RWU), first, procs,
      l + (Nodes(g.t) - Nodes(t)));
    ExtendsTrans(t, g, f, first, procs, l);
    assert l + (Nodes(f.t) - Nodes(t)) == loose + Nodes(f.t);
  }
}
