/**
  The Sv39 tree as it lies in memory (section 4.4 of the RISC-V Privileged Specification,
  version 20211203): 512 words per node page, entries encoded as src/vm.c encodes them,
  and the relation between such memory and the flat tables of module Paging.
 */
module Sv39 {
  import opened Kalloc
  import opened Paging
  import opened Images
  import opened Cow

  const MAXVA: nat := 0x80_0000_0000
  const PTE_V: bv10 := 1
  const PTE_R: bv10 := 2
  const PTE_W: bv10 := 4
  const PTE_X: bv10 := 8
  const PTE_U: bv10 := 16
  const PTE_COW: bv10 := 256

  // ---- addresses ----

  /** PX(level, va). */
  function Px(level: nat, va: nat): nat
    requires level <= 2
  {
    (if level == 0 then va / 0x1000 else if level == 1 then va / 0x20_0000 else va / 0x4000_0000) % 512
  }

  lemma PxKeys(va: nat)
    requires va < MAXVA
    ensures Px(2, va) == MidKey(va / 4096) < 512
    ensures MidKey(va / 4096) * 512 + Px(1, va) == LowKey(va / 4096) < 0x4_0000
    ensures LowKey(va / 4096) * 512 + Px(0, va) == va / 4096 < VPNS
    ensures LowKey(va / 4096) / 512 == MidKey(va / 4096)
  {
    var v := va / 4096;
    assert va / 0x20_0000 == v / 512 && va / 0x4000_0000 == v / 0x4_0000;
    assert v / 0x4_0000 == (v / 512) / 512;
  }

  /** The three nine-bit indices determine a page-aligned address below 2^39. */
  lemma IndicesDetermine(a: nat, b: nat)
    requires a < MAXVA && b < MAXVA && a % 4096 == 0 && b % 4096 == 0
    requires forall level :: 0 <= level <= 2 ==> Px(level, a) == Px(level, b)
    ensures a == b
  {
    PxKeys(a);
    PxKeys(b);
    assert Px(0, a) == Px(0, b) && Px(1, a) == Px(1, b) && Px(2, a) == Px(2, b);
  }

  // ---- entries: a page number above ten flag bits ----

  /** PTE_FLAGS. */
  function FlagsOf(w: nat): bv10 { (w % 1024) as bv10 }

  /** PTE2PA, as a page number. */
  function PageOf(w: nat): nat { w / 1024 }

  /** PA2PTE(pa) | flags, for the page number of pa. */
  function Entry(p: nat, flags: bv10): nat { p * 1024 + flags as nat }

  predicate Has(w: nat, b: bv10) { FlagsOf(w) & b != 0 }

  function PermOfFlags(f: bv10): Perm {
    Perm(f & PTE_R != 0, f & PTE_W != 0, f & PTE_X != 0, f & PTE_U != 0, f & PTE_COW != 0)
  }

  function PermOf(w: nat): Perm { PermOfFlags(FlagsOf(w)) }

  function PermBits(p: Perm): bv10 {
    (if p.r then PTE_R else 0) | (if p.w then PTE_W else 0) | (if p.x then PTE_X else 0)
    | (if p.u then PTE_U else 0) | (if p.cow then PTE_COW else 0)
  }

  lemma FlagsFit(f: bv10)
    ensures f as nat < 1024 && (f as nat) as bv10 == f
  {
  }

  /** PA2PTE and PTE2PA: page and flags come back unharmed. */
  lemma EntryRoundTrip(p: nat, f: bv10)
    ensures PageOf(Entry(p, f)) == p && FlagsOf(Entry(p, f)) == f
  {
    FlagsFit(f);
    assert Entry(p, f) % 1024 == f as nat;
  }

  lemma PermRoundTrip(p: Perm)
    ensures PermOfFlags(PermBits(p)) == p && PermOfFlags(PermBits(p) | PTE_V) == p
  {
  }

  lemma WithV(f: bv10)
    ensures PermOfFlags(f | PTE_V) == PermOfFlags(f) && (f | PTE_V) & PTE_V != 0
  {
  }

  /** The flag juggling of uvm_cow_share: W goes, COW comes, all else stays. */
  lemma CowFlags(f: bv10)
    ensures PermOfFlags((f & !PTE_W) | PTE_COW) == PermOfFlags(f).(w := false, cow := true)
    ensures ((f & !PTE_W) | PTE_COW) & PTE_V == f & PTE_V
  {
  }

  /** The flag juggling of uvm_cow_fault, the other way. */
  lemma UncowFlags(f: bv10)
    ensures PermOfFlags((f & !PTE_COW) | PTE_W) == PermOfFlags(f).(cow := false, w := true)
    ensures ((f & !PTE_COW) | PTE_W) & PTE_V == f & PTE_V
  {
  }

  /** A node entry: PA2PTE(page) | PTE_V. */
  function NodeEntry(p: nat): nat { Entry(p, PTE_V) }

  /** freewalk's test for an entry that leads to another node. */
  predicate IsNode(w: nat) { Has(w, PTE_V) && !Has(w, PTE_R | PTE_W | PTE_X) }

  lemma NodeEntryTells(p: nat)
    ensures IsNode(NodeEntry(p)) && PageOf(NodeEntry(p)) == p
  {
    EntryRoundTrip(p, PTE_V);
  }

  lemma LeafIsNoNode(w: nat)
    requires PermOf(w).r || PermOf(w).w || PermOf(w).x
    ensures !IsNode(w)
  {
    var f := FlagsOf(w);
    assert f & PTE_R != 0 || f & PTE_W != 0 || f & PTE_X != 0 ==> f & (PTE_R | PTE_W | PTE_X) != 0;
  }

  lemma ZeroWord()
    ensures !Has(0, PTE_V)
  {
  }

  // ---- tables in memory ----

  predicate NodeWord(w: nat, m: map<nat, nat>, k: nat) {
    if k in m then w == NodeEntry(m[k]) else !Has(w, PTE_V)
  }

  /** Unused, accessed and dirty bits of a leaf may be anything. */
  predicate LeafWord(w: nat, ptes: map<nat, Pte>, v: nat) {
    if v in ptes then Has(w, PTE_V) && PageOf(w) == ptes[v].ppn && PermOf(w) == ptes[v].perm else !Has(w, PTE_V)
  }

  predicate NodePage(f: Frame, m: map<nat, nat>, base: nat) {
    |f| == 512 && forall i :: 0 <= i < 512 ==> NodeWord(f[i], m, base + i)
  }

  predicate LeafPage(f: Frame, ptes: map<nat, Pte>, base: nat) {
    |f| == 512 && forall i :: 0 <= i < 512 ==> LeafWord(f[i], ptes, base + i)
  }

  predicate MidsOk(mem: Memory, t: Table) {
    forall a :: a in t.mids ==> a < 512 && t.mids[a] in mem && NodePage(mem[t.mids[a]], t.lows, a * 512)
  }

  predicate LowsOk(mem: Memory, t: Table) {
    forall k :: k in t.lows ==> k < 0x4_0000 && t.lows[k] in mem && LeafPage(mem[t.lows[k]], t.ptes, k * 512)
  }

  /** The tree rooted at t.root in memory is the table t. */
  predicate Represents(mem: Memory, t: Table) {
    && TableOk(t) && t.root in mem && NodePage(mem[t.root], t.mids, 0)
    && MidsOk(mem, t) && LowsOk(mem, t)
  }

  /** A table only depends on its own nodes. */
  lemma RepFrame(m: Memory, m': Memory, t: Table, s: set<nat>)
    requires Represents(m, t) && SameBut(m, m', s) && s !! Nodes(t)
    ensures Represents(m', t)
  {
    hide NodePage, LeafPage, TableOk;
    assert t.root in Nodes(t);
    forall a | a in t.mids ensures a < 512 && t.mids[a] in m' && NodePage(m'[t.mids[a]], t.lows, a * 512) {
      assert t.mids[a] in t.mids.Values;
    }
    forall k | k in t.lows ensures k < 0x4_0000 && t.lows[k] in m' && LeafPage(m'[t.lows[k]], t.ptes, k * 512) {
      assert t.lows[k] in t.lows.Values;
    }
  }

  // ---- hanging nodes and setting leaves ----

  lemma NodePageSet(f: Frame, m: map<nat, nat>, base: nat, i: nat, p: nat)
    requires NodePage(f, m, base) && i < 512
    ensures NodePage(f[i := NodeEntry(p)], m[base + i := p], base)
  {
    var f', m' := f[i := NodeEntry(p)], m[base + i := p];
    forall j | 0 <= j < 512 ensures NodeWord(f'[j], m', base + j) {
      assert NodeWord(f[j], m, base + j);
    }
  }

  lemma NodePageOther(f: Frame, m: map<nat, nat>, base: nat, k: nat, p: nat)
    requires NodePage(f, m, base) && !(base <= k < base + 512)
    ensures NodePage(f, m[k := p], base)
  {
    forall j | 0 <= j < 512 ensures NodeWord(f[j], m[k := p], base + j) {
      assert NodeWord(f[j], m, base + j);
    }
  }

  lemma ZeroNode(m: map<nat, nat>, a: nat)
    requires forall k :: k in m ==> k / 512 != a
    ensures NodePage(ZeroFrame(), m, a * 512)
  {
    forall i | 0 <= i < 512 ensures NodeWord(ZeroFrame()[i], m, a * 512 + i) {
      assert (a * 512 + i) / 512 == a;
      assert ZeroFrame()[i] == 0;
      ZeroWord();
    }
  }

  lemma ZeroLeaf(ptes: map<nat, Pte>, k: nat)
    requires forall v :: v in ptes ==> LowKey(v) != k
    ensures LeafPage(ZeroFrame(), ptes, k * 512)
  {
    forall i | 0 <= i < 512 ensures LeafWord(ZeroFrame()[i], ptes, k * 512 + i) {
      assert LowKey(k * 512 + i) == k;
      assert ZeroFrame()[i] == 0;
      ZeroWord();
    }
  }

  /** Storing a node entry for a zeroed page in the root hangs a mid node. */
  lemma RepHangMid(mem: Memory, t: Table, a: nat, p: nat)
    requires Represents(mem, t) && a < 512 && a !in t.mids && p !in Nodes(t)
    ensures var t' := t.(mids := t.mids[a := p]);
            var m1 := mem[p := ZeroFrame()];
            t.root in m1 && |m1[t.root]| == 512
              && (TableOk(t') ==> Represents(SetEntry(m1, t.root, a, NodeEntry(p)), t'))
  {
    var t' := t.(mids := t.mids[a := p]);
    var m1 := mem[p := ZeroFrame()];
    assert m1[t.root] == mem[t.root];
    var m2 := SetEntry(m1, t.root, a, NodeEntry(p));
    NodePageSet(mem[t.root], t.mids, 0, a, p);
    forall k | k in t.lows ensures k / 512 != a { }
    ZeroNode(t.lows, a);
    hide NodePage, LeafPage, ZeroFrame;
    if TableOk(t') {
      forall b | b in t'.mids ensures b < 512 && t'.mids[b] in m2 && NodePage(m2[t'.mids[b]], t.lows, b * 512) {
        assert b != a ==> t.mids[b] in t.mids.Values && m2[t.mids[b]] == mem[t.mids[b]];
      }
      forall k | k in t.lows ensures k < 0x4_0000 && t.lows[k] in m2 && LeafPage(m2[t.lows[k]], t.ptes, k * 512) {
        assert t.lows[k] in t.lows.Values;
      }
    }
  }

  /** Storing a node entry in a mid node hangs a low node. */
  lemma RepHangLow(mem: Memory, t: Table, k: nat, p: nat)
    requires Represents(mem, t) && k < 0x4_0000 && k !in t.lows && k / 512 in t.mids && p !in Nodes(t)
    ensures var t' := t.(lows := t.lows[k := p]);
            var m1 := mem[p := ZeroFrame()];
            var mid := t.mids[k / 512];
            mid in m1 && |m1[mid]| == 512 && (TableOk(t') ==> Represents(SetEntry(m1, mid, k % 512, NodeEntry(p)), t'))
  {
    var t' := t.(lows := t.lows[k := p]);
    var m1 := mem[p := ZeroFrame()];
    var a, mid := k / 512, t.mids[k / 512];
    assert mid in t.mids.Values && m1[mid] == mem[mid];
    var m2 := SetEntry(m1, mid, k % 512, NodeEntry(p));
    NodePageSet(mem[mid], t.lows, a * 512, k % 512, p);
    assert a * 512 + k % 512 == k;
    forall v | v in t.ptes ensures LowKey(v) != k { }
    ZeroLeaf(t.ptes, k);
    forall b | b in t.mids && b != a ensures NodePage(mem[t.mids[b]], t'.lows, b * 512) {
      NodePageOther(mem[t.mids[b]], t.lows, b * 512, k, p);
    }
    hide NodePage, LeafPage, ZeroFrame;
    if TableOk(t') {
      forall b | b in t.mids ensures b < 512 && t.mids[b] in m2 && NodePage(m2[t.mids[b]], t'.lows, b * 512) {
        assert b != a ==> t.mids[b] in t.mids.Values && t.mids[b] != mid && m2[t.mids[b]] == mem[t.mids[b]];
      }
      forall j | j in t'.lows ensures j < 0x4_0000 && t'.lows[j] in m2 && LeafPage(m2[t'.lows[j]], t.ptes, j * 512) {
        assert j != k ==> t.lows[j] in t.lows.Values && m2[t.lows[j]] == mem[t.lows[j]];
      }
      assert m2[t.root] == mem[t.root];
    }
  }

  /** Storing a word in a low node changes one leaf. */
  lemma RepLeaf(mem: Memory, t: Table, v: nat, w: nat, ptes: map<nat, Pte>)
    requires Represents(mem, t) && LowKey(v) in t.lows && LeafWord(w, ptes, v)
    requires forall u :: u != v ==> (u in ptes <==> u in t.ptes) && (u in ptes ==> ptes[u] == t.ptes[u])
    ensures var low := t.lows[LowKey(v)];
            low in mem && |mem[low]| == 512 && Represents(SetEntry(mem, low, v % 512, w), t.(ptes := ptes))
  {
    var low := t.lows[LowKey(v)];
    var m2 := SetEntry(mem, low, v % 512, w);
    var t' := t.(ptes := ptes);
    assert LowKey(v) * 512 + v % 512 == v;
    assert low in t.lows.Values;
    forall k | k in t.lows ensures LeafPage(m2[t.lows[k]], ptes, k * 512) {
      forall i | 0 <= i < 512 ensures LeafWord(m2[t.lows[k]][i], ptes, k * 512 + i) {
        assert LeafWord(mem[t.lows[k]][i], t.ptes, k * 512 + i);
        assert k * 512 + i == v ==> k == LowKey(v) && i == v % 512;
        assert t.lows[k] == low ==> k == LowKey(v);
      }
    }
    hide NodePage, LeafPage;
    forall a | a in t.mids ensures t.mids[a] in m2 && m2[t.mids[a]] == mem[t.mids[a]] {
      assert t.mids[a] in t.mids.Values;
    }
    assert TableOk(t') by {
      forall u | u in ptes ensures LowKey(u) in t.lows { assert u == v || u in t.ptes; }
    }
  }

  // ---- reading ----

  lemma NodeAt(f: Frame, m: map<nat, nat>, base: nat, i: nat)
    requires NodePage(f, m, base) && i < 512
    ensures |f| == 512 && NodeWord(f[i], m, base + i)
  {
  }

  lemma LeafAt(f: Frame, ptes: map<nat, Pte>, base: nat, i: nat)
    requires LeafPage(f, ptes, base) && i < 512
    ensures |f| == 512 && LeafWord(f[i], ptes, base + i)
  {
  }

  lemma RootReads(mem: Memory, t: Table, va: nat)
    requires Represents(mem, t) && va < MAXVA
    ensures t.root in mem && |mem[t.root]| == 512 && NodeWord(mem[t.root][Px(2, va)], t.mids, MidKey(va / 4096))
  {
    hide NodePage, NodeWord, TableOk, LowsOk, MidsOk;
    PxKeys(va);
    NodeAt(mem[t.root], t.mids, 0, Px(2, va));
  }

  lemma MidReads(mem: Memory, t: Table, va: nat)
    requires Represents(mem, t) && va < MAXVA && MidKey(va / 4096) in t.mids
    ensures var p := t.mids[MidKey(va / 4096)];
            p in mem && |mem[p]| == 512 && NodeWord(mem[p][Px(1, va)], t.lows, LowKey(va / 4096))
  {
    hide NodePage, NodeWord, TableOk, LowsOk;
    PxKeys(va);
    var a: nat := MidKey(va / 4096);
    NodeAt(mem[t.mids[a]], t.lows, a * 512, Px(1, va));
  }

  lemma LowReads(mem: Memory, t: Table, va: nat)
    requires Represents(mem, t) && va < MAXVA && LowKey(va / 4096) in t.lows
    ensures var p := t.lows[LowKey(va / 4096)];
            p in mem && |mem[p]| == 512 && LeafWord(mem[p][Px(0, va)], t.ptes, va / 4096)
    ensures Px(0, va) == va / 4096 % 512
  {
    hide LeafPage, LeafWord, TableOk, MidsOk;
    PxKeys(va);
    var k: nat := LowKey(va / 4096);
    LeafAt(mem[t.lows[k]], t.ptes, k * 512, Px(0, va));
  }
}
