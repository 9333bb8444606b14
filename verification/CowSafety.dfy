/**
  Every memory operation keeps the counts exact, the images well formed and private pages
  private.
 */
module CowSafety {
  import opened Kalloc
  import opened Paging
  import opened Images
  import opened ProcTable
  import opened Cow

  // ---- leaves coming and going ----

  lemma SetLeaf(t: Table, v: nat, pte: Pte)
    requires UserInjective(t) && v < USER_TOP && pte.ppn !in UserPages(t)
    ensures UserInjective(SetPte(t, v, pte)) && Nodes(SetPte(t, v, pte)) == Nodes(t)
    ensures UserPages(SetPte(t, v, pte))
            == (if v in t.ptes then UserPages(t) - {t.ptes[v].ppn} else UserPages(t)) + {pte.ppn}
  {
    var t' := SetPte(t, v, pte);
    assert UserLeaf(t', v) && t'.ptes[v] == pte;
    forall w | UserLeaf(t, w) && w != v ensures t'.ptes[w] == t.ptes[w] && UserLeaf(t', w) && t.ptes[w].ppn != pte.ppn {
      assert t.ptes[w].ppn in UserPages(t);
    }
    forall p | p in UserPages(t') ensures p == pte.ppn || (p in UserPages(t) && (v in t.ptes ==> p != t.ptes[v].ppn)) {
      var w :| w in t'.ptes && w < USER_TOP && t'.ptes[w].ppn == p;
      if w != v { assert UserLeaf(t, w) && t'.ptes[w] == t.ptes[w]; }
    }
    forall p | p in UserPages(t) && (v in t.ptes ==> p != t.ptes[v].ppn) ensures p in UserPages(t') {
      var w :| w in t.ptes && w < USER_TOP && t.ptes[w].ppn == p;
      assert w != v && t'.ptes[w].ppn == p;
    }
  }

  lemma ClearLeaf(t: Table, v: nat)
    requires UserInjective(t) && UserLeaf(t, v)
    ensures UserInjective(ClearPte(t, v)) && Nodes(ClearPte(t, v)) == Nodes(t)
    ensures UserPages(ClearPte(t, v)) == UserPages(t) - {t.ptes[v].ppn}
  {
    var t' := ClearPte(t, v);
    forall p | p in UserPages(t') ensures p in UserPages(t) && p != t.ptes[v].ppn {
      var w :| w in t'.ptes && w < USER_TOP && t'.ptes[w].ppn == p;
      assert UserLeaf(t, w) && w != v;
    }
    forall p | p in UserPages(t) && p != t.ptes[v].ppn ensures p in UserPages(t') {
      var w :| w in t.ptes && w < USER_TOP && t.ptes[w].ppn == p;
      assert w in t'.ptes && t'.ptes[w].ppn == p;
    }
  }

  /** Heap and mapped file lie apart, above the stack, in the table's first half. */
  lemma Layout(img: Image, v: nat)
    requires img.Image? && ShapeOk(img)
    ensures HeapVpn(img, v) ==> STACK_VPN < v < MMAP_VPN
    ensures MmapVpn(img, v) ==> MMAP_VPN <= v < MMAP_VPN + 1024 < USER_TOP
  {
  }

  /** A leaf that may be set: its place in the image allows its permissions, and its node is there. */
  predicate LeafFits(img: Image, v: nat, pte: Pte)
    requires img.Image?
  {
    v < USER_TOP && v != CODE_VPN && v != STACK_VPN && PlaceOk(img, v, pte.perm) && LowKey(v) in img.t.lows
  }

  lemma SetLeafPrivate(img: Image, v: nat, pte: Pte)
    requires img.Image?
    ensures PrivatePages(img.(t := SetPte(img.t, v, pte))) <= PrivatePages(img) + {pte.ppn}
  {
    var t' := SetPte(img.t, v, pte);
    forall w | w in t'.ptes && w < USER_TOP && !Sharable(t', w)
      ensures t'.ptes[w].ppn in PrivatePages(img) + {pte.ppn} {
      if w != v { assert w in img.t.ptes && !Sharable(img.t, w); }
    }
  }

  /** The leaf at v is not the code or stack page. */
  lemma OtherLeaf(img: Image, v: nat)
    requires img.Image? && PagesApart(img) && UserLeaf(img.t, v) && v != CODE_VPN && v != STACK_VPN
    ensures img.t.ptes[v].ppn !in OwnPages(img) && img.t.ptes[v].ppn in UserPages(img.t)
    ensures img.t.ptes[v].ppn !in Nodes(img.t) && img.t.ptes[v].ppn !in KstackPages(img)
  {
    hide Nodes, UserInjective;
    assert img.t.ptes[v].ppn in UserPages(img.t);
  }

  /** Code and stack page stay out of the other leaves when a page of nobody's goes in at v. */
  lemma OwnPlacesKept(img: Image, t': Table, v: nat)
    requires img.Image? && PagesApart(img) && Nodes(t') == Nodes(img.t)
    requires forall w :: w in t'.ptes && w != v ==> w in img.t.ptes && t'.ptes[w] == img.t.ptes[w]
    requires v in t'.ptes ==> t'.ptes[v].ppn !in OwnPages(img)
    ensures forall w :: UserLeaf(t', w) && t'.ptes[w].ppn == img.code ==> w == CODE_VPN
    ensures forall w :: UserLeaf(t', w) && t'.ptes[w].ppn == img.stack ==> w == STACK_VPN
    ensures OwnPages(img) !! Nodes(t') && img.code != img.stack
  {
    hide Nodes, UserInjective, UserPages;
    forall w | UserLeaf(t', w) && w != v ensures UserLeaf(img.t, w) { }
  }

  lemma SetLeafApart(img: Image, v: nat, pte: Pte)
    requires img.Image? && PagesApart(img) && v < USER_TOP && v != CODE_VPN && v != STACK_VPN && pte.ppn !in Held(img)
    ensures var img' := img.(t := SetPte(img.t, v, pte));
            && PagesApart(img') && (v in img.t.ptes ==> img.t.ptes[v].ppn in Held(img))
            && Held(img') == (if v in img.t.ptes then Held(img) - {img.t.ptes[v].ppn} else Held(img)) + {pte.ppn}
  {
    hide UserPages, Nodes, UserInjective;
    if v in img.t.ptes { OtherLeaf(img, v); }
    SetLeaf(img.t, v, pte);
    OwnPlacesKept(img, SetPte(img.t, v, pte), v);
  }

  lemma SetLeafGood(img: Image, v: nat, pte: Pte)
    requires GoodImage(img) && img.Image? && LeafFits(img, v, pte) && pte.ppn !in Held(img)
    ensures var img' := img.(t := SetPte(img.t, v, pte));
            && GoodImage(img') && PrivatePages(img') <= PrivatePages(img) + {pte.ppn}
            && (v in img.t.ptes ==> img.t.ptes[v].ppn in Held(img))
            && Held(img') == (if v in img.t.ptes then Held(img) - {img.t.ptes[v].ppn} else Held(img)) + {pte.ppn}
  {
    hide PagesApart, PrivatePages, Held, TableOk;
    SetLeafPrivate(img, v, pte);
    SetLeafApart(img, v, pte);
    NewLeafOk(img.t, v, pte);
  }

  lemma ClearLeafPrivate(img: Image, v: nat)
    requires img.Image?
    ensures PrivatePages(img.(t := ClearPte(img.t, v))) <= PrivatePages(img)
  {
    var t' := ClearPte(img.t, v);
    forall w | w in t'.ptes && w < USER_TOP && !Sharable(t', w) ensures t'.ptes[w].ppn in PrivatePages(img) {
      assert w in img.t.ptes && !Sharable(img.t, w);
    }
  }

  lemma ClearLeafApart(img: Image, v: nat)
    requires img.Image? && PagesApart(img) && UserLeaf(img.t, v) && v != CODE_VPN && v != STACK_VPN
    ensures var img' := img.(t := ClearPte(img.t, v));
            && PagesApart(img') && img.t.ptes[v].ppn in Held(img) && Held(img') == Held(img) - {img.t.ptes[v].ppn}
  {
    hide UserPages, Nodes, UserInjective;
    OtherLeaf(img, v);
    ClearLeaf(img.t, v);
    OwnPlacesKept(img, ClearPte(img.t, v), v);
  }

  lemma ClearLeafGood(img: Image, v: nat)
    requires GoodImage(img) && img.Image? && UserLeaf(img.t, v) && v != CODE_VPN && v != STACK_VPN
    ensures var img' := img.(t := ClearPte(img.t, v));
            && GoodImage(img') && PrivatePages(img') <= PrivatePages(img)
            && img.t.ptes[v].ppn in Held(img) && Held(img') == Held(img) - {img.t.ptes[v].ppn}
  {
    hide PagesApart, PrivatePages, Held;
    ClearLeafPrivate(img, v);
    ClearLeafApart(img, v);
  }

  // ---- replacing one image ----

  lemma PrivateIsHeld(img: Image)
    ensures PrivatePages(img) <= Held(img)
  {
    if img.Image? {
      forall v | v in img.t.ptes && v < USER_TOP ensures img.t.ptes[v].ppn in UserPages(img.t) { }
    }
  }

  lemma ExclusiveReplace(procs: seq<Image>, i: nat, img: Image, fresh_: set<nat>)
    requires i < |procs| && Exclusive(procs)
    requires Held(img) <= Held(procs[i]) + fresh_ && PrivatePages(img) <= PrivatePages(procs[i]) + fresh_
    requires forall j :: 0 <= j < |procs| && j != i ==> fresh_ !! Held(procs[j])
    ensures Exclusive(procs[i := img])
  {
    var r := procs[i := img];
    forall a, b, p | 0 <= a < |r| && 0 <= b < |r| && a != b && p in PrivatePages(r[a]) ensures p !in Held(r[b]) {
      PrivateIsHeld(procs[a]);
      if a == i {
        assert r[b] == procs[b];
      } else {
        assert r[a] == procs[a];
        assert p !in Held(procs[b]);
      }
    }
  }

  /** Inv with some pages in flight. */
  ghost predicate InvWith(k: Kernel, loose: set<nat>) {
    && Acct(k.pool, k.first, k.procs, k.kern + loose)
    && KERN_FIRST < k.etext < RAM_END
    && (forall i :: 0 <= i < |k.procs| ==> GoodImage(k.procs[i]))
    && (forall i :: 0 <= i < |k.procs| ==> k.kern !! Held(k.procs[i]))
    && Exclusive(k.procs)
    && k.kern !! loose
  }

  lemma InvNone(k: Kernel)
    ensures Inv(k) <==> InvWith(k, {})
  {
    assert k.kern + {} == k.kern;
  }

  /** kalloc: one page nobody holds is in flight. */
  lemma TakeStep(k: Kernel, loose: set<nat>, contents: Frame)
    requires InvWith(k, loose) && k.pool.free != []
    ensures var p := k.pool.free[0];
            && InvWith(TakePage(k, contents), loose + {p})
            && p !in loose && p !in k.kern && (forall j :: 0 <= j < |k.procs| ==> p !in Held(k.procs[j]))
  {
    AllocAcct(k.pool, k.first, k.procs, k.kern + loose);
    assert k.kern + (loose + {k.pool.free[0]}) == (k.kern + loose) + {k.pool.free[0]};
  }

  lemma SetFrame(k: Kernel, k': Kernel, p: nat, f: Frame)
    requires k'.frames == k.frames[p := f]
    ensures FrameAt(k', p) == f && forall x :: x != p ==> FrameAt(k', x) == FrameAt(k, x)
  {
  }

  /** kalloc at the start of a system call: the page is in flight with the new contents, and all else is as before. */
  lemma TakeOne(k: Kernel, contents: Frame)
    requires Inv(k) && k.pool.free != []
    ensures var p, k1 := k.pool.free[0], TakePage(k, contents);
            && InvWith(k1, {p}) && k1.procs == k.procs && (forall j :: 0 <= j < |k.procs| ==> p !in Held(k.procs[j]))
            && FrameAt(k1, p) == contents && forall x :: x != p ==> FrameAt(k1, x) == FrameAt(k, x)
  {
    hide Inv, InvWith, Held, FrameAt, Taken;
    InvNone(k);
    TakeStep(k, {}, contents);
    assert {} + {k.pool.free[0]} == {k.pool.free[0]};
    SetFrame(k, TakePage(k, contents), k.pool.free[0], contents);
  }

  /** kfree of a page in flight; its contents survive exactly while somebody holds it. */
  lemma FreeStep(k: Kernel, loose: set<nat>, p: nat)
    requires InvWith(k, loose) && p in loose
    ensures InvWith(FreePage(k, p), loose - {p})
    ensures forall j, q :: 0 <= j < |k.procs| && q in Held(k.procs[j]) ==> FrameAt(FreePage(k, p), q) == FrameAt(k, q)
    ensures forall q :: q != p ==> FrameAt(FreePage(k, p), q) == FrameAt(k, q)
  {
    FreeAcct(k.pool, k.first, k.procs, k.kern + loose, p);
    assert k.kern + (loose - {p}) == (k.kern + loose) - {p};
  }

  /** Image i adopts the pages gain from the flight and puts the pages lose into it. */
  lemma AdoptStep(k: Kernel, loose: set<nat>, i: nat, img: Image, gain: set<nat>, lose: set<nat>)
    requires InvWith(k, loose) && i < |k.procs| && GoodImage(img)
    requires gain <= loose && lose <= Held(k.procs[i]) && lose !! loose
    requires forall j :: 0 <= j < |k.procs| ==> gain !! Held(k.procs[j])
    requires Held(img) == Held(k.procs[i]) - lose + gain && PrivatePages(img) <= PrivatePages(k.procs[i]) + gain
    ensures InvWith(k.(procs := k.procs[i := img]), loose - gain + lose)
  {
    hide GoodImage, Held, PrivatePages, Exclusive;
    var now := Held(k.procs[i]);
    assert gain !! now;
    forall p ensures One(p in Held(img)) + One(p in k.kern + (loose - gain + lose))
      == One(p in now) + One(p in k.kern + loose) {
    }
    MoveAcct(k.pool, k.first, k.procs, k.kern + loose, i, img, k.kern + (loose - gain + lose));
    ExclusiveReplace(k.procs, i, img, gain);
  }

  // ---- faults ----

  /** A copy-on-write leaf is a heap leaf. */
  lemma CowIsHeap(img: Image, v: nat)
    requires GoodImage(img) && img.Image? && v in img.t.ptes && img.t.ptes[v].perm.cow
    ensures HeapVpn(img, v) && UserLeaf(img.t, v) && HeapPerm(img.t.ptes[v].perm)
  {
    assert PlaceOk(img, v, img.t.ptes[v].perm);
  }

  /** A heap leaf that is there may be replaced: its node is there too. */
  lemma HeapFits(img: Image, v: nat, pte: Pte)
    requires GoodImage(img) && img.Image? && HeapVpn(img, v) && v in img.t.ptes && HeapPerm(pte.perm)
    ensures LeafFits(img, v, pte)
  {
    Layout(img, v);
  }

  /** A heap leaf moves to a page in flight, and its old page is given back. */
  lemma ReplaceLeaf(k: Kernel, i: nat, v: nat, pte: Pte)
    requires InvWith(k, {pte.ppn}) && Live(k, i) && GoodImage(k.procs[i]) && HeapVpn(k.procs[i], v)
             && HeapPerm(pte.perm)
    requires v in k.procs[i].t.ptes && forall j :: 0 <= j < |k.procs| ==> pte.ppn !in Held(k.procs[j])
    ensures var q := k.procs[i].t.ptes[v].ppn;
            var k2 := WithTable(k, i, SetPte(k.procs[i].t, v, pte));
            var r := FreePage(k2, q);
            && InvWith(r, {}) && pte.ppn in Held(r.procs[i])
            && forall j, x :: 0 <= j < |k.procs| && x in Held(r.procs[j]) ==> FrameAt(r, x) == FrameAt(k, x)
  {
    hide InvWith, GoodImage, Held, PrivatePages, LeafFits, Freed, Ref;
    var img := k.procs[i];
    var q := img.t.ptes[v].ppn;
    var img' := img.(t := SetPte(img.t, v, pte));
    HeapFits(img, v, pte);
    SetLeafGood(img, v, pte);
    AdoptStep(k, {pte.ppn}, i, img', {pte.ppn}, {q});
    assert {q} - {q} == {} && {pte.ppn} - {pte.ppn} + {q} == {q};
    FreeStep(WithTable(k, i, img'.t), {q}, q);
  }

  lemma InvImage(k: Kernel, i: nat)
    requires Inv(k) && i < |k.procs|
    ensures GoodImage(k.procs[i])
  {
  }

  predicate CowHandles(k: Kernel, i: nat, v: nat)
    requires Live(k, i)
  {
    v in k.procs[i].t.ptes && k.procs[i].t.ptes[v].perm.cow && k.pool.free != []
  }

  function CowCopy(k: Kernel, i: nat, v: nat): Pte
    requires Live(k, i) && CowHandles(k, i, v)
  {
    Pte(k.pool.free[0], k.procs[i].t.ptes[v].perm.(cow := false, w := true))
  }

  /**
    A copy-on-write fault that is handled: page v of image i is a fresh writable page with
    the old contents, and every other page anybody holds is as before.
   */
  lemma CowFaultEffect(k: Kernel, i: nat, v: nat)
    requires Inv(k) && Live(k, i) && CowHandles(k, i, v)
    ensures var o, p := CowFault(k, i, v), k.pool.free[0];
            && Inv(o.k) && o.handled && HeapVpn(k.procs[i], v)
            && o.k.procs == k.procs[i := k.procs[i].(t := SetPte(k.procs[i].t, v, CowCopy(k, i, v)))]
            && (forall j :: 0 <= j < |k.procs| ==> p !in Held(k.procs[j]))
            && FrameAt(o.k, p) == FrameAt(k, k.procs[i].t.ptes[v].ppn)
            && forall j, x :: 0 <= j < |k.procs| && x in Held(o.k.procs[j]) && x != p ==>
              FrameAt(o.k, x) == FrameAt(k, x)
  {
    hide Inv, InvWith, GoodImage, Held, Freed, Taken, Ref;
    var q, p := k.procs[i].t.ptes[v].ppn, k.pool.free[0];
    var k1 := TakePage(k, FrameAt(k, q));
    InvImage(k, i);
    CowIsHeap(k.procs[i], v);
    InvNone(k);
    TakeStep(k, {}, FrameAt(k, q));
    assert {} + {p} == {p};
    ReplaceLeaf(k1, i, v, CowCopy(k, i, v));
    InvNone(CowFault(k, i, v).k);
  }

  lemma CowFaultInv(k: Kernel, i: nat, v: nat)
    requires Inv(k) && Live(k, i)
    ensures var o := CowFault(k, i, v); Inv(o.k) && (o.handled <==> CowHandles(k, i, v)) && (!o.handled ==> o.k == k)
  {
    if CowHandles(k, i, v) {
      CowFaultEffect(k, i, v);
    }
  }

  /** Nodes hung into an image's tree were nobody's pages; the image stays well formed and holds them. */
  lemma GrowImage(img: Image, t': Table)
    requires GoodImage(img) && img.Image? && TableOk(t') && t'.ptes == img.t.ptes
    requires img.t.mids.Keys <= t'.mids.Keys && img.t.lows.Keys <= t'.lows.Keys
    requires Nodes(img.t) <= Nodes(t') && (Nodes(t') - Nodes(img.t)) !! Held(img)
    ensures var img' := img.(t := t');
            && GoodImage(img') && Held(img') == Held(img) + (Nodes(t') - Nodes(img.t))
            && PrivatePages(img') <= PrivatePages(img) + (Nodes(t') - Nodes(img.t))
  {
    hide Nodes, TableOk;
    assert UserPages(t') == UserPages(img.t);
    forall v | v in t'.ptes && v < USER_TOP && !Sharable(t', v) ensures t'.ptes[v].ppn in PrivatePages(img) {
      assert v in img.t.ptes && !Sharable(img.t, v);
    }
  }

  /** Image i adopts pages from the flight. */
  lemma GainStep(k: Kernel, loose: set<nat>, i: nat, img: Image, more: set<nat>)
    requires InvWith(k, loose + more) && i < |k.procs| && GoodImage(img) && more !! loose
    requires forall j :: 0 <= j < |k.procs| ==> more !! Held(k.procs[j])
    requires Held(img) == Held(k.procs[i]) + more && PrivatePages(img) <= PrivatePages(k.procs[i]) + more
    ensures InvWith(k.(procs := k.procs[i := img]), loose)
  {
    hide InvWith, GoodImage, PrivatePages;
    assert Held(k.procs[i]) - {} + more == Held(k.procs[i]) + more;
    AdoptStep(k, loose + more, i, img, more, {});
    assert loose + more - more + {} == loose;
  }

  /** walk's new nodes are in flight, and nobody held them. */
  lemma WalkFlight(k: Kernel, loose: set<nat>, i: nat, v: nat)
    requires InvWith(k, loose) && Live(k, i)
    ensures var t := k.procs[i].t;
            var g := Walk(t, k.pool, v);
            var more := Nodes(g.t) - Nodes(t);
            && InvWith(k.(pool := g.pool), loose + more) && more !! loose
            && (forall j :: 0 <= j < |k.procs| ==> more !! Held(k.procs[j]))
            && TableOk(g.t) && g.t.ptes == t.ptes && Nodes(t) <= Nodes(g.t)
            && t.mids.Keys <= g.t.mids.Keys && t.lows.Keys <= g.t.lows.Keys
  {
    var t := k.procs[i].t;
    var g := Walk(t, k.pool, v);
    assert NodesKnown(t, k.procs, k.kern + loose) by {
      forall p | p in Nodes(t) ensures p in Held(k.procs[i]) { }
    }
    assert GoodImage(k.procs[i]);
    hide Walk, Nodes, TableOk;
    WalkExtends(t, k.pool, v, k.first, k.procs, k.kern + loose);
    assert k.kern + (loose + (Nodes(g.t) - Nodes(t))) == (k.kern + loose) + (Nodes(g.t) - Nodes(t));
  }

  /** walk on image i's table: whatever nodes it took are the image's own afterwards, even when it fails. */
  lemma WalkStep(k: Kernel, loose: set<nat>, i: nat, v: nat)
    requires InvWith(k, loose) && Live(k, i)
    ensures var g := Walk(k.procs[i].t, k.pool, v);
            var img' := k.procs[i].(t := g.t);
            && InvWith(WithTable(k.(pool := g.pool), i, g.t), loose)
            && GoodImage(img') && g.t.ptes == k.procs[i].t.ptes
            && (forall p :: p in loose && p !in Held(k.procs[i]) ==> p !in Held(img'))
  {
    var img := k.procs[i];
    assert GoodImage(img);
    hide InvWith, Walk, Nodes, PrivatePages, GoodImage, TableOk, Held;
    var g := Walk(img.t, k.pool, v);
    WalkFlight(k, loose, i, v);
    GrowImage(img, g.t);
    GainStep(k.(pool := g.pool), loose, i, img.(t := g.t), Nodes(g.t) - Nodes(img.t));
  }

  /** A page in flight goes into image i at v. */
  lemma MapStep(k: Kernel, i: nat, v: nat, pte: Pte)
    requires InvWith(k, {pte.ppn}) && Live(k, i) && GoodImage(k.procs[i]) && LeafFits(k.procs[i], v, pte)
             && v !in k.procs[i].t.ptes
    requires forall j :: 0 <= j < |k.procs| ==> pte.ppn !in Held(k.procs[j])
    ensures InvWith(WithTable(k, i, SetPte(k.procs[i].t, v, pte)), {})
  {
    hide InvWith, GoodImage, Held, PrivatePages, LeafFits;
    var img := k.procs[i];
    SetLeafGood(img, v, pte);
    assert {} + {pte.ppn} == {pte.ppn};
    GainStep(k, {}, i, img.(t := SetPte(img.t, v, pte)), {pte.ppn});
  }

  /** Both demand branches of proc_pagefault, handled or not: no page anybody held changes. */
  lemma DemandPageInv(k: Kernel, i: nat, v: nat, contents: Frame, perm: Perm)
    requires Inv(k) && Live(k, i) && v < USER_TOP && v != CODE_VPN && v != STACK_VPN && PlaceOk(k.procs[i], v, perm)
    ensures var t, o := k.procs[i].t, DemandPage(k, i, v, contents, perm);
            && Inv(o.k) && Live(o.k, i) && o.k.procs == k.procs[i := k.procs[i].(t := o.k.procs[i].t)]
            && (forall j, x :: 0 <= j < |k.procs| && x in Held(k.procs[j]) ==> FrameAt(o.k, x) == FrameAt(k, x))
            && (!o.handled ==> o.k.procs[i].t.ptes == t.ptes)
            && (o.handled ==>
                  && k.pool.free != [] && v !in t.ptes
                  && o.k.procs[i].t.ptes == t.ptes[v := Pte(k.pool.free[0], perm)]
                  && FrameAt(o.k, k.pool.free[0]) == contents)
  {
    hide Inv, InvWith, GoodImage, Held, Walk, Taken, Freed, Ref;
    if k.pool.free != [] {
      var p := k.pool.free[0];
      var k1 := TakePage(k, contents);
      InvNone(k);
      TakeStep(k, {}, contents);
      assert {} + {p} == {p} && {p} - {p} == {};
      WalkStep(k1, {p}, i, v);
      var g := Walk(k1.procs[i].t, k1.pool, v);
      var k2 := WithTable(k1.(pool := g.pool), i, g.t);
      var r := DemandPage(k, i, v, contents, perm).k;
      if g.ok && v !in g.t.ptes {
        WalkReaches(k1.procs[i].t, k1.pool, v);
        MapStep(k2, i, v, Pte(p, perm));
        assert r == WithTable(k2, i, SetPte(g.t, v, Pte(p, perm)));
      } else {
        FreeStep(k2, {p}, p);
        assert r == FreePage(k2, p);
      }
      InvNone(r);
    } else {
      assert k.procs[i := k.procs[i].(t := k.procs[i].t)] == k.procs;
    }
  }

  /** A page fault, whichever branch takes it and whether or not memory runs out, keeps the invariant. */
  lemma PageFaultInv(k: Kernel, i: nat, v: nat, store: bool, contents: Frame)
    requires Inv(k) && Live(k, i)
    ensures Inv(PageFault(k, i, v, store, contents).k)
  {
    assert GoodImage(k.procs[i]);
    Layout(k.procs[i], v);
    hide Inv, CowFault, DemandPage, GoodImage;
    CowFaultInv(k, i, v);
    if HeapVpn(k.procs[i], v) {
      DemandPageInv(k, i, v, ZeroFrame(), RWU);
    } else if MmapVpn(k.procs[i], v) {
      DemandPageInv(k, i, v, contents, RU);
    }
  }

  // ---- reclamation ----

  /** Images only let pages go, and every page still held or in flight keeps its contents. */
  ghost predicate Shrinks(k: Kernel, r: Kernel, loose: set<nat>) {
    && (forall p :: p in loose ==> FrameAt(r, p) == FrameAt(k, p))
    && |r.procs| == |k.procs|
    && (forall j :: 0 <= j < |k.procs| ==> Held(r.procs[j]) <= Held(k.procs[j]))
    && (forall j, p :: 0 <= j < |k.procs| && p in Held(r.procs[j]) ==> FrameAt(r, p) == FrameAt(k, p))
  }

  /** Image i lets go of one page, which is given back at once. */
  lemma DropStep(k: Kernel, loose: set<nat>, i: nat, img: Image, q: nat)
    requires InvWith(k, loose) && i < |k.procs| && GoodImage(img) && q in Held(k.procs[i]) && q !in loose
    requires Held(img) == Held(k.procs[i]) - {q} && PrivatePages(img) <= PrivatePages(k.procs[i])
    ensures InvWith(FreePage(k.(procs := k.procs[i := img]), q), loose)
    ensures Shrinks(k, FreePage(k.(procs := k.procs[i := img]), q), loose)
  {
    hide InvWith, GoodImage, Held, PrivatePages;
    AdoptStep(k, loose, i, img, {}, {q});
    assert loose - {} + {q} == loose + {q} && loose + {q} - {q} == loose;
    FreeStep(k.(procs := k.procs[i := img]), loose + {q}, q);
  }

  lemma FreeLeafInv(k: Kernel, loose: set<nat>, i: nat, v: nat)
    requires InvWith(k, loose) && Live(k, i) && STACK_VPN < v < USER_TOP && loose !! Held(k.procs[i])
    ensures var r := FreeLeaf(k, i, v);
            && InvWith(r, loose) && Held(r.procs[i]) <= Held(k.procs[i]) && Shrinks(k, r, loose)
            && r.procs == k.procs[i := k.procs[i].(t := k.procs[i].t.(ptes := k.procs[i].t.ptes - {v}))]
  {
    var img := k.procs[i];
    assert GoodImage(img);
    hide InvWith, GoodImage, Held, PrivatePages, Freed, Ref;
    if v in img.t.ptes {
      var q := img.t.ptes[v].ppn;
      var img' := img.(t := ClearPte(img.t, v));
      ClearLeafGood(img, v);
      DropStep(k, loose, i, img', q);
    } else {
      assert img.t.ptes - {v} == img.t.ptes;
      assert k.procs[i := img] == k.procs;
    }
  }

  /** vm_free_range gives back exactly the leaves in the range. */
  lemma {:induction false} FreeRangeInv(k: Kernel, loose: set<nat>, i: nat, v: nat, end: nat)
    requires InvWith(k, loose) && Live(k, i) && STACK_VPN < v && end <= USER_TOP && loose !! Held(k.procs[i])
    ensures var r := FreeRange(k, i, v, end);
            && InvWith(r, loose) && Held(r.procs[i]) <= Held(k.procs[i]) && Shrinks(k, r, loose)
            && r.procs == k.procs[i := k.procs[i].(t := r.procs[i].t)]
            && r.procs[i].t == k.procs[i].t.(ptes := r.procs[i].t.ptes)
            && (forall w :: w in r.procs[i].t.ptes <==> w in k.procs[i].t.ptes && !(v <= w < end))
            && (forall w :: w in r.procs[i].t.ptes ==> r.procs[i].t.ptes[w] == k.procs[i].t.ptes[w])
    decreases end - v
  {
    hide InvWith, GoodImage, Held, FreeLeaf, FrameAt;
    if v < end {
      FreeLeafInv(k, loose, i, v);
      FreeRangeInv(FreeLeaf(k, i, v), loose, i, v + 1, end);
    }
  }

  /** Changing bookkeeping fields of an image, with the same pages, moves nothing. */
  lemma RelabelStep(k: Kernel, loose: set<nat>, i: nat, img: Image)
    requires InvWith(k, loose) && i < |k.procs| && GoodImage(img)
    requires Held(img) == Held(k.procs[i]) && PrivatePages(img) <= PrivatePages(k.procs[i])
    ensures InvWith(k.(procs := k.procs[i := img]), loose)
  {
    hide InvWith, GoodImage, Held, PrivatePages;
    assert Held(k.procs[i]) - {} + {} == Held(k.procs[i]) && loose - {} + {} == loose;
    AdoptStep(k, loose, i, img, {}, {});
  }

  ghost predicate NoMapLeaf(img: Image)
    requires img.Image?
  {
    forall v :: MmapVpn(img, v) ==> v !in img.t.ptes
  }

  lemma RegionEnds(img: Image)
    requires GoodImage(img) && img.Image?
    ensures PageEnd(img.heapTop) <= MMAP_VPN
    ensures img.mapped.MapOf? ==> MMAP_VPN + PageEnd(img.mapped.size) <= USER_TOP
  {
  }

  lemma FreeHeapInv(k: Kernel, loose: set<nat>, i: nat)
    requires InvWith(k, loose) && Live(k, i) && loose !! Held(k.procs[i])
    ensures var r := FreeHeap(k, i);
            && InvWith(r, loose) && Live(r, i) && Held(r.procs[i]) <= Held(k.procs[i]) && Shrinks(k, r, loose)
            && r.procs == k.procs[i := k.procs[i].(t := k.procs[i].t.(ptes := r.procs[i].t.ptes))]
            && NoHeapLeaf(r.procs[i])
            && (forall w :: w in r.procs[i].t.ptes ==>
              w in k.procs[i].t.ptes && r.procs[i].t.ptes[w] == k.procs[i].t.ptes[w])
            && (forall w :: w in k.procs[i].t.ptes && !HeapVpn(k.procs[i], w) ==> w in r.procs[i].t.ptes)
  {
    hide InvWith, Held, GoodImage, FrameAt, Cow.FreeRange;
    ImageIsGood(k, loose, i);
    RegionEnds(k.procs[i]);
    FreeRangeInv(k, loose, i, HEAP_VPN, PageEnd(k.procs[i].heapTop));
  }

  lemma FreeMapInv(k: Kernel, loose: set<nat>, i: nat)
    requires InvWith(k, loose) && Live(k, i) && loose !! Held(k.procs[i])
    ensures var r := FreeMap(k, i);
            && InvWith(r, loose) && Live(r, i) && Held(r.procs[i]) <= Held(k.procs[i]) && Shrinks(k, r, loose)
            && r.procs == k.procs[i := k.procs[i].(t := k.procs[i].t.(ptes := r.procs[i].t.ptes))]
            && NoMapLeaf(r.procs[i])
            && (forall w :: w in r.procs[i].t.ptes ==>
              w in k.procs[i].t.ptes && r.procs[i].t.ptes[w] == k.procs[i].t.ptes[w])
            && (forall w :: w in k.procs[i].t.ptes && !MmapVpn(k.procs[i], w) ==> w in r.procs[i].t.ptes)
  {
    hide InvWith, Held, GoodImage, FrameAt, Cow.FreeRange, TableOk;
    ImageIsGood(k, loose, i);
    RegionEnds(k.procs[i]);
    if k.procs[i].mapped.MapOf? {
      FreeRangeInv(k, loose, i, MMAP_VPN, MMAP_VPN + PageEnd(k.procs[i].mapped.size));
    } else {
      assert k.procs[i := k.procs[i]] == k.procs;
    }
  }

  /** A list of distinct pages in flight is given back, each exactly once. */
  lemma {:induction false} FreeAllInv(k: Kernel, loose: set<nat>, ps: seq<nat>)
    requires InvWith(k, loose) && NoDup(ps) && SetOf(ps) <= loose
    ensures InvWith(FreeAll(k, ps), loose - SetOf(ps)) && FreeAll(k, ps).procs == k.procs
    ensures forall j, q :: 0 <= j < |k.procs| && q in Held(k.procs[j]) ==> FrameAt(FreeAll(k, ps), q) == FrameAt(k, q)
    decreases |ps|
  {
    hide InvWith, Held, FreePage, FrameAt;
    if ps == [] {
      assert loose - SetOf(ps) == loose;
    } else {
      assert ps[0] in ps;
      FreeStep(k, loose, ps[0]);
      FreePageProcs(k, ps[0]);
      forall x | x in ps[1..] ensures x != ps[0] { }
      FreeAllInv(FreePage(k, ps[0]), loose - {ps[0]}, ps[1..]);
      assert ps == [ps[0]] + ps[1..];
      assert loose - SetOf(ps) == (loose - {ps[0]}) - SetOf(ps[1..]);
    }
  }

  lemma FreePageProcs(k: Kernel, p: nat)
    ensures FreePage(k, p).procs == k.procs && FreePage(k, p).kern == k.kern
  {
  }

  /** Once heap and mapped pages are gone, code, stack, kernel stack and nodes are all an image holds. */
  lemma LastPagesAreAll(img: Image, order: seq<nat>)
    requires GoodImage(img) && img.Image? && NoHeapLeaf(img) && NoMapLeaf(img)
    requires NoDup(order) && SetOf(order) == Nodes(img.t)
    ensures NoDup(LastPages(img, order)) && SetOf(LastPages(img, order)) == Held(img)
  {
    hide Nodes;
    OnlyOwnLeaves(img);
    hide UserPages, ShapeOk, LeavesOk, UserInjective;
    var head := [img.code, img.stack] + (if img.kstack.SomePage? then [img.kstack.page] else []);
    assert LastPages(img, order) == head + order;
    forall x | x in order ensures x !in head { assert x in SetOf(order); }
    assert NoDup(head);
    assert SetOf(head) == OwnPages(img) + KstackPages(img);
    SetOfConcat(head, order);
  }

  lemma SetOfConcat(a: seq<nat>, b: seq<nat>)
    ensures SetOf(a + b) == SetOf(a) + SetOf(b)
  {
    assert forall x :: x in a + b <==> x in a || x in b;
  }

  lemma OnlyOwnLeaves(img: Image)
    requires GoodImage(img) && img.Image? && NoHeapLeaf(img) && NoMapLeaf(img)
    ensures UserPages(img.t) <= OwnPages(img)
  {
    hide Nodes, TableOk, UserInjective;
    forall v | v in img.t.ptes && v < USER_TOP ensures img.t.ptes[v].ppn in OwnPages(img) {
      assert v == CODE_VPN || v == STACK_VPN || PlaceOk(img, v, img.t.ptes[v].perm);
    }
  }

  /** Dropping the whole image puts everything it held into flight. */
  lemma DropImage(k: Kernel, i: nat)
    requires InvWith(k, {}) && i < |k.procs|
    ensures InvWith(k.(procs := k.procs[i := NoImage]), Held(k.procs[i]))
  {
    hide InvWith;
    assert Held(k.procs[i]) - Held(k.procs[i]) + {} == Held(NoImage);
    assert {} - {} + Held(k.procs[i]) == Held(k.procs[i]);
    AdoptStep(k, {}, i, NoImage, {}, Held(k.procs[i]));
  }

  /** The two range frees at the start of proc_freeimage. */
  lemma FreeRegions(k: Kernel, i: nat)
    requires InvWith(k, {}) && Live(k, i)
    ensures var b := FreeMap(FreeHeap(k, i), i);
            && InvWith(b, {}) && Live(b, i) && Shrinks(k, b, {}) && GoodImage(b.procs[i])
            && b.procs == k.procs[i := b.procs[i]] && Nodes(b.procs[i].t) == Nodes(k.procs[i].t)
            && NoHeapLeaf(b.procs[i]) && NoMapLeaf(b.procs[i])
  {
    hide InvWith, Held, FrameAt;
    FreeHeapInv(k, {}, i);
    FreeMapInv(FreeHeap(k, i), {}, i);
    ImageIsGood(FreeMap(FreeHeap(k, i), i), {}, i);
  }

  lemma ImageIsGood(k: Kernel, loose: set<nat>, i: nat)
    requires InvWith(k, loose) && i < |k.procs|
    ensures GoodImage(k.procs[i])
  {
  }

  /** The rest of proc_freeimage: code, stack, kernel stack and nodes. */
  function FreeLast(k: Kernel, i: nat, order: seq<nat>): Kernel
    requires Live(k, i)
  {
    FreeAll(k.(procs := k.procs[i := NoImage]), LastPages(k.procs[i], order))
  }

  lemma FreeLastInv(b: Kernel, i: nat, order: seq<nat>)
    requires InvWith(b, {}) && Live(b, i) && NoHeapLeaf(b.procs[i]) && NoMapLeaf(b.procs[i])
    requires NoDup(order) && SetOf(order) == Nodes(b.procs[i].t)
    ensures var r := FreeLast(b, i, order);
            InvWith(r, {}) && r.procs == b.procs[i := NoImage] && Shrinks(b, r, {})
  {
    hide InvWith, GoodImage, Nodes, FrameAt, NoHeapLeaf, NoMapLeaf, LastPages, FreeAll;
    var img := b.procs[i];
    ImageIsGood(b, {}, i);
    LastPagesAreAll(img, order);
    DropImage(b, i);
    var c := b.(procs := b.procs[i := NoImage]);
    var ps := LastPages(img, order);
    FreeAllInv(c, Held(img), ps);
    assert Held(img) - SetOf(ps) == {};
    FrameFields(b, c);
  }

  lemma FreeWholeInv(k: Kernel, i: nat, order: seq<nat>)
    requires Inv(k) && Live(k, i) && NoDup(order) && SetOf(order) == Nodes(k.procs[i].t)
    ensures Inv(FreeWhole(k, i, order)) && FreeWhole(k, i, order).procs == k.procs[i := NoImage]
    ensures Shrinks(k, FreeWhole(k, i, order), {})
  {
    hide Inv, InvWith, GoodImage, FreeHeap, FreeMap, Nodes, FrameAt, NoHeapLeaf, NoMapLeaf, FreeAll, LastPages, Held;
    InvNone(k);
    FreeRegions(k, i);
    var b := FreeMap(FreeHeap(k, i), i);
    FreeLastInv(b, i, order);
    assert FreeWhole(k, i, order) == FreeLast(b, i, order);
    InvNone(FreeWhole(k, i, order));
  }

  lemma HalfPagesAreAll(img: Image)
    requires GoodImage(img) && img.Tableless?
    ensures NoDup(HalfPages(img)) && SetOf(HalfPages(img)) == Held(img)
  {
    assert forall x :: x in HalfPages(img) <==> x in Held(img);
  }

  lemma FreeHalfInv(k: Kernel, i: nat)
    requires Inv(k) && i < |k.procs| && k.procs[i].Tableless?
    ensures var r := FreeImage(k, i, []);
            Inv(r) && r.procs == k.procs[i := NoImage] && Shrinks(k, r, {})
  {
    hide Inv, InvWith, GoodImage, Held, FrameAt, FreeAll, HalfPages;
    var img := k.procs[i];
    InvNone(k);
    ImageIsGood(k, {}, i);
    HalfPagesAreAll(img);
    DropImage(k, i);
    var c := k.(procs := k.procs[i := NoImage]);
    FreeAllInv(c, Held(img), HalfPages(img));
    assert Held(img) - SetOf(HalfPages(img)) == {};
    FrameFields(k, c);
    assert Held(NoImage) <= Held(img) by { NothingHeld(); }
    InvNone(FreeImage(k, i, []));
  }

  lemma NothingHeld()
    ensures Held(NoImage) == {}
  {
  }

  /** The image in slot i with the list of its nodes, as freewalk meets them. */
  ghost predicate Reapable(k: Kernel, i: nat, order: seq<nat>) {
    && Occupied(k, i) && (k.procs[i].Tableless? ==> order == [])
    && (k.procs[i].Image? ==> NoDup(order) && SetOf(order) == Nodes(k.procs[i].t))
  }

  /** proc_freeimage returns every page the image held, each once, and nothing else. */
  lemma FreeImageInv(k: Kernel, i: nat, order: seq<nat>)
    requires Inv(k) && Reapable(k, i, order)
    ensures Inv(FreeImage(k, i, order)) && FreeImage(k, i, order).procs == k.procs[i := NoImage]
    ensures Shrinks(k, FreeImage(k, i, order), {})
  {
    hide Inv, FreeWhole, FreeAll, Shrinks, Nodes;
    if k.procs[i].Tableless? {
      FreeHalfInv(k, i);
    } else {
      FreeWholeInv(k, i, order);
    }
  }

  lemma FrameFields(a: Kernel, b: Kernel)
    requires a.frames == b.frames
    ensures forall p :: FrameAt(a, p) == FrameAt(b, p)
  {
  }

  // ---- exec ----

  lemma NewCodePages(img: Image, p: nat)
    requires GoodImage(img) && Runs(img) && p !in Held(img)
    ensures var t' := SetPte(img.t, CODE_VPN, Pte(p, RXU));
            && UserInjective(t') && Nodes(t') == Nodes(img.t) && UserPages(t') == UserPages(img.t) - {img.code} + {p}
            && img.stack in UserPages(img.t) && img.code in UserPages(img.t)
  {
    assert UserLeaf(img.t, CODE_VPN) && UserLeaf(img.t, STACK_VPN);
    assert img.t.ptes[CODE_VPN].ppn == img.code && img.t.ptes[STACK_VPN].ppn == img.stack;
    assert img.stack in UserPages(img.t) && img.code in UserPages(img.t);
    hide ShapeOk, LeavesOk;
    SetLeaf(img.t, CODE_VPN, Pte(p, RXU));
  }

  lemma NewCodeHeld(img: Image, p: nat)
    requires GoodImage(img) && Runs(img) && p !in Held(img)
    ensures var img' := img.(mapped := NoMap, code := p, t := SetPte(img.t, CODE_VPN, Pte(p, RXU)));
            && img.code in Held(img) && Held(img') == Held(img) - {img.code} + {p}
  {
    NewCodePages(img, p);
    hide ShapeOk, LeavesOk, UserPages, Nodes, UserInjective;
  }

  lemma NewCodePrivate(img: Image, p: nat)
    requires img.Image?
    ensures PrivatePages(img.(mapped := NoMap, code := p,
            t := SetPte(img.t, CODE_VPN, Pte(p, RXU)))) <= PrivatePages(img) + {p}
  {
    SetLeafPrivate(img, CODE_VPN, Pte(p, RXU));
    hide Nodes;
  }

  /** With the new code page in, code and stack page still have only their own places. */
  lemma NewCodePlaces(img: Image, p: nat)
    requires GoodImage(img) && Runs(img) && p !in Held(img)
    ensures var t' := SetPte(img.t, CODE_VPN, Pte(p, RXU));
            && (forall w :: UserLeaf(t', w) && t'.ptes[w].ppn == p ==> w == CODE_VPN)
            && (forall w :: UserLeaf(t', w) && t'.ptes[w].ppn == img.stack ==> w == STACK_VPN)
  {
    hide ShapeOk, LeavesOk, UserPages, Nodes, UserInjective;
    var t' := SetPte(img.t, CODE_VPN, Pte(p, RXU));
    forall w | UserLeaf(t', w) && w != CODE_VPN
      ensures t'.ptes[w].ppn != p && (t'.ptes[w].ppn == img.stack ==> w == STACK_VPN) {
      assert UserLeaf(img.t, w);
      LeafIn(img.t, w);
    }
  }

  lemma NewCodeApart(img: Image, p: nat)
    requires GoodImage(img) && Runs(img) && p !in Held(img)
    ensures PagesApart(img.(mapped := NoMap, code := p, t := SetPte(img.t, CODE_VPN, Pte(p, RXU))))
  {
    hide ShapeOk, LeavesOk, UserPages, Nodes, UserInjective;
    NewCodePages(img, p);
    NewCodePlaces(img, p);
    var img' := img.(mapped := NoMap, code := p, t := SetPte(img.t, CODE_VPN, Pte(p, RXU)));
    assert KstackPages(img') == KstackPages(img);
  }

  lemma LeafIn(t: Table, v: nat)
    requires UserLeaf(t, v)
    ensures t.ptes[v].ppn in UserPages(t)
  {
  }

  /** The code page may be swapped for a page nobody holds once the old program's mappings are gone. */
  lemma NewCodeGood(img: Image, p: nat)
    requires GoodImage(img) && Runs(img) && NoMapLeaf(img) && p !in Held(img)
    ensures var img' := img.(mapped := NoMap, code := p, t := SetPte(img.t, CODE_VPN, Pte(p, RXU)));
            && GoodImage(img') && PrivatePages(img') <= PrivatePages(img) + {p}
            && img.code in Held(img) && Held(img') == Held(img) - {img.code} + {p}
  {
    hide PagesApart, UserPages, Nodes, Held, PrivatePages, TableOk;
    var pte := Pte(p, RXU);
    var img' := img.(mapped := NoMap, code := p, t := SetPte(img.t, CODE_VPN, pte));
    NewCodeApart(img, p);
    NewCodeHeld(img, p);
    NewCodePrivate(img, p);
    LeafNode(img.t, CODE_VPN);
    NewLeafOk(img.t, CODE_VPN, pte);
    forall v | v in img'.t.ptes && v != CODE_VPN && v != STACK_VPN ensures PlaceOk(img', v, img'.t.ptes[v].perm) {
      assert PlaceOk(img, v, img.t.ptes[v].perm);
    }
  }

  /** A leaf hangs in a node. */
  lemma LeafNode(t: Table, v: nat)
    requires TableOk(t) && v in t.ptes
    ensures LowKey(v) in t.lows && LowKey(v) / 512 in t.mids
  {
  }

  lemma NewLeafOk(t: Table, v: nat, pte: Pte)
    requires TableOk(t) && LowKey(v) in t.lows
    ensures TableOk(SetPte(t, v, pte))
  {
  }

  lemma PagesApartFields(a: Image, b: Image)
    requires a.Image? && b.Image? && a.t == b.t && a.kstack == b.kstack && a.code == b.code && a.stack == b.stack
             && PagesApart(a)
    ensures PagesApart(b)
  {
  }

  lemma EmptyHeapGood(img: Image)
    requires GoodImage(img) && img.Image? && NoHeapLeaf(img)
    ensures var img' := img.(heapTop := HEAPBASE);
            GoodImage(img') && Held(img') == Held(img) && PrivatePages(img') == PrivatePages(img)
  {
    var img' := img.(heapTop := HEAPBASE);
    PagesApartFields(img, img');
    hide PagesApart;
    forall v | v in img'.t.ptes && v != CODE_VPN && v != STACK_VPN ensures PlaceOk(img', v, img'.t.ptes[v].perm) {
      assert PlaceOk(img, v, img.t.ptes[v].perm);
    }
  }

  /** The first half of exec: the old program's heap and mapping are given back. */
  lemma ClearInv(k: Kernel, i: nat, p: nat)
    requires InvWith(k, {p}) && Live(k, i) && forall j :: 0 <= j < |k.procs| ==> p !in Held(k.procs[j])
    ensures var r := ClearImage(k, i);
            && (Runs(k.procs[i]) ==> Runs(r.procs[i]))
            && InvWith(r, {p}) && NoMapLeaf(r.procs[i]) && GoodImage(r.procs[i]) && Shrinks(k, r, {p})
            && r.procs == k.procs[i := k.procs[i].(heapTop := HEAPBASE, t := k.procs[i].t.(ptes := r.procs[i].t.ptes))]
  {
    hide InvWith, Held, PrivatePages, GoodImage, FrameAt;
    var k2 := FreeHeap(k, i);
    FreeHeapInv(k, {p}, i);
    var img := k2.procs[i];
    ImageIsGood(k2, {p}, i);
    EmptyHeapGood(img);
    var img' := img.(heapTop := HEAPBASE);
    RelabelStep(k2, {p}, i, img');
    var k2' := k2.(procs := k2.procs[i := img']);
    var k3 := FreeMap(k2', i);
    FreeMapInv(k2', {p}, i);
    ImageIsGood(k3, {p}, i);
    FrameFields(k2, k2');
  }

  /** The second half: the new code page goes in, the old one is given back unless a relative still runs it. */
  lemma SwapInv(k: Kernel, i: nat, p: nat)
    requires InvWith(k, {p}) && Live(k, i) && Runs(k.procs[i]) && NoMapLeaf(k.procs[i]) && GoodImage(k.procs[i])
    requires forall j :: 0 <= j < |k.procs| ==> p !in Held(k.procs[j])
    ensures var r := SwapCode(k, i, p);
            && InvWith(r, {}) && Live(r, i) && p in Held(r.procs[i])
            && r.procs == k.procs[i :=
              k.procs[i].(mapped := NoMap, code := p, t := SetPte(k.procs[i].t, CODE_VPN, Pte(p, RXU)))]
            && forall j, x :: 0 <= j < |k.procs| && x in Held(r.procs[j]) ==> FrameAt(r, x) == FrameAt(k, x)
  {
    hide InvWith, GoodImage, Held, PrivatePages, Freed, Ref;
    var img := k.procs[i];
    var img' := img.(mapped := NoMap, code := p, t := SetPte(img.t, CODE_VPN, Pte(p, RXU)));
    NewCodeGood(img, p);
    AdoptStep(k, {p}, i, img', {p}, {img.code});
    assert {p} - {p} + {img.code} == {img.code} && {img.code} - {img.code} == {};
    var k' := k.(procs := k.procs[i := img']);
    FreeStep(k', {img.code}, img.code);
    FrameFields(k, k');
  }

  lemma ExecInv(k: Kernel, i: nat, loaded: bool, contents: Frame)
    requires Inv(k) && Live(k, i) && Runs(k.procs[i]) && k.pool.free != []
    ensures Inv(Exec(k, i, loaded, contents))
  {
    hide Inv, InvWith, GoodImage, Held, ClearImage, SwapCode, TakePage, FreePage, FrameAt, NoMapLeaf;
    var p := k.pool.free[0];
    var k1 := TakePage(k, contents);
    TakeOne(k, contents);
    assert {p} - {p} == {};
    if loaded {
      ClearInv(k1, i, p);
      SwapInv(ClearImage(k1, i), i, p);
    } else {
      FreeStep(k1, {p}, p);
    }
    InvNone(Exec(k, i, loaded, contents));
  }
}
