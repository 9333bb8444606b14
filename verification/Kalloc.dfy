/**
  The physical page allocator of src/kalloc.c: a free list threaded through the free pages
  and one 8-bit reference count per RAM page.  Pages are physical page numbers (address / 4096).
 */
module Kalloc {

  const RAM_FIRST: nat := 0x8_0000
  const RAM_END: nat := 0x8_8000
  const NPAGES: nat := 0x8000

  type RefCounts = s: seq<nat> | |s| == 0x8000 witness seq(0x8000, i => 0)

  datatype Pool = Pool(free: seq<nat>, ref: RefCounts)

  predicate InRam(p: nat) { RAM_FIRST <= p < RAM_END }

  /** The count of a page; pages outside RAM have none. */
  function Ref(pool: Pool, p: nat): nat { if InRam(p) then pool.ref[p - RAM_FIRST] else 0 }

  function WithRef(pool: Pool, p: nat, v: nat): Pool {
    if InRam(p) then pool.(ref := pool.ref[p - RAM_FIRST := v]) else pool
  }

  /** kfree: drops one reference; the last one puts the page at the head of the free list. */
  function Freed(pool: Pool, p: nat): Pool {
    if Ref(pool, p) > 1 then WithRef(pool, p, Ref(pool, p) - 1)
    else WithRef(pool, p, 0).(free := [p] + pool.free)
  }

  /** kref_inc, on an 8-bit counter. */
  function Shared(pool: Pool, p: nat): Pool {
    WithRef(pool, p, (Ref(pool, p) + 1) % 256)
  }

  /** kalloc with a page to give: the head of the list, with one owner. */
  function Taken(pool: Pool): Pool
    requires pool.free != []
  {
    WithRef(pool, pool.free[0], 1).(free := pool.free[1..])
  }

  function SetOf(s: seq<nat>): set<nat> { set x | x in s }

  predicate NoDup(s: seq<nat>) { forall i, j :: 0 <= i < j < |s| ==> s[i] != s[j] }

  /** The pages the allocator manages are those from the end of the kernel image on. */
  predicate Managed(p: nat, first: nat) { RAM_FIRST <= first <= p < RAM_END }

  /** Every listed page is managed and listed once, and a managed page is listed iff nobody holds it. */
  ghost predicate GoodPool(pool: Pool, first: nat) {
    && NoDup(pool.free)
    && (forall i :: 0 <= i < |pool.free| ==> Managed(pool.free[i], first))
    && (forall p :: Managed(p, first) ==> (p in pool.free <==> Ref(pool, p) == 0))
  }

  lemma TakenGood(pool: Pool, first: nat)
    requires GoodPool(pool, first) && pool.free != []
    ensures Managed(pool.free[0], first) && Ref(pool, pool.free[0]) == 0
    ensures GoodPool(Taken(pool), first)
  {
    var p, r := pool.free[0], Taken(pool);
    assert p in pool.free;
    forall q | Managed(q, first) ensures q in r.free <==> Ref(r, q) == 0 {
      assert q in pool.free <==> q == p || q in pool.free[1..];
    }
  }

  lemma FreedGood(pool: Pool, first: nat, p: nat)
    requires GoodPool(pool, first) && Managed(p, first) && Ref(pool, p) > 0
    ensures GoodPool(Freed(pool, p), first)
  {
    assert p !in pool.free;
    if Ref(pool, p) == 1 {
      forall q | Managed(q, first) ensures q in Freed(pool, p).free <==> Ref(Freed(pool, p), q) == 0 {
        assert q in [p] + pool.free <==> q == p || q in pool.free;
      }
    }
  }

  lemma SharedGood(pool: Pool, first: nat, p: nat)
    requires GoodPool(pool, first) && Managed(p, first) && 0 < Ref(pool, p) < 255
    ensures GoodPool(Shared(pool, p), first) && Ref(Shared(pool, p), p) == Ref(pool, p) + 1
  {
  }

  /** Taking a page and giving it back restores the pool exactly. */
  lemma TakeThenFree(pool: Pool, first: nat)
    requires GoodPool(pool, first) && pool.free != []
    ensures Freed(Taken(pool), pool.free[0]) == pool
  {
    TakenGood(pool, first);
    assert [pool.free[0]] + pool.free[1..] == pool.free;
  }

  // ---- memory, and the list threaded through it ----

  /** A page's contents: 512 words. */
  type Frame = seq<nat>

  type Memory = map<nat, Frame>

  const PAGE_WORDS: nat := 512

  function SetWord(f: Frame, off: nat, val: nat): Frame
    requires off < |f|
  {
    f[off := val]
  }

  function SetEntry(mem: Memory, p: nat, i: nat, w: nat): Memory
    requires p in mem && i < |mem[p]|
  {
    mem[p := SetWord(mem[p], i, w)]
  }

  /** Memory outside the pages s is untouched. */
  ghost predicate SameBut(m: Memory, m': Memory, s: set<nat>) {
    forall p :: p !in s ==> (p in m' <==> p in m) && (p in m ==> m'[p] == m[p])
  }

  /** The address of the list's n-th page, or null at its end. */
  function Link(free: seq<nat>, n: nat): nat { if n < |free| then free[n] * 4096 else 0 }

  /** Each free page's first word leads to the next free page: following the links gives the list. */
  ghost predicate Linked(mem: Memory, free: seq<nat>) {
    forall n :: 0 <= n < |free| ==>
      InRam(free[n]) && free[n] in mem && |mem[free[n]]| == PAGE_WORDS && mem[free[n]][0] == Link(free, n + 1)
  }

  /** Writing to pages that are not free leaves the links alone. */
  lemma LinkedFrame(m: Memory, m': Memory, free: seq<nat>, s: set<nat>)
    requires Linked(m, free) && SameBut(m, m', s) && s !! SetOf(free)
    ensures Linked(m', free)
  {
    forall n | 0 <= n < |free| ensures free[n] in m' && m'[free[n]] == m[free[n]] {
      assert free[n] in SetOf(free);
    }
  }

  /** A freed page goes to the front. */
  lemma LinkedCons(m: Memory, free: seq<nat>, p: nat)
    requires Linked(m, free) && InRam(p) && p in m && |m[p]| == PAGE_WORDS && p !in free
    ensures Linked(SetEntry(m, p, 0, Link(free, 0)), [p] + free)
  {
    var m', s := SetEntry(m, p, 0, Link(free, 0)), [p] + free;
    forall n | 0 <= n < |s| ensures s[n] in m' && |m'[s[n]]| == PAGE_WORDS && m'[s[n]][0] == Link(s, n + 1)
      && InRam(s[n]) {
      if n > 0 {
        assert s[n] == free[n - 1] && s[n] != p;
        assert Link(s, n + 1) == Link(free, n);
      }
    }
  }

  lemma LinkedTail(m: Memory, free: seq<nat>)
    requires Linked(m, free) && free != []
    ensures Linked(m, free[1..]) && m[free[0]][0] == Link(free[1..], 0)
  {
    forall n | 0 <= n < |free[1..]| ensures m[free[1..][n]][0] == Link(free[1..], n + 1) {
      assert free[1..][n] == free[n + 1];
    }
  }

  /** Physical memory and the static state of kalloc.c, updated in place; pool is the list and the counts as values. */
  class Ram {
    var freelist: nat   // the address of the first free page, or null
    var freecnt: nat
    var refcnt: RefCounts
    var mem: Memory
    ghost var pool: Pool

    ghost predicate Valid()
      reads this
    {
      refcnt == pool.ref && freecnt == |pool.free| && freelist == Link(pool.free, 0) && Linked(mem, pool.free)
    }

    /** Before kinit: an empty list and no counts. */
    constructor (mem: Memory)
      ensures Valid() && this.mem == mem && pool.free == [] && forall i :: 0 <= i < NPAGES ==> pool.ref[i] == 0
    {
      freelist, freecnt := 0, 0;
      refcnt := seq(0x8000, i => 0);
      this.mem := mem;
      pool := Pool([], seq(0x8000, i => 0));
    }

    /** A store to a page that is not free. */
    method WriteWord(p: nat, i: nat, w: nat)
      requires Valid() && p in mem && i < |mem[p]| && p !in pool.free
      modifies this`mem
      ensures Valid() && mem == SetEntry(old(mem), p, i, w)
    {
      LinkedFrame(mem, SetEntry(mem, p, i, w), pool.free, {p});
      mem := SetEntry(mem, p, i, w);
    }

    /** A whole page that is not free. */
    method WritePage(p: nat, f: Frame)
      requires Valid() && p !in pool.free
      modifies this`mem
      ensures Valid() && mem == old(mem)[p := f]
    {
      LinkedFrame(mem, mem[p := f], pool.free, {p});
      mem := mem[p := f];
    }

    method Kfree(p: nat)
      requires Valid() && InRam(p) && p in mem && |mem[p]| == PAGE_WORDS && p !in pool.free
      modifies this
      ensures Valid() && pool == Freed(old(pool), p)
      ensures SameBut(old(mem), mem, {p}) && p in mem && |mem[p]| == PAGE_WORDS
      ensures Ref(old(pool), p) > 1 ==> mem == old(mem)
      ensures var i := p - 0x80000; var last := old(refcnt)[i] <= 1;
              && refcnt == old(refcnt)[i := if last then 0 else old(refcnt)[i] - 1]
              && freecnt == (if last then old(freecnt) + 1 else old(freecnt))
              && freelist == (if last then p * 4096 else old(freelist))
    {
      var i := p - RAM_FIRST;
      if refcnt[i] > 1 {
        refcnt := refcnt[i := refcnt[i] - 1];
        pool := Freed(pool, p);
        return;
      }
      refcnt := refcnt[i := 0];
      LinkedCons(mem, pool.free, p);
      mem := SetEntry(mem, p, 0, freelist);
      freelist := p * 4096;
      freecnt := freecnt + 1;
      pool := Freed(pool, p);
    }

    method KrefInc(p: nat)
      requires Valid() && InRam(p)
      modifies this`refcnt, this`pool
      ensures Valid() && pool == Shared(old(pool), p)
      ensures var i := p - 0x80000; refcnt == old(refcnt)[i := (old(refcnt)[i] + 1) % 256]
    {
      var i := p - RAM_FIRST;
      refcnt := refcnt[i := (refcnt[i] + 1) % 256];
      pool := Shared(pool, p);
    }

    /** Reads the next page's address out of the page it gives; -1 stands for the null pointer. */
    method Kalloc() returns (p: int)
      requires Valid()
      modifies this`freelist, this`freecnt, this`refcnt, this`pool
      ensures Valid()
      ensures old(pool.free) == [] ==> p == -1 && pool == old(pool)
      ensures old(pool.free) != [] ==> p == old(pool.free)[0] && pool == Taken(old(pool))
      ensures p == -1 <==> old(freelist) == 0
      ensures p >= 0 ==>
                && p * 4096 == old(freelist) && 0x80000 <= p < 0x88000 && freecnt == old(freecnt) - 1
                && refcnt == old(refcnt)[p - 0x80000 := 1]
    {
      if freelist == 0 {
        return -1;
      }
      LinkedTail(mem, pool.free);
      p := freelist / 4096;
      freelist := mem[p][0];
      freecnt := freecnt - 1;
      refcnt := refcnt[p - RAM_FIRST := 1];
      pool := Taken(pool);
    }

    method Kfreecount() returns (n: nat)
      requires Valid()
      ensures n == |pool.free|
    {
      n := freecnt;
    }

    /** kinit: hands every page from the end of the kernel to PHYSTOP to the free list. */
    method Kinit(first: nat)
      requires Valid() && RAM_FIRST <= first <= RAM_END && pool.free == []
      requires forall i :: 0 <= i < NPAGES ==> pool.ref[i] == 0
      requires forall p :: first <= p < RAM_END ==> p in mem && |mem[p]| == PAGE_WORDS
      modifies this
      ensures Valid() && GoodPool(pool, first) && freecnt == RAM_END - first
      ensures forall i :: 0 <= i < NPAGES ==> pool.ref[i] == 0
    {
      var p := first;
      while p < RAM_END
        invariant first <= p <= RAM_END && Valid() && |pool.free| == p - first
        invariant forall i :: 0 <= i < |pool.free| ==> pool.free[i] == p - 1 - i
        invariant forall i :: 0 <= i < NPAGES ==> pool.ref[i] == 0
        invariant forall q :: first <= q < RAM_END ==> q in mem && |mem[q]| == PAGE_WORDS
      {
        refcnt := refcnt[p - RAM_FIRST := 1];
        pool := pool.(ref := refcnt);
        Kfree(p);
        p := p + 1;
      }
      forall q | Managed(q, first) ensures q in pool.free {
        assert pool.free[p - 1 - q] == q;
      }
    }
  }
}
