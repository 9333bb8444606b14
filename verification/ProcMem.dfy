/**
  The memory half of src/proc.c as it runs: process slots that hold the roots of page
  tables in memory.  Every method is proved to do what the operation of module Cow does, so
  the theorems about those operations are theorems about this code.
 */
module ProcMem {
  import opened Kalloc
  import opened Paging
  import opened Images
  import opened ProcTable
  import opened Cow
  import opened CowSafety
  import opened CowFork
  import opened CowRefine
  import opened Sv39
  import opened Vm
  import opened InMemory
  import opened CowBoot
  import CowRuns

  /** The fields of struct proc that concern memory; NoTable is a slot with a null page table. */
  datatype Slot = Unused
                | NoTable(code: nat, half: MaybePage)
                | Slot(root: nat, ucode: nat, ustack: nat, kstack: MaybePage, heapTop: nat, mapped: MaybeSize)

  function SlotOf(img: Image): Slot {
    if img.NoImage? then Unused
    else if img.Tableless? then NoTable(img.code, img.ustack)
    else Slot(img.t.root, img.code, img.stack, img.kstack, img.heapTop, img.mapped)
  }

  ghost predicate SlotsMatch(slots: seq<Slot>, k: Kernel) {
    |slots| == |k.procs| && forall i :: 0 <= i < |slots| ==> slots[i] == SlotOf(k.procs[i])
  }

  /** No slot below n is unused. */
  predicate AllUsed(slots: seq<Slot>, n: nat)
    requires n <= |slots|
  {
    forall j :: 0 <= j < n ==> !slots[j].Unused?
  }

  lemma SlotsSame(slots: seq<Slot>, k: Kernel, k': Kernel, i: nat)
    requires SlotsMatch(slots, k) && i < |k.procs| && |k'.procs| == |k.procs|
             && SlotOf(k'.procs[i]) == SlotOf(k.procs[i])
    requires forall j :: 0 <= j < |k.procs| && j != i ==> k'.procs[j] == k.procs[j]
    ensures SlotsMatch(slots, k')
  {
  }

  lemma SlotsSet(slots: seq<Slot>, k: Kernel, k': Kernel, i: nat)
    requires SlotsMatch(slots, k) && i < |k.procs| && |k'.procs| == |k.procs|
    requires forall j :: 0 <= j < |k.procs| && j != i ==> k'.procs[j] == k.procs[j]
    ensures SlotsMatch(slots[i := SlotOf(k'.procs[i])], k')
  {
  }

  lemma CowReady(mem: Memory, k: Kernel, i: nat, v: nat)
    requires Holds(mem, k.pool, k, {}) && Live(k, i) && v in k.procs[i].t.ptes && k.procs[i].t.ptes[v].perm.cow
    ensures var p := k.procs[i].t.ptes[v].ppn; InRam(p) && p in mem && p !in Nodes(k.procs[i].t) && p !in k.pool.free
  {
    hide InvWith, Lies, GoodImage, Nodes;
    ImageIsGood(k, {}, i);
    CowIsHeap(k.procs[i], v);
    ImageLeaf(k, {}, i, v);
  }

  // ---- pages that may be given back ----

  lemma HeldFreeable(mem: Memory, pool: Pool, k: Kernel, loose: set<nat>, i: nat, p: nat)
    requires Holds(mem, pool, k, loose) && i < |k.procs| && p in Held(k.procs[i])
    ensures InRam(p) && p in mem && |mem[p]| == PAGE_WORDS && p !in pool.free
  {
    hide InvWith, Lies, Held;
    FreeNotHeld(k, loose, i);
    HeldManaged(k, loose, i, p);
    NotInFree(pool, p);
  }

  lemma HeldManaged(k: Kernel, loose: set<nat>, i: nat, p: nat)
    requires InvWith(k, loose) && i < |k.procs| && p in Held(k.procs[i])
    ensures Managed(p, k.first)
  {
    hide GoodImage, Held, Exclusive;
  }

  lemma FlightFreeable(mem: Memory, pool: Pool, k: Kernel, loose: set<nat>, p: nat)
    requires Holds(mem, pool, k, loose) && p in loose
    ensures InRam(p) && p in mem && |mem[p]| == PAGE_WORDS && p !in pool.free
  {
    hide InvWith, Lies;
    FlightNotFree(k, loose);
    FlightManaged(k, loose, p);
    NotInFree(pool, p);
  }

  lemma FlightManaged(k: Kernel, loose: set<nat>, p: nat)
    requires InvWith(k, loose) && p in loose
    ensures Managed(p, k.first)
  {
    hide GoodImage, Held, Exclusive;
    assert p in k.kern + loose;
  }

  lemma LeavesInRam(k: Kernel, loose: set<nat>, i: nat, v: nat, end: nat)
    requires InvWith(k, loose) && Live(k, i) && end <= USER_TOP
    ensures RamLeaves(k.procs[i].t, v, end)
  {
    hide InvWith, Nodes;
    forall u | v <= u < end && u in k.procs[i].t.ptes ensures InRam(k.procs[i].t.ptes[u].ppn) {
      ImageLeaf(k, loose, i, u);
    }
  }

  lemma NodesInRam(k: Kernel, loose: set<nat>, i: nat)
    requires InvWith(k, loose) && Live(k, i)
    ensures forall p :: p in Nodes(k.procs[i].t) ==> InRam(p)
  {
    hide InvWith, Nodes, Held;
    ImageApart(k, loose, i);
  }

  // ---- exec ----

  /** After the heap is gone and heap_top reset, before the mapping goes. */
  lemma ExecMid(k: Kernel, i: nat, p: nat)
    requires InvWith(k, {p}) && Live(k, i) && forall j :: 0 <= j < |k.procs| ==> p !in Held(k.procs[j])
    ensures var k2 := FreeHeap(k, i);
            var img := k2.procs[i].(heapTop := HEAPBASE);
            && InvWith(k2.(procs := k2.procs[i := img]), {p}) && p !in Held(img)
            && k2.procs == k.procs[i := k.procs[i].(t := k2.procs[i].t)] && k2.procs[i].t.root == k.procs[i].t.root
  {
    hide InvWith, Held, PrivatePages, GoodImage, FrameAt, NoHeapLeaf;
    var k2 := FreeHeap(k, i);
    FreeHeapInv(k, {p}, i);
    ImageIsGood(k2, {p}, i);
    EmptyHeapGood(k2.procs[i]);
    RelabelStep(k2, {p}, i, k2.procs[i].(heapTop := HEAPBASE));
  }

  lemma MapEnd(size: nat)
    requires size <= MAX_MMAP
    ensures var mend := MMAPBASE + (size + 4095) / 4096 * 4096;
            PageEnd(mend) == MMAP_VPN + PageEnd(size) <= USER_TOP && mend <= MAXVA && MMAPBASE / 4096 == MMAP_VPN
  {
  }

  lemma HeapEnd(img: Image)
    requires GoodImage(img) && img.Image?
    ensures PageEnd(img.heapTop) <= USER_TOP && img.heapTop <= MAXVA && HEAPBASE / 4096 == HEAP_VPN
    ensures img.mapped.MapOf? ==> img.mapped.size <= MAX_MMAP
  {
  }

  lemma ExecFields(k: Kernel, i: nat, loaded: bool, contents: Frame)
    requires Live(k, i) && k.pool.free != []
    ensures loaded ==>
              Cow.Exec(k, i, loaded, contents) == SwapCode(ClearImage(TakePage(k, contents), i), i, k.pool.free[0])
    ensures !loaded ==> Cow.Exec(k, i, loaded, contents) == FreePage(TakePage(k, contents), k.pool.free[0])
  {
    hide ClearImage, SwapCode, TakePage, FreePage;
  }

  lemma ClearIs(k: Kernel, i: nat)
    requires Live(k, i)
    ensures var k2 := FreeHeap(k, i);
            ClearImage(k, i) == FreeMap(k2.(procs := k2.procs[i := k2.procs[i].(heapTop := HEAPBASE)]), i)
  {
    hide FreeHeap, FreeMap;
  }

  lemma {:induction false} RangeEtext(k: Kernel, i: nat, v: nat, end: nat)
    requires Live(k, i)
    ensures Cow.FreeRange(k, i, v, end).etext == k.etext
    decreases end - v
  {
    if v < end { RangeEtext(FreeLeaf(k, i, v), i, v + 1, end); }
  }

  // ---- reclaiming ----

  function SlotPages(s: Slot): seq<nat>
    requires s.Slot?
  {
    [s.ucode, s.ustack] + (if s.kstack.SomePage? then [s.kstack.page] else [])
  }

  lemma OwnFreed(pool: Pool, s: Slot)
    requires s.Slot?
    ensures var two := Freed(Freed(pool, s.ucode), s.ustack);
            FreedAll(pool, SlotPages(s)) == if s.kstack.SomePage? then Freed(two, s.kstack.page) else two
  {
    hide Freed;
    assert [s.ucode, s.ustack] == [s.ucode] + [s.ustack];
    FreedAllAppend(pool, [s.ucode], [s.ustack]);
    FreedOne(pool, s.ucode);
    FreedOne(Freed(pool, s.ucode), s.ustack);
    var two := Freed(Freed(pool, s.ucode), s.ustack);
    if s.kstack.SomePage? {
      FreedAllAppend(pool, [s.ucode, s.ustack], [s.kstack.page]);
      FreedOne(two, s.kstack.page);
    } else {
      assert SlotPages(s) == [s.ucode, s.ustack];
    }
  }

  /** One more kfree. */
  lemma FreeOneMore(m0: Memory, m1: Memory, m2: Memory, pool: Pool, p: nat, ps: set<nat>)
    requires SameBut(m0, m1, ps) && SameBut(m0, m1, SetOfFree(pool)) && Sized(m1) && m0.Keys <= m1.Keys && p in ps
    requires SameBut(m1, m2, {p}) && p in m2 && |m2[p]| == PAGE_WORDS && (Ref(pool, p) > 1 ==> m2 == m1)
    ensures SameBut(m0, m2, ps) && SameBut(m0, m2, SetOfFree(Freed(pool, p))) && Sized(m2) && m0.Keys <= m2.Keys
  {
    hide Freed, Ref, SetOfFree;
    KfreeWrites(m0, m1, m2, pool, p);
    KeysBut(m1, m2, p);
  }

  /** Freeing one page does not put another on the list. */
  lemma FreedStays(pool: Pool, p: nat, q: nat)
    requires p != q
    ensures q !in pool.free ==> q !in Freed(pool, p).free
    ensures SetOfFree(Freed(pool, p)) <= SetOfFree(pool) + {p}
    ensures NoDup(pool.free) && p !in pool.free ==> NoDup(Freed(pool, p).free)
  {
    FreedSet(pool, p);
  }

  lemma SlotHeld(img: Image)
    requires GoodImage(img) && img.Image?
    ensures forall p :: p in SlotPages(SlotOf(img)) ==> p in Held(img) && p !in Nodes(img.t)
  {
    hide ShapeOk, LeavesOk, UserPages, Nodes, UserInjective;
  }

  lemma SlotNoDup(img: Image)
    requires GoodImage(img) && img.Image?
    ensures NoDup(SlotPages(SlotOf(img)))
  {
    hide ShapeOk, LeavesOk, UserPages, Nodes, UserInjective;
  }

  // ---- fork ----

  lemma ForkFields(k: Kernel, i: nat, c: nat, off: nat)
    requires Live(k, i) && c < |k.procs| && c != i && |k.pool.free| >= 2 && off + 32 <= |FrameAt(k, k.procs[i].stack)|
    requires KERN_FIRST < k.etext < RAM_END
    ensures var img, stack, r := k.procs[i], k.pool.free[0], Cow.Fork(k, i, c, off);
            var g := NewTable(Shared(Taken(k.pool), img.code), k.etext, img.code, stack);
            var s := Cow.CowShare(img.t, g.t, g.pool, HEAP_VPN, PageEnd(img.heapTop));
            && r.pool == s.pool && r.first == k.first && r.etext == k.etext && |r.procs| == |k.procs|
            && r.procs == k.procs[i := img.(t := s.parent)][c :=
              Image(s.child, img.code, stack, NoPage, img.heapTop, NoMap)]
            && r.frames == k.frames[stack := Patched(FrameAt(k, img.stack), off)]
  {
    hide NewTable, Cow.CowShare, Shared, Taken, Patched, FrameAt;
  }

  lemma NewTreeApart(m1: Memory, m2: Memory, pool: Pool, tp: Table, root: nat, g: Grown)
    requires Represents(m1, tp) && Apart(pool, tp) && pool.free != [] && root == pool.free[0]
    requires Carried(m1[root := ZeroFrame()], Taken(pool), Empty(root), m2, g)
    ensures Represents(m2, tp) && Represents(m2, g.t) && Apart(g.pool, tp) && Apart(g.pool, g.t)
            && Nodes(tp) !! Nodes(g.t)
    ensures Nodes(g.t) <= SetOfFree(pool) && SetOfFree(g.pool) <= SetOfFree(pool) && SameBut(m1, m2, Nodes(g.t))
            && (Sized(m1) ==> Sized(m2))
    ensures m1.Keys <= m2.Keys
  {
    EmptyRep(m1, root);
    hide Represents, Apart, Nodes, Carried, Sized, Taken, ZeroFrame, SetOfFree;
    CarriedFacts(m1[root := ZeroFrame()], Taken(pool), Empty(root), m2, g);
    CarriedKeys(m1[root := ZeroFrame()], Taken(pool), Empty(root), m2, g);
    TakenApart(pool, tp);
    FirstIsFree(pool);
    FreeNotNodes(pool, tp);
    ApartLess(pool, g.pool, tp, g.t);
    assert root in Nodes(g.t);
    assert SameBut(m1, m2, Nodes(g.t));
    RepFrame(m1, m2, tp, Nodes(g.t));
    if Sized(m1) { ZeroFrameSized(m1, root); }
  }

  lemma ZeroFrameSized(m: Memory, p: nat)
    requires Sized(m)
    ensures Sized(m[p := ZeroFrame()])
  {
  }

  lemma SharingFacts(m0: Memory, pool0: Pool, tp: Table, tc: Table, m: Memory, s: Sharing)
    requires Sharing2(m0, pool0, tp, tc, m, s)
    ensures Nodes(s.parent) == Nodes(tp) && Nodes(s.child) <= Nodes(tc) + SetOfFree(pool0)
    ensures SameBut(m0, m, Nodes(tp) + Nodes(s.child)) && (Sized(m0) ==> Sized(m)) && m0.Keys <= m.Keys
    ensures Represents(m, s.parent) && Represents(m, s.child) && s.child.root == tc.root && s.parent.root == tp.root
  {
    hide Apart, SetOfFree, Sized, Nodes;
    NodesThere(m, s.parent);
    NodesThere(m, s.child);
    hide Represents;
    forall p | p in m0.Keys ensures p in m.Keys {
      assert p !in Nodes(tp) + Nodes(s.child) ==> p in m;
    }
  }

  /** The two stores into the child's copy of the trap frame. */
  lemma PatchIs(m: Memory, stack: nat, off: nat, f: Frame, w: nat)
    requires stack in m && |f| == PAGE_WORDS && m[stack] == f && off + 32 <= PAGE_WORDS && w == f[off + 30]
    ensures var m1 := SetEntry(m, stack, off + 8, 0);
            && stack in m1 && |m1[stack]| == PAGE_WORDS
            && SetEntry(m1, stack, off + 30, (w + 4) % 0x1_0000_0000_0000_0000)[stack] == Patched(f, off)
            && SameBut(m, SetEntry(m1, stack, off + 30, (w + 4) % 0x1_0000_0000_0000_0000), {stack})
            && (Sized(m) ==> Sized(SetEntry(m1, stack, off + 30, (w + 4) % 0x1_0000_0000_0000_0000)))
  {
  }

  lemma NodesGrow(m0: Memory, pool0: Pool, tp: Table, tc: Table, m: Memory, s: Sharing)
    requires Sharing2(m0, pool0, tp, tc, m, s)
    ensures Nodes(tc) <= Nodes(s.child)
  {
    hide Apart, SetOfFree, Sized, Nodes, Represents;
  }

  lemma ForkApart0(k: Kernel, i: nat, stack: nat)
    requires Inv(k) && Live(k, i) && stack in k.pool.free
    ensures stack !in Nodes(k.procs[i].t)
  {
    hide Inv, InvWith, Held, Nodes, UserPages;
    InvNone(k);
    ImageApart(k, {}, i);
  }

  class ProcMemory {
    const vm: PageTables
    const etext: nat
    var slots: seq<Slot>
    ghost var k: Kernel

    ghost predicate Valid()
      reads this, vm.ram
    {
      vm.ram.Valid() && Holds(vm.ram.mem, vm.ram.pool, k, {}) && SlotsMatch(slots, k) && etext == k.etext
    }

    ghost predicate LiveSlot(i: nat)
      reads this
    {
      i < |slots| && slots[i].Slot?
    }

    /** procinit on a machine that has booted: every slot unused. */
    constructor (vm: PageTables, etext: nat, ghost boot: Kernel)
      requires vm.ram.Valid() && Booted(boot) && boot.etext == etext && vm.ram.pool == boot.pool && Sized(vm.ram.mem)
               && RamThere(vm.ram.mem, boot.first)
      ensures Valid() && this.vm == vm && k == boot
    {
      this.vm := vm;
      this.etext := etext;
      slots := seq(NPROC, i => Unused);
      k := boot;
      new;
      BootInv(boot);
      InvNone(boot);
      hide InvWith, Ram.Valid;
    }

    /** The first unused slot, or the number of slots. */
    method FindUnused() returns (n: nat)
      ensures n <= |slots| && AllUsed(slots, n) && (n < |slots| ==> slots[n].Unused?)
    {
      n := 0;
      while n < |slots| && !slots[n].Unused?
        invariant 0 <= n <= |slots| && AllUsed(slots, n)
      {
        n := n + 1;
      }
    }

    /**
      make_user_proc with the loaded code page; the stack page keeps what was in it. Returns the
      slot, or -1 without one.
     */
    method MakeUserProc(contents: Frame) returns (c: int)
      requires Valid() && |contents| == PAGE_WORDS && MakeUserReturns(k)
      modifies this, vm.ram
      ensures Valid() && -1 <= c < |old(slots)|
      ensures c == -1 ==> k == old(k) && AllUsed(old(slots), |old(slots)|)
      ensures c >= 0 ==> old(slots)[c].Unused? && !slots[c].Unused? && AllUsed(old(slots), c)
      ensures c >= 0 ==> c < |old(k).procs| && old(k).pool.free != [] && KERN_FIRST < old(k).etext < RAM_END
      ensures c >= 0 ==> k == MakeUser(old(k), c, contents, Second(old(vm.ram.mem), old(vm.ram.pool)))
      ensures c >= 0 ==> (LiveSlot(c) && Runs(k.procs[c]) <==> |old(vm.ram.pool).free| >= TABLE_PAGES + 2)
    {
      hide Holds, MakeUser, Inv, Ram.Valid, InvWith, Second;
      var n := FindUnused();
      if n == |slots| {
        return -1;
      }
      c := n;
      MakeUserIn(n, contents);
    }

    method MakeUserIn(c: nat, contents: Frame)
      requires Valid() && c < |slots| && slots[c].Unused? && |contents| == PAGE_WORDS && MakeUserReturns(k)
      modifies this, vm.ram
      ensures Valid() && c < |old(k).procs| && |slots| == |old(slots)| && !slots[c].Unused?
      ensures old(k).pool.free != [] && KERN_FIRST < old(k).etext < RAM_END
      ensures k == MakeUser(old(k), c, contents, Second(old(vm.ram.mem), old(vm.ram.pool)))
      ensures c < |k.procs| && (LiveSlot(c) && Runs(k.procs[c]) <==> |old(vm.ram.pool).free| >= TABLE_PAGES + 2)
    {
      hide Holds, Inv, InvWith, MakeUser, NewTable, Represents, Apart, Sized, Nodes, SetOfFree, Carried, Taken,
           FrameAt, Ram.Valid, Second;
      ghost var k0, m0, pool0 := k, vm.ram.mem, vm.ram.pool;
      HoldsInv(m0, pool0, k0);
      HoldsWith(m0, pool0, k0, {});
      InvEtext(k0);
      MakeUserInv(k0, c, contents, Second(m0, pool0));
      FirstHead(m0, k0);
      if |pool0.free| >= 2 { TwoHeads(m0, k0); }
      var code := vm.ram.Kalloc();
      vm.ram.WritePage(code, contents);
      ghost var m1 := vm.ram.mem;
      var stack := vm.ram.Kalloc();
      if stack >= 0 { NewTableOkIff(vm.ram.pool, etext, code, stack); }
      var root, halted;
      ghost var g;
      root, halted, g := vm.ProcPagetable(etext, code, if stack < 0 then 0 else stack);
      k := MakeUser(k0, c, contents, Second(m0, pool0));
      if root < 0 {
        MakeHalfHolds(m0, k0, k, c, contents);
        MakeHalfFields(k0, c, contents, Second(m0, pool0));
        var none := vm.ram.Kalloc();
        slots := slots[c := NoTable(code, if stack < 0 then NoPage else SomePage(stack))];
        return;
      }
      ghost var m2, pool2, junk := vm.ram.mem, Taken(Taken(pool0)), Second(m0, pool0);
      SecondIs(m0, pool0);
      NewTreeFacts(m1, m2, pool2, root, g);
      MakeUserFields(k0, c, contents, junk);
      var kstack := vm.ram.Kalloc();
      slots := slots[c := Slot(root, code, stack, if kstack < 0 then NoPage else SomePage(kstack), HEAPBASE, NoMap)];
      MakeUserHolds(m0, m1, m2, k0, k, c, code, stack, contents, junk, g);
    }

    /** A user store as the machine performs it: through the tree, if the entry allows it. */
    method UserStore(i: nat, va: nat, val: nat) returns (stored: bool)
      requires Valid() && LiveSlot(i) && va < MAXVA && va % 8 == 0
      modifies this`k, vm.ram`mem
      ensures Live(old(k), i) && Valid() && k == StoreWord(old(k), i, va / 4096, va % 4096 / 8, val)
      ensures stored <==> Writable(old(k), i, va / 4096, va % 4096 / 8)
    {
      hide Holds, Inv, InvWith, Represents, Apart, Sized, Nodes, Contents, FrameAt, StoreWord, LowKey, FlagsOf,
           PermOfFlags, Ram.Valid;
      ghost var k0, m0, t, v := k, vm.ram.mem, k.procs[i].t, va / 4096;
      var off := va % 4096 / 8;
      LiesFacts(m0, vm.ram.pool, k, {}, i);
      if v in t.ptes { NoLowNoLeaf(m0, t, v); }
      NoStore(k, i, v, off, val);
      stored := false;
      var node := vm.ReadWalk(slots[i].root, va, t);
      if node >= 0 {
        LeafValid(m0, t, va);
        var w := vm.ram.mem[node][Px(0, va)];
        AccessBits(w);
        if Has(w, PTE_V) && Has(w, PTE_U) && Has(w, PTE_W) {
          StoreReady(m0, k0, i, v, off);
          vm.ram.WriteWord(PageOf(w), off, val);
          k := StoreWord(k0, i, v, off, val);
          StoreHolds(m0, k0, i, v, off, val);
          SlotsSame(slots, k0, k, i);
          stored := true;
        }
      }
    }

    /** A user load, likewise. */
    method UserLoad(i: nat, va: nat) returns (loaded: bool, val: nat)
      requires Valid() && LiveSlot(i) && va < MAXVA && va % 8 == 0
      ensures Live(k, i) && (loaded <==> CowRuns.Readable(k, i, va / 4096))
      ensures loaded ==> va % 4096 / 8 < |FrameAt(k, k.procs[i].t.ptes[va / 4096].ppn)|
                         && val == FrameAt(k, k.procs[i].t.ptes[va / 4096].ppn)[va % 4096 / 8]
    {
      hide Holds, Inv, InvWith, Represents, Apart, Sized, Nodes, Contents, FrameAt, LowKey, FlagsOf, PermOfFlags,
           Ram.Valid;
      ghost var t, v := k.procs[i].t, va / 4096;
      loaded, val := false, 0;
      LiesFacts(vm.ram.mem, vm.ram.pool, k, {}, i);
      if v in t.ptes { NoLowNoLeaf(vm.ram.mem, t, v); }
      var node := vm.ReadWalk(slots[i].root, va, t);
      if node >= 0 {
        LeafValid(vm.ram.mem, t, va);
        var w := vm.ram.mem[node][Px(0, va)];
        AccessBits(w);
        if Has(w, PTE_V) && Has(w, PTE_U) && Has(w, PTE_R) {
          UserLeafSeen(vm.ram.mem, k, i, v);
          val := vm.ram.mem[PageOf(w)][va % 4096 / 8];
          loaded := true;
        }
      }
    }

    /** kalloc, fill, uvm_map, and kfree again if the mapping fails. */
    method Demand(i: nat, a: nat, contents: Frame, flags: bv10) returns (handled: bool)
      requires Valid() && LiveSlot(i) && |contents| == PAGE_WORDS && a % 4096 == 0 && a / 4096 < USER_TOP
      requires Live(k, i) && a / 4096 != CODE_VPN && a / 4096 != STACK_VPN
               && PlaceOk(k.procs[i], a / 4096, PermOfFlags(flags))
      modifies this`k, vm.ram
      ensures Valid() && Outcome(handled, k) == DemandPage(old(k), i, a / 4096, contents, PermOfFlags(flags))
    {
      hide Holds, PlaceOk, MapPage, Carried, Represents, Apart, Sized, DemandPage, PermOfFlags, Contents, Nodes,
           SetOfFree, Taken, Freed, InvWith, Ram.Valid;
      ghost var k0, t, v, perm := k, k.procs[i].t, a / 4096, PermOfFlags(flags);
      ghost var m0 := vm.ram.mem;
      LiesFacts(vm.ram.mem, vm.ram.pool, k, {}, i);
      var p := vm.ram.Kalloc();
      if p < 0 {
        DemandDry(k0, i, v, contents, perm);
        return false;
      }
      TakeHolds(m0, k0, contents);
      TakenApart(k0.pool, t);
      vm.ram.WritePage(p, contents);
      ghost var m1 := vm.ram.mem;
      RepFrame(m0, m1, t, {p});
      var rc;
      ghost var g;
      rc, g := vm.UvmMap(slots[i].root, a, p * 4096, flags, t);
      ghost var m2 := vm.ram.mem;
      CarriedFacts(m1, Taken(k0.pool), t, m2, g);
      CarriedKeys(m1, Taken(k0.pool), t, m2, g);
      handled := rc == 0;
      if !handled {
        HoldsWith(m0, k0.pool, k0, {});
        SizedSet(m0, p, contents);
        SizedAt(m2, p);
        HeadTaken(k0.pool, t);
        NotInFree(g.pool, p);
        vm.ram.Kfree(p);
      }
      k := DemandPage(k0, i, v, contents, perm).k;
      DemandHolds(m0, m2, vm.ram.mem, k0, i, v, contents, perm, g);
      SlotsSame(slots, k0, k, i);
      DemandEtext(k0, i, v, contents, perm);
    }

    /** proc_pagefault; contents is what fs_read_page would put into a mapped page. */
    method PageFault(i: nat, va: nat, store: bool, contents: Frame) returns (handled: bool)
      requires Valid() && LiveSlot(i) && va < MAXVA && |contents| == PAGE_WORDS
      modifies this`k, vm.ram
      ensures Live(old(k), i) && Valid() && Outcome(handled, k) == Cow.PageFault(old(k), i, va / 4096, store, contents)
    {
      hide Holds, PlaceOk, Represents, Apart, Sized, DemandPage, PermOfFlags, Contents, Nodes, SetOfFree, Taken, Freed,
           InvWith, Copy, Cow.CowFault, GoodImage, ZeroFrame, Ram.Valid;
      ghost var k0, t, v := k, k.procs[i].t, va / 4096;
      var s := slots[i];
      var a := va / 4096 * 4096;
      LiesFacts(vm.ram.mem, vm.ram.pool, k, {}, i);
      HoldsWith(vm.ram.mem, vm.ram.pool, k, {});
      ImageIsGood(k, {}, i);
      LayoutOf(k.procs[i], v);
      CowRefuses(k, i, v);
      if v in t.ptes && t.ptes[v].perm.cow { CowReady(vm.ram.mem, k, i, v); }
      if store {
        ghost var m0 := vm.ram.mem;
        ghost var t';
        handled, t' := vm.CowFault(s.root, a, t);
        if handled {
          k := Cow.CowFault(k0, i, v).k;
          CowFaultHolds(m0, vm.ram.mem, k0, i, v);
          CowFaultShape(k0, i, v);
          SlotsSame(slots, k0, k, i);
          return true;
        }
      }
      UserFlags();
      if HEAPBASE <= a < s.heapTop {
        PlaceHeap(k0.procs[i], v);
        handled := Demand(i, a, ZeroFrame(), PTE_R | PTE_W | PTE_U);
        return;
      }
      if s.mapped.MapOf? {
        var mend := MMAPBASE + (s.mapped.size + 4095) / 4096 * 4096;
        if MMAPBASE <= a < mend {
          PlaceMap(k0.procs[i], v);
          handled := Demand(i, a, contents, PTE_R | PTE_U);
          return;
        }
      }
      handled := false;
    }

    /** proc_sbrk, called with the heap staying below the mapping area. */
    method Sbrk(i: nat, n: int) returns (top: nat)
      requires Valid() && LiveSlot(i) && slots[i].heapTop + n <= MMAPBASE
      modifies this
      ensures Live(old(k), i) && Valid() && k == Cow.Sbrk(old(k), i, n) && top == old(slots[i].heapTop)
      ensures |slots| == |old(slots)| && slots[i] == old(slots[i]).(heapTop := if n > 0 then top + n else top)
    {
      hide Holds, Inv, InvWith, Ram.Valid;
      ghost var k0 := k;
      HoldsInv(vm.ram.mem, vm.ram.pool, k);
      HoldsWith(vm.ram.mem, vm.ram.pool, k, {});
      top := slots[i].heapTop;
      if n > 0 {
        SbrkInv(k, i, n);
        slots := slots[i := slots[i].(heapTop := top + n)];
        k := Cow.Sbrk(k, i, n);
        InvNone(k);
        RelabelHolds(vm.ram.mem, k0, {}, i, k.procs[i]);
      }
    }

    /** proc_mmap of a file of the given size, the image's first. */
    method Mmap(i: nat, size: nat)
      requires Valid() && LiveSlot(i) && slots[i].mapped.NoMap? && size <= MAX_MMAP
      modifies this
      ensures Live(old(k), i) && Valid() && k == Cow.Mmap(old(k), i, size)
    {
      hide Holds, Inv, InvWith, Ram.Valid;
      ghost var k0 := k;
      HoldsInv(vm.ram.mem, vm.ram.pool, k);
      HoldsWith(vm.ram.mem, vm.ram.pool, k, {});
      MmapInv(k, i, size);
      slots := slots[i := slots[i].(mapped := MapOf(size))];
      k := Cow.Mmap(k, i, size);
      InvNone(k);
      RelabelHolds(vm.ram.mem, k0, {}, i, k.procs[i]);
    }

    /** vm_free_range for image i of the state kk that memory holds, with pages in flight. */
    method DropRange(root: nat, start: nat, end: nat, ghost kk: Kernel, ghost i: nat, ghost loose: set<nat>)
      returns (ghost r: Kernel)
      requires Holds(vm.ram.mem, vm.ram.pool, kk, loose) && Live(kk, i) && root == kk.procs[i].t.root
               && start % 4096 == 0 && end <= MAXVA
      requires STACK_VPN < start / 4096 && PageEnd(end) <= USER_TOP && loose !! Held(kk.procs[i])
      requires vm.ram.Valid()
      modifies vm.ram
      ensures vm.ram.Valid()
      ensures r == Cow.FreeRange(kk, i, start / 4096, PageEnd(end)) && Holds(vm.ram.mem, vm.ram.pool, r, loose)
      ensures Contents(old(vm.ram.mem), kk, loose) ==> Contents(vm.ram.mem, r, loose)
    {
      hide Holds, Represents, Apart, Sized, Contents, Nodes, Cow.FreeRange, Unmap, Reclaimed, Freeable, Held,
           UserPages, Ram.Valid;
      ghost var m0 := vm.ram.mem;
      LiesFacts(vm.ram.mem, vm.ram.pool, kk, loose, i);
      RangeFreeable(vm.ram.mem, kk, loose, i, start / 4096, PageEnd(end));
      ghost var g := vm.FreeRange(root, start, end, kk.procs[i].t);
      r := Cow.FreeRange(kk, i, start / 4096, PageEnd(end));
      FreeRangeHolds(m0, vm.ram.mem, kk, loose, i, start / 4096, PageEnd(end), g);
    }

    /** Both range frees of exec and exit: the heap, then the mapped file if there is one. */
    method DropMap(s: Slot, ghost kk: Kernel, ghost i: nat, ghost loose: set<nat>) returns (ghost r: Kernel)
      requires s.Slot? && Holds(vm.ram.mem, vm.ram.pool, kk, loose) && Live(kk, i) && loose !! Held(kk.procs[i])
      requires s.root == kk.procs[i].t.root && s.mapped == kk.procs[i].mapped
      requires vm.ram.Valid()
      modifies vm.ram
      ensures vm.ram.Valid()
      ensures r == FreeMap(kk, i) && Holds(vm.ram.mem, vm.ram.pool, r, loose)
      ensures Contents(old(vm.ram.mem), kk, loose) ==> Contents(vm.ram.mem, r, loose)
    {
      hide Holds, Contents, Cow.FreeRange, Held, InvWith, GoodImage, Ram.Valid;
      r := FreeMap(kk, i);
      if s.mapped.MapOf? {
        HoldsWith(vm.ram.mem, vm.ram.pool, kk, loose);
        ImageIsGood(kk, loose, i);
        HeapEnd(kk.procs[i]);
        MapEnd(s.mapped.size);
        r := DropRange(s.root, MMAPBASE, MMAPBASE + (s.mapped.size + 4095) / 4096 * 4096, kk, i, loose);
      }
    }

    /** proc_exec once the file is read; loading it into the new page may fail. */
    method Exec(i: nat, loaded: bool, contents: Frame)
      requires Valid() && LiveSlot(i) && Live(k, i) && Runs(k.procs[i]) && |contents| == PAGE_WORDS
               && vm.ram.pool.free != []
      modifies this, vm.ram
      ensures Live(old(k), i) && old(k).pool.free != [] && Valid() && k == Cow.Exec(old(k), i, loaded, contents)
    {
      hide Holds, Represents, Apart, Sized, Contents, Nodes, Held, TakePage, FreePage, FreeHeap, FreeMap, ClearImage,
           SwapCode, Cow.Exec, InvWith, GoodImage, NoMapLeaf, Shrinks, Carried, Freed, Ref, Taken, Ram.Valid;
      ghost var k0, m0 := k, vm.ram.mem;
      HoldsWith(vm.ram.mem, vm.ram.pool, k, {});
      HoldsInv(vm.ram.mem, vm.ram.pool, k);
      TakeHolds(m0, k0, contents);
      TakeOne(k0, contents);
      TakeFields(k0, contents);
      ExecFields(k0, i, loaded, contents);
      var p := vm.ram.Kalloc();
      ghost var k1 := TakePage(k0, contents);
      FlightFreeable(m0[p := contents], k1.pool, k1, {p}, p);
      vm.ram.WritePage(p, contents);
      ghost var m1 := vm.ram.mem;
      if !loaded {
        vm.ram.Kfree(p);
        FreeHolds(m1, vm.ram.mem, k1, {p}, p);
        FreeFields(k1, p);
        assert {p} - {p} == {};
        k := Cow.Exec(k0, i, loaded, contents);
        return;
      }
      var s := slots[i];
      HoldsWith(vm.ram.mem, vm.ram.pool, k1, {p});
      ImageIsGood(k1, {p}, i);
      HeapEnd(k1.procs[i]);
      HeapFreeIs(k1, i);
      ghost var k2 := DropRange(s.root, HEAPBASE, s.heapTop, k1, i, {p});
      s := s.(heapTop := HEAPBASE);
      ExecMid(k1, i, p);
      HoldsWith(vm.ram.mem, vm.ram.pool, k2, {p});
      ghost var img := k2.procs[i].(heapTop := HEAPBASE);
      ghost var k2' := k2.(procs := k2.procs[i := img]);
      RelabelHolds(vm.ram.mem, k2, {p}, i, img);
      ghost var k3 := DropMap(s, k2', i, {p});
      ClearIs(k1, i);
      ClearInv(k1, i, p);
      ClearEtext(k1, i);
      FreshApart(k1, k3, p);
      s := ExecSwap(s, p, k3, i);
      slots := slots[i := s];
      k := Cow.Exec(k0, i, loaded, contents);
      SwapFields(k3, i, p);
      SwapEtext(k3, i, p);
      SlotsSet(old(slots), k0, k, i);
    }

    /** The end of exec: the new code page goes in, the old one goes back. */
    method ExecSwap(s: Slot, p: nat, ghost kk: Kernel, ghost i: nat) returns (s': Slot)
      requires Holds(vm.ram.mem, vm.ram.pool, kk, {p}) && Live(kk, i) && Runs(kk.procs[i]) && NoMapLeaf(kk.procs[i])
               && GoodImage(kk.procs[i]) && Contents(vm.ram.mem, kk, {p})
      requires forall j :: 0 <= j < |kk.procs| ==> p !in Held(kk.procs[j])
      requires s.Slot? && s.root == kk.procs[i].t.root && s.ucode == kk.procs[i].code
      requires vm.ram.Valid()
      modifies vm.ram
      ensures vm.ram.Valid()
      ensures Holds(vm.ram.mem, vm.ram.pool, SwapCode(kk, i, p), {}) && s' == s.(mapped := NoMap, ucode := p)
    {
      hide Holds, Represents, Apart, Sized, Contents, Nodes, Held, SwapCode, InvWith, GoodImage, NoMapLeaf, Carried,
           Freed, Ref, UserPages, Ram.Valid;
      ghost var m0, t := vm.ram.mem, kk.procs[i].t;
      LiesFacts(m0, vm.ram.pool, kk, {p}, i);
      FirstLow(kk.procs[i]);
      s' := s.(mapped := NoMap);
      ghost var t' := vm.RemapUserCode(s.root, p, t);
      ghost var m1 := vm.ram.mem;
      CarriedFacts(m0, kk.pool, t, m1, Grown(true, t', kk.pool));
      CarriedKeys(m0, kk.pool, t, m1, Grown(true, t', kk.pool));
      s' := s'.(ucode := p);
      OwnHeld(kk.procs[i]);
      HeldFreeable(m0, kk.pool, kk, {p}, i, s.ucode);
      HoldsWith(m0, kk.pool, kk, {p});
      assert s.ucode in m0.Keys;
      SizedAt(m1, s.ucode);
      vm.ram.Kfree(s.ucode);
      KeysBut(m1, vm.ram.mem, s.ucode);
      SwapHolds(m0, m1, vm.ram.mem, kk, i, p);
    }

    /** The kfrees of proc_freeimage. */
    method FreeOwn(s: Slot)
      requires s.Slot? && Sized(vm.ram.mem) && NoDup(SlotPages(s))
      requires forall p :: p in SlotPages(s) ==> p in vm.ram.mem && InRam(p) && p !in vm.ram.pool.free
      requires vm.ram.Valid()
      modifies vm.ram
      ensures vm.ram.Valid()
      ensures vm.ram.pool == FreedAll(old(vm.ram.pool), SlotPages(s))
      ensures SameBut(old(vm.ram.mem), vm.ram.mem, SetOf(SlotPages(s)))
              && SameBut(old(vm.ram.mem), vm.ram.mem, SetOfFree(vm.ram.pool))
      ensures Sized(vm.ram.mem) && old(vm.ram.mem).Keys <= vm.ram.mem.Keys
      ensures SetOfFree(vm.ram.pool) <= SetOfFree(old(vm.ram.pool)) + SetOf(SlotPages(s))
              && (NoDup(old(vm.ram.pool).free) ==> NoDup(vm.ram.pool.free))
    {
      hide Freed, Ref, SetOfFree, FreedAll, Sized, SameBut, Ram.Valid;
      ghost var m0, p0, ps := vm.ram.mem, vm.ram.pool, SetOf(SlotPages(s));
      SameNone(m0, ps);
      SameNone(m0, SetOfFree(p0));
      OwnFreed(p0, s);
      assert SlotPages(s)[0] == s.ucode && SlotPages(s)[1] == s.ustack && s.ucode != s.ustack;
      assert s.ucode in SlotPages(s) && s.ustack in SlotPages(s);
      SizedAt(m0, s.ucode);
      FreedStays(p0, s.ucode, s.ustack);
      vm.ram.Kfree(s.ucode);
      FreeOneMore(m0, m0, vm.ram.mem, p0, s.ucode, ps);
      ghost var m1, p1 := vm.ram.mem, vm.ram.pool;
      assert s.ustack in m0.Keys;
      SizedAt(m1, s.ustack);
      vm.ram.Kfree(s.ustack);
      FreeOneMore(m0, m1, vm.ram.mem, p1, s.ustack, ps);
      FreedStays(p1, s.ustack, s.ucode);
      if s.kstack.SomePage? {
        ghost var m2, p2, x := vm.ram.mem, vm.ram.pool, s.kstack.page;
        assert SlotPages(s)[2] == x && x != s.ucode && x != s.ustack;
        assert x in SlotPages(s) && x in m0.Keys;
        FreedStays(p0, s.ucode, x);
        FreedStays(p1, s.ustack, x);
        SizedAt(m2, x);
        vm.ram.Kfree(s.kstack.page);
        FreeOneMore(m0, m2, vm.ram.mem, p2, x, ps);
        FreedStays(p2, x, s.ucode);
      }
    }

    /** proc_freeimage, called by the parent's wait; order lists the nodes as freewalk met them. */
    method FreeImage(i: nat) returns (ghost order: seq<nat>)
      requires Valid() && i < |slots| && !slots[i].Unused?
      modifies this, vm.ram
      ensures Reapable(old(k), i, order)
      ensures Valid() && k == Cow.FreeImage(old(k), i, order)
    {
      hide Holds, Cow.FreeImage, Ram.Valid, Nodes;
      if slots[i].NoTable? {
        FreeHalf(i);
        order := [];
      } else {
        order := FreeWhole(i);
      }
    }

    /** The kfrees for a slot whose page table is null. */
    method FreeHalf(i: nat)
      requires Valid() && i < |slots| && slots[i].NoTable?
      modifies this, vm.ram
      ensures Reapable(old(k), i, []) && Valid() && k == Cow.FreeImage(old(k), i, [])
    {
      hide Holds, Held, InvWith, Inv, FreePage, Freed, Ref, Cow.FreeImage, Sized, Ram.Valid;
      ghost var k0, m0 := k, vm.ram.mem;
      var s := slots[i];
      ghost var k1, loose := k0.(procs := k0.procs[i := NoImage]), Held(k0.procs[i]);
      HoldsWith(m0, vm.ram.pool, k0, {});
      HoldsInv(m0, vm.ram.pool, k0);
      DropHolds(m0, k0, i);
      HalfFreed(k0, i);
      FlightFreeable(m0, k1.pool, k1, loose, s.code);
      vm.ram.Kfree(s.code);
      FreeHolds(m0, vm.ram.mem, k1, loose, s.code);
      ghost var m1, k2 := vm.ram.mem, FreePage(k1, s.code);
      FreeFields(k1, s.code);
      FreePagePool(k1, s.code);
      if s.half.SomePage? {
        FlightFreeable(m1, k2.pool, k2, loose - {s.code}, s.half.page);
        vm.ram.Kfree(s.half.page);
        FreeHolds(m1, vm.ram.mem, k2, loose - {s.code}, s.half.page);
        FreeFields(k2, s.half.page);
        FreePagePool(k2, s.half.page);
        assert loose - {s.code} - {s.half.page} == {};
      } else {
        assert loose - {s.code} == {};
      }
      k := Cow.FreeImage(k0, i, []);
      slots := slots[i := Unused];
      SlotsSet(old(slots), k0, k, i);
    }

    /** The same for a slot with a page table. */
    method FreeWhole(i: nat) returns (ghost order: seq<nat>)
      requires Valid() && LiveSlot(i)
      modifies this, vm.ram
      ensures Live(old(k), i) && NoDup(order) && SetOf(order) == Nodes(old(k).procs[i].t)
      ensures Valid() && k == Cow.FreeImage(old(k), i, order)
    {
      hide Holds, Represents, Apart, Sized, Contents, Nodes, Held, FreeHeap, FreeMap, InvWith, GoodImage, NoMapLeaf,
           NoHeapLeaf, Shrinks, Cow.FreeImage, FreeLast, SetOf, NoDup, FreedAll, LastPages, SetOfFree, LeavesShow,
           Ram.Valid;
      ghost var k0 := k;
      var s := slots[i];
      HoldsWith(vm.ram.mem, vm.ram.pool, k, {});
      ImageIsGood(k, {}, i);
      HeapEnd(k.procs[i]);
      HeapFreeIs(k, i);
      FreeRegions(k0, i);
      FreeHeapInv(k0, {}, i);
      ghost var k1 := DropRange(s.root, HEAPBASE, s.heapTop, k0, i, {});
      ghost var b := DropMap(s, k1, i, {});
      ghost var img, m0 := b.procs[i], vm.ram.mem;
      BKeepsFields(k0, i);
      SlotHeld(img);
      ManagedThere(vm.ram.mem, vm.ram.pool, b, {}, i);
      LiesFacts(vm.ram.mem, vm.ram.pool, b, {}, i);
      HoldsWith(vm.ram.mem, vm.ram.pool, b, {});
      ImageShows(b, {}, i);
      SlotNoDup(img);
      SlotFreeable(vm.ram.mem, vm.ram.pool, b, i);
      NodesInRam(b, {}, i);
      ghost var p0 := vm.ram.pool;
      FreeOwn(s);
      ghost var m1, p1 := vm.ram.mem, vm.ram.pool;
      OwnNotNodes(img);
      RepFrame(m0, m1, img.t, SetOf(SlotPages(s)));
      StillApart(p0, p1, img.t, SetOf(SlotPages(s)));
      order := vm.FreePagetable(s.root, img.t);
      LastPagesIs(img, order);
      FreedAllAppend(b.pool, SlotPages(s), order);
      FreedAllSet(p1, order);
      assert SameBut(m0, vm.ram.mem, Nodes(img.t) + SetOfFree(vm.ram.pool));
      FreeLastHolds(m0, vm.ram.mem, b, i, order);
      ImageFreeIs(k0, i, order);
      slots := slots[i := Unused];
      k := Cow.FreeImage(k0, i, order);
      FreeLastInv(b, i, order);
      FreeLastEtext(k0, i, order);
      SlotsSet(old(slots), k0, k, i);
    }

    /** proc_fork in the first unused slot, which it returns; -1 without one. */
    method Fork(i: nat, off: nat) returns (c: int)
      requires Valid() && LiveSlot(i) && off + 32 <= PAGE_WORDS && Live(k, i) && ForkReturns(k, i)
      modifies this, vm.ram
      ensures Valid() && Live(old(k), i) && -1 <= c < |old(slots)|
      ensures c == -1 ==> k == old(k) && AllUsed(old(slots), |old(slots)|)
      ensures c >= 0 ==> old(slots)[c].Unused? && AllUsed(old(slots), c)
      ensures c >= 0 ==> ForkReady(old(k), i, c, off) && k == Cow.Fork(old(k), i, c, off)
    {
      hide Holds, Cow.Fork, ForkReady, ForkReturns, Ram.Valid;
      var n := FindUnused();
      if n == |slots| {
        return -1;
      }
      c := n;
      ForkInto(i, n, off);
    }

    /** proc_fork once it has the unused slot c. */
    method ForkInto(i: nat, c: nat, off: nat)
      requires Valid() && LiveSlot(i) && c < |slots| && slots[c].Unused? && off + 32 <= PAGE_WORDS && Live(k, i)
               && ForkReturns(k, i)
      modifies this, vm.ram
      ensures Valid() && ForkReady(old(k), i, c, off) && k == Cow.Fork(old(k), i, c, off)
    {
      hide Holds, Sized, Inv, InvWith, Cow.Fork, Patched, FrameAt, ForkHalf, SlotsMatch, Represents, Nodes, SetOfFree,
           NoHeapLeaf, Ram.Valid;
      SlotsTell(slots, k, i);
      SlotsTell(slots, k, c);
      HoldsWith(vm.ram.mem, vm.ram.pool, k, {});
      ghost var k0, m0 := k, vm.ram.mem;
      ForkIsReady(m0, k0, i, c, off);
      var s := slots[i];
      var root, stack;
      root, stack := ForkTrees(i, c, off);
      ghost var m := vm.ram.mem;
      if root < 0 {
        NullFacts(m0, k0, i, c, off);
        PatchFrame(i, c, off, stack);
        ForkNullDone(m0, vm.ram.mem, slots, k0, i, c, off);
        slots := slots[c := NoTable(s.ucode, SomePage(stack))];
        k := Cow.Fork(k0, i, c, off);
        return;
      }
      HalfFactsOf(m0, m, k0, Cow.Fork(k0, i, c, off), i, c, stack);
      StackNotFree(k0, i, c, off);
      PatchFrame(i, c, off, stack);
      ForkDone(m0, m, vm.ram.mem, k0, i, c, off);
      ForkSlots(m0, m, slots, k0, i, c, off);
      slots := slots[c := Slot(root, s.ucode, stack, NoPage, s.heapTop, NoMap)];
      k := Cow.Fork(k0, i, c, off);
    }

    /**
      The new stack page, the shared code page, the child's tree if there is a page for its
      root, and the shared heap.
     */
    method ForkTrees(i: nat, ghost c: nat, ghost off: nat) returns (root: int, stack: int)
      requires Valid() && LiveSlot(i) && ForkReady(k, i, c, off) && ForkReturns(k, i)
      requires vm.ram.Valid()
      modifies vm.ram
      ensures vm.ram.Valid()
      ensures stack >= 0 && stack == old(vm.ram.pool.free)[0] && (root < 0 <==> |old(vm.ram.pool.free)| == 1)
      ensures root < 0 ==>
                && k.procs[i].stack in old(vm.ram.mem)
                && vm.ram.mem == old(vm.ram.mem)[stack := old(vm.ram.mem)[k.procs[i].stack]]
      ensures root >= 0 ==> ForkHalf(old(vm.ram.mem), vm.ram.mem, k, Cow.Fork(k, i, c, off), i, c, stack)
      ensures root >= 0 ==> root == Cow.Fork(k, i, c, off).procs[c].t.root
      ensures vm.ram.pool == Cow.Fork(k, i, c, off).pool
    {
      hide Holds, Represents, Apart, Sized, Nodes, Held, InvWith, Inv, Cow.Fork, NewTable, Cow.CowShare, Sharing2,
           Carried, Shared, Taken, Patched, FrameAt, SetOfFree, UserPages, ForkHalf, NoHeapLeaf, Ram.Valid;
      ghost var m0, pool0, tp := vm.ram.mem, vm.ram.pool, k.procs[i].t;
      var s := slots[i];
      HoldsWith(m0, pool0, k, {});
      ImageIsGood(k, {}, i);
      HeapEnd(k.procs[i]);
      LiesFacts(m0, pool0, k, {}, i);
      StackContents(m0, k, i);
      CopiedStack(m0, k, i);
      TakenApart(pool0, tp);
      OwnHeld(k.procs[i]);
      HeldFreeable(m0, pool0, k, {}, i, s.ucode);
      stack := vm.ram.Kalloc();
      vm.ram.WritePage(stack, vm.ram.mem[s.ustack]);
      ghost var m1 := vm.ram.mem;
      vm.ram.KrefInc(s.ucode);
      ghost var pool2 := vm.ram.pool;
      NewTableOkIff(pool2, etext, s.ucode, stack);
      ApartNoDup(pool2, tp);
      LeavesInRam(k, {}, i, HEAP_VPN, PageEnd(s.heapTop));
      var halted;
      ghost var g;
      root, halted, g := vm.ProcPagetable(etext, s.ucode, stack);
      if root < 0 {
        var reached := vm.CowShareNull(s.root, HEAPBASE, s.heapTop, tp);
        NothingToShare(k, i);
        assert !reached;
        ForkNullFields(k, i, c, off);
        return;
      }
      ghost var m2 := vm.ram.mem;
      NewTreeApart(m1, m2, pool2, tp, root, g);
      var rc;
      ghost var sh;
      rc, sh := vm.CowShare(s.root, root, HEAPBASE, s.heapTop, tp, g.t);
      ForkFields(k, i, c, off);
      ForkHalfDone(m0, m1, m2, vm.ram.mem, k, Cow.Fork(k, i, c, off), i, c, stack, g, sh);
      SharingRoot(m2, g.pool, tp, g.t, vm.ram.mem, sh);
    }

    /** The child's copy of the trap frame: a0 is 0, sepc is past the ecall. */
    method PatchFrame(i: nat, ghost c: nat, off: nat, stack: nat)
      requires LiveSlot(i) && Live(k, i) && slots[i].ustack == k.procs[i].stack && off + 32 <= PAGE_WORDS
               && ForkReady(k, i, c, off)
      requires stack in vm.ram.mem && |vm.ram.mem[stack]| == PAGE_WORDS
               && vm.ram.mem[stack] == FrameAt(k, k.procs[i].stack)
      requires slots[i].ustack in vm.ram.mem && vm.ram.mem[slots[i].ustack] == vm.ram.mem[stack]
               && slots[i].ustack != stack
      requires stack !in vm.ram.pool.free
      requires vm.ram.Valid()
      modifies vm.ram`mem
      ensures vm.ram.Valid()
      ensures stack in vm.ram.mem && vm.ram.mem[stack] == Patched(FrameAt(k, k.procs[i].stack), off)
      ensures SameBut(old(vm.ram.mem), vm.ram.mem, {stack}) && (Sized(old(vm.ram.mem)) ==> Sized(vm.ram.mem))
    {
      PatchIs(vm.ram.mem, stack, off, vm.ram.mem[stack], vm.ram.mem[slots[i].ustack][off + 30]);
      vm.ram.WriteWord(stack, off + 8, 0);
      vm.ram.WriteWord(stack, off + 30, (vm.ram.mem[slots[i].ustack][off + 30] + 4) % 0x1_0000_0000_0000_0000);
    }
  }

  // ---- make_user_proc ----

  /** What was in the page that a second kalloc gives. */
  function Second(mem: Memory, pool: Pool): Frame {
    if |pool.free| >= 2 && pool.free[1] in mem then mem[pool.free[1]] else LostFrame()
  }

  lemma SecondIs(mem: Memory, pool: Pool)
    requires |pool.free| >= 2 && pool.free[1] in mem
    ensures Second(mem, pool) == mem[pool.free[1]]
  {
  }

  lemma FirstHead(mem: Memory, k: Kernel)
    requires Holds(mem, k.pool, k, {}) && Inv(k) && k.pool.free != []
    ensures var code, p1 := k.pool.free[0], Taken(k.pool);
            code in mem && code !in p1.free && |p1.free| == |k.pool.free| - 1 && NoDup(p1.free)
  {
    hide Inv, InvWith, Lies, Sized;
    FreeAllThere(mem, k);
  }

  /** Memory with the one or two pages of a process that got no table. */
  lemma MakeHalfHolds(m0: Memory, k: Kernel, k': Kernel, c: nat, contents: Frame)
    requires Holds(m0, k.pool, k, {}) && c < |k.procs| && 1 <= |k.pool.free| <= 2 && |contents| == PAGE_WORDS
    requires k.procs[c].NoImage? && KERN_FIRST < k.etext < RAM_END
             && k' == MakeUser(k, c, contents, Second(m0, k.pool)) && Inv(k')
    ensures Holds(m0[k.pool.free[0] := contents], k'.pool, k', {})
  {
    hide Inv, InvWith, Holds, Held, Contents, Lies;
    var code, k1, m1 := k.pool.free[0], TakePage(k, contents), m0[k.pool.free[0] := contents];
    TakeHolds(m0, k, contents);
    if |k.pool.free| == 1 {
      HalfThere(m1, k1, code, NoPage);
      EnterHolds(m1, k1, k', {code}, c);
    } else {
      var stack, junk := k.pool.free[1], Second(m0, k.pool);
      HoldsInv(m0, k.pool, k);
      TwoHeads(m0, k);
      SecondSized(m0, k);
      TakeMore(m1, k1, {code}, junk);
      assert m1[stack := junk] == m1;
      HalfThere(m1, TakePage(k1, junk), code, SomePage(stack));
      EnterHolds(m1, TakePage(k1, junk), k', {code} + {stack}, c);
    }
  }

  lemma MakeHalfFields(k: Kernel, c: nat, contents: Frame, junk: Frame)
    requires c < |k.procs| && 1 <= |k.pool.free| <= 2 && KERN_FIRST < k.etext < RAM_END
    ensures var code, r := k.pool.free[0], MakeUser(k, c, contents, junk);
            && r.pool == (if |k.pool.free| == 1 then Taken(k.pool) else Taken(Taken(k.pool))) && r.etext == k.etext
            && r.pool.free == []
            && r.procs == k.procs[c := Tableless(code, if |k.pool.free| == 1 then NoPage else SomePage(k.pool.free[1]))]
  {
  }

  lemma SecondSized(mem: Memory, k: Kernel)
    requires Holds(mem, k.pool, k, {}) && |k.pool.free| >= 2 && k.pool.free[1] in mem
    ensures |Second(mem, k.pool)| == PAGE_WORDS
  {
    hide InvWith, Lies;
  }

  lemma HalfThere(mem: Memory, k: Kernel, code: nat, half: MaybePage)
    requires Contents(mem, k, {code}) && (half.SomePage? ==> Contents(mem, k, {half.page}))
    ensures Contents(mem, k, Held(Tableless(code, half)))
  {
    hide FrameAt;
  }

  lemma TwoHeads(mem: Memory, k: Kernel)
    requires Holds(mem, k.pool, k, {}) && Inv(k) && |k.pool.free| >= 2
    ensures var code, stack, p1, p2 := k.pool.free[0], k.pool.free[1], Taken(k.pool), Taken(Taken(k.pool));
            && p1.free != [] && p1.free[0] == stack && code in mem && stack in mem && code != stack && code !in p1.free
            && |p2.free| == |k.pool.free| - 2 && NoDup(p2.free) && SetOfFree(p2) <= SetOfFree(k.pool)
            && code !in p2.free && stack !in p2.free
            && code in SetOfFree(k.pool) && stack in SetOfFree(k.pool) && code !in SetOfFree(p2)
            && stack !in SetOfFree(p2)
  {
    hide Inv, InvWith, Lies, Sized;
    FreeAllThere(mem, k);
  }

  lemma FreeAllThere(mem: Memory, k: Kernel)
    requires Holds(mem, k.pool, k, {}) && Inv(k)
    ensures NoDup(k.pool.free) && forall n :: 0 <= n < |k.pool.free| ==> k.pool.free[n] in mem
  {
    hide GoodImage, Exclusive, Held, Lies, Sized;
    forall n | 0 <= n < |k.pool.free| ensures k.pool.free[n] in mem { assert Managed(k.pool.free[n], k.first); }
  }

  lemma NewTreeFacts(m1: Memory, m2: Memory, pool: Pool, root: nat, g: Grown)
    requires pool.free != [] && root == pool.free[0]
             && Carried(m1[root := ZeroFrame()], Taken(pool), Empty(root), m2, g)
    ensures Represents(m2, g.t) && Nodes(g.t) <= SetOfFree(pool) && SameBut(m1, m2, Nodes(g.t))
            && (Sized(m1) ==> Sized(m2)) && m1.Keys <= m2.Keys
    ensures g.t.root == root
  {
    EmptyRep(m1, root);
    hide Represents, Apart, Nodes, Carried, Sized, ZeroFrame;
    CarriedFacts(m1[root := ZeroFrame()], Taken(pool), Empty(root), m2, g);
    CarriedKeys(m1[root := ZeroFrame()], Taken(pool), Empty(root), m2, g);
    FirstIsFree(pool);
    if Sized(m1) { ZeroFrameSized(m1, root); }
  }

  lemma MakeUserFields(k: Kernel, c: nat, contents: Frame, junk: Frame)
    requires c < |k.procs| && |k.pool.free| >= 3 && KERN_FIRST < k.etext < RAM_END
    ensures var code, stack := k.pool.free[0], k.pool.free[1];
            var g := NewTable(Taken(Taken(k.pool)), k.etext, code, stack);
            var r := MakeUser(k, c, contents, junk);
            && r.pool == (if g.pool.free == [] then g.pool else Taken(g.pool)) && r.first == k.first
            && r.etext == k.etext && |r.procs| == |k.procs|
            && r.procs == k.procs[c :=
              Image(g.t, code, stack, if g.pool.free == [] then NoPage else SomePage(g.pool.free[0]), HEAPBASE, NoMap)]
            && r.frames == (if g.pool.free == [] then k.frames[code := contents][stack := junk]
                            else k.frames[code := contents][stack := junk][g.pool.free[0] := junk])
  {
    hide NewTable;
  }

  /** Memory after make_user_proc: the new tree and the code page were free before; the new image lies there. */
  lemma MakeUserHolds(m0: Memory, m1: Memory, m2: Memory, k: Kernel, k': Kernel, c: nat, code: nat, stack: nat,
                      contents: Frame, junk: Frame, g: Grown)
    requires Holds(m0, k.pool, k, {}) && Inv(k) && c < |k.procs| && k.procs[c].NoImage?
             && |k.pool.free| >= KERNEL_PAGES + 2 && KERN_FIRST < k.etext < RAM_END
    requires code == k.pool.free[0] && stack == k.pool.free[1] && code != stack && |contents| == PAGE_WORDS
             && stack in m0 && junk == m0[stack]
    requires g == NewTable(Taken(Taken(k.pool)), k.etext, code, stack)
    requires k' == MakeUser(k, c, contents, junk) && Inv(k')
    requires m1 == m0[code := contents] && SameBut(m1, m2, Nodes(g.t)) && m1.Keys <= m2.Keys
             && (Sized(m1) ==> Sized(m2)) && Represents(m2, g.t)
    requires Nodes(g.t) <= SetOfFree(k.pool) - {code, stack} && code in SetOfFree(k.pool) && stack in SetOfFree(k.pool)
    requires k'.procs == k.procs[c := Image(g.t, code, stack, k'.procs[c].kstack, HEAPBASE, NoMap)]
             && k'.procs[c].Image? && k'.first == k.first
    ensures Holds(m2, k'.pool, k', {})
  {
    hide Holds, Inv, InvWith, MakeUser, NewTable, Represents, Sized, Nodes, SetOfFree, FrameAt, Lies, Held;
    HoldsWith(m0, k.pool, k, {});
    InvNone(k');
    SizedSet(m0, code, contents);
    NewFrames(k, k', c, contents, junk);
    var w := Nodes(g.t) + {code};
    assert SameBut(m0, m2, w);
    forall j | 0 <= j < |k.procs| && j != c ensures Lies(m2, k', j) {
      LiesAt(m0, k.pool, k, {}, j);
      FreeNotHeld(k, {}, j);
      LiesKept(m0, m2, k, k', j, w);
    }
    NewLies(m0, m2, k', c, g.t, code, stack, contents, junk, w);
    HoldsFrom(m0, m2, k, k', c);
  }

  lemma LiesAt(mem: Memory, pool: Pool, k: Kernel, loose: set<nat>, j: nat)
    requires Holds(mem, pool, k, loose) && j < |k.procs|
    ensures Lies(mem, k, j)
  {
    hide InvWith, Lies, Sized;
  }

  lemma HoldsFrom(m0: Memory, m: Memory, k: Kernel, k': Kernel, c: nat)
    requires Holds(m0, k.pool, k, {}) && InvWith(k', {}) && |k'.procs| == |k.procs| && k'.first == k.first && Sized(m)
             && m0.Keys <= m.Keys && Lies(m, k', c)
    requires forall j :: 0 <= j < |k.procs| && j != c ==> Lies(m, k', j)
    ensures Holds(m, k'.pool, k', {})
  {
    hide InvWith, Lies, Sized;
    assert forall p :: Managed(p, k.first) ==> p in m0.Keys;
  }

  /** The new frames: code and stack as given, and no page anybody holds changed. */
  lemma NewFrames(k: Kernel, k': Kernel, c: nat, contents: Frame, junk: Frame)
    requires InvWith(k, {}) && c < |k.procs| && |k.pool.free| >= 3 && KERN_FIRST < k.etext < RAM_END
             && k' == MakeUser(k, c, contents, junk)
    requires Inv(k') && k'.procs[c].Image? && k'.procs[c].code == k.pool.free[0] && k'.procs[c].stack == k.pool.free[1]
             && k.procs[c].NoImage?
    requires forall j :: 0 <= j < |k.procs| && j != c ==> k'.procs[j] == k.procs[j]
    requires |k'.procs| == |k.procs|
    ensures FrameAt(k', k.pool.free[0]) == contents && FrameAt(k', k.pool.free[1]) == junk
    ensures forall j, x :: 0 <= j < |k.procs| && j != c && x in Held(k.procs[j]) ==> FrameAt(k', x) == FrameAt(k, x)
  {
    MakeUserFields(k, c, contents, junk);
    InvImage(k', c);
    MakeUserKstack(k, c, contents, junk);
    KstackApart(k'.procs[c]);
    hide Inv, InvWith, MakeUser, NewTable, Held, GoodImage;
    forall j, x | 0 <= j < |k.procs| && j != c && x in Held(k.procs[j]) ensures FrameAt(k', x) == FrameAt(k, x) {
      FreeNotHeld(k, {}, j);
      assert x !in SetOfFree(k.pool);
      KstackPrivate(k', c, j);
    }
  }

  lemma MakeUserKstack(k: Kernel, c: nat, contents: Frame, junk: Frame)
    requires c < |k.procs| && |k.pool.free| >= 3 && KERN_FIRST < k.etext < RAM_END
    ensures var g := NewTable(Taken(Taken(k.pool)), k.etext, k.pool.free[0], k.pool.free[1]);
            MakeUser(k, c, contents, junk).procs[c].kstack
              == (if g.pool.free == [] then NoPage else SomePage(g.pool.free[0]))
  {
    hide NewTable;
  }

  lemma KstackApart(img: Image)
    requires GoodImage(img) && img.Image?
    ensures img.kstack.SomePage? ==> img.kstack.page != img.code && img.kstack.page != img.stack
    ensures img.code != img.stack
  {
    hide ShapeOk, LeavesOk, UserPages, Nodes, UserInjective;
  }

  lemma KstackPrivate(k: Kernel, c: nat, j: nat)
    requires Inv(k) && c < |k.procs| && j < |k.procs| && c != j && k.procs[c].Image?
    ensures k.procs[c].kstack.SomePage? ==> k.procs[c].kstack.page !in Held(k.procs[j])
  {
    if k.procs[c].kstack.SomePage? {
      assert k.procs[c].kstack.page in PrivatePages(k.procs[c]) by { hide Nodes; }
      hide Inv, PrivatePages, Held;
      PrivateAlone(k, c, k.procs[c].kstack.page);
    }
  }

  lemma NewLies(m0: Memory, m2: Memory, k': Kernel, c: nat, t: Table, code: nat, stack: nat, contents: Frame,
                junk: Frame, w: set<nat>)
    requires Inv(k') && Live(k', c) && k'.procs[c].t == t && k'.procs[c].code == code && k'.procs[c].stack == stack
             && Represents(m2, t)
    requires k'.procs[c].heapTop == HEAPBASE && k'.procs[c].mapped == NoMap
    requires SameBut(m0[code := contents], m2, Nodes(t)) && code !in Nodes(t) && stack !in Nodes(t) && code != stack
             && stack in m0 && m0[stack] == junk
    requires FrameAt(k', code) == contents && FrameAt(k', stack) == junk
    ensures Lies(m2, k', c)
  {
    hide Inv, Represents, Nodes, FrameAt, GoodImage;
    InvImage(k', c);
    FreshPages(k'.procs[c]);
    forall p | p in Seen(k'.procs[c]) ensures p in m2 && m2[p] == FrameAt(k', p) {
    }
  }

  lemma FreshPages(img: Image)
    requires GoodImage(img) && img.Image? && img.heapTop == HEAPBASE && img.mapped == NoMap
    ensures Seen(img) == OwnPages(img)
  {
    OnlyOwnLeaves(img);
  }

  // ---- user accesses ----

  lemma AccessBits(w: nat)
    ensures Has(w, PTE_U) <==> PermOf(w).u
    ensures Has(w, PTE_W) <==> PermOf(w).w
    ensures Has(w, PTE_R) <==> PermOf(w).r
  {
  }

  lemma NoStore(k: Kernel, i: nat, v: nat, off: nat, val: nat)
    requires Live(k, i)
    ensures !Writable(k, i, v, off) ==> StoreWord(k, i, v, off, val) == k
  {
  }

  /** A user leaf leads to a page whose contents memory holds. */
  lemma UserLeafSeen(mem: Memory, k: Kernel, i: nat, v: nat)
    requires Holds(mem, k.pool, k, {}) && Live(k, i) && v in k.procs[i].t.ptes && k.procs[i].t.ptes[v].perm.u
    ensures var p := k.procs[i].t.ptes[v].ppn;
            v < USER_TOP && p in mem && |mem[p]| == PAGE_WORDS && mem[p] == FrameAt(k, p) && p in Held(k.procs[i])
              && p !in k.pool.free && p !in Nodes(k.procs[i].t)
  {
    hide Holds, InvWith, GoodImage, FrameAt, Represents, Apart, Nodes, Held;
    HoldsWith(mem, k.pool, k, {});
    ImageIsGood(k, {}, i);
    UserBelow(k.procs[i], v);
    ImageLeaf(k, {}, i, v);
    SeenLeaf(k.procs[i], v);
    LiesFacts(mem, k.pool, k, {}, i);
    LeafHeld(k.procs[i], v);
  }

  lemma UserBelow(img: Image, v: nat)
    requires GoodImage(img) && img.Image? && v in img.t.ptes && img.t.ptes[v].perm.u
    ensures v < USER_TOP
  {
    hide TableOk, PagesApart;
    assert v == CODE_VPN || v == STACK_VPN || PlaceOk(img, v, img.t.ptes[v].perm);
  }

  lemma StoreReady(mem: Memory, k: Kernel, i: nat, v: nat, off: nat)
    requires Holds(mem, k.pool, k, {}) && Live(k, i) && v in k.procs[i].t.ptes && k.procs[i].t.ptes[v].perm.u
             && k.procs[i].t.ptes[v].perm.w && off < PAGE_WORDS
    ensures var p := k.procs[i].t.ptes[v].ppn;
            Writable(k, i, v, off) && p in mem && |mem[p]| == PAGE_WORDS && p !in k.pool.free
  {
    hide Holds, FrameAt, Nodes, Held;
    UserLeafSeen(mem, k, i, v);
  }

  /** Writing the word at the translated address is the store of the flat model. */
  lemma StoreHolds(mem: Memory, k: Kernel, i: nat, v: nat, off: nat, val: nat)
    requires Holds(mem, k.pool, k, {}) && Live(k, i) && Writable(k, i, v, off)
    ensures var p, k' := k.procs[i].t.ptes[v].ppn, StoreWord(k, i, v, off, val);
            && p in mem && off < |mem[p]| && Holds(SetEntry(mem, p, off, val), k'.pool, k', {})
            && k'.pool == k.pool && k'.etext == k.etext && k'.procs == k.procs
  {
    hide Holds, Inv, InvWith, GoodImage, FrameAt, Represents, Apart, Nodes, Held, PrivatePages, Contents, Sized,
         StoreWord, Seen;
    var p, k', img := k.procs[i].t.ptes[v].ppn, StoreWord(k, i, v, off, val), k.procs[i];
    HoldsInv(mem, k.pool, k);
    HoldsWith(mem, k.pool, k, {});
    InvImage(k, i);
    UserLeafSeen(mem, k, i, v);
    StoreInv(k, i, v, off, val);
    InvNone(k');
    StoreFrames(k, i, v, off, val);
    StoreFields(k, i, v, off, val);
    WritableIsPrivate(img, v);
    PrivateAlone(k, i, p);
    var mem' := SetEntry(mem, p, off, val);
    WroteWord(mem, p, off, val);
    LiesFacts(mem, k.pool, k, {}, i);
    RepFrame(mem, mem', img.t, {p});
    StoredLies(mem, mem', k, k', i, p);
    HoldsStep(mem, mem', k, k', i, {p}, {}, {});
  }

  lemma StoreFields(k: Kernel, i: nat, v: nat, off: nat, val: nat)
    requires Live(k, i)
    ensures var r := StoreWord(k, i, v, off, val);
            r.pool == k.pool && r.etext == k.etext && r.first == k.first && r.procs == k.procs
  {
  }

  lemma WroteWord(mem: Memory, p: nat, off: nat, val: nat)
    requires p in mem && off < |mem[p]| && Sized(mem)
    ensures var m' := SetEntry(mem, p, off, val);
            SameBut(mem, m', {p}) && Sized(m') && mem.Keys <= m'.Keys && p in m' && m'[p] == SetWord(mem[p], off, val)
  {
  }

  lemma StoredLies(mem: Memory, mem': Memory, k: Kernel, k': Kernel, i: nat, p: nat)
    requires Live(k, i) && k'.procs == k.procs && Contents(mem, k, Seen(k.procs[i])) && Represents(mem', k.procs[i].t)
    requires SameBut(mem, mem', {p}) && p in mem' && mem'[p] == FrameAt(k', p)
             && forall x :: x != p ==> FrameAt(k', x) == FrameAt(k, x)
    ensures Lies(mem', k', i)
  {
    hide Represents, FrameAt, Seen;
  }

  /** After the trees are built, before the child's trap frame is patched. */
  ghost predicate ForkHalf(m0: Memory, m: Memory, k: Kernel, k': Kernel, i: nat, c: nat, stack: nat) {
    && Live(k, i) && Live(k', i) && Live(k', c) && Represents(m, k'.procs[i].t) && Represents(m, k'.procs[c].t)
    && Nodes(k'.procs[i].t) == Nodes(k.procs[i].t)
    && stack in m && stack in k.pool.free && k.procs[i].stack in m
    && m[stack] == m[k.procs[i].stack] == FrameAt(k, k.procs[i].stack)
    && k.procs[i].stack != stack && stack !in Nodes(k'.procs[c].t) && Nodes(k'.procs[c].t) <= SetOfFree(k.pool)
    && Sized(m) && m0.Keys <= m.Keys && SameBut(m0, m, Nodes(k.procs[i].t) + Nodes(k'.procs[c].t) + {stack})
  }

  lemma ForkIsReady(mem: Memory, k: Kernel, i: nat, c: nat, off: nat)
    requires Holds(mem, k.pool, k, {}) && Live(k, i) && c < |k.procs| && k.procs[c].NoImage? && off + 32 <= PAGE_WORDS
             && k.pool.free != []
    ensures ForkReady(k, i, c, off) && Inv(k)
  {
    hide Holds, Inv, FrameAt, UserPages;
    HoldsInv(mem, k.pool, k);
    InvEtext(k);
    StackContents(mem, k, i);
  }

  /** The stack page's copy and the extra reference to the code page. */
  lemma CopiedStack(m0: Memory, k: Kernel, i: nat)
    requires Holds(m0, k.pool, k, {}) && Live(k, i) && k.pool.free != []
    requires k.procs[i].stack in m0
    ensures var stack, pool2 := k.pool.free[0], Shared(Taken(k.pool), k.procs[i].code);
            var m1 := m0[stack := m0[k.procs[i].stack]];
            && Represents(m1, k.procs[i].t) && Sized(m1) && SameBut(m0, m1, {stack}) && stack in m0
            && Apart(pool2, k.procs[i].t) && |pool2.free| == |k.pool.free| - 1 && stack !in SetOfFree(pool2)
            && SetOfFree(pool2) <= SetOfFree(k.pool)
  {
    var stack, t, pool1 := k.pool.free[0], k.procs[i].t, Taken(k.pool);
    hide Holds, Represents, Apart, Sized, Nodes, InvWith, Inv, Shared, Taken, SetOfFree, UserPages, Contents;
    HoldsInv(m0, k.pool, k);
    HeadThere(m0, k);
    LiesFacts(m0, k.pool, k, {}, i);
    SizedAt(m0, k.procs[i].stack);
    SizedSet(m0, stack, m0[k.procs[i].stack]);
    TakenApart(k.pool, t);
    HeadTaken(k.pool, t);
    TakenCount(k.pool);
    ApartShared(pool1, t, k.procs[i].code);
    SharedFree(pool1, k.procs[i].code);
    RepFrame(m0, m0[stack := m0[k.procs[i].stack]], t, {stack});
  }

  lemma ForkHalfDone(m0: Memory, m1: Memory, m2: Memory, m3: Memory, k: Kernel, k': Kernel, i: nat, c: nat, stack: nat,
                     g: Grown, s: Sharing)
    requires Holds(m0, k.pool, k, {}) && Live(k, i) && Live(k', i) && Live(k', c) && k.pool.free != []
             && stack == k.pool.free[0]
    requires k.procs[i].stack in m0 && m0[k.procs[i].stack] == FrameAt(k, k.procs[i].stack)
    requires m1 == m0[stack := m0[k.procs[i].stack]] && SameBut(m1, m2, Nodes(g.t)) && m1.Keys <= m2.Keys && Sized(m2)
    requires Nodes(g.t) + SetOfFree(g.pool) <= SetOfFree(k.pool) - {stack}
    requires Sharing2(m2, g.pool, k.procs[i].t, g.t, m3, s) && k'.procs[i].t == s.parent && k'.procs[c].t == s.child
    ensures ForkHalf(m0, m3, k, k', i, c, stack)
  {
    hide Holds, Represents, Apart, Sized, Nodes, InvWith, Inv, SetOfFree, UserPages, FrameAt, Sharing2, Held;
    HoldsInv(m0, k.pool, k);
    SharingFacts(m2, g.pool, k.procs[i].t, g.t, m3, s);
    NodesGrow(m2, g.pool, k.procs[i].t, g.t, m3, s);
    FirstIsFree(k.pool);
    StackKept(m0, m1, m2, m3, k, i, g, s, stack);
    ForkApart0(k, i, stack);
  }

  lemma HalfFactsOf(m0: Memory, m: Memory, k: Kernel, k': Kernel, i: nat, c: nat, stack: nat)
    requires ForkHalf(m0, m, k, k', i, c, stack)
    ensures stack in m && |m[stack]| == PAGE_WORDS && Live(k, i) && k.procs[i].stack in m && Sized(m)
    ensures m[stack] == m[k.procs[i].stack] == FrameAt(k, k.procs[i].stack) && k.procs[i].stack != stack
  {
    hide Represents, Nodes, FrameAt, SetOfFree;
  }

  lemma SharingRoot(m0: Memory, pool0: Pool, tp: Table, tc: Table, m: Memory, s: Sharing)
    requires Sharing2(m0, pool0, tp, tc, m, s)
    ensures s.child.root == tc.root
  {
    hide Apart, SetOfFree, Sized, Nodes, Represents;
  }

  lemma SlotsTell(slots: seq<Slot>, k: Kernel, i: nat)
    requires SlotsMatch(slots, k) && i < |slots|
    ensures |slots| == |k.procs| && slots[i] == SlotOf(k.procs[i])
  {
  }

  lemma StackNotFree(k: Kernel, i: nat, c: nat, off: nat)
    requires Inv(k) && ForkReady(k, i, c, off) && k.procs[c].NoImage? && |k.pool.free| >= FORK_MIN
    ensures k.pool.free[0] !in Cow.Fork(k, i, c, off).pool.free
  {
    hide Inv, InvWith, Cow.Fork, Held, FrameAt, Patched, SetOfFree;
    ForkIsForked(k, i, c, off);
    var k' := Cow.Fork(k, i, c, off);
    InvNone(k');
    FreeNotHeld(k', {}, c);
    OwnHeld(k'.procs[c]);
    NotInFree(k'.pool, k.pool.free[0]);
  }

  lemma NothingToShare(k: Kernel, i: nat)
    requires Live(k, i) && NoHeapLeaf(k.procs[i])
    ensures NullShareEnding(k.procs[i].t, HEAP_VPN, PageEnd(k.procs[i].heapTop)) == Returns
  {
    NullShareReturnsIff(k.procs[i].t, HEAP_VPN, PageEnd(k.procs[i].heapTop));
  }

  lemma ForkNullFields(k: Kernel, i: nat, c: nat, off: nat)
    requires Live(k, i) && c < |k.procs| && c != i && |k.pool.free| == 1 && off + 32 <= |FrameAt(k, k.procs[i].stack)|
    requires KERN_FIRST < k.etext < RAM_END
    ensures var img, stack, r := k.procs[i], k.pool.free[0], Cow.Fork(k, i, c, off);
            && r.pool == Shared(Taken(k.pool), img.code) && r.pool.free == [] && r.first == k.first
            && r.etext == k.etext
            && r.procs == k.procs[c := Tableless(img.code, SomePage(stack))]
            && r.frames == TakePage(k, Patched(FrameAt(k, img.stack), off)).frames
  {
    hide Patched, FrameAt;
  }

  /** The child's stack page, copied and not yet patched. */
  lemma NullFacts(m0: Memory, k: Kernel, i: nat, c: nat, off: nat)
    requires Holds(m0, k.pool, k, {}) && ForkReady(k, i, c, off) && |k.pool.free| == 1
    ensures var stack, from := k.pool.free[0], k.procs[i].stack;
            && from in m0 && m0[from] == FrameAt(k, from) && |m0[from]| == PAGE_WORDS && from != stack
            && Cow.Fork(k, i, c, off).pool.free == []
  {
    hide Holds, Inv, Cow.Fork, FrameAt, Held;
    HoldsInv(m0, k.pool, k);
    StackContents(m0, k, i);
    ForkNullFields(k, i, c, off);
    TakeOne(k, LostFrame());
    OwnHeld(k.procs[i]);
  }

  lemma MapBut(m: Memory, m': Memory, p: nat)
    requires SameBut(m, m', {p}) && p in m'
    ensures m' == m[p := m'[p]]
  {
    assert forall x :: x in m' <==> x in m[p := m'[p]];
  }

  /** The finished fork of a child without a table. */
  lemma ForkNullDone(m0: Memory, m': Memory, slots: seq<Slot>, k: Kernel, i: nat, c: nat, off: nat)
    requires Holds(m0, k.pool, k, {}) && ForkReady(k, i, c, off) && k.procs[c].NoImage? && |k.pool.free| == 1
             && SlotsMatch(slots, k)
    requires k.procs[i].stack in m0
    requires var stack := k.pool.free[0];
             && SameBut(m0[stack := m0[k.procs[i].stack]], m', {stack})
             && stack in m' && m'[stack] == Patched(FrameAt(k, k.procs[i].stack), off)
    ensures var r := Cow.Fork(k, i, c, off);
            && Holds(m', r.pool, r, {}) && r.etext == k.etext
            && SlotsMatch(slots[c := NoTable(k.procs[i].code, SomePage(k.pool.free[0]))], r)
  {
    hide Holds, Inv, InvWith, Held, Contents, Lies, Cow.Fork, Patched, FrameAt, Represents, UserPages, Sized;
    var k', stack, patched := Cow.Fork(k, i, c, off), k.pool.free[0], Patched(FrameAt(k, k.procs[i].stack), off);
    var k1 := TakePage(k, patched);
    HoldsInv(m0, k.pool, k);
    StackContents(m0, k, i);
    PatchedSize(FrameAt(k, k.procs[i].stack), off);
    ForkNullFields(k, i, c, off);
    ForkNullInv(k, i, c, off);
    MapBut(m0[stack := m0[k.procs[i].stack]], m', stack);
    assert m' == m0[stack := patched];
    TakeHolds(m0, k, patched);
    LiesFacts(m', k1.pool, k1, {stack}, i);
    CodeContents(m', k1, k.procs[i]);
    HalfThere(m', k1, k.procs[i].code, SomePage(stack));
    EnterHolds(m', k1, k', {stack}, c);
  }

  lemma PatchedSize(f: Frame, off: nat)
    requires off + 32 <= |f|
    ensures |Patched(f, off)| == |f|
  {
  }

  lemma CodeContents(mem: Memory, k: Kernel, img: Image)
    requires img.Image? && Contents(mem, k, Seen(img))
    ensures Contents(mem, k, {img.code})
  {
    hide FrameAt, UserPages;
    assert img.code in Seen(img);
  }

  // ---- reclaiming a slot without a table ----

  lemma FreePagePool(k: Kernel, p: nat)
    ensures FreePage(k, p).pool == Freed(k.pool, p)
  {
    hide Freed;
  }

  lemma DropHolds(mem: Memory, k: Kernel, i: nat)
    requires Holds(mem, k.pool, k, {}) && i < |k.procs|
    ensures var k1 := k.(procs := k.procs[i := NoImage]); Holds(mem, k1.pool, k1, Held(k.procs[i]))
  {
    hide InvWith, Held, Represents, UserPages, Seen, Sized;
    var k1 := k.(procs := k.procs[i := NoImage]);
    DropImage(k, i);
    FrameFields(k, k1);
    hide FrameAt;
    forall j | 0 <= j < |k1.procs| ensures Lies(mem, k1, j) {
      if j != i { assert Lies(mem, k, j); }
    }
  }

  lemma HalfFreed(k: Kernel, i: nat)
    requires Inv(k) && i < |k.procs| && k.procs[i].Tableless?
    ensures var img, k1 := k.procs[i], k.(procs := k.procs[i := NoImage]);
            && Held(img) == {img.code} + PageOrNone(img.ustack) && img.code !in PageOrNone(img.ustack)
            && Reapable(k, i, []) && Cow.FreeImage(k, i, [])
               == if img.ustack.SomePage? then FreePage(FreePage(k1, img.code), img.ustack.page)
                 else FreePage(k1, img.code)
  {
    InvImage(k, i);
    hide Inv, FreePage;
    var img, k1 := k.procs[i], k.(procs := k.procs[i := NoImage]);
    if img.ustack.SomePage? {
      assert HalfPages(img) == [img.code, img.ustack.page];
      FreeAllTwo(k1, img.code, img.ustack.page);
    } else {
      assert HalfPages(img) == [img.code];
      FreeAllOne(k1, img.code);
    }
  }

  lemma FreeAllOne(k: Kernel, p: nat)
    ensures FreeAll(k, [p]) == FreePage(k, p)
  {
    hide FreePage;
    assert [p][1..] == [];
    assert FreeAll(FreePage(k, p), []) == FreePage(k, p);
  }

  lemma FreeAllTwo(k: Kernel, p: nat, q: nat)
    ensures FreeAll(k, [p, q]) == FreePage(FreePage(k, p), q)
  {
    hide FreePage;
    assert [p, q][1..] == [q];
    FreeAllOne(FreePage(k, p), q);
  }

  /** The parent's slot is as it was, the child's describes its image. */
  lemma ForkSlots(m0: Memory, m: Memory, slots: seq<Slot>, k: Kernel, i: nat, c: nat, off: nat)
    requires SlotsMatch(slots, k) && ForkReady(k, i, c, off)
             && ForkHalf(m0, m, k, Cow.Fork(k, i, c, off), i, c, k.pool.free[0])
    requires Holds(m0, k.pool, k, {}) && k.procs[c].NoImage? && |k.pool.free| >= FORK_MIN
    ensures var r := Cow.Fork(k, i, c, off);
            r.etext == k.etext && c < |r.procs| && r.procs[c].Image? && i < |slots| && slots[i].Slot?
            && SlotsMatch(slots[c :=
              Slot(r.procs[c].t.root, slots[i].ucode, k.pool.free[0], NoPage, slots[i].heapTop, NoMap)], r)
  {
    hide Holds, Inv, Cow.Fork, NewTable, Cow.CowShare, Patched, FrameAt, ForkHalf, Shared, Taken, Shared0, SamePlaces,
         Held;
    HoldsInv(m0, k.pool, k);
    ForkFields(k, i, c, off);
    ForkIsForked(k, i, c, off);
    SamePlacesRoot(k.procs[i].t, Cow.Fork(k, i, c, off).procs[i].t);
  }

  lemma SamePlacesRoot(t: Table, t': Table)
    requires SamePlaces(t, t')
    ensures t'.root == t.root
  {
  }

  /** The finished fork in memory. */
  lemma ForkDone(m0: Memory, m: Memory, m': Memory, k: Kernel, i: nat, c: nat, off: nat)
    requires Holds(m0, k.pool, k, {}) && ForkReady(k, i, c, off) && k.procs[c].NoImage? && |k.pool.free| >= FORK_MIN
    requires ForkHalf(m0, m, k, Cow.Fork(k, i, c, off), i, c, k.pool.free[0])
    requires var stack := k.pool.free[0];
             SameBut(m, m', {stack}) && stack in m' && m'[stack] == Patched(FrameAt(k, k.procs[i].stack), off)
               && Sized(m')
    ensures Holds(m', Cow.Fork(k, i, c, off).pool, Cow.Fork(k, i, c, off), {})
  {
    hide Holds, Represents, Apart, Sized, Nodes, InvWith, Inv, SetOfFree, UserPages, FrameAt, Held, Patched, Cow.Fork,
         NewTable, Cow.CowShare, Shared0, SamePlaces;
    var k', stack := Cow.Fork(k, i, c, off), k.pool.free[0];
    HoldsInv(m0, k.pool, k);
    ForkFields(k, i, c, off);
    ForkIsForked(k, i, c, off);
    SetFrame(k, k', stack, Patched(FrameAt(k, k.procs[i].stack), off));
    ForkApart0(k, i, stack);
    RepFrame(m, m', k'.procs[i].t, {stack});
    RepFrame(m, m', k'.procs[c].t, {stack});
    assert m0.Keys <= m'.Keys by {
      forall p | p in m0.Keys ensures p in m'.Keys { assert p in m.Keys; }
    }
    ForkHolds(m0, m', k, k', i, c, stack, off, |k.pool.free| >= FORK_PAGES);
  }

  ghost predicate ForkReady(k: Kernel, i: nat, c: nat, off: nat) {
    && Live(k, i) && c < |k.procs| && c != i && k.pool.free != [] && off + 32 <= |FrameAt(k, k.procs[i].stack)|
    && KERN_FIRST < k.etext < RAM_END
  }

  lemma TakeFields(k: Kernel, contents: Frame)
    requires k.pool.free != []
    ensures var r := TakePage(k, contents);
            r.pool == Taken(k.pool) && r.procs == k.procs && r.etext == k.etext && r.first == k.first
  {
    hide Taken;
  }

  lemma FreeFields(k: Kernel, p: nat)
    ensures var r := FreePage(k, p); r.procs == k.procs && r.etext == k.etext
  {
  }

  lemma HeapFreeIs(k: Kernel, i: nat)
    requires Live(k, i)
    ensures FreeHeap(k, i) == Cow.FreeRange(k, i, HEAP_VPN, PageEnd(k.procs[i].heapTop))
  {
    hide Cow.FreeRange;
  }

  lemma ClearEtext(k: Kernel, i: nat)
    requires Live(k, i)
    ensures ClearImage(k, i).etext == k.etext && FreeMap(FreeHeap(k, i), i).etext == k.etext
  {
    hide Cow.FreeRange;
    RangeEtext(k, i, HEAP_VPN, PageEnd(k.procs[i].heapTop));
    var k1 := FreeHeap(k, i);
    MapEtext(k1.(procs := k1.procs[i := k1.procs[i].(heapTop := HEAPBASE)]), i);
    MapEtext(k1, i);
  }

  lemma MapEtext(k: Kernel, i: nat)
    requires Live(k, i)
    ensures FreeMap(k, i).etext == k.etext
  {
    if k.procs[i].mapped.MapOf? { RangeEtext(k, i, MMAP_VPN, MMAP_VPN + PageEnd(k.procs[i].mapped.size)); }
  }

  lemma SwapEtext(k: Kernel, i: nat, p: nat)
    requires Live(k, i)
    ensures SwapCode(k, i, p).etext == k.etext
  {
    hide Freed;
  }

  /** A page nobody held is still nobody's after images only let go. */
  lemma FreshApart(k: Kernel, r: Kernel, p: nat)
    requires Shrinks(k, r, {p}) && forall j :: 0 <= j < |k.procs| ==> p !in Held(k.procs[j])
    ensures forall j :: 0 <= j < |r.procs| ==> p !in Held(r.procs[j])
  {
    hide Held, FrameAt;
  }

  lemma FirstLow(img: Image)
    requires GoodImage(img) && Runs(img)
    ensures 0 in img.t.lows
  {
    LeafNode(img.t, CODE_VPN);
    assert LowKey(CODE_VPN) == 0;
  }

  lemma SameNone(m: Memory, s: set<nat>)
    ensures SameBut(m, m, s)
  {
  }

  lemma KeysBut(m: Memory, m': Memory, p: nat)
    requires SameBut(m, m', {p}) && p in m'
    ensures m.Keys <= m'.Keys
  {
    forall x | x in m.Keys ensures x in m'.Keys { assert x != p ==> x in m'; }
  }

  /** The two range frees touch only leaves. */
  lemma BKeepsFields(k: Kernel, i: nat)
    requires InvWith(k, {}) && Live(k, i)
    ensures var b := FreeMap(FreeHeap(k, i), i);
            b.procs[i] == k.procs[i].(t := b.procs[i].t) && b.procs[i].t.root == k.procs[i].t.root
              && SlotOf(b.procs[i]) == SlotOf(k.procs[i])
            && FreeHeap(k, i).procs[i] == k.procs[i].(t := FreeHeap(k, i).procs[i].t)
            && FreeHeap(k, i).procs[i].t.root == k.procs[i].t.root
  {
    hide InvWith, Held, FrameAt, FreeHeap, FreeMap, Shrinks, NoHeapLeaf, NoMapLeaf;
    FreeHeapInv(k, {}, i);
    FreeMapInv(FreeHeap(k, i), {}, i);
  }

  lemma SlotFreeable(mem: Memory, pool: Pool, k: Kernel, i: nat)
    requires Holds(mem, pool, k, {}) && Live(k, i)
    ensures forall p :: p in SlotPages(SlotOf(k.procs[i])) ==> p in mem && InRam(p) && p !in pool.free
  {
    hide Holds, Held, GoodImage, InvWith, SlotPages;
    HoldsWith(mem, pool, k, {});
    ImageIsGood(k, {}, i);
    SlotHeld(k.procs[i]);
    forall p | p in SlotPages(SlotOf(k.procs[i])) ensures p in mem && InRam(p) && p !in pool.free {
      HeldFreeable(mem, pool, k, {}, i, p);
    }
  }

  lemma StillApart(pool: Pool, pool': Pool, t: Table, s: set<nat>)
    requires Apart(pool, t) && s !! Nodes(t) && SetOfFree(pool') <= SetOfFree(pool) + s
             && (NoDup(pool.free) ==> NoDup(pool'.free))
    ensures Apart(pool', t)
  {
    hide Nodes;
    forall p | p in pool'.free ensures p !in Nodes(t) {
      assert p in SetOfFree(pool');
      assert p in SetOfFree(pool) ==> p in pool.free;
    }
  }

  lemma OwnNotNodes(img: Image)
    requires GoodImage(img) && img.Image?
    ensures SetOf(SlotPages(SlotOf(img))) !! Nodes(img.t)
  {
    hide GoodImage, Nodes, Held;
    SlotHeld(img);
  }

  lemma LastPagesIs(img: Image, order: seq<nat>)
    requires img.Image?
    ensures LastPages(img, order) == SlotPages(SlotOf(img)) + order
  {
  }

  lemma ImageFreeIs(k: Kernel, i: nat, order: seq<nat>)
    requires Live(k, i)
    ensures Cow.FreeImage(k, i, order) == FreeLast(FreeMap(FreeHeap(k, i), i), i, order)
  {
    hide FreeHeap, FreeMap, FreeAll;
  }

  lemma {:induction false} AllEtext(k: Kernel, ps: seq<nat>)
    ensures FreeAll(k, ps).etext == k.etext
    decreases |ps|
  {
    if ps != [] { AllEtext(FreePage(k, ps[0]), ps[1..]); }
  }

  lemma FreeLastEtext(k: Kernel, i: nat, order: seq<nat>)
    requires Live(k, i)
    ensures Cow.FreeImage(k, i, order).etext == k.etext
  {
    hide FreeAll, FreeHeap, FreeMap, LastPages;
    ClearEtext(k, i);
    var b := FreeMap(FreeHeap(k, i), i);
    AllEtext(b.(procs := b.procs[i := NoImage]), LastPages(b.procs[i], order));
  }

  lemma StackContents(mem: Memory, k: Kernel, i: nat)
    requires Holds(mem, k.pool, k, {}) && Live(k, i)
    ensures k.procs[i].stack in mem && mem[k.procs[i].stack] == FrameAt(k, k.procs[i].stack)
            && |FrameAt(k, k.procs[i].stack)| == PAGE_WORDS
  {
    hide Holds, FrameAt, UserPages, Represents, Apart;
    LiesFacts(mem, k.pool, k, {}, i);
    assert k.procs[i].stack in Seen(k.procs[i]);
  }

  lemma HeadThere(mem: Memory, k: Kernel)
    requires Holds(mem, k.pool, k, {}) && Inv(k) && k.pool.free != []
    ensures k.pool.free[0] in mem
  {
    hide Inv, InvWith, Lies;
    InvNone(k);
    HeadManaged(k, {});
  }

  lemma SharedFree(pool: Pool, p: nat)
    ensures Shared(pool, p).free == pool.free
  {
  }

  lemma TakenCount(pool: Pool)
    requires pool.free != []
    ensures |Taken(pool).free| == |pool.free| - 1
  {
  }

  lemma ApartNoDup(pool: Pool, t: Table)
    requires Apart(pool, t)
    ensures NoDup(pool.free)
  {
    hide Nodes;
  }

  /** The parent's stack page is untouched all along. */
  lemma StackKept(m0: Memory, m1: Memory, m2: Memory, m3: Memory, k: Kernel, i: nat, g: Grown, s: Sharing, stack: nat)
    requires Inv(k) && Live(k, i) && k.procs[i].stack in m0 && stack in k.pool.free
    requires SameBut(m0, m1, {stack}) && SameBut(m1, m2, Nodes(g.t))
             && SameBut(m2, m3, Nodes(k.procs[i].t) + Nodes(s.child))
    requires Nodes(g.t) <= SetOfFree(k.pool) && Nodes(s.child) <= SetOfFree(k.pool)
    ensures k.procs[i].stack in m3 && m3[k.procs[i].stack] == m0[k.procs[i].stack] && k.procs[i].stack != stack
  {
    hide Inv, InvWith, Nodes, Held, UserPages, SetOfFree;
    InvNone(k);
    ImageApart(k, {}, i);
    assert k.procs[i].stack in Seen(k.procs[i]);
    FreeIn(k.pool, stack);
  }

  lemma CarriedKeys(m0: Memory, pool0: Pool, t: Table, m: Memory, g: Grown)
    requires Carried(m0, pool0, t, m, g)
    ensures m0.Keys <= m.Keys
  {
    hide Apart, SetOfFree, Sized;
    assert Represents(m, g.t);
    NodesThere(m, g.t);
    hide Represents, Nodes;
    forall p | p in m0.Keys ensures p in m.Keys {
      assert p !in Nodes(g.t) ==> p in m;
    }
  }

  lemma SizedAt(m: Memory, p: nat)
    requires Sized(m) && p in m
    ensures |m[p]| == PAGE_WORDS
  {
  }

  lemma DemandEtext(k: Kernel, i: nat, v: nat, contents: Frame, perm: Perm)
    requires Live(k, i)
    ensures DemandPage(k, i, v, contents, perm).k.etext == k.etext
  {
    hide MapPage, Taken, Freed;
  }

  lemma UserFlags()
    ensures PermOfFlags(PTE_R | PTE_W | PTE_U) == RWU && PermOfFlags(PTE_R | PTE_U) == RU
  {
  }

  lemma LayoutOf(img: Image, v: nat)
    requires GoodImage(img) && img.Image?
    ensures HeapVpn(img, v) || MmapVpn(img, v) ==> v < USER_TOP && v != CODE_VPN && v != STACK_VPN
  {
    Layout(img, v);
  }

  lemma PlaceHeap(img: Image, v: nat)
    requires img.Image? && HeapVpn(img, v) && v < USER_TOP
    ensures PlaceOk(img, v, RWU)
  {
  }

  lemma PlaceMap(img: Image, v: nat)
    requires img.Image? && MmapVpn(img, v) && v < USER_TOP
    ensures PlaceOk(img, v, RU)
  {
  }

  lemma CowRefuses(k: Kernel, i: nat, v: nat)
    requires Live(k, i)
    ensures Cow.CowFault(k, i, v).handled <==> CowHandles(k, i, v)
    ensures !CowHandles(k, i, v) ==> Cow.CowFault(k, i, v) == Outcome(false, k)
  {
    hide Freed, Taken;
  }

  lemma CowFaultShape(k: Kernel, i: nat, v: nat)
    requires Live(k, i) && CowHandles(k, i, v)
    ensures var r := Cow.CowFault(k, i, v).k;
            r.etext == k.etext && r.procs == k.procs[i := k.procs[i].(t := SetPte(k.procs[i].t, v, CowCopy(k, i, v)))]
  {
    hide Freed, Taken;
  }
}
