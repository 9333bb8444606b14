/**
  Process memory of src/proc.c and src/vm.c: copy-on-write sharing at fork, demand-zero
  heap, mapped files, exec and reclamation, as operations on one kernel state.
 */
module Cow {
  import opened Kalloc
  import opened Paging
  import opened Images
  import opened ProcTable

  const FORK_PAGES: nat := TABLE_PAGES + 1
  const FORK_MIN: nat := KERNEL_PAGES + 1

  /** kern are the pages the kernel keeps for itself; managed pages start at first, kernel data at etext. */
  datatype Kernel = Kernel(pool: Pool, frames: map<nat, Frame>, procs: seq<Image>, kern: set<nat>, first: nat,
    etext: nat)

  datatype Outcome = Outcome(handled: bool, k: Kernel)

  function ZeroFrame(): (f: Frame)
    ensures |f| == 512 && forall j :: 0 <= j < 512 ==> f[j] == 0
  {
    seq(PAGE_WORDS, i => 0)
  }

  /** What a page holds once the free list has written its link into it: nothing to rely on. */
  function LostFrame(): Frame { [] }

  function FrameAt(k: Kernel, p: nat): Frame { if p in k.frames then k.frames[p] else LostFrame() }

  predicate Live(k: Kernel, i: nat) { i < |k.procs| && k.procs[i].Image? }

  // ---- building blocks ----

  /** kfree of a page, and the loss of its contents with the last reference. */
  function FreePage(k: Kernel, p: nat): Kernel {
    k.(pool := Freed(k.pool, p), frames := if Ref(k.pool, p) > 1 then k.frames else k.frames[p := LostFrame()])
  }

  /** kalloc of the head of the free list, filled with the given contents. */
  function TakePage(k: Kernel, contents: Frame): Kernel
    requires k.pool.free != []
  {
    k.(pool := Taken(k.pool), frames := k.frames[k.pool.free[0] := contents])
  }

  function WithTable(k: Kernel, i: nat, t: Table): Kernel
    requires Live(k, i)
  {
    k.(procs := k.procs[i := k.procs[i].(t := t)])
  }

  function SetPte(t: Table, v: nat, pte: Pte): Table { t.(ptes := t.ptes[v := pte]) }

  function ClearPte(t: Table, v: nat): Table { t.(ptes := t.ptes - {v}) }

  // ---- faults ----

  /** uvm_cow_fault: copy the shared page, map the copy writable, drop the reference to the old one. */
  function CowFault(k: Kernel, i: nat, v: nat): Outcome
    requires Live(k, i)
  {
    var t := k.procs[i].t;
    if v !in t.ptes || !t.ptes[v].perm.cow || k.pool.free == [] then Outcome(false, k)
    else
      var old_, fresh_ := t.ptes[v].ppn, k.pool.free[0];
      var k1 := TakePage(k, FrameAt(k, old_));
      var k2 := WithTable(k1, i, SetPte(t, v, Pte(fresh_, t.ptes[v].perm.(cow := false, w := true))));
      Outcome(true, FreePage(k2, old_))
  }

  /** kalloc, fill, uvm_map, and kfree again when the mapping fails: both demand branches of proc_pagefault. */
  function DemandPage(k: Kernel, i: nat, v: nat, contents: Frame, perm: Perm): Outcome
    requires Live(k, i)
  {
    if k.pool.free == [] then Outcome(false, k)
    else
      var p := k.pool.free[0];
      var k1 := TakePage(k, contents);
      var g := MapPage(k1.procs[i].t, k1.pool, v, Pte(p, perm));
      var k2 := WithTable(k1, i, g.t).(pool := g.pool);
      if g.ok then Outcome(true, k2) else Outcome(false, FreePage(k2, p))
  }

  /** proc_pagefault for page v; contents is what the file system would read for a mapped page. */
  function PageFault(k: Kernel, i: nat, v: nat, store: bool, contents: Frame): Outcome
    requires Live(k, i)
  {
    var c := CowFault(k, i, v);
    if store && c.handled then c
    else if HeapVpn(k.procs[i], v) then DemandPage(k, i, v, ZeroFrame(), RWU)
    else if MmapVpn(k.procs[i], v) then DemandPage(k, i, v, contents, RU)
    else Outcome(false, k)
  }

  /** A user store that the page table lets through. */
  function StoreWord(k: Kernel, i: nat, v: nat, off: nat, val: nat): Kernel
    requires Live(k, i)
  {
    var t := k.procs[i].t;
    if v in t.ptes && t.ptes[v].perm.u && t.ptes[v].perm.w && off < |FrameAt(k, t.ptes[v].ppn)|
    then k.(frames := k.frames[t.ptes[v].ppn := SetWord(FrameAt(k, t.ptes[v].ppn), off, val)])
    else k
  }

  // ---- sbrk and mmap ----

  function Sbrk(k: Kernel, i: nat, n: int): Kernel
    requires Live(k, i)
  {
    if n > 0 then k.(procs := k.procs[i := k.procs[i].(heapTop := k.procs[i].heapTop + n)]) else k
  }

  function Mmap(k: Kernel, i: nat, size: nat): Kernel
    requires Live(k, i)
  {
    k.(procs := k.procs[i := k.procs[i].(mapped := MapOf(size))])
  }

  // ---- reclamation ----

  /** One turn of vm_free_range: give page v back if it is mapped. */
  function FreeLeaf(k: Kernel, i: nat, v: nat): (r: Kernel)
    requires Live(k, i)
    ensures Live(r, i) && |r.procs| == |k.procs|
  {
    var t := k.procs[i].t;
    if v in t.ptes then FreePage(WithTable(k, i, ClearPte(t, v)), t.ptes[v].ppn) else k
  }

  /** vm_free_range over the pages [v, end). */
  function FreeRange(k: Kernel, i: nat, v: nat, end: nat): (r: Kernel)
    requires Live(k, i)
    ensures Live(r, i) && |r.procs| == |k.procs|
    decreases end - v
  {
    if v >= end then k else FreeRange(FreeLeaf(k, i, v), i, v + 1, end)
  }

  function FreeHeap(k: Kernel, i: nat): (r: Kernel)
    requires Live(k, i)
    ensures Live(r, i) && |r.procs| == |k.procs|
  {
    FreeRange(k, i, HEAP_VPN, PageEnd(k.procs[i].heapTop))
  }

  function FreeMap(k: Kernel, i: nat): (r: Kernel)
    requires Live(k, i)
    ensures Live(r, i) && |r.procs| == |k.procs|
  {
    if k.procs[i].mapped.MapOf? then FreeRange(k, i, MMAP_VPN, MMAP_VPN + PageEnd(k.procs[i].mapped.size)) else k
  }

  function FreeAll(k: Kernel, ps: seq<nat>): Kernel
    decreases |ps|
  {
    if ps == [] then k else FreeAll(FreePage(k, ps[0]), ps[1..])
  }

  /** The pages proc_freeimage gives back after the two ranges; nodes in the order freewalk visits them. */
  function LastPages(img: Image, order: seq<nat>): seq<nat>
    requires img.Image?
  {
    [img.code, img.stack] + (if img.kstack.SomePage? then [img.kstack.page] else []) + order
  }

  predicate Occupied(k: Kernel, i: nat) { i < |k.procs| && !k.procs[i].NoImage? }

  /** What proc_freeimage gives back of an image whose page table is null. */
  function HalfPages(img: Image): seq<nat>
    requires img.Tableless?
  {
    [img.code] + (if img.ustack.SomePage? then [img.ustack.page] else [])
  }

  /** proc_freeimage, called by the parent's wait. */
  function FreeImage(k: Kernel, i: nat, order: seq<nat>): Kernel
    requires Occupied(k, i)
  {
    if k.procs[i].Tableless? then FreeAll(k.(procs := k.procs[i := NoImage]), HalfPages(k.procs[i]))
    else FreeWhole(k, i, order)
  }

  /** The same for an image with a page table; order lists its nodes. */
  function FreeWhole(k: Kernel, i: nat, order: seq<nat>): Kernel
    requires Live(k, i)
  {
    var k1 := FreeMap(FreeHeap(k, i), i);
    FreeAll(k1.(procs := k1.procs[i := NoImage]), LastPages(k1.procs[i], order))
  }

  /** The old program's heap and mapping go back to the allocator. */
  function ClearImage(k: Kernel, i: nat): (r: Kernel)
    requires Live(k, i)
    ensures Live(r, i) && |r.procs| == |k.procs|
  {
    var k1 := FreeHeap(k, i);
    FreeMap(k1.(procs := k1.procs[i := k1.procs[i].(heapTop := HEAPBASE)]), i)
  }

  /** remap_user_code to page p, and kfree of the old code page. */
  function SwapCode(k: Kernel, i: nat, p: nat): Kernel
    requires Live(k, i)
  {
    var img := k.procs[i];
    var img' := img.(mapped := NoMap, code := p, t := SetPte(img.t, CODE_VPN, Pte(p, RXU)));
    FreePage(k.(procs := k.procs[i := img']), img.code)
  }

  /** proc_exec from the point where the file is read: contents is the loaded code page, or loading failed. */
  function Exec(k: Kernel, i: nat, loaded: bool, contents: Frame): Kernel
    requires Live(k, i) && k.pool.free != []
  {
    var p := k.pool.free[0];
    var k1 := TakePage(k, contents);
    if loaded then SwapCode(ClearImage(k1, i), i, p) else FreePage(k1, p)
  }

  // ---- fork ----

  function CowPerm(p: Perm): Perm { if p.w then p.(w := false, cow := true) else p }

  datatype Sharing = Sharing(ok: bool, parent: Table, child: Table, pool: Pool)

  /** uvm_cow_share over the pages [v, end): both tables end up read-only on every shared page. */
  function CowShare(parent: Table, child: Table, pool: Pool, v: nat, end: nat): Sharing
    decreases end - v
  {
    if v >= end then Sharing(true, parent, child, pool)
    else if v !in parent.ptes then CowShare(parent, child, pool, v + 1, end)
    else
      var pte := Pte(parent.ptes[v].ppn, CowPerm(parent.ptes[v].perm));
      var parent' := SetPte(parent, v, pte);
      var g := MapPage(child, pool, v, pte);
      if !g.ok then Sharing(false, parent', g.t, g.pool)
      else CowShare(parent', g.t, Shared(g.pool, pte.ppn), v + 1, end)
  }

  /** The child's copy of the stack page: its trap frame returns 0 and resumes after the ecall. */
  function Patched(stack: Frame, off: nat): Frame
    requires off + 32 <= |stack|
  {
    stack[off + 8 := 0][off + 30 := (stack[off + 30] + 4) % 0x1_0000_0000_0000_0000]
  }

  /** proc_fork once it has a free slot c; off is the trap frame's word offset in the stack page. */
  function Fork(k: Kernel, i: nat, c: nat, off: nat): Kernel
    requires Live(k, i) && c < |k.procs| && c != i && k.pool.free != []
    requires off + 32 <= |FrameAt(k, k.procs[i].stack)| && KERN_FIRST < k.etext < RAM_END
  {
    if |k.pool.free| == 1 then ForkNull(k, i, c, off) else ForkBuilt(k, i, c, off)
  }

  /** fork where proc_pagetable finds a page for the root. */
  function ForkBuilt(k: Kernel, i: nat, c: nat, off: nat): Kernel
    requires Live(k, i) && c < |k.procs| && c != i && k.pool.free != []
    requires off + 32 <= |FrameAt(k, k.procs[i].stack)| && KERN_FIRST < k.etext < RAM_END
  {
    var img := k.procs[i];
    var stack := k.pool.free[0];
    var k1 := TakePage(k, Patched(FrameAt(k, img.stack), off));
    var g := NewTable(Shared(k1.pool, img.code), k.etext, img.code, stack);
    var s := CowShare(img.t, g.t, g.pool, HEAP_VPN, PageEnd(img.heapTop));
    var child := Image(s.child, img.code, stack, NoPage, img.heapTop, NoMap);
    k1.(pool := s.pool, procs := k.procs[i := img.(t := s.parent)][c := child])
  }

  /** fork where proc_pagetable returns null and there is no heap page to share: the child has no table. */
  function ForkNull(k: Kernel, i: nat, c: nat, off: nat): Kernel
    requires Live(k, i) && c < |k.procs| && k.pool.free != [] && off + 32 <= |FrameAt(k, k.procs[i].stack)|
  {
    var img := k.procs[i];
    var stack := k.pool.free[0];
    var k1 := TakePage(k, Patched(FrameAt(k, img.stack), off));
    k1.(pool := Shared(k1.pool, img.code), procs := k.procs[c := Tableless(img.code, SomePage(stack))])
  }

  /** Calls that test neither kalloc nor proc_pagetable return, use a null pointer, or hang in kvmmap. */
  datatype Ending = Returns | NullAccess | Hangs

  /** uvm_cow_share with a null child: the first mapped page makes mappages walk the null table. */
  function NullShareEnding(parent: Table, v: nat, end: nat): Ending
    decreases end - v
  {
    if v >= end then Returns else if v in parent.ptes then NullAccess else NullShareEnding(parent, v + 1, end)
  }

  /** How proc_fork comes out, branch by branch. */
  function ForkEnding(k: Kernel, i: nat): Ending
    requires Live(k, i) && KERN_FIRST < k.etext < RAM_END
  {
    if k.pool.free == [] then NullAccess
    else
      var img := k.procs[i];
      var pool := Shared(Taken(k.pool), img.code);
      if pool.free == [] then NullShareEnding(img.t, HEAP_VPN, PageEnd(img.heapTop))
      else if NewTable(pool, k.etext, img.code, k.pool.free[0]).ok then Returns
      else Hangs
  }

  ghost predicate NoHeapLeaf(img: Image)
    requires img.Image?
  {
    forall v :: HeapVpn(img, v) ==> v !in img.t.ptes
  }

  /** Enough pages for the child's table, or just one and nothing to share. */
  ghost predicate ForkReturns(k: Kernel, i: nat)
    requires Live(k, i)
  {
    |k.pool.free| >= FORK_MIN || (|k.pool.free| == 1 && NoHeapLeaf(k.procs[i]))
  }

  // ---- what every reachable state satisfies ----

  /** A page one image may write to, or keeps for itself, is held by no other image. */
  ghost predicate Exclusive(procs: seq<Image>) {
    forall i, j, p :: 0 <= i < |procs| && 0 <= j < |procs| && i != j && p in PrivatePages(procs[i]) ==>
      p !in Held(procs[j])
  }

  ghost predicate Inv(k: Kernel) {
    && Acct(k.pool, k.first, k.procs, k.kern)
    && KERN_FIRST < k.etext < RAM_END
    && (forall i :: 0 <= i < |k.procs| ==> GoodImage(k.procs[i]))
    && (forall i :: 0 <= i < |k.procs| ==> k.kern !! Held(k.procs[i]))
    && Exclusive(k.procs)
  }
}
