/**
  Process images and the accounting of physical pages: who holds which page, and what
  each allocator call does to the rule "reference count = number of holders".
 */
module Images {
  import opened Kalloc
  import opened Paging

  const NPROC: nat := 8
  const CODE_VPN: nat := 1
  const STACK_VPN: nat := 4
  const HEAP_VPN: nat := 0x10
  const MMAP_VPN: nat := 0x100
  const HEAPBASE: nat := 0x1_0000
  const MMAPBASE: nat := 0x10_0000
  const USER_TOP: nat := 0xc000   // the lowest kernel mapping, the PLIC, starts here
  const MAX_MMAP: nat := 0x40_0000   // no file is larger than the disk's 8192 blocks

  const RXU: Perm := Perm(true, false, true, true, false)
  const RWU: Perm := Perm(true, true, false, true, false)
  const RU: Perm := Perm(true, false, false, true, false)

  datatype MaybePage = NoPage | SomePage(page: nat)
  datatype MaybeSize = NoMap | MapOf(size: nat)

  /**
    The memory half of struct proc.  NoImage is a slot whose resources have been freed;
    Tableless is one whose page table is null, because nothing was left when
    proc_pagetable was called.
   */
  datatype Image = NoImage
                 | Tableless(code: nat, ustack: MaybePage)
                 | Image(t: Table, code: nat, stack: nat, kstack: MaybePage, heapTop: nat, mapped: MaybeSize)

  function PageEnd(bytes: nat): nat { (bytes + 4095) / 4096 }

  predicate HeapVpn(img: Image, v: nat)
    requires img.Image?
  {
    HEAP_VPN <= v < PageEnd(img.heapTop)
  }

  predicate MmapVpn(img: Image, v: nat)
    requires img.Image?
  {
    img.mapped.MapOf? && MMAP_VPN <= v < MMAP_VPN + PageEnd(img.mapped.size)
  }

  /** The user part of a table: everything below the kernel's identity map. */
  predicate UserLeaf(t: Table, v: nat) { v in t.ptes && v < USER_TOP }

  function UserPages(t: Table): set<nat> { set v | v in t.ptes && v < USER_TOP :: t.ptes[v].ppn }

  function PageOrNone(p: MaybePage): set<nat> { if p.SomePage? then {p.page} else {} }

  function KstackPages(img: Image): set<nat>
    requires img.Image?
  {
    PageOrNone(img.kstack)
  }

  /** Code and stack page belong to the image through the fields that name them, mapped or not. */
  function OwnPages(img: Image): set<nat>
    requires img.Image?
  {
    {img.code, img.stack}
  }

  /** The pages an image holds a reference to. */
  function Held(img: Image): set<nat> {
    if img.NoImage? then {}
    else if img.Tableless? then {img.code} + PageOrNone(img.ustack)
    else Nodes(img.t) + UserPages(img.t) + KstackPages(img) + OwnPages(img)
  }

  /** User pages no other image may hold: the stack, mapped file pages and every writable page. */
  predicate Sharable(t: Table, v: nat)
    requires v in t.ptes
  {
    v == CODE_VPN || (HEAP_VPN <= v < MMAP_VPN && t.ptes[v].perm.cow)
  }

  function PrivatePages(img: Image): set<nat> {
    if img.NoImage? then {}
    else if img.Tableless? then PageOrNone(img.ustack)
    else Nodes(img.t) + KstackPages(img) + {img.stack}
         + (set v | v in img.t.ptes && v < USER_TOP && !Sharable(img.t, v) :: img.t.ptes[v].ppn)
  }

  ghost predicate UserInjective(t: Table) {
    forall v, w :: UserLeaf(t, v) && UserLeaf(t, w) && t.ptes[v].ppn == t.ptes[w].ppn ==> v == w
  }

  /** A well-formed tree, and bounds on the growing regions. */
  ghost predicate ShapeOk(img: Image)
    requires img.Image?
  {
    && TableOk(img.t)
    && HEAPBASE <= img.heapTop <= MMAPBASE
    && (img.mapped.MapOf? ==> img.mapped.size <= MAX_MMAP)
  }

  /** Every leaf is in its place with the permissions of that place. */
  ghost predicate LeavesOk(img: Image)
    requires img.Image?
  {
    && (CODE_VPN in img.t.ptes ==> img.t.ptes[CODE_VPN] == Pte(img.code, RXU))
    && (STACK_VPN in img.t.ptes ==> img.t.ptes[STACK_VPN] == Pte(img.stack, RWU))
    && forall v :: v in img.t.ptes && v != CODE_VPN && v != STACK_VPN ==> PlaceOk(img, v, img.t.ptes[v].perm)
  }

  /** The image can run: its code and stack are mapped.  A fork that runs out of pages can leave a child that cannot. */
  predicate Runs(img: Image) { img.Image? && CODE_VPN in img.t.ptes && STACK_VPN in img.t.ptes }

  predicate PlaceOk(img: Image, v: nat, perm: Perm)
    requires img.Image?
  {
    if v >= USER_TOP then KernelPerm(perm)
    else (HeapVpn(img, v) && HeapPerm(perm)) || (MmapVpn(img, v) && perm == RU)
  }

  /** No page serves twice in one image. */
  ghost predicate PagesApart(img: Image)
    requires img.Image?
  {
    && UserInjective(img.t)
    && UserPages(img.t) !! Nodes(img.t)
    && KstackPages(img) !! UserPages(img.t) + Nodes(img.t) + OwnPages(img)
    && img.code != img.stack && OwnPages(img) !! Nodes(img.t)
    && (forall v :: UserLeaf(img.t, v) && img.t.ptes[v].ppn == img.code ==> v == CODE_VPN)
    && (forall v :: UserLeaf(img.t, v) && img.t.ptes[v].ppn == img.stack ==> v == STACK_VPN)
  }

  /** What proc.c keeps of every live image. */
  ghost predicate GoodImage(img: Image) {
    && (img.Image? ==> ShapeOk(img) && LeavesOk(img) && PagesApart(img))
    && (img.Tableless? ==> img.code !in PageOrNone(img.ustack))
  }

  /** A heap page is readable, and either writable or marked copy-on-write. */
  predicate HeapPerm(p: Perm) { p.r && p.u && !p.x && p.w != p.cow }

  /** The identity map of the kernel is out of reach for user mode and never copy-on-write. */
  predicate KernelPerm(p: Perm) { p.r && !p.u && !p.cow }

  // ---- counting holders ----

  function One(b: bool): nat { if b then 1 else 0 }

  function Holders(procs: seq<Image>, p: nat): nat {
    if procs == [] then 0 else One(p in Held(procs[0])) + Holders(procs[1..], p)
  }

  lemma {:induction false} HoldersUpdate(procs: seq<Image>, i: nat, img: Image, p: nat)
    requires i < |procs|
    ensures Holders(procs[i := img], p) + One(p in Held(procs[i])) == Holders(procs, p) + One(p in Held(img))
  {
    var r := procs[i := img];
    if i == 0 {
      assert r[1..] == procs[1..];
    } else {
      assert r[1..] == procs[1..][i - 1 := img];
      HoldersUpdate(procs[1..], i - 1, img, p);
    }
  }

  lemma {:induction false} HoldersBound(procs: seq<Image>, p: nat)
    ensures Holders(procs, p) <= |procs|
    ensures forall i :: 0 <= i < |procs| && p in Held(procs[i]) ==> Holders(procs, p) >= 1
  {
    if procs != [] {
      HoldersBound(procs[1..], p);
    }
  }

  lemma {:induction false} HoldersZero(procs: seq<Image>, p: nat)
    requires forall i :: 0 <= i < |procs| ==> p !in Held(procs[i])
    ensures Holders(procs, p) == 0
  {
    if procs != [] {
      HoldersZero(procs[1..], p);
    }
  }

  // ---- accounting ----

  /**
    Exact reference counts: the count of every managed page is the number of images that
    hold it, plus one when the page is in loose: held by the kernel itself or in flight
    inside a system call.  A page is on the free list, once, iff its count is zero.
   */
  ghost predicate Acct(pool: Pool, first: nat, procs: seq<Image>, loose: set<nat>) {
    && GoodPool(pool, first) && |procs| == NPROC
    && (forall p :: p in loose ==> Managed(p, first))
    && (forall i, p :: 0 <= i < |procs| && p in Held(procs[i]) ==> Managed(p, first))
    && (forall p :: Managed(p, first) ==> Ref(pool, p) == Holders(procs, p) + One(p in loose))
  }

  /** The page kalloc gives is held by nobody. */
  lemma AllocAcct(pool: Pool, first: nat, procs: seq<Image>, loose: set<nat>)
    requires Acct(pool, first, procs, loose) && pool.free != []
    ensures var p := pool.free[0];
            && Managed(p, first) && p !in loose && (forall i :: 0 <= i < |procs| ==> p !in Held(procs[i]))
            && Acct(Taken(pool), first, procs, loose + {p})
  {
    TakenGood(pool, first);
    HoldersBound(procs, pool.free[0]);
  }

  lemma FreeAcct(pool: Pool, first: nat, procs: seq<Image>, loose: set<nat>, p: nat)
    requires Acct(pool, first, procs, loose) && p in loose
    ensures Managed(p, first) && Acct(Freed(pool, p), first, procs, loose - {p})
    ensures Ref(pool, p) <= 1 ==> forall i :: 0 <= i < |procs| ==> p !in Held(procs[i])
  {
    FreedGood(pool, first, p);
    HoldersBound(procs, p);
  }

  /** Taking one more reference never wraps the 8-bit counter: there are only NPROC images. */
  lemma ShareAcct(pool: Pool, first: nat, procs: seq<Image>, loose: set<nat>, i: nat, p: nat)
    requires Acct(pool, first, procs, loose) && i < |procs| && p in Held(procs[i]) && p !in loose
    ensures Managed(p, first) && Acct(Shared(pool, p), first, procs, loose + {p})
  {
    HoldersBound(procs, p);
    SharedGood(pool, first, p);
  }

  /** Pages move between an image and the in-flight set without any count changing. */
  lemma MoveAcct(pool: Pool, first: nat, procs: seq<Image>, loose: set<nat>, i: nat, img: Image, loose': set<nat>)
    requires Acct(pool, first, procs, loose) && i < |procs|
    requires forall p :: One(p in Held(img)) + One(p in loose') == One(p in Held(procs[i])) + One(p in loose)
    ensures Acct(pool, first, procs[i := img], loose')
  {
    var r := procs[i := img];
    forall p | Managed(p, first) ensures Ref(pool, p) == Holders(r, p) + One(p in loose') {
      HoldersUpdate(procs, i, img, p);
    }
    forall p | p in loose' || p in Held(img) ensures Managed(p, first) {
      assert p in loose || p in Held(procs[i]);
    }
    forall j, p | 0 <= j < |r| && p in Held(r[j]) ensures Managed(p, first) {
      if j != i { assert p in Held(procs[j]); }
    }
  }

  /** No page's count ever exceeds one per slot plus one. */
  lemma CountBound(pool: Pool, first: nat, procs: seq<Image>, loose: set<nat>, p: nat)
    requires Acct(pool, first, procs, loose) && Managed(p, first)
    ensures Ref(pool, p) <= NPROC + 1 < 256
  {
    HoldersBound(procs, p);
  }

  // ---- tables under construction ----

  /** Every node of the table is accounted for: in flight or held by slot i. */
  ghost predicate NodesKnown(t: Table, procs: seq<Image>, loose: set<nat>) {
    forall p :: p in Nodes(t) ==> p in loose || exists i :: 0 <= i < |procs| && p in Held(procs[i])
  }

  /** g's table is t with nodes added that were pages nobody held and are now in flight. */
  ghost predicate Extends(t: Table, g: Grown, first: nat, procs: seq<Image>, loose: set<nat>) {
    var more := Nodes(g.t) - Nodes(t);
    && TableOk(g.t) && g.t.root == t.root && Nodes(t) <= Nodes(g.t)
    && t.mids.Keys <= g.t.mids.Keys && t.lows.Keys <= g.t.lows.Keys
    && more !! loose && (forall i :: 0 <= i < |procs| ==> more !! Held(procs[i]))
    && Acct(g.pool, first, procs, loose + more)
  }

  lemma MidExtends(t: Table, pool: Pool, vpn: nat, first: nat, procs: seq<Image>, loose: set<nat>)
    requires Acct(pool, first, procs, loose) && TableOk(t) && NodesKnown(t, procs, loose)
    ensures Extends(t, WalkMid(t, pool, vpn), first, procs, loose)
    ensures WalkMid(t, pool, vpn).t.ptes == t.ptes
  {
    if pool.free != [] { AllocAcct(pool, first, procs, loose); }
    HangMid(t, pool, vpn);
    var g := WalkMid(t, pool, vpn);
    assert loose + (Nodes(g.t) - Nodes(t)) == if g.pool == pool then loose else loose + {pool.free[0]};
  }

  lemma LowExtends(t: Table, pool: Pool, vpn: nat, first: nat, procs: seq<Image>, loose: set<nat>)
    requires Acct(pool, first, procs, loose) && TableOk(t) && NodesKnown(t, procs, loose) && MidKey(vpn) in t.mids
    ensures Extends(t, WalkLow(t, pool, vpn), first, procs, loose)
    ensures WalkLow(t, pool, vpn).t.ptes == t.ptes
  {
    if pool.free != [] { AllocAcct(pool, first, procs, loose); }
    HangLow(t, pool, vpn);
    var g := WalkLow(t, pool, vpn);
    assert loose + (Nodes(g.t) - Nodes(t)) == if g.pool == pool then loose else loose + {pool.free[0]};
  }

  lemma ExtendsTrans(t: Table, g: Grown, h: Grown, first: nat, procs: seq<Image>, loose: set<nat>)
    requires Extends(t, g, first, procs, loose)
    requires Extends(g.t, h, first, procs, loose + (Nodes(g.t) - Nodes(t)))
    ensures Extends(t, h, first, procs, loose)
  {
    assert loose + (Nodes(h.t) - Nodes(t)) == (loose + (Nodes(g.t) - Nodes(t))) + (Nodes(h.t) - Nodes(g.t));
  }

  /** walk takes its nodes from pages nobody holds and keeps the tree well formed. */
  lemma WalkExtends(t: Table, pool: Pool, vpn: nat, first: nat, procs: seq<Image>, loose: set<nat>)
    requires Acct(pool, first, procs, loose) && TableOk(t) && NodesKnown(t, procs, loose)
    ensures Extends(t, Walk(t, pool, vpn), first, procs, loose)
    ensures Walk(t, pool, vpn).t.ptes == t.ptes
  {
    hide WalkMid, WalkLow;
    var g := WalkMid(t, pool, vpn);
    MidExtends(t, pool, vpn, first, procs, loose);
    if g.ok {
      MidReaches(t, pool, vpn);
      LowExtends(g.t, g.pool, vpn, first, procs, loose + (Nodes(g.t) - Nodes(t)));
      ExtendsTrans(t, g, WalkLow(g.t, g.pool, vpn), first, procs, loose);
    }
  }

  lemma MapPageExtends(t: Table, pool: Pool, vpn: nat, pte: Pte, first: nat, procs: seq<Image>, loose: set<nat>)
    requires Acct(pool, first, procs, loose) && TableOk(t) && NodesKnown(t, procs, loose)
    ensures Extends(t, MapPage(t, pool, vpn, pte), first, procs, loose)
  {
    hide Walk;
    var g, h := Walk(t, pool, vpn), MapPage(t, pool, vpn, pte);
    WalkExtends(t, pool, vpn, first, procs, loose);
    if h.ok {
      WalkReaches(t, pool, vpn);
      assert h == g.(t := g.t.(ptes := g.t.ptes[vpn := pte])) && Nodes(h.t) == Nodes(g.t);
    } else {
      assert h == g.(ok := false);
    }
  }

  lemma ExtendsKnown(t: Table, g: Grown, first: nat, procs: seq<Image>, loose: set<nat>)
    requires Extends(t, g, first, procs, loose) && NodesKnown(t, procs, loose)
    ensures var more := Nodes(g.t) - Nodes(t);
            Acct(g.pool, first, procs, loose + more) && TableOk(g.t) && NodesKnown(g.t, procs, loose + more)
  {
    hide Acct, TableOk, Held, Nodes;
  }

  lemma ExtendsNone(t: Table, pool: Pool, first: nat, procs: seq<Image>, loose: set<nat>)
    requires Acct(pool, first, procs, loose) && TableOk(t)
    ensures Extends(t, Grown(true, t, pool), first, procs, loose)
  {
    hide Acct, TableOk, Held, Nodes;
    assert loose + (Nodes(t) - Nodes(t)) == loose;
  }

  lemma {:induction false} MapPagesExtends(t: Table, pool: Pool, vpn: nat, n: nat, ppn: nat, perm: Perm,
                                           first: nat, procs: seq<Image>, loose: set<nat>)
    requires Acct(pool, first, procs, loose) && TableOk(t) && NodesKnown(t, procs, loose)
    ensures Extends(t, MapPages(t, pool, vpn, n, ppn, perm), first, procs, loose)
    decreases n
  {
    hide *;
    MapPagesStep(t, pool, vpn, n, ppn, perm);
    if n > 0 {
      var g := MapPage(t, pool, vpn, Pte(ppn, perm));
      MapPageExtends(t, pool, vpn, Pte(ppn, perm), first, procs, loose);
      if g.ok {
        ExtendsKnown(t, g, first, procs, loose);
        MapPagesExtends(g.t, g.pool, vpn + 1, n - 1, ppn + 1, perm, first, procs, loose + (Nodes(g.t) - Nodes(t)));
        ExtendsTrans(t, g, MapPages(g.t, g.pool, vpn + 1, n - 1, ppn + 1, perm), first, procs, loose);
      }
    } else {
      ExtendsNone(t, pool, first, procs, loose);
    }
  }
}
