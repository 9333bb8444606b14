/**
  The state after boot: no process yet, then the first user process of make_user_proc.
  With the runs of module CowRuns this grounds the invariant in a state the code starts in.
 */
module CowBoot {
  import opened Kalloc
  import opened Paging
  import opened Images
  import opened ProcTable
  import opened Cow
  import opened CowSafety
  import opened CowFork
  import opened CowRefine

  /** Eight unused slots; the kernel has taken some pages for itself. */
  ghost predicate Booted(k: Kernel) {
    && GoodPool(k.pool, k.first) && KERN_FIRST < k.etext < RAM_END
    && |k.procs| == NPROC && (forall i :: 0 <= i < NPROC ==> k.procs[i] == NoImage)
    && (forall p :: p in k.kern ==> Managed(p, k.first))
    && (forall p :: Managed(p, k.first) ==> Ref(k.pool, p) == One(p in k.kern))
  }

  /** What kinit leaves is such a state, with nothing taken yet. */
  lemma KinitBoots(pool: Pool, first: nat, etext: nat)
    requires GoodPool(pool, first) && KERN_FIRST < etext < RAM_END && forall i :: 0 <= i < NPAGES ==> pool.ref[i] == 0
    ensures Booted(Kernel(pool, map[], seq(NPROC, i => NoImage), {}, first, etext))
  {
    forall p: nat | Managed(p, first) ensures Ref(pool, p) == 0 {
      assert pool.ref[p - RAM_FIRST] == 0;
    }
  }

  lemma BootInv(k: Kernel)
    requires Booted(k)
    ensures Inv(k) && |k.procs| == 8
  {
    forall p ensures Holders(k.procs, p) == 0 {
      HoldersZero(k.procs, p);
    }
  }

  /** make_user_proc in slot c; what the two stacks held before is left in them. */
  function MakeUser(k: Kernel, c: nat, contents: Frame, junk: Frame): Kernel
    requires c < |k.procs| && k.pool.free != [] && KERN_FIRST < k.etext < RAM_END
  {
    if |k.pool.free| <= 2 then MakeHalf(k, c, contents, junk) else MakeWhole(k, c, contents, junk)
  }

  /** One or two pages: proc_pagetable returns null, and with one page so does the kalloc for the stack. */
  function MakeHalf(k: Kernel, c: nat, contents: Frame, junk: Frame): Kernel
    requires c < |k.procs| && 1 <= |k.pool.free| <= 2
  {
    var code, k1 := k.pool.free[0], TakePage(k, contents);
    if k1.pool.free == [] then k1.(procs := k1.procs[c := Tableless(code, NoPage)])
    else TakePage(k1, junk).(procs := k1.procs[c := Tableless(code, SomePage(k1.pool.free[0]))])
  }

  /** A page is left for the root of the table. */
  function MakeWhole(k: Kernel, c: nat, contents: Frame, junk: Frame): Kernel
    requires c < |k.procs| && |k.pool.free| >= 2 && KERN_FIRST < k.etext < RAM_END
  {
    var code, stack := k.pool.free[0], k.pool.free[1];
    var k2 := TakePage(TakePage(k, contents), junk);
    var g := NewTable(k2.pool, k.etext, code, stack);
    var k3 := k2.(pool := g.pool);
    var kstack := if g.pool.free == [] then NoPage else SomePage(g.pool.free[0]);
    var k4 := if g.pool.free == [] then k3 else TakePage(k3, junk);
    k4.(procs := k4.procs[c := Image(g.t, code, stack, kstack, HEAPBASE, NoMap)])
  }

  /** How make_user_proc comes out, branch by branch: the first page is zeroed untested, the others only stored. */
  function MakeUserEnding(k: Kernel): Ending
    requires KERN_FIRST < k.etext < RAM_END
  {
    if k.pool.free == [] then NullAccess
    else
      var pool1 := Taken(k.pool);
      var stack := if pool1.free == [] then 0 else pool1.free[0];
      var pool2 := if pool1.free == [] then pool1 else Taken(pool1);
      if pool2.free == [] || NewTable(pool2, k.etext, k.pool.free[0], stack).ok then Returns else Hangs
  }

  /** Enough pages for the table, or so few that none is left for its root. */
  predicate MakeUserReturns(k: Kernel) { |k.pool.free| >= KERNEL_PAGES + 2 || 1 <= |k.pool.free| <= 2 }

  lemma MakeUserReturnsIff(k: Kernel)
    requires KERN_FIRST < k.etext < RAM_END
    ensures MakeUserEnding(k) == Returns <==> MakeUserReturns(k)
    ensures MakeUserEnding(k) == Hangs <==> 3 <= |k.pool.free| < KERNEL_PAGES + 2
  {
    hide NewTable;
    if |k.pool.free| >= 3 {
      var pool2 := Taken(Taken(k.pool));
      assert |pool2.free| == |k.pool.free| - 2;
      NewTableOkIff(pool2, k.etext, k.pool.free[0], Taken(k.pool).free[0]);
    }
  }

  /** The user part of a new table: code and stack, or nothing when the pages did not last. */
  ghost predicate UserPart(t: Table, code: nat, stack: nat) {
    && (CODE_VPN in t.ptes ==> t.ptes[CODE_VPN] == Pte(code, RXU))
    && (STACK_VPN in t.ptes ==> t.ptes[STACK_VPN] == Pte(stack, RWU))
    && (forall v :: UserLeaf(t, v) ==> v == CODE_VPN || v == STACK_VPN)
    && (forall v :: v in t.ptes && v >= USER_TOP ==> KernelPerm(t.ptes[v].perm))
  }

  lemma UserPartPages(t: Table, code: nat, stack: nat)
    requires UserPart(t, code, stack) && code != stack
    ensures UserPages(t) <= {code, stack} && UserInjective(t)
    ensures forall v :: UserLeaf(t, v) && t.ptes[v].ppn == code ==> v == CODE_VPN
    ensures forall v :: UserLeaf(t, v) && t.ptes[v].ppn == stack ==> v == STACK_VPN
  {
    forall v | v in t.ptes && v < USER_TOP ensures v == CODE_VPN || v == STACK_VPN { assert UserLeaf(t, v); }
  }

  lemma FirstGood(t: Table, code: nat, stack: nat, kstack: MaybePage)
    requires TableOk(t) && UserPart(t, code, stack) && code != stack && code !in Nodes(t) && stack !in Nodes(t)
    requires kstack.SomePage? ==> kstack.page !in Nodes(t) + {code, stack}
    ensures var img := Image(t, code, stack, kstack, HEAPBASE, NoMap);
            GoodImage(img) && Held(img) == Nodes(t) + {code, stack} + KstackPages(img)
  {
    hide TableOk, Nodes, UserPages, UserInjective;
    var img := Image(t, code, stack, kstack, HEAPBASE, NoMap);
    UserPartPages(t, code, stack);
    forall v | v in t.ptes && v != CODE_VPN && v != STACK_VPN ensures PlaceOk(img, v, t.ptes[v].perm) {
      assert !UserLeaf(t, v);
    }
  }

  lemma NewTableUser(pool: Pool, etext: nat, code: nat, stack: nat)
    requires KERN_FIRST < etext < RAM_END && |pool.free| >= KERNEL_PAGES
    ensures var t := NewTable(pool, etext, code, stack).t;
            UserPart(t, code, stack) && (|pool.free| >= TABLE_PAGES <==> CODE_VPN in t.ptes && STACK_VPN in t.ptes)
  {
    hide NewTable;
    NewTableOkIff(pool, etext, code, stack);
    if |pool.free| >= TABLE_PAGES {
      NewTableSucceeds(pool, etext, code, stack);
      assert UserLeaf(NewTable(pool, etext, code, stack).t, CODE_VPN)
             && UserLeaf(NewTable(pool, etext, code, stack).t, STACK_VPN);
    }
  }

  /** An image made only of pages in flight enters an unused slot. */
  lemma EnterSlot(k: Kernel, c: nat, img: Image)
    requires c < |k.procs| && k.procs[c].NoImage? && GoodImage(img) && InvWith(k, Held(img))
    requires forall j :: 0 <= j < |k.procs| ==> Held(img) !! Held(k.procs[j])
    ensures Inv(k.(procs := k.procs[c := img]))
  {
    hide InvWith, GoodImage, Inv;
    PrivateIsHeld(img);
    assert Held(k.procs[c]) == {} && {} + Held(img) == Held(img);
    GainStep(k, {}, c, img, Held(img));
    InvNone(k.(procs := k.procs[c := img]));
  }

  /** Two pages from kalloc, in flight. */
  lemma TakeTwo(k: Kernel, contents: Frame, junk: Frame)
    requires Inv(k) && |k.pool.free| >= 2
    ensures var code, stack := k.pool.free[0], k.pool.free[1];
            && InvWith(TakePage(TakePage(k, contents), junk), {code, stack}) && code != stack
            && forall j :: 0 <= j < |k.procs| ==> {code, stack} !! Held(k.procs[j])
  {
    hide Inv, InvWith, Held, FrameAt;
    var code, stack := k.pool.free[0], k.pool.free[1];
    TakeOne(k, contents);
    TakeStep(TakePage(k, contents), {code}, junk);
    assert {code} + {stack} == {code, stack};
  }

  lemma LastTake(k: Kernel, loose: set<nat>, junk: Frame)
    requires InvWith(k, loose) && forall j :: 0 <= j < |k.procs| ==> loose !! Held(k.procs[j])
    ensures k.pool.free != [] ==>
              var p := k.pool.free[0];
              && InvWith(TakePage(k, junk), loose + {p}) && p !in loose
              && forall j :: 0 <= j < |k.procs| ==> (loose + {p}) !! Held(k.procs[j])
  {
    hide InvWith, Held;
    if k.pool.free != [] { TakeStep(k, loose, junk); }
  }

  /** With one or two pages: the process has no table, and counts are exact. */
  lemma MakeHalfInv(k: Kernel, c: nat, contents: Frame, junk: Frame)
    requires Inv(k) && c < |k.procs| && k.procs[c].NoImage? && 1 <= |k.pool.free| <= 2
    ensures var r := MakeHalf(k, c, contents, junk);
            Inv(r) && |r.procs| == |k.procs| && r.procs[c].Tableless?
  {
    hide Inv, InvWith, Held, GoodImage, FrameAt;
    var code := k.pool.free[0];
    if |k.pool.free| == 1 {
      TakeOne(k, contents);
      HalfMade(code, NoPage);
      assert Held(Tableless(code, NoPage)) == {code};
      EnterSlot(TakePage(k, contents), c, Tableless(code, NoPage));
    } else {
      TakeTwo(k, contents, junk);
      var img := Tableless(code, SomePage(k.pool.free[1]));
      HalfMade(code, img.ustack);
      assert Held(img) == {code, k.pool.free[1]};
      EnterSlot(TakePage(TakePage(k, contents), junk), c, img);
    }
  }

  lemma HalfMade(code: nat, ustack: MaybePage)
    requires code !in PageOrNone(ustack)
    ensures var img := Tableless(code, ustack); GoodImage(img) && Held(img) == {code} + PageOrNone(ustack)
  {
  }

  lemma MakeWholeInv(k: Kernel, c: nat, contents: Frame, junk: Frame)
    requires Inv(k) && c < |k.procs| && k.procs[c].NoImage? && |k.pool.free| >= KERNEL_PAGES + 2
    ensures KERN_FIRST < k.etext < RAM_END && Inv(MakeWhole(k, c, contents, junk))
    ensures Runs(MakeWhole(k, c, contents, junk).procs[c]) <==> |k.pool.free| >= TABLE_PAGES + 2
  {
    hide Inv, InvWith, Held, GoodImage, NewTable, Nodes, TableOk, UserPart;
    InvEtext(k);
    var code, stack := k.pool.free[0], k.pool.free[1];
    var k2 := TakePage(TakePage(k, contents), junk);
    TakeTwo(k, contents, junk);
    NewTableOkIff(k2.pool, k.etext, code, stack);
    NewTableUser(k2.pool, k.etext, code, stack);
    NewTableFlight(k2, {code, stack}, code, stack);
    var g := NewTable(k2.pool, k.etext, code, stack);
    MakeUserEnd(k2.(pool := g.pool), c, g.t, code, stack, junk);
  }

  /**
    make_user_proc, whenever it returns, keeps the invariant, so every run may start with it;
    the process can run with 72 pages.
   */
  lemma MakeUserInv(k: Kernel, c: nat, contents: Frame, junk: Frame)
    requires Inv(k) && c < |k.procs| && k.procs[c].NoImage? && MakeUserReturns(k)
    ensures KERN_FIRST < k.etext < RAM_END && Inv(MakeUser(k, c, contents, junk))
    ensures |MakeUser(k, c, contents, junk).procs| == |k.procs|
    ensures Runs(MakeUser(k, c, contents, junk).procs[c]) <==> |k.pool.free| >= TABLE_PAGES + 2
  {
    hide Inv, MakeHalf, MakeWhole;
    InvEtext(k);
    if |k.pool.free| <= 2 {
      MakeHalfInv(k, c, contents, junk);
    } else {
      MakeWholeInv(k, c, contents, junk);
      InvEtext(MakeWhole(k, c, contents, junk));
    }
  }

  lemma MakeUserEnd(k: Kernel, c: nat, t: Table, code: nat, stack: nat, junk: Frame)
    requires InvWith(k, Nodes(t) + {code, stack}) && c < |k.procs| && k.procs[c].NoImage?
    requires forall j :: 0 <= j < |k.procs| ==> Nodes(t) !! Held(k.procs[j]) && {code, stack} !! Held(k.procs[j])
    requires TableOk(t) && code != stack && Nodes(t) !! {code, stack} && UserPart(t, code, stack)
    ensures var kstack := if k.pool.free == [] then NoPage else SomePage(k.pool.free[0]);
            var k4 := if k.pool.free == [] then k else TakePage(k, junk);
            Inv(k4.(procs := k4.procs[c := Image(t, code, stack, kstack, HEAPBASE, NoMap)]))
  {
    hide Inv, InvWith, Held, GoodImage, Nodes, TableOk, Taken, UserPart;
    var kstack := if k.pool.free == [] then NoPage else SomePage(k.pool.free[0]);
    var k4 := if k.pool.free == [] then k else TakePage(k, junk);
    var img := Image(t, code, stack, kstack, HEAPBASE, NoMap);
    LastTake(k, Nodes(t) + {code, stack}, junk);
    FirstGood(t, code, stack, kstack);
    assert k.pool.free == [] ==> Held(img) == Nodes(t) + {code, stack};
    assert k.pool.free != [] ==> Held(img) == Nodes(t) + {code, stack} + {k.pool.free[0]};
    EnterSlot(k4, c, img);
  }
}
