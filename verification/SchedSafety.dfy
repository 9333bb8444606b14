/** Every step of every hart keeps the invariant, and what follows from it. */
module SchedSafety {
  import opened Console
  import opened Sched

  // ---- putting the pieces together after a step of hart h ----

  /** Processes that other harts run are not disturbed. */
  ghost predicate Undisturbed(procs: seq<Proc>, procs': seq<Proc>, mine: MaybeSlot) {
    |procs'| == |procs| &&
    forall i :: 0 <= i < |procs| && procs[i].state == RUNNING && mine != Slot(i)
                ==> procs'[i].state == RUNNING && procs'[i].table == procs[i].table
  }

  /** What the step's own hart runs afterwards is all that is new. */
  ghost predicate RunsOnly(procs: seq<Proc>, procs': seq<Proc>, before: MaybeSlot, after: MaybeSlot) {
    |procs'| == |procs| &&
    forall i :: 0 <= i < |procs'| && procs'[i].state == RUNNING ==>
      after == Slot(i) || (procs[i].state == RUNNING && before != Slot(i))
  }

  /** The step's hart keeps its claim, drops it, or claims a process nobody was running. */
  ghost predicate ClaimOk(procs: seq<Proc>, before: MaybeSlot, after: MaybeSlot) {
    after == before || after == NoSlot || (before == NoSlot && after.i < |procs| && procs[after.i].state != RUNNING)
  }

  /** A hart outside the lock keeps its place when nobody disturbs its process. */
  lemma BystanderOk(hart: Hart, procs: seq<Proc>, procs': seq<Proc>, mine: MaybeSlot)
    requires HartOk(hart, procs) && !Holding(hart.pc) && Undisturbed(procs, procs', mine)
             && (hart.cur.Slot? ==> hart.cur != mine)
    ensures HartOk(hart, procs')
  {
  }

  lemma ClaimIsRunning(hart: Hart, procs: seq<Proc>)
    requires HartOk(hart, procs) && !Holding(hart.pc) && Claim(hart).Slot?
    ensures Claim(hart) == hart.cur && hart.cur.i < |procs| && procs[hart.cur.i].state == RUNNING
  {
  }

  ghost predicate ProcsOk(procs: seq<Proc>, input: seq<char>) {
    |procs| == NPROC && TablesOk(procs) && SleepersOk(procs) && InputOk(procs, input)
  }

  /** Nobody but h holds the lock. */
  ghost predicate OthersOut(w: World, h: nat) {
    h < |w.harts| && forall g :: 0 <= g < |w.harts| && g != h ==> !Holding(w.harts[g].pc)
  }

  lemma Alone(w: World, h: nat, l: Label)
    requires Inv(w) && Enabled(w, h, l)
    ensures OthersOut(w, h)
  {
    hide HartOk, LogOk, ClaimsApart, RunningClaimed, TablesOk, SleepersOk, InputOk;
  }

  lemma ClaimsAfter(w: World, h: nat, hart: Hart)
    requires Inv(w) && OthersOut(w, h) && ClaimOk(w.procs, Claim(w.harts[h]), Claim(hart))
    ensures ClaimsApart(w.harts[h := hart])
  {
    hide LogOk, TablesOk, SleepersOk, InputOk, HartOk, RunningClaimed;
    var hs := w.harts[h := hart];
    forall a, b | 0 <= a < |hs| && 0 <= b < |hs| && a != b && Claim(hs[a]).Slot? ensures Claim(hs[a]) != Claim(hs[b]) {
      var g := if a == h then b else a;
      assert Claim(w.harts[a]).Slot? ==> Claim(w.harts[a]) != Claim(w.harts[b]);
      assert Claim(w.harts[b]).Slot? ==> Claim(w.harts[b]) != Claim(w.harts[a]);
      if (a == h || b == h) && Claim(hs[g]).Slot? {
        assert HartOk(w.harts[g], w.procs);
        ClaimIsRunning(w.harts[g], w.procs);
      }
    }
  }

  lemma RunningAfter(w: World, h: nat, hart: Hart, procs: seq<Proc>)
    requires Inv(w) && OthersOut(w, h) && RunsOnly(w.procs, procs, Claim(w.harts[h]), Claim(hart))
    ensures RunningClaimed(w.harts[h := hart], procs)
  {
    hide LogOk, TablesOk, SleepersOk, InputOk, HartOk, LockOk, ClaimsApart;
    var hs := w.harts[h := hart];
    forall i | 0 <= i < |procs| && procs[i].state == RUNNING
      ensures exists g :: 0 <= g < |hs| && Claim(hs[g]) == Slot(i) {
      if Claim(hart) == Slot(i) {
        assert Claim(hs[h]) == Slot(i);
      } else {
        var g :| 0 <= g < |w.harts| && Claim(w.harts[g]) == Slot(i);
        assert hs[g] == w.harts[g];
      }
    }
  }

  lemma Rebuild(w: World, h: nat, hart: Hart, procs: seq<Proc>, w': World)
    requires Inv(w) && OthersOut(w, h) && w'.harts == w.harts[h := hart] && w'.procs == procs
    requires w'.locked == Holding(hart.pc) && HartOk(hart, procs) && LogOk(hart) && ProcsOk(procs, w'.input)
    requires Undisturbed(w.procs, procs, Claim(w.harts[h])) && RunsOnly(w.procs, procs, Claim(w.harts[h]), Claim(hart))
    requires ClaimOk(w.procs, Claim(w.harts[h]), Claim(hart))
    ensures Inv(w')
  {
    ClaimsAfter(w, h, hart);
    RunningAfter(w, h, hart, procs);
    assert LockOk(w') by {
      assert w'.harts[h] == hart;
      forall g | 0 <= g < |w.harts| && g != h ensures w'.harts[g] == w.harts[g] { }
    }
    forall g | 0 <= g < |w'.harts| ensures HartOk(w'.harts[g], procs) && LogOk(w'.harts[g]) {
      if g != h {
        hide HartOk, LogOk, LockOk, RunningClaimed, TablesOk, SleepersOk, InputOk, Undisturbed, RunsOnly, ProcsOk;
        assert w'.harts[g] == w.harts[g] && HartOk(w.harts[g], w.procs) && LogOk(w.harts[g]);
        if w.harts[g].cur.Slot? {
          QuietClaim(w.harts[g], w.procs);
          assert Claim(w.harts[g]) != Claim(w.harts[h]);
        }
        BystanderOk(w.harts[g], w.procs, procs, Claim(w.harts[h]));
      }
    }
    hide HartOk, LogOk, LockOk, TablesOk, SleepersOk, InputOk, Undisturbed, RunsOnly, ClaimsApart;
  }

  lemma QuietClaim(hart: Hart, procs: seq<Proc>)
    requires HartOk(hart, procs) && !Holding(hart.pc)
    ensures Claim(hart) == hart.cur
  {
  }

  // ---- changes to the process table ----

  lemma SameProcs(procs: seq<Proc>, mine: MaybeSlot)
    ensures Undisturbed(procs, procs, mine) && RunsOnly(procs, procs, mine, mine)
  {
  }

  /** One process changes state: children and tables stay, a new ZOMBIE's parent is awake, a new sleeper has cause. */
  lemma ReplaceOk(procs: seq<Proc>, i: nat, p: Proc, input: seq<char>)
    requires ProcsOk(procs, input) && i < NPROC && procs[i].state != UNUSED && p.state != UNUSED
    requires p.parent == procs[i].parent && p.table == procs[i].table && (p.state == ZOMBIE ==> ParentAwake(procs, i))
    requires p.state == RUNNABLE ==> p.resume != Gone
    requires p.state == SLEEPING ==> (p.chan == OwnSlot(i) && p.resume == InWait && Waited(procs, i, NPROC, true))
                                     || (p.chan == Input && p.resume.InRead? && !HasLine(input))
    ensures ProcsOk(procs[i := p], input)
  {
    var r := procs[i := p];
    assert forall q, k :: Child(r, q, k) <==> Child(procs, q, k);
    forall k | 0 <= k < NPROC ensures SleeperOk(r, k) {
      assert SleeperOk(procs, k);
      if r[k].state == SLEEPING && r[k].chan == OwnSlot(k) {
        assert Waited(procs, k, NPROC, true);
        var q :| 0 <= q < NPROC && Child(procs, q, k);
        assert Child(r, q, k);
        assert !(Child(r, i, k) && p.state == ZOMBIE);
      }
    }
  }

  lemma WakeOk(procs: seq<Proc>, chan: Chan, input: seq<char>)
    requires ProcsOk(procs, input)
    ensures ProcsOk(Wake(procs, chan), input)
  {
    var r := Wake(procs, chan);
    assert forall q, k :: Child(r, q, k) <==> Child(procs, q, k);
    forall k | 0 <= k < NPROC ensures SleeperOk(r, k) {
      assert SleeperOk(procs, k);
      if r[k].state == SLEEPING && r[k].chan == OwnSlot(k) {
        var q :| 0 <= q < NPROC && Child(procs, q, k);
        assert Child(r, q, k);
      }
    }
  }

  lemma WakeQuiet(procs: seq<Proc>, chan: Chan, mine: MaybeSlot)
    ensures Undisturbed(procs, Wake(procs, chan), mine) && RunsOnly(procs, Wake(procs, chan), mine, mine)
  {
  }

  /** A keystroke: a completed line finds no reader asleep. */
  lemma KeyOk(procs: seq<Proc>, input: seq<char>, c: char)
    requires ProcsOk(procs, input)
    ensures ProcsOk(if Completes(input, c) then Wake(procs, Input) else procs, Typed(input, c))
  {
    TypedKeepsLines(input, c);
    if Completes(input, c) { WakeOk(procs, Input, input); }
  }

  /** A child slot is given back; its parent, who waits, is awake. */
  lemma ReapOk(procs: seq<Proc>, i: nat, j: nat, input: seq<char>)
    requires ProcsOk(procs, input) && i < NPROC && procs[i].state == RUNNING && Child(procs, j, i)
             && procs[j].state == ZOMBIE
    ensures ProcsOk(procs[j := procs[j].(state := UNUSED, parent := NoSlot, table := NULL)], input)
  {
    var r := procs[j := procs[j].(state := UNUSED, parent := NoSlot, table := NULL)];
    forall k | 0 <= k < NPROC ensures SleeperOk(r, k) {
      assert SleeperOk(procs, k);
      if r[k].state == SLEEPING && r[k].chan == OwnSlot(k) {
        var q :| 0 <= q < NPROC && Child(procs, q, k);
        assert q != j && Child(r, q, k);
        assert forall q: nat :: Child(r, q, k) ==> Child(procs, q, k) && r[q] == procs[q];
      }
    }
  }

  lemma ForkOk(procs: seq<Proc>, i: nat, c: nat, table: nat, input: seq<char>)
    requires ProcsOk(procs, input) && i < NPROC && procs[i].state == RUNNING && c < NPROC && procs[c].state == UNUSED
             && FreshTable(procs, table)
    ensures ProcsOk(procs[c := Proc(RUNNABLE, procs[c].chan, Slot(i), table, Fresh)], input)
  {
    var r := procs[c := Proc(RUNNABLE, procs[c].chan, Slot(i), table, Fresh)];
    forall k | 0 <= k < NPROC ensures SleeperOk(r, k) {
      assert SleeperOk(procs, k);
      if r[k].state == SLEEPING && r[k].chan == OwnSlot(k) {
        var q :| 0 <= q < NPROC && Child(procs, q, k);
        assert q != c && Child(r, q, k);
        assert forall q: nat :: Child(r, q, k) ==> Child(procs, q, k) && r[q] == procs[q];
      }
    }
  }

  lemma ReadOk(procs: seq<Proc>, input: seq<char>)
    requires ProcsOk(procs, input) && input != []
    ensures ProcsOk(procs, input[1..])
  {
    assert HasLine(input[1..]) ==> HasLine(input);
  }

  // ---- the steps ----

  lemma Unpack(w: World, h: nat)
    requires Inv(w) && h < |w.harts|
    ensures ProcsOk(w.procs, w.input) && HartOk(w.harts[h], w.procs) && LogOk(w.harts[h])
  {
    hide HartOk, LogOk, LockOk, TablesOk, SleepersOk, InputOk, ClaimsApart, RunningClaimed;
  }

  lemma StepAcquire(w: World, h: nat, want: Want)
    requires Inv(w) && Enabled(w, h, Acquire(want))
    ensures Inv(Step(w, h, Acquire(want)))
  {
    Unpack(w, h);
    Alone(w, h, Acquire(want));
    hide Inv, OthersOut, ProcsOk, Undisturbed, RunsOnly;
    var hart := w.harts[h].(pc := StartPc(want));
    SameProcs(w.procs, Claim(hart));
    Rebuild(w, h, hart, w.procs, Step(w, h, Acquire(want)));
  }

  lemma StepScan(w: World, h: nat, table: nat)
    requires Inv(w) && Enabled(w, h, Go(table)) && w.harts[h].pc.Scan?
    ensures Inv(Step(w, h, Go(table)))
  {
    Unpack(w, h);
    Alone(w, h, Go(table));
    var i, w' := w.harts[h].pc.i, Step(w, h, Go(table));
    assert |w.procs| == NPROC;
    if i < NPROC && w.procs[i].state == RUNNABLE {
      assert SleeperOk(w.procs, i);
      ReplaceOk(w.procs, i, w.procs[i].(state := RUNNING), w.input);
    }
    VisitOk(w.harts[h], w'.harts[h], i);
    hide Inv, OthersOut, ProcsOk, LogOk, Waited;
    SameProcs(w.procs, NoSlot);
    Rebuild(w, h, w'.harts[h], w'.procs, w');
  }

  /** The scan's next visit is the next slot. */
  lemma VisitOk(hart: Hart, hart': Hart, i: nat)
    requires hart.pc == Scan(i) && i <= NPROC && LogOk(hart) && hart.cur == NoSlot
    requires (hart' == hart.(pc := Idle) && i == NPROC)
             || (i < NPROC && exists r: bool ::
               hart' == hart.(pc := if r then Marked(i) else Scan(i + 1), log := hart.log + [Visit(i, r, r)]))
    ensures LogOk(hart')
  {
  }

  lemma StepMarked(w: World, h: nat, table: nat)
    requires Inv(w) && Enabled(w, h, Go(table)) && (w.harts[h].pc.Marked? || w.harts[h].pc.Picked?)
    ensures Inv(Step(w, h, Go(table)))
  {
    Unpack(w, h);
    Alone(w, h, Go(table));
    hide Inv, OthersOut, ProcsOk, Waited, Undisturbed, RunsOnly;
    var w' := Step(w, h, Go(table));
    SameProcs(w.procs, Claim(w.harts[h]));
    Rebuild(w, h, w'.harts[h], w'.procs, w');
  }

  lemma StepKey(w: World, h: nat, table: nat)
    requires Inv(w) && Enabled(w, h, Go(table)) && w.harts[h].pc.Keystroke?
    ensures Inv(Step(w, h, Go(table)))
  {
    Unpack(w, h);
    Alone(w, h, Go(table));
    var c, w' := w.harts[h].pc.c, Step(w, h, Go(table));
    hide Inv, OthersOut, ProcsOk, Waited, Typed, Completes, Undisturbed, RunsOnly;
    KeyOk(w.procs, w.input, c);
    SameProcs(w.procs, Claim(w.harts[h]));
    WakeQuiet(w.procs, Input, Claim(w.harts[h]));
    Rebuild(w, h, w'.harts[h], w'.procs, w');
  }

  lemma StepRelease(w: World, h: nat, table: nat)
    requires Inv(w) && Enabled(w, h, Go(table)) && w.harts[h].pc.Releasing?
    ensures Inv(Step(w, h, Go(table)))
  {
    Unpack(w, h);
    Alone(w, h, Go(table));
    hide Inv, OthersOut, ProcsOk, Waited, Undisturbed, RunsOnly;
    var w' := Step(w, h, Go(table));
    SameProcs(w.procs, Claim(w.harts[h]));
    Rebuild(w, h, w'.harts[h], w'.procs, w');
  }

  /** Replacing the current process by one that is not RUNNING disturbs nobody else. */
  lemma MineQuiet(procs: seq<Proc>, i: nat, p: Proc)
    requires i < |procs|
    ensures Undisturbed(procs, procs[i := p], Slot(i)) && RunsOnly(procs, procs[i := p], Slot(i), Slot(i))
  {
  }

  lemma StepResumed(w: World, h: nat, table: nat)
    requires Inv(w) && Enabled(w, h, Go(table)) && w.harts[h].pc.Resumed?
    ensures Inv(Step(w, h, Go(table)))
  {
    Unpack(w, h);
    Alone(w, h, Go(table));
    var i := w.harts[h].cur.i;
    hide Inv, OthersOut, Undisturbed, RunsOnly;
    var w' := Step(w, h, Go(table));
    SameProcs(w.procs, Slot(i));
    MineQuiet(w.procs, i, w.procs[i].(chan := NoChan));
    ReplaceOk(w.procs, i, w.procs[i].(chan := NoChan), w.input);
    hide ProcsOk;
    Rebuild(w, h, w'.harts[h], w'.procs, w');
  }

  /** swtch away from a process that is no longer RUNNING. */
  lemma StepAway(w: World, h: nat, i: nat, p: Proc)
    requires Inv(w) && h < |w.harts| && OthersOut(w, h) && OnCpu(w.harts[h], w.procs) && w.harts[h].cur == Slot(i)
             && !w.harts[h].pc.Marked?
    requires p.state != RUNNING && p.table == w.procs[i].table && ProcsOk(w.procs[i := p], w.input) && w.locked
    requires LogOk(w.harts[h]) && NextVisit(w.harts[h]) == (i + 1) % NPROC
    ensures Inv(SwitchAway(w, h, i, p))
  {
    hide Inv, OthersOut, ProcsOk, Undisturbed, RunsOnly;
    MineQuiet(w.procs, i, p);
    var w' := SwitchAway(w, h, i, p);
    Rebuild(w, h, w'.harts[h], w'.procs, w');
  }

  lemma StepLeave(w: World, h: nat, table: nat)
    requires Inv(w) && Enabled(w, h, Go(table)) && (w.harts[h].pc.Leaving? || w.harts[h].pc.Unloaded?)
    ensures Inv(Step(w, h, Go(table)))
  {
    Unpack(w, h);
    Alone(w, h, Go(table));
    assert |w.procs| == NPROC;
    hide Inv, OthersOut, ProcsOk, Waited;
    var w' := Step(w, h, Go(table));
    SameProcs(w.procs, Claim(w.harts[h]));
    Rebuild(w, h, w'.harts[h], w'.procs, w');
  }

  lemma Locked(w: World, h: nat)
    requires Inv(w) && h < |w.harts| && Holding(w.harts[h].pc)
    ensures w.locked && |w.procs| == NPROC
  {
    hide HartOk, LogOk, ClaimsApart, RunningClaimed, TablesOk, SleepersOk, InputOk;
  }

  lemma StepYield(w: World, h: nat, table: nat)
    requires Inv(w) && Enabled(w, h, Go(table)) && w.harts[h].pc.Yielding?
    ensures Inv(Step(w, h, Go(table)))
  {
    Unpack(w, h);
    Alone(w, h, Go(table));
    Locked(w, h);
    hide Inv, OthersOut;
    var i := w.harts[h].cur.i;
    var p := w.procs[i].(state := RUNNABLE, resume := AfterYield);
    ReplaceOk(w.procs, i, p, w.input);
    hide ProcsOk;
    StepAway(w, h, i, p);
  }

  lemma StepExit(w: World, h: nat, table: nat)
    requires Inv(w) && Enabled(w, h, Go(table)) && w.harts[h].pc.Exiting?
    ensures Inv(Step(w, h, Go(table)))
  {
    Unpack(w, h);
    Alone(w, h, Go(table));
    Locked(w, h);
    hide Inv, OthersOut, Waited;
    var w', p := Step(w, h, Go(table)), w.procs[w.harts[h].cur.i].parent;
    SameProcs(w.procs, Claim(w.harts[h]));
    if p.Slot? {
      WakeOk(w.procs, OwnSlot(p.i), w.input);
      WakeQuiet(w.procs, OwnSlot(p.i), Claim(w.harts[h]));
    }
    hide ProcsOk, Undisturbed, RunsOnly;
    Rebuild(w, h, w'.harts[h], w'.procs, w');
  }

  lemma StepExitWoken(w: World, h: nat, table: nat)
    requires Inv(w) && Enabled(w, h, Go(table)) && w.harts[h].pc.ExitWoken?
    ensures Inv(Step(w, h, Go(table)))
  {
    Unpack(w, h);
    Alone(w, h, Go(table));
    Locked(w, h);
    hide Inv, OthersOut;
    var i := w.harts[h].cur.i;
    var p := w.procs[i].(state := ZOMBIE, resume := Gone);
    ReplaceOk(w.procs, i, p, w.input);
    hide ProcsOk;
    StepAway(w, h, i, p);
  }

  lemma StepFork(w: World, h: nat, table: nat)
    requires Inv(w) && Enabled(w, h, Go(table)) && w.harts[h].pc.Forking?
    ensures Inv(Step(w, h, Go(table)))
  {
    Unpack(w, h);
    Alone(w, h, Go(table));
    Locked(w, h);
    hide Inv, OthersOut, Waited, FirstUnused;
    var w', i, c := Step(w, h, Go(table)), w.harts[h].cur.i, FirstUnused(w.procs, 0);
    SameProcs(w.procs, Claim(w.harts[h]));
    if c < NPROC { ForkOk(w.procs, i, c, table, w.input); }
    hide ProcsOk, FreshTable;
    Rebuild(w, h, w'.harts[h], w'.procs, w');
  }

  lemma StepWait(w: World, h: nat, table: nat)
    requires Inv(w) && Enabled(w, h, Go(table)) && w.harts[h].pc.Waiting?
    ensures Inv(Step(w, h, Go(table)))
  {
    hide Inv, OthersOut, Wake, FirstUnused;
    Unpack(w, h);
    Alone(w, h, Go(table));
    Locked(w, h);
    var i, j, kids := w.harts[h].cur.i, w.harts[h].pc.j, w.harts[h].pc.kids;
    var w' := Step(w, h, Go(table));
    if j == NPROC && kids {
      var p := w.procs[i].(state := SLEEPING, chan := OwnSlot(i), resume := InWait);
      ReplaceOk(w.procs, i, p, w.input);
      hide ProcsOk, Waited;
      StepAway(w, h, i, p);
    } else if j < NPROC && Child(w.procs, j, i) && w.procs[j].state == ZOMBIE {
      ReapOk(w.procs, i, j, w.input);
      hide ProcsOk, Waited;
      Rebuild(w, h, w'.harts[h], w'.procs, w');
    } else {
      if j < NPROC { WaitTurn(w.procs, i, j, kids); }
      hide ProcsOk, Waited;
      SameProcs(w.procs, Claim(w.harts[h]));
      Rebuild(w, h, w'.harts[h], w'.procs, w');
    }
  }

  lemma WaitTurn(procs: seq<Proc>, i: nat, j: nat, kids: bool)
    requires Waited(procs, i, j, kids) && j < |procs| && (Child(procs, j, i) ==> procs[j].state != ZOMBIE)
    ensures Waited(procs, i, j + 1, kids || Child(procs, j, i))
  {
  }

  lemma StepRead(w: World, h: nat, table: nat)
    requires Inv(w) && Enabled(w, h, Go(table)) && w.harts[h].pc.Reading?
    ensures Inv(Step(w, h, Go(table)))
  {
    Unpack(w, h);
    Alone(w, h, Go(table));
    Locked(w, h);
    var i, left, w' := w.harts[h].cur.i, w.harts[h].pc.left, Step(w, h, Go(table));
    hide Inv, OthersOut, Waited;
    if left > 0 && w.input == [] {
      var p := w.procs[i].(state := SLEEPING, chan := Input, resume := InRead(left));
      ReplaceOk(w.procs, i, p, w.input);
      hide ProcsOk;
      StepAway(w, h, i, p);
    } else {
      if left > 0 { ReadOk(w.procs, w.input); }
      hide ProcsOk;
      SameProcs(w.procs, Claim(w.harts[h]));
      Rebuild(w, h, w'.harts[h], w'.procs, w');
    }
  }

  /** Every step of every hart keeps the invariant. */
  lemma StepKeeps(w: World, h: nat, l: Label)
    requires Inv(w) && Enabled(w, h, l)
    ensures Inv(Step(w, h, l))
  {
    hide Inv, Step;
    match l
    case Acquire(want) => StepAcquire(w, h, want);
    case Go(table) =>
      match w.harts[h].pc {
        case Scan(i) => StepScan(w, h, table);
        case Marked(i) => StepMarked(w, h, table);
        case Picked(i) => StepMarked(w, h, table);
        case Resumed => StepResumed(w, h, table);
        case Yielding => StepYield(w, h, table);
        case Exiting => StepExit(w, h, table);
        case ExitWoken => StepExitWoken(w, h, table);
        case Forking => StepFork(w, h, table);
        case Waiting(j, kids) => StepWait(w, h, table);
        case Reading(left) => StepRead(w, h, table);
        case Keystroke(c) => StepKey(w, h, table);
        case Releasing => StepRelease(w, h, table);
        case Leaving => StepLeave(w, h, table);
        case Unloaded => StepLeave(w, h, table);
      }
  }

  // ---- runs ----

  /** A run: any hart may take any enabled step at any point. */
  ghost predicate Run(ws: seq<World>, hs: seq<nat>, ls: seq<Label>) {
    && |ws| == |ls| + 1 == |hs| + 1 && Inv(ws[0])
    && forall n :: 0 <= n < |ls| ==> Taken(ws[n], hs[n], ls[n], ws[n + 1])
  }

  ghost predicate Taken(w: World, h: nat, l: Label, w': World) { Enabled(w, h, l) && w' == Step(w, h, l) }

  lemma {:induction false} RunKeeps(ws: seq<World>, hs: seq<nat>, ls: seq<Label>, n: nat)
    requires Run(ws, hs, ls) && n < |ws|
    ensures Inv(ws[n])
  {
    hide Inv, Step, Enabled;
    if n > 0 {
      RunKeeps(ws, hs, ls, n - 1);
      assert Taken(ws[n - 1], hs[n - 1], ls[n - 1], ws[n]);
      StepKeeps(ws[n - 1], hs[n - 1], ls[n - 1]);
    }
  }

  /** After boot: every hart in its scheduler, processes RUNNABLE for the first time or not there. */
  ghost predicate Boot(w: World) {
    && !w.locked && |w.procs| == NPROC && w.input == [] && TablesOk(w.procs)
    && (forall h :: 0 <= h < |w.harts| ==> w.harts[h] == Hart(Idle, NoSlot, KERNEL, 0, []))
    && (forall i :: 0 <= i < NPROC ==>
      w.procs[i].state == UNUSED || (w.procs[i].state == RUNNABLE && w.procs[i].resume == Fresh))
  }

  lemma BootInv(w: World)
    requires Boot(w)
    ensures Inv(w)
  {
    forall i | 0 <= i < NPROC ensures SleeperOk(w.procs, i) { }
  }

  // ---- what it means ----

  /**
    The baton: one owner at most, no process on two harts, and a hart outside the lock has none
    or runs exactly its own.
   */
  lemma BatonSafety(w: World, g: nat, h: nat)
    requires Inv(w) && g < |w.harts| && h < |w.harts| && g != h
    ensures !(Holding(w.harts[g].pc) && Holding(w.harts[h].pc))
    ensures !w.locked ==> !Holding(w.harts[g].pc)
    ensures w.harts[g].cur.Slot? ==> w.harts[g].cur != w.harts[h].cur
    ensures !Holding(w.harts[g].pc) ==> AtRest(w.harts[g]) || OnCpu(w.harts[g], w.procs)
  {
    hide LogOk, TablesOk, SleepersOk, InputOk, RunningClaimed;
    assert HartOk(w.harts[g], w.procs) && HartOk(w.harts[h], w.procs);
    MarkedHasNone(w.harts[g], w.procs);
    MarkedHasNone(w.harts[h], w.procs);
  }

  lemma MarkedHasNone(hart: Hart, procs: seq<Proc>)
    requires HartOk(hart, procs)
    ensures hart.cur.Slot? ==> Claim(hart) == hart.cur
  {
  }

  /** With the lock free, the RUNNING processes are exactly the current ones. */
  lemma RunningIsCurrent(w: World, i: nat)
    requires Inv(w) && !w.locked && i < NPROC
    ensures w.procs[i].state == RUNNING <==> exists h :: 0 <= h < |w.harts| && w.harts[h].cur == Slot(i)
  {
    hide LogOk, TablesOk, SleepersOk, InputOk;
    if w.procs[i].state == RUNNING {
      var h :| 0 <= h < |w.harts| && Claim(w.harts[h]) == Slot(i);
      assert !Holding(w.harts[h].pc);
      assert w.harts[h].cur == Slot(i);
    }
    if h :| 0 <= h < |w.harts| && w.harts[h].cur == Slot(i) {
      assert HartOk(w.harts[h], w.procs) && !Holding(w.harts[h].pc);
    }
  }

  /** proc_wait is about to free slot j's page table. */
  predicate Frees(w: World, h: nat, j: nat) {
    && h < |w.harts| && w.harts[h].pc.Waiting? && w.harts[h].pc.j == j < |w.procs| && w.harts[h].cur.Slot?
    && Child(w.procs, j, w.harts[h].cur.i) && w.procs[j].state == ZOMBIE
  }

  /** wait never frees a page table that some hart has loaded. */
  lemma NoLoadedTableFreed(w: World, h: nat, j: nat, g: nat)
    requires Inv(w) && Frees(w, h, j) && g < |w.harts|
    ensures w.harts[g].satp != w.procs[j].table
  {
    hide LogOk, SleepersOk, InputOk, RunningClaimed, ClaimsApart;
    assert HartOk(w.harts[g], w.procs) && HartOk(w.harts[h], w.procs);
    assert w.procs[j].table != KERNEL;
    if g != h { assert !Holding(w.harts[g].pc); }
    if w.harts[g].cur.Slot? {
      var i := w.harts[g].cur.i;
      assert w.procs[i].state == RUNNING && i != j;
    }
  }

  /** No lost wakeup: whoever sleeps in wait has a child, and none of its children is a ZOMBIE. */
  lemma NoLostExit(w: World, i: nat)
    requires Inv(w) && i < NPROC && w.procs[i].state == SLEEPING && w.procs[i].chan == OwnSlot(i)
    ensures exists q :: 0 <= q < NPROC && Child(w.procs, q, i)
    ensures forall q :: 0 <= q < NPROC && Child(w.procs, q, i) ==> w.procs[q].state != ZOMBIE
  {
    hide HartOk, LogOk, LockOk, ClaimsApart, RunningClaimed;
    assert SleeperOk(w.procs, i);
  }

  /** No lost wakeup: nobody sleeps for input while a complete line waits. */
  lemma NoLostLine(w: World, i: nat)
    requires Inv(w) && i < NPROC && w.procs[i].state == SLEEPING && HasLine(w.input)
    ensures w.procs[i].chan == OwnSlot(i)
  {
    hide HartOk, LogOk, LockOk, ClaimsApart, RunningClaimed;
    assert SleeperOk(w.procs, i);
  }

  /** Bytes delivered and bytes unread, in order, change by keystrokes alone: reads lose, repeat and reorder nothing. */
  lemma StreamKept(w: World, h: nat, l: Label)
    requires Enabled(w, h, l)
    ensures var w' := Step(w, h, l);
            && w.delivered <= w'.delivered
            && w'.delivered + w'.input
               == if l.Go? && w.harts[h].pc.Keystroke? then w.delivered + Typed(w.input, w.harts[h].pc.c)
                 else w.delivered + w.input
  {
    hide Typed, Completes, FreshTable, FirstUnused, AfterScan, AfterOwn;
    if l.Go? {
      var hart := w.harts[h];
      if hart.pc.Scan? { ScanPlain(w, h, hart.pc.i); }
      if hart.cur.Slot? && hart.cur.i < |w.procs| { OwnPlain(w, h, hart.cur.i, l.table); }
    }
  }

  /** Another hart's record and this hart's log are not touched; the stream only moves from unread to delivered. */
  ghost predicate Plain(w: World, w': World, h: nat) {
    && h < |w.harts| == |w'.harts| && w.delivered <= w'.delivered && w'.delivered + w'.input == w.delivered + w.input
    && forall g :: 0 <= g < |w.harts| && g != h ==> w'.harts[g] == w.harts[g]
  }

  lemma ScanPlain(w: World, h: nat, i: nat)
    requires h < |w.harts|
    ensures Plain(w, AfterScan(w, h, i), h)
  {
  }

  lemma ReadPlain(w: World, h: nat, i: nat, left: nat)
    requires h < |w.harts| && i < |w.procs|
    ensures Plain(w, AfterRead(w, h, i, left), h) && AfterRead(w, h, i, left).harts[h].log == w.harts[h].log
  {
    if w.input != [] {
      assert (w.delivered + [w.input[0]]) + w.input[1..] == w.delivered + w.input;
    }
  }

  lemma OwnPlain(w: World, h: nat, i: nat, table: nat)
    requires h < |w.harts| && i < |w.procs|
    ensures Plain(w, AfterOwn(w, h, i, table), h) && AfterOwn(w, h, i, table).harts[h].log == w.harts[h].log
  {
    hide FirstUnused, AfterRead, Wake;
    if w.harts[h].pc.Reading? { ReadPlain(w, h, i, w.harts[h].pc.left); }
  }

  // ---- bounded waiting ----

  /** Dispatches among visits a up to b of a hart's log. */
  function Dispatches(log: seq<Visit>, a: nat, b: nat): nat
    requires a <= b <= |log|
    decreases b - a
  {
    if a == b then 0 else (if log[a].dispatched then 1 else 0) + Dispatches(log, a + 1, b)
  }

  lemma {:induction false} DispatchBound(log: seq<Visit>, a: nat, b: nat)
    requires a <= b <= |log|
    ensures Dispatches(log, a, b) <= b - a
    decreases b - a
  {
    if a < b { DispatchBound(log, a + 1, b); }
  }

  /**
    Between two consecutive visits of a hart's scheduler to a slot, every other slot is
    visited exactly once, so at most NPROC - 1 other dispatches come between; and a visit
    that finds the slot RUNNABLE dispatches it.
   */
  lemma BoundedWaiting(w: World, h: nat, a: nat, b: nat)
    requires Inv(w) && h < |w.harts|
    requires var log := w.harts[h].log;
             a < b < |log| && log[a].slot == log[b].slot && forall n :: a < n < b ==> log[n].slot != log[a].slot
    ensures var log := w.harts[h].log;
            && b == a + NPROC
            && (forall n, m :: a < n < m < b ==> log[n].slot != log[m].slot)
            && Dispatches(log, a + 1, b) <= NPROC - 1
            && (log[b].ready ==> log[b].dispatched)
  {
    hide HartOk, LockOk, TablesOk, SleepersOk, InputOk, RunningClaimed, ClaimsApart;
    var log := w.harts[h].log;
    assert LogOk(w.harts[h]);
    hide Inv, LogOk;
    RoundLength(log, a, b);
    forall n, m | a < n < m < b ensures log[n].slot != log[m].slot {
      SlotsDiffer(n, m);
    }
    DispatchBound(log, a + 1, b);
  }

  lemma SlotsDiffer(n: nat, m: nat)
    requires n < m < n + NPROC
    ensures n % NPROC != m % NPROC
  {
    assert n == n / 8 * 8 + n % 8 && m == m / 8 * 8 + m % 8;
  }

  lemma RoundLength(log: seq<Visit>, a: nat, b: nat)
    requires forall n :: 0 <= n < |log| ==> log[n].slot == n % NPROC
    requires a < b < |log| && log[a].slot == log[b].slot && forall n :: a < n < b ==> log[n].slot != log[a].slot
    ensures b == a + NPROC
  {
    if b < a + NPROC {
      SlotsDiffer(a, b);
    } else {
      assert log[a + NPROC].slot == (a + 8) % 8 == a % 8;
    }
  }

  /**
    The log is what the scheduler did: a visit is added exactly when the scan looks at a slot,
    and tells whether it was RUNNABLE.
   */
  lemma LogTells(w: World, h: nat, l: Label)
    requires Inv(w) && Enabled(w, h, l)
    ensures var hart, w' := w.harts[h], Step(w, h, l);
            w'.harts[h].log
            == if l.Go? && hart.pc.Scan? && hart.pc.i < NPROC
               then hart.log + [Visit(hart.pc.i, w.procs[hart.pc.i].state == RUNNABLE,
                 w'.harts[h].pc == Marked(hart.pc.i))]
               else hart.log
    ensures forall g :: 0 <= g < |w.harts| && g != h ==> Step(w, h, l).harts[g] == w.harts[g]
  {
    assert |w.procs| == NPROC;
    hide Inv, Typed, Completes, FreshTable, AfterOwn, Wake;
    if l.Go? {
      var hart := w.harts[h];
      if hart.cur.Slot? && hart.cur.i < |w.procs| { OwnPlain(w, h, hart.cur.i, l.table); }
    }
  }

  // ---- bounded waiting over a run ----

  /** The states a up to b of a run, in all of which slot s is RUNNABLE. */
  ghost predicate StaysReady(ws: seq<World>, s: nat, a: nat, b: nat) {
    a <= b < |ws| && forall n :: a <= n <= b ==> s < |ws[n].procs| && ws[n].procs[s].state == RUNNABLE
  }

  /** What hart h's scan has visited since the log was len entries long, slot s not among it. */
  ghost predicate Avoids(log: seq<Visit>, len: nat, s: nat) {
    len <= |log| && forall n :: len <= n < |log| ==> log[n].slot != s
  }

  /** One step: if the scan looks at s, s does not stay RUNNABLE. */
  lemma StepAvoids(w: World, g: nat, l: Label, h: nat, s: nat, len: nat)
    requires Inv(w) && Enabled(w, g, l) && h < |w.harts| && s < NPROC && Avoids(w.harts[h].log, len, s)
    requires w.procs[s].state == RUNNABLE && s < |Step(w, g, l).procs| && Step(w, g, l).procs[s].state == RUNNABLE
    ensures h < |Step(w, g, l).harts| && Avoids(Step(w, g, l).harts[h].log, len, s)
  {
    assert |w.procs| == NPROC;
    SameHarts(w, g, l);
    LogTells(w, g, l);
    hide Inv, Step, Enabled;
    if l.Go? && w.harts[g].pc.Scan? && w.harts[g].pc.i == s { ReadyGoes(w, g, l, s); }
  }

  lemma SameHarts(w: World, g: nat, l: Label)
    requires Enabled(w, g, l)
    ensures |Step(w, g, l).harts| == |w.harts|
  {
    hide Typed, Completes, FirstUnused, Wake;
  }

  /** A visit that finds the slot RUNNABLE makes it RUNNING. */
  lemma ReadyGoes(w: World, g: nat, l: Label, s: nat)
    requires Enabled(w, g, l) && l.Go? && w.harts[g].pc == Scan(s) && s < |w.procs| && w.procs[s].state == RUNNABLE
    ensures Step(w, g, l).procs[s].state == RUNNING
  {
  }

  lemma InvSlots(w: World)
    requires Inv(w)
    ensures |w.procs| == NPROC
  {
  }

  lemma {:induction false} RunAvoids(ws: seq<World>, hs: seq<nat>, ls: seq<Label>, h: nat, s: nat, a: nat, b: nat)
    requires Run(ws, hs, ls) && StaysReady(ws, s, a, b) && s < NPROC && h < |ws[a].harts|
    ensures h < |ws[b].harts| && Avoids(ws[b].harts[h].log, |ws[a].harts[h].log|, s)
    decreases b - a
  {
    if a < b {
      hide Inv, Step, Enabled, Avoids;
      RunAvoids(ws, hs, ls, h, s, a, b - 1);
      RunKeeps(ws, hs, ls, b - 1);
      InvSlots(ws[b - 1]);
      assert Taken(ws[b - 1], hs[b - 1], ls[b - 1], ws[b]);
      StepAvoids(ws[b - 1], hs[b - 1], ls[b - 1], h, s, |ws[a].harts[h].log|);
    }
  }

  /** Consecutive visits that miss a slot are fewer than NPROC. */
  lemma MissedFew(log: seq<Visit>, len: nat, s: nat)
    requires Avoids(log, len, s) && s < NPROC && forall n :: 0 <= n < |log| ==> log[n].slot == n % NPROC
    ensures |log| - len <= NPROC - 1
  {
    var n := len + (s + NPROC - len % NPROC) % NPROC;
    assert n % NPROC == s by {
      assert len == len / 8 * 8 + len % 8;
      if len % 8 <= s {
        assert n == len / 8 * 8 + s;
      } else {
        assert n == (len / 8 + 1) * 8 + s;
      }
    }
    if n < |log| { SlotOf(log, n); }
  }

  lemma SlotOf(log: seq<Visit>, n: nat)
    requires n < |log| && forall n :: 0 <= n < |log| ==> log[n].slot == n % NPROC
    ensures log[n].slot == n % NPROC
  {
  }

  /**
    In any run, from any state, a slot that stays RUNNABLE until hart h reaches it sees at most
    seven other dispatches by h.
   */
  lemma BoundedWaitingRun(ws: seq<World>, hs: seq<nat>, ls: seq<Label>, h: nat, s: nat, a: nat, b: nat)
    requires Run(ws, hs, ls) && StaysReady(ws, s, a, b) && s < NPROC && h < |ws[a].harts|
    ensures h < |ws[b].harts| && |ws[a].harts[h].log| <= |ws[b].harts[h].log|
    ensures Dispatches(ws[b].harts[h].log, |ws[a].harts[h].log|, |ws[b].harts[h].log|) <= NPROC - 1
  {
    RunAvoids(ws, hs, ls, h, s, a, b);
    RunKeeps(ws, hs, ls, b);
    assert LogOk(ws[b].harts[h]);
    hide Inv, Run, StaysReady, Step, Enabled;
    var log, len := ws[b].harts[h].log, |ws[a].harts[h].log|;
    MissedFew(log, len, s);
    DispatchBound(log, len, |log|);
  }
}
