/**
  What a system call sees across the switches it makes: where a process goes on once it is
  dispatched again, and what wait, exit, fork and the console reader do to the process table.
 */
module SchedRuns {
  import opened Console
  import opened Sched
  import opened SchedSafety

  // ---- a process that is switched away ----

  /** Whoever has process i at hand is bringing it back or has just put it away; it resumes at r. */
  ghost predicate Away(w: World, i: nat, r: Resume) {
    && i < |w.procs| && w.procs[i].state != UNUSED && w.procs[i].state != ZOMBIE && w.procs[i].resume == r
    && forall g :: 0 <= g < |w.harts| && Claim(w.harts[g]) == Slot(i) ==> InPassing(w.harts[g].pc)
  }

  predicate InPassing(pc: Pc) { pc.Marked? || pc.Picked? || pc.Resumed? || pc.Leaving? || pc.Unloaded? }

  /** The step in which process i goes on. */
  predicate Continues(w: World, g: nat, l: Label, i: nat) {
    g < |w.harts| && l.Go? && w.harts[g].pc == Resumed && w.harts[g].cur == Slot(i)
  }

  /** A step that is not process i's own leaves its resumption point alone. */
  lemma StepKeepsAway(w: World, g: nat, l: Label, i: nat, r: Resume)
    requires Inv(w) && Enabled(w, g, l) && Away(w, i, r) && !Continues(w, g, l, i)
    ensures Away(Step(w, g, l), i, r)
  {
    ProcKept(w, g, l, i);
    hide Inv;
    var w' := Step(w, g, l);
    HartsKept(w, g, l);
    forall f | 0 <= f < |w'.harts| && Claim(w'.harts[f]) == Slot(i) ensures InPassing(w'.harts[f].pc) {
      if f == g { ClaimInPassing(w, g, l, i, r, w'); }
    }
  }

  /** Only hart h moves, and it keeps its process or drops it. */
  ghost predicate OneMoves(w: World, w': World, h: nat) {
    && h < |w.harts| == |w'.harts| && (forall f :: 0 <= f < |w.harts| && f != h ==> w'.harts[f] == w.harts[f])
    && (w'.harts[h].cur == w.harts[h].cur || w'.harts[h].cur == NoSlot)
    && (w'.harts[h].pc.Marked? ==> w'.harts[h] == w.harts[h])
  }

  lemma WaitMoves(w: World, h: nat, i: nat, j: nat, kids: bool)
    requires h < |w.harts| && i < |w.procs|
    ensures OneMoves(w, AfterWait(w, h, i, j, kids), h)
  {
  }

  lemma ReadMoves(w: World, h: nat, i: nat, left: nat)
    requires h < |w.harts| && i < |w.procs|
    ensures OneMoves(w, AfterRead(w, h, i, left), h)
  {
  }

  lemma ResumeMoves(w: World, h: nat, i: nat)
    requires h < |w.harts| && i < |w.procs|
    ensures OneMoves(w, AfterResume(w, h, i), h)
  {
  }

  lemma ForkMoves(w: World, h: nat, i: nat, table: nat)
    requires h < |w.harts|
    ensures OneMoves(w, AfterFork(w, h, i, table), h)
  {
    hide FirstUnused;
  }

  lemma OwnMoves(w: World, h: nat, i: nat, table: nat)
    requires h < |w.harts| && i < |w.procs|
    ensures OneMoves(w, AfterOwn(w, h, i, table), h)
  {
    hide Wake, AfterWait, AfterRead, AfterResume, AfterFork;
    ResumeMoves(w, h, i);
    ForkMoves(w, h, i, table);
    if w.harts[h].pc.Waiting? { WaitMoves(w, h, i, w.harts[h].pc.j, w.harts[h].pc.kids); }
    if w.harts[h].pc.Reading? { ReadMoves(w, h, i, w.harts[h].pc.left); }
  }

  lemma HartsKept(w: World, g: nat, l: Label)
    requires Enabled(w, g, l)
    ensures |Step(w, g, l).harts| == |w.harts|
    ensures forall f :: 0 <= f < |w.harts| && f != g ==> Step(w, g, l).harts[f] == w.harts[f]
  {
    hide Typed, Completes, Wake, AfterOwn;
    if l.Go? && w.harts[g].cur.Slot? && w.harts[g].cur.i < |w.procs| { OwnMoves(w, g, w.harts[g].cur.i, l.table); }
  }

  lemma ClaimInPassing(w: World, g: nat, l: Label, i: nat, r: Resume, w': World)
    requires Inv(w) && Enabled(w, g, l) && Away(w, i, r) && !Continues(w, g, l, i)
    requires w' == Step(w, g, l) && g < |w'.harts|
    ensures Claim(w'.harts[g]) == Slot(i) ==> InPassing(w'.harts[g].pc)
  {
    Unpack(w, g);
    hide Inv, ProcsOk, LogOk, Step, Enabled;
    ClaimMoves(w, g, l, w');
    if Claim(w.harts[g]) == Slot(i) { PassesOn(w, g, l, w'); }
  }

  /** A step keeps its hart's claim, drops it, or marks a slot. */
  lemma ClaimMoves(w: World, g: nat, l: Label, w': World)
    requires Enabled(w, g, l) && HartOk(w.harts[g], w.procs) && w' == Step(w, g, l) && g < |w'.harts|
    ensures Claim(w'.harts[g]) == Claim(w.harts[g]) || Claim(w'.harts[g]) == NoSlot || w'.harts[g].pc.Marked?
  {
    hide Typed, Completes, FirstUnused, Wake, AfterOwn, AfterRead, AfterWait, AfterResume, AfterFork;
    if l.Go? && w.harts[g].cur.Slot? && w.harts[g].cur.i < |w.procs| { OwnMoves(w, g, w.harts[g].cur.i, l.table); }
  }

  /** What brings a process back or puts it away goes on doing so until the process continues. */
  lemma PassesOn(w: World, g: nat, l: Label, w': World)
    requires Enabled(w, g, l) && HartOk(w.harts[g], w.procs) && w' == Step(w, g, l) && g < |w'.harts|
    requires InPassing(w.harts[g].pc) && !w.harts[g].pc.Resumed?
    ensures InPassing(w'.harts[g].pc) || Claim(w'.harts[g]) == NoSlot
  {
    hide Typed, Completes, FirstUnused, Wake, AfterRead, AfterWait, AfterResume, AfterFork;
  }

  lemma ProcKept(w: World, g: nat, l: Label, i: nat)
    requires Inv(w) && Enabled(w, g, l) && i < |w.procs| && w.procs[i].state != UNUSED && w.procs[i].state != ZOMBIE
    requires Claim(w.harts[g]) == Slot(i) ==> InPassing(w.harts[g].pc)
    requires !Continues(w, g, l, i)
    ensures var w' := Step(w, g, l);
            && |w'.procs| == |w.procs| && w'.procs[i].resume == w.procs[i].resume
            && w'.procs[i].state != UNUSED && w'.procs[i].state != ZOMBIE
  {
    hide Typed, Completes, FirstUnused, AfterOwn;
    Unpack(w, g);
    hide Inv, ProcsOk, LogOk;
    if l.Go? && w.harts[g].cur.Slot? && w.harts[g].cur.i < |w.procs| { OwnKeeps(w, g, w.harts[g].cur.i, l.table, i); }
  }

  lemma OwnKeeps(w: World, h: nat, j: nat, table: nat, i: nat)
    requires h < |w.harts| && j < |w.procs| && i < |w.procs|
    requires w.procs[i].state != UNUSED && w.procs[i].state != ZOMBIE
    requires i == j ==> InPassing(w.harts[h].pc) && !w.harts[h].pc.Resumed?
    ensures var w' := AfterOwn(w, h, j, table);
            && |w'.procs| == |w.procs| && w'.procs[i].resume == w.procs[i].resume
            && w'.procs[i].state != UNUSED && w'.procs[i].state != ZOMBIE
  {
    hide FirstUnused;
  }

  /** From step n to step m process i does not go on. */
  ghost predicate StaysAway(ws: seq<World>, hs: seq<nat>, ls: seq<Label>, i: nat, n: nat, m: nat) {
    n <= m <= |hs| && |hs| == |ls| && |ws| == |hs| + 1
    && forall k :: n <= k < m ==> !Continues(ws[k], hs[k], ls[k], i)
  }

  lemma {:induction false} RunKeepsAway(ws: seq<World>, hs: seq<nat>, ls: seq<Label>, i: nat, n: nat, m: nat, r: Resume)
    requires Run(ws, hs, ls) && StaysAway(ws, hs, ls, i, n, m) && Away(ws[n], i, r)
    ensures Away(ws[m], i, r) && Inv(ws[m])
    decreases m - n
  {
    hide Inv, Step, Enabled, Away, Continues;
    RunKeeps(ws, hs, ls, m);
    if n < m {
      RunKeepsAway(ws, hs, ls, i, n, m - 1, r);
      assert Taken(ws[m - 1], hs[m - 1], ls[m - 1], ws[m - 1 + 1]);
      StepKeepsAway(ws[m - 1], hs[m - 1], ls[m - 1], i, r);
    }
  }

  // ---- where it goes on ----

  /** At step n hart h switches process i away, and step m is the next in which the process goes on. */
  ghost predicate AwayUntil(ws: seq<World>, hs: seq<nat>, ls: seq<Label>, i: nat, n: nat, m: nat) {
    && Run(ws, hs, ls) && n < m < |hs| && hs[n] < |ws[n].harts| && hs[m] < |ws[m].harts| && i < |ws[n].procs|
    && ls[n].Go? && ws[n].harts[hs[n]].cur == Slot(i) && hs[n] < |ws[n + 1].harts|
    && ws[n + 1].harts[hs[n]].pc == Leaving
    && hs[m] < |ws[m + 1].harts| && i < |ws[m].procs|
    && StaysAway(ws, hs, ls, i, n + 1, m) && Continues(ws[m], hs[m], ls[m], i)
  }

  /** The lock is released, the process runs on in user mode, and nothing else happened in this step. */
  ghost predicate BackInUser(w: World, w': World, g: nat, i: nat)
    requires g < |w'.harts|
  {
    && w'.harts[g].pc == User && w'.harts[g].cur == Slot(i) && !w'.locked
    && w'.procs == w.procs && w'.input == w.input && w'.delivered == w.delivered
  }

  /** The lock is kept, the process goes on at pc, and its channel is cleared. */
  ghost predicate BackAt(w: World, w': World, g: nat, i: nat, pc: Pc)
    requires g < |w'.harts| && i < |w.procs|
  {
    && w'.harts[g].pc == pc && w'.harts[g].cur == Slot(i) && w'.locked == w.locked
    && w'.procs == w.procs[i := w.procs[i].(chan := NoChan)] && w'.input == w.input && w'.delivered == w.delivered
  }

  lemma LeavesAway(w: World, h: nat, l: Label, i: nat)
    requires Inv(w) && Enabled(w, h, l) && l.Go? && w.harts[h].cur == Slot(i) && i < |w.procs|
    requires w.harts[h].pc.Yielding? || w.harts[h].pc.Waiting? || w.harts[h].pc.Reading?
    requires Step(w, h, l).harts[h].pc == Leaving
    ensures var r := if w.harts[h].pc.Yielding? then AfterYield
                     else if w.harts[h].pc.Waiting? then InWait else InRead(w.harts[h].pc.left);
            Away(Step(w, h, l), i, r)
  {
    Unpack(w, h);
    Alone(w, h, l);
    ClaimAlone(w, h, i);
    hide Inv, ProcsOk, LogOk, OthersOut;
    HartsKept(w, h, l);
    hide FirstUnused, Wake;
  }

  lemma ClaimAlone(w: World, h: nat, i: nat)
    requires Inv(w) && h < |w.harts| && Claim(w.harts[h]) == Slot(i)
    ensures forall g :: 0 <= g < |w.harts| && g != h ==> Claim(w.harts[g]) != Slot(i)
  {
    hide LockOk, RunningClaimed, TablesOk, SleepersOk, InputOk, HartOk, LogOk;
  }

  lemma GoesOn(w: World, g: nat, l: Label, i: nat, r: Resume)
    requires Inv(w) && Enabled(w, g, l) && Away(w, i, r) && Continues(w, g, l, i)
    ensures g < |Step(w, g, l).harts|
    ensures r == Fresh || r == AfterYield ==> BackInUser(w, Step(w, g, l), g, i)
    ensures r == InWait ==> BackAt(w, Step(w, g, l), g, i, Waiting(0, false))
    ensures r.InRead? ==> BackAt(w, Step(w, g, l), g, i, Reading(r.left))
  {
    hide Inv;
  }

  lemma Returns(ws: seq<World>, hs: seq<nat>, ls: seq<Label>, i: nat, n: nat, m: nat)
    requires AwayUntil(ws, hs, ls, i, n, m)
    requires ws[n].harts[hs[n]].pc.Yielding? || ws[n].harts[hs[n]].pc.Waiting? || ws[n].harts[hs[n]].pc.Reading?
    ensures var pc, g := ws[n].harts[hs[n]].pc, hs[m];
            && (pc.Yielding? ==> BackInUser(ws[m], ws[m + 1], g, i))
            && (pc.Waiting? ==> BackAt(ws[m], ws[m + 1], g, i, Waiting(0, false)))
            && (pc.Reading? ==> BackAt(ws[m], ws[m + 1], g, i, Reading(pc.left)))
  {
    hide Inv, Step, Enabled, Away, BackInUser, BackAt;
    RunKeeps(ws, hs, ls, n);
    assert Taken(ws[n], hs[n], ls[n], ws[n + 1]) && Taken(ws[m], hs[m], ls[m], ws[m + 1]);
    LeavesAway(ws[n], hs[n], ls[n], i);
    var r := if ws[n].harts[hs[n]].pc.Yielding? then AfterYield
             else if ws[n].harts[hs[n]].pc.Waiting? then InWait else InRead(ws[n].harts[hs[n]].pc.left);
    RunKeepsAway(ws, hs, ls, i, n + 1, m, r);
    GoesOn(ws[m], hs[m], ls[m], i, r);
  }

  /** A process that yields comes back to user mode with the lock free, whenever and wherever it is dispatched again. */
  lemma YieldReturns(ws: seq<World>, hs: seq<nat>, ls: seq<Label>, i: nat, n: nat, m: nat)
    requires AwayUntil(ws, hs, ls, i, n, m) && ws[n].harts[hs[n]].pc.Yielding?
    ensures BackInUser(ws[m], ws[m + 1], hs[m], i)
  {
    Returns(ws, hs, ls, i, n, m);
    hide AwayUntil, BackInUser, BackAt;
  }

  /** A process that slept in wait goes on with a new scan from slot 0, seen no child yet. */
  lemma WaitRescans(ws: seq<World>, hs: seq<nat>, ls: seq<Label>, i: nat, n: nat, m: nat)
    requires AwayUntil(ws, hs, ls, i, n, m) && ws[n].harts[hs[n]].pc.Waiting?
    ensures BackAt(ws[m], ws[m + 1], hs[m], i, Waiting(0, false))
  {
    Returns(ws, hs, ls, i, n, m);
    hide AwayUntil, BackInUser, BackAt;
  }

  /** A process that slept in console_read goes on with exactly the bytes it still wanted. */
  lemma ReadGoesOn(ws: seq<World>, hs: seq<nat>, ls: seq<Label>, i: nat, n: nat, m: nat)
    requires AwayUntil(ws, hs, ls, i, n, m) && ws[n].harts[hs[n]].pc.Reading?
    ensures BackAt(ws[m], ws[m + 1], hs[m], i, Reading(ws[n].harts[hs[n]].pc.left))
  {
    Returns(ws, hs, ls, i, n, m);
    hide AwayUntil, BackInUser, BackAt;
  }

  // ---- what the calls do to the process table ----

  /** A hart that wins the lock enters the code it wanted, and nothing else happens. */
  lemma AcquireStep(w: World, h: nat, want: Want)
    requires Inv(w) && Enabled(w, h, Acquire(want))
    ensures var w' := Step(w, h, Acquire(want));
            && !w.locked && w'.locked && w'.procs == w.procs && w'.input == w.input && w'.delivered == w.delivered
            && |w'.harts| == |w.harts| && (forall g :: 0 <= g < |w.harts| && g != h ==> w'.harts[g] == w.harts[g])
            && w'.harts[h].cur == w.harts[h].cur && w'.harts[h].satp == w.harts[h].satp
            && match want
               case WantSchedule => w'.harts[h].pc == Scan(0)
               case WantYield => w'.harts[h].pc == Yielding
               case WantExit => w'.harts[h].pc == Exiting
               case WantWait => w'.harts[h].pc == Waiting(0, false)
               case WantFork => w'.harts[h].pc == Forking
               case WantRead(n) => w'.harts[h].pc == Reading(n)
               case WantKey(c) => w'.harts[h].pc == Keystroke(c)
  {
    hide Inv;
  }

  /**
    One turn of the scheduler's loop: a RUNNABLE process becomes RUNNING, any other is passed
    by; at the end the lock is free.
   */
  lemma ScanStep(w: World, h: nat, l: Label)
    requires Inv(w) && Enabled(w, h, l) && l.Go? && w.harts[h].pc.Scan?
    ensures var w', i := Step(w, h, l), w.harts[h].pc.i;
            && |w.procs| == 8 && h < |w'.harts| && w'.input == w.input && w'.delivered == w.delivered
            && if i >= 8 then w'.procs == w.procs && w'.harts[h].pc == Idle && !w'.locked
               else if w.procs[i].state == RUNNABLE then
                 && w'.procs == w.procs[i := w.procs[i].(state := RUNNING)] && w'.harts[h].pc == Marked(i) && w'.locked
               else w'.procs == w.procs && w'.harts[h].pc == Scan(i + 1) && w'.locked
  {
    Locked(w, h);
    hide Inv;
  }

  /**
    To a process: it becomes current, its table is loaded, it goes on. Back: the kernel's table,
    no current process, the next slot.
   */
  lemma SwitchSteps(w: World, h: nat, l: Label)
    requires Inv(w) && Enabled(w, h, l) && l.Go?
    ensures var w', pc := Step(w, h, l), w.harts[h].pc;
            && (pc.Marked? ==>
                  OnlyHart(w, w', h) && w'.harts[h].pc == Picked(pc.i) && w'.harts[h].cur == Slot(pc.i)
                  && w'.harts[h].satp == w.harts[h].satp)
            && (pc.Picked? ==>
                  && pc.i < |w.procs| && OnlyHart(w, w', h) && w'.harts[h].pc == Resumed
                  && w'.harts[h].cur == Slot(pc.i) && w'.harts[h].satp == w.procs[pc.i].table)
            && (pc.Leaving? ==>
                  OnlyHart(w, w', h) && w'.harts[h].pc == Unloaded && w'.harts[h].satp == KERNEL
                  && w'.harts[h].cur == w.harts[h].cur)
            && (pc.Unloaded? ==>
                  && w.harts[h].cur.Slot? && OnlyHart(w, w', h) && w'.harts[h].pc == Scan(w.harts[h].cur.i + 1)
                  && w'.harts[h].cur == NoSlot && w'.harts[h].satp == KERNEL)
  {
    Unpack(w, h);
    hide Inv, ProcsOk, LogOk;
  }

  /** Only hart h itself changes. */
  ghost predicate OnlyHart(w: World, w': World, h: nat) {
    && |w'.harts| == |w.harts| && h < |w.harts|
    && (forall g :: 0 <= g < |w.harts| && g != h ==> w'.harts[g] == w.harts[g])
    && w'.procs == w.procs && w'.locked == w.locked && w'.input == w.input && w'.delivered == w.delivered
  }

  /** wakeup makes RUNNABLE exactly the processes asleep on the channel. */
  lemma WakeMeans(procs: seq<Proc>, chan: Chan, i: nat)
    requires i < |procs|
    ensures |Wake(procs, chan)| == |procs|
    ensures procs[i].state == SLEEPING && procs[i].chan == chan ==> Wake(procs, chan)[i] == procs[i].(state := RUNNABLE)
    ensures !(procs[i].state == SLEEPING && procs[i].chan == chan) ==> Wake(procs, chan)[i] == procs[i]
  {
  }

  /** Process i is current on hart h, which holds the lock and takes its next step. */
  ghost predicate Acts(w: World, h: nat, l: Label, i: nat) {
    Inv(w) && Enabled(w, h, l) && l.Go? && w.harts[h].cur == Slot(i) && i < |w.procs|
  }

  /** No other hart, no byte of input and no other slot than c is touched. */
  ghost predicate OnlySlot(w: World, w': World, h: nat, c: nat) {
    && |w'.harts| == |w.harts| && h < |w.harts|
    && (forall g :: 0 <= g < |w.harts| && g != h ==> w'.harts[g] == w.harts[g])
    && w'.harts[h].cur == w.harts[h].cur && w'.locked == w.locked && w'.input == w.input && w'.delivered == w.delivered
    && |w'.procs| == |w.procs| && forall j :: 0 <= j < |w.procs| && j != c ==> w'.procs[j] == w.procs[j]
  }

  /**
    fork takes the first unused slot for a RUNNABLE child of the caller with the new table;
    without one nothing changes.
   */
  lemma ForkStep(w: World, h: nat, l: Label, i: nat)
    requires Acts(w, h, l, i) && w.harts[h].pc == Forking
    ensures var w', c := Step(w, h, l), FirstUnused(w.procs, 0);
            && OnlySlot(w, w', h, c) && w'.harts[h].pc == Releasing
            && (c < |w.procs| ==>
                  && w.procs[c].state == UNUSED && (forall j :: 0 <= j < c ==> w.procs[j].state != UNUSED)
                  && w'.procs[c].state == RUNNABLE && w'.procs[c].parent == Slot(i) && w'.procs[c].table == l.table)
            && (c == |w.procs| ==> w'.procs == w.procs && forall j :: 0 <= j < |w.procs| ==> w.procs[j].state != UNUSED)
  {
    hide Inv;
  }

  /**
    One turn of wait's loop: a ZOMBIE child's slot is freed and the call is over; any other
    slot is passed by; at the end the call is over if there was no child, and otherwise the
    process sleeps on its own slot.
   */
  lemma WaitStep(w: World, h: nat, l: Label, i: nat)
    requires Acts(w, h, l, i) && w.harts[h].pc.Waiting?
    ensures var w', j, kids := Step(w, h, l), w.harts[h].pc.j, w.harts[h].pc.kids;
            if j < 8 then
              if w.procs[j].parent == Slot(i) && w.procs[j].state == ZOMBIE then
                && OnlySlot(w, w', h, j) && w'.harts[h].pc == Releasing
                && w'.procs[j].state == UNUSED && w'.procs[j].parent == NoSlot
              else
                && OnlySlot(w, w', h, j) && w'.procs == w.procs
                && w'.harts[h].pc == Waiting(j + 1, kids || w.procs[j].parent == Slot(i))
            else if !kids then
              && OnlySlot(w, w', h, i) && w'.procs == w.procs && w'.harts[h].pc == Releasing
              && forall q :: 0 <= q < 8 ==> w.procs[q].parent != Slot(i)
            else
              && OnlySlot(w, w', h, i) && w'.harts[h].pc == Leaving
              && w'.procs[i].state == SLEEPING && w'.procs[i].chan == OwnSlot(i)
              && w'.procs[i].parent == w.procs[i].parent && w'.procs[i].table == w.procs[i].table
  {
    Unpack(w, h);
    Locked(w, h);
    hide Inv, ProcsOk, LogOk;
    var j, kids := w.harts[h].pc.j, w.harts[h].pc.kids;
    if j == 8 && !kids { NoChild(w.procs, i); }
  }

  lemma NoChild(procs: seq<Proc>, i: nat)
    requires |procs| == 8 && Waited(procs, i, 8, false)
    ensures forall q :: 0 <= q < 8 ==> procs[q].parent != Slot(i)
  {
    forall q: nat | q < 8 ensures procs[q].parent != Slot(i) {
      if Child(procs, q, i) { assert false; }
    }
  }

  /** exit wakes the parent, if there is one, and then leaves a ZOMBIE behind. */
  lemma ExitSteps(w: World, h: nat, l: Label, i: nat)
    requires Acts(w, h, l, i) && (w.harts[h].pc == Exiting || w.harts[h].pc == ExitWoken)
    ensures var w', p := Step(w, h, l), w.procs[i].parent;
            && |w'.harts| == |w.harts| && w'.locked == w.locked && w'.input == w.input && w'.delivered == w.delivered
            && (w.harts[h].pc == Exiting ==>
                  && w'.harts[h].pc == ExitWoken
                  && w'.procs == if p.Slot? then Wake(w.procs, OwnSlot(p.i)) else w.procs)
            && (w.harts[h].pc == ExitWoken ==>
                  && w'.harts[h].pc == Leaving && OnlySlot(w, w', h, i) && w'.procs[i].state == ZOMBIE
                  && w'.procs[i].parent == p && w'.procs[i].table == w.procs[i].table)
  {
    hide Inv, Wake;
  }

  /** A ZOMBIE never runs again: it stays as it is until its own parent, in wait, frees the slot. */
  lemma ZombieStays(w: World, h: nat, l: Label, i: nat)
    requires Inv(w) && Enabled(w, h, l) && i < |w.procs| && w.procs[i].state == ZOMBIE
    ensures var w' := Step(w, h, l);
            && |w'.procs| == |w.procs|
            && (w'.procs[i] == w.procs[i]
                || (w'.procs[i].state == UNUSED && w.harts[h].pc.Waiting? && w.harts[h].pc.j == i
                    && w.procs[i].parent == w.harts[h].cur))
  {
    hide Typed, Completes, FirstUnused, AfterOwn;
    Unpack(w, h);
    hide Inv, ProcsOk, LogOk;
    if l.Go? && w.harts[h].cur.Slot? && w.harts[h].cur.i < |w.procs| { OwnZombie(w, h, w.harts[h].cur.i, l.table, i); }
  }

  lemma OwnZombie(w: World, h: nat, j: nat, table: nat, i: nat)
    requires h < |w.harts| && j < |w.procs| && i < |w.procs| && w.procs[i].state == ZOMBIE
    requires w.harts[h].cur == Slot(j) && (i == j ==> w.harts[h].pc.Leaving? || w.harts[h].pc.Unloaded?)
    ensures var w' := AfterOwn(w, h, j, table);
            && |w'.procs| == |w.procs|
            && (w'.procs[i] == w.procs[i]
                || (w'.procs[i].state == UNUSED && w.harts[h].pc.Waiting? && w.harts[h].pc.j == i
                    && w.procs[i].parent == w.harts[h].cur))
  {
    hide FirstUnused;
  }

  /**
    A byte of input moves to the reader; a newline, or the last byte wanted, ends the call;
    without input it sleeps.
   */
  lemma ReadStep(w: World, h: nat, l: Label, i: nat)
    requires Acts(w, h, l, i) && w.harts[h].pc.Reading?
    ensures var w', left := Step(w, h, l), w.harts[h].pc.left;
            if left == 0 then OnlySlot(w, w', h, i) && w'.procs == w.procs && w'.harts[h].pc == Releasing
            else if w.input == [] then
              && OnlySlot(w, w', h, i) && w'.harts[h].pc == Leaving
              && w'.procs[i].state == SLEEPING && w'.procs[i].chan == Input
            else
              && w'.procs == w.procs && w'.locked == w.locked && w'.harts[h].cur == Slot(i)
              && w'.delivered == w.delivered + [w.input[0]] && w'.input == w.input[1..]
              && w'.harts[h].pc == if w.input[0] == '\n' then Releasing else Reading(left - 1)
  {
    hide Inv;
  }

  /** The end of a call, and of a keystroke: the lock is free, and the hart is where it was before. */
  lemma ReleaseStep(w: World, h: nat, l: Label)
    requires Inv(w) && Enabled(w, h, l) && l.Go? && w.harts[h].pc == Releasing
    ensures var w' := Step(w, h, l);
            && h < |w'.harts| && w'.harts[h].pc == (if w.harts[h].cur.Slot? then User else Idle)
            && w'.harts[h].cur == w.harts[h].cur && !w'.locked
            && w'.procs == w.procs && w'.input == w.input && w'.delivered == w.delivered
  {
    hide Inv;
  }

  /** yield: a RUNNING process becomes RUNNABLE, any other state stays. */
  lemma YieldStep(w: World, h: nat, l: Label, i: nat)
    requires Acts(w, h, l, i) && w.harts[h].pc == Yielding
    ensures var w' := Step(w, h, l);
            && OnlySlot(w, w', h, i) && w'.harts[h].pc == Leaving && w'.procs[i].state == RUNNABLE
            && w'.procs[i].chan == w.procs[i].chan && w'.procs[i].parent == w.procs[i].parent
            && w'.procs[i].table == w.procs[i].table
  {
    Unpack(w, h);
    hide Inv, ProcsOk, LogOk;
  }

  /** A keystroke: the input changes as typing says, and readers are woken exactly if it completes a line. */
  lemma KeyStep(w: World, h: nat, l: Label)
    requires Inv(w) && Enabled(w, h, l) && l.Go? && w.harts[h].pc.Keystroke?
    ensures var w', c := Step(w, h, l), w.harts[h].pc.c;
            && h < |w'.harts| && w'.harts[h].pc == Releasing && w'.harts[h].cur == w.harts[h].cur
            && w'.locked == w.locked && w'.delivered == w.delivered && w'.input == Typed(w.input, c)
            && w'.procs == (if (c == '\n' || c == '\r') && |w.input| < 128 then Wake(w.procs, Input) else w.procs)
  {
    hide Inv, Wake, Typed;
  }

  /** A forked child starts in user mode with the lock free, whenever and wherever it is first dispatched. */
  lemma ChildStarts(ws: seq<World>, hs: seq<nat>, ls: seq<Label>, c: nat, n: nat, m: nat)
    requires Run(ws, hs, ls) && n < m < |hs| && hs[n] < |ws[n].harts| && ls[n].Go? && ws[n].harts[hs[n]].pc == Forking
    requires c < |ws[n].procs| && ws[n].procs[c].state == UNUSED && c < |ws[n + 1].procs|
             && ws[n + 1].procs[c].state != UNUSED
    requires StaysAway(ws, hs, ls, c, n + 1, m) && Continues(ws[m], hs[m], ls[m], c) && hs[m] < |ws[m + 1].harts|
    ensures BackInUser(ws[m], ws[m + 1], hs[m], c)
  {
    hide Inv, Step, Enabled, Away, BackInUser, BackAt;
    RunKeeps(ws, hs, ls, n);
    assert Taken(ws[n], hs[n], ls[n], ws[n + 1]) && Taken(ws[m], hs[m], ls[m], ws[m + 1]);
    BornAway(ws[n], hs[n], ls[n], c);
    RunKeepsAway(ws, hs, ls, c, n + 1, m, Fresh);
    GoesOn(ws[m], hs[m], ls[m], c, Fresh);
  }

  lemma BornAway(w: World, h: nat, l: Label, c: nat)
    requires Inv(w) && Enabled(w, h, l) && l.Go? && w.harts[h].pc == Forking && c < |w.procs|
    requires w.procs[c].state == UNUSED && c < |Step(w, h, l).procs| && Step(w, h, l).procs[c].state != UNUSED
    ensures Away(Step(w, h, l), c, Fresh)
  {
    Unpack(w, h);
    Alone(w, h, l);
    HartsKept(w, h, l);
    forall g | 0 <= g < |w.harts| ensures Claim(w.harts[g]) != Slot(c) {
      Unpack(w, g);
      if g != h && w.harts[g].cur.Slot? { ClaimIsRunning(w.harts[g], w.procs); }
    }
    hide Inv, ProcsOk, LogOk, OthersOut;
  }
}
