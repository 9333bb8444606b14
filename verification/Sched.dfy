/**
  The scheduler of src/proc.c on several harts: one spin lock handed across swtch, sleep
  and wakeup, wait and exit, and the console's reader, as a step system.  A step is what a
  hart does between two points where another hart could notice.
 */
module Sched {
  import opened Console

  const NPROC: nat := 8
  const NULL: nat := 0
  const KERNEL: nat := 1   // the kernel's own page table

  datatype PState = UNUSED | RUNNABLE | RUNNING | SLEEPING | ZOMBIE

  datatype MaybeSlot = NoSlot | Slot(i: nat)

  /** The address a process sleeps on: the input buffer, or its own slot while it waits for children. */
  datatype Chan = NoChan | Input | OwnSlot(i: nat)

  /** Where a process goes on when it is switched to. */
  datatype Resume = Fresh | AfterYield | InWait | InRead(left: nat) | Gone

  datatype Proc = Proc(state: PState, chan: Chan, parent: MaybeSlot, table: nat, resume: Resume)

  /** Where a hart is; all but Idle and User hold the lock. */
  datatype Pc =
    | Idle                               // the scheduler before acquire
    | User                               // the current process, outside the lock
    | Scan(i: nat)                       // the scheduler's loop at slot i
    | Marked(i: nat)                     // slot i is RUNNING
    | Picked(i: nat)                     // and current
    | Resumed                            // its table is loaded, swtch done
    | Yielding | Exiting | ExitWoken | Forking
    | Waiting(j: nat, kids: bool)        // wait's loop at slot j
    | Reading(left: nat)                 // console_read with left bytes to go
    | Keystroke(c: char)
    | Releasing
    | Leaving                            // back in the scheduler, the table still loaded
    | Unloaded                           // the kernel's table loaded, the process still current

  /** One visit of the scheduler's loop to a slot. */
  datatype Visit = Visit(slot: nat, ready: bool, dispatched: bool)

  datatype Hart = Hart(pc: Pc, cur: MaybeSlot, satp: nat, scan: nat, log: seq<Visit>)

  datatype World = World(locked: bool, harts: seq<Hart>, procs: seq<Proc>, input: seq<char>, delivered: seq<char>)

  datatype Want = WantSchedule | WantYield | WantExit | WantWait | WantFork | WantRead(n: nat) | WantKey(c: char)

  /** A hart wins the lock, or goes on holding it; table is the page fork would build the child's table in. */
  datatype Label = Acquire(want: Want) | Go(table: nat)

  predicate Holding(pc: Pc) { !pc.Idle? && !pc.User? }

  // ---- steps ----

  function Woken(p: Proc, chan: Chan): Proc {
    if p.state == SLEEPING && p.chan == chan then p.(state := RUNNABLE) else p
  }

  function Wake(procs: seq<Proc>, chan: Chan): seq<Proc> {
    seq(|procs|, i requires 0 <= i < |procs| => Woken(procs[i], chan))
  }

  /** wakeup's loop over the process table. */
  method Wakeup(procs: array<Proc>, chan: Chan)
    modifies procs
    ensures procs[..] == Wake(old(procs[..]), chan)
  {
    ghost var before := procs[..];
    for i := 0 to procs.Length
      invariant forall j :: 0 <= j < i ==> procs[j] == Wake(before, chan)[j]
      invariant forall j :: i <= j < procs.Length ==> procs[j] == before[j]
    {
      if procs[i].state == SLEEPING && procs[i].chan == chan {
        procs[i] := procs[i].(state := RUNNABLE);
      }
    }
  }

  function FirstUnused(procs: seq<Proc>, from: nat): (c: nat)
    requires from <= |procs|
    ensures from <= c <= |procs| && (c < |procs| ==> procs[c].state == UNUSED)
    ensures forall j :: from <= j < c ==> procs[j].state != UNUSED
    decreases |procs| - from
  {
    if from == |procs| || procs[from].state == UNUSED then from else FirstUnused(procs, from + 1)
  }

  /** A page no live process uses as its table. */
  predicate FreshTable(procs: seq<Proc>, table: nat) {
    table != KERNEL && table != NULL
      && forall j :: 0 <= j < |procs| && procs[j].state != UNUSED ==> procs[j].table != table
  }

  predicate WantOk(w: World, hart: Hart, want: Want) {
    match hart.pc
    case Idle => want.WantSchedule? || want.WantKey?
    case User => !want.WantSchedule?
      && (want.WantFork? ==> hart.cur.Slot? && hart.cur.i < |w.procs| && w.procs[hart.cur.i].table != KERNEL)
    case _ => false
  }

  predicate Enabled(w: World, h: nat, l: Label) {
    h < |w.harts| &&
    match l
    case Acquire(want) => !w.locked && WantOk(w, w.harts[h], want)
    case Go(table) => Holding(w.harts[h].pc) && (w.harts[h].pc.Forking? ==> FreshTable(w.procs, table))
  }

  function StartPc(want: Want): Pc {
    match want
    case WantSchedule => Scan(0)
    case WantYield => Yielding
    case WantExit => Exiting
    case WantWait => Waiting(0, false)
    case WantFork => Forking
    case WantRead(n) => Reading(n)
    case WantKey(c) => Keystroke(c)
  }

  function WithHart(w: World, h: nat, hart: Hart): World
    requires h < |w.harts|
  {
    w.(harts := w.harts[h := hart])
  }

  /** swtch back to the scheduler, with the process in the given state. */
  function SwitchAway(w: World, h: nat, i: nat, p: Proc): World
    requires h < |w.harts| && i < |w.procs|
  {
    WithHart(w, h, w.harts[h].(pc := Leaving)).(procs := w.procs[i := p])
  }

  function AfterWait(w: World, h: nat, i: nat, j: nat, kids: bool): World
    requires h < |w.harts| && i < |w.procs|
  {
    var hart := w.harts[h];
    if j < |w.procs| then
      if w.procs[j].parent != Slot(i) then WithHart(w, h, hart.(pc := Waiting(j + 1, kids)))
      else if w.procs[j].state != ZOMBIE then WithHart(w, h, hart.(pc := Waiting(j + 1, true)))
      else WithHart(w, h, hart.(pc := Releasing)).(procs :=
        w.procs[j := w.procs[j].(state := UNUSED, parent := NoSlot, table := NULL)])
    else if !kids then WithHart(w, h, hart.(pc := Releasing))
    else SwitchAway(w, h, i, w.procs[i].(state := SLEEPING, chan := OwnSlot(i), resume := InWait))
  }

  function AfterRead(w: World, h: nat, i: nat, left: nat): World
    requires h < |w.harts| && i < |w.procs|
  {
    var hart := w.harts[h];
    if left == 0 then WithHart(w, h, hart.(pc := Releasing))
    else if w.input == [] then SwitchAway(w, h, i,
      w.procs[i].(state := SLEEPING, chan := Input, resume := InRead(left)))
    else
      var c := w.input[0];
      WithHart(w, h, hart.(pc := if c == NEWLINE then Releasing else Reading(left - 1)))
      .(input := w.input[1..], delivered := w.delivered + [c])
  }

  function AfterResume(w: World, h: nat, i: nat): World
    requires h < |w.harts| && i < |w.procs|
  {
    var hart := w.harts[h];
    match w.procs[i].resume
    case Fresh => WithHart(w, h, hart.(pc := User)).(locked := false)
    case AfterYield => WithHart(w, h, hart.(pc := User)).(locked := false)
    case InWait => WithHart(w, h, hart.(pc := Waiting(0, false))).(procs := w.procs[i := w.procs[i].(chan := NoChan)])
    case InRead(n) => WithHart(w, h, hart.(pc := Reading(n))).(procs := w.procs[i := w.procs[i].(chan := NoChan)])
    case Gone => w
  }

  function AfterFork(w: World, h: nat, i: nat, table: nat): World
    requires h < |w.harts|
  {
    var c := FirstUnused(w.procs, 0);
    var r := WithHart(w, h, w.harts[h].(pc := Releasing));
    if c == |w.procs| then r else r.(procs := w.procs[c := Proc(RUNNABLE, w.procs[c].chan, Slot(i), table, Fresh)])
  }

  function AfterScan(w: World, h: nat, i: nat): World
    requires h < |w.harts|
  {
    var hart := w.harts[h];
    if i >= |w.procs| then WithHart(w, h, hart.(pc := Idle)).(locked := false)
    else if w.procs[i].state == RUNNABLE then
      WithHart(w, h, hart.(pc := Marked(i), log := hart.log + [Visit(i, true, true)])).(procs :=
        w.procs[i := w.procs[i].(state := RUNNING)])
    else WithHart(w, h, hart.(pc := Scan(i + 1), log := hart.log + [Visit(i, false, false)]))
  }

  /** Steps of a hart that holds the lock for its current process i. */
  function AfterOwn(w: World, h: nat, i: nat, table: nat): World
    requires h < |w.harts| && i < |w.procs|
  {
    var hart := w.harts[h];
    match hart.pc
    case Resumed => AfterResume(w, h, i)
    case Yielding => SwitchAway(w, h, i, if w.procs[i].state == RUNNING
      then w.procs[i].(state := RUNNABLE, resume := AfterYield) else w.procs[i].(resume := AfterYield))
    case Exiting =>
      var p := w.procs[i].parent;
      WithHart(w, h, hart.(pc := ExitWoken)).(procs := if p.Slot? then Wake(w.procs, OwnSlot(p.i)) else w.procs)
    case ExitWoken => SwitchAway(w, h, i, w.procs[i].(state := ZOMBIE, resume := Gone))
    case Forking => AfterFork(w, h, i, table)
    case Waiting(j, kids) => AfterWait(w, h, i, j, kids)
    case Reading(left) => AfterRead(w, h, i, left)
    case Leaving => WithHart(w, h, hart.(pc := Unloaded, satp := KERNEL))
    case Unloaded => WithHart(w, h, hart.(pc := Scan(hart.scan + 1), cur := NoSlot))
    case _ => w
  }

  function Step(w: World, h: nat, l: Label): World
    requires Enabled(w, h, l)
  {
    var hart := w.harts[h];
    match l
    case Acquire(want) => WithHart(w, h, hart.(pc := StartPc(want))).(locked := true)
    case Go(table) =>
      match hart.pc
      case Scan(i) => AfterScan(w, h, i)
      case Marked(i) => WithHart(w, h, hart.(pc := Picked(i), cur := Slot(i), scan := i))
      case Picked(i) => if i < |w.procs| then WithHart(w, h, hart.(pc := Resumed, satp := w.procs[i].table)) else w
      case Keystroke(c) =>
        WithHart(w, h, hart.(pc := Releasing))
        .(input := Typed(w.input, c), procs := if Completes(w.input, c) then Wake(w.procs, Input) else w.procs)
      case Releasing => WithHart(w, h, hart.(pc := if hart.cur.Slot? then User else Idle)).(locked := false)
      case _ => if hart.cur.Slot? && hart.cur.i < |w.procs| then AfterOwn(w, h, hart.cur.i, table) else w
  }

  // ---- what every interleaving keeps ----

  /** The slot a hart has taken for itself. */
  function Claim(hart: Hart): MaybeSlot { if hart.pc.Marked? then Slot(hart.pc.i) else hart.cur }

  /** No process: the kernel's table is loaded. */
  predicate AtRest(hart: Hart) { hart.cur == NoSlot && hart.satp == KERNEL }

  /** A process is current, RUNNING, and exactly its table is loaded. */
  predicate OnCpu(hart: Hart, procs: seq<Proc>) {
    hart.cur.Slot? && hart.cur.i < |procs| && hart.scan == hart.cur.i
    && procs[hart.cur.i].state == RUNNING && hart.satp == procs[hart.cur.i].table
  }

  predicate Child(procs: seq<Proc>, q: nat, i: nat) { q < |procs| && procs[q].parent == Slot(i) }

  /** The wait loop up to slot j: kids tells whether a child was seen, and none of them was ZOMBIE. */
  ghost predicate Waited(procs: seq<Proc>, i: nat, j: nat, kids: bool) {
    && (kids <==> exists q :: 0 <= q < j && Child(procs, q, i))
    && forall q :: 0 <= q < j && Child(procs, q, i) ==> procs[q].state != ZOMBIE
  }

  predicate ParentAwake(procs: seq<Proc>, i: nat)
    requires i < |procs|
  {
    var p := procs[i].parent;
    p.Slot? && p.i < |procs| ==> !(procs[p.i].state == SLEEPING && procs[p.i].chan == OwnSlot(p.i))
  }

  ghost predicate HartOk(hart: Hart, procs: seq<Proc>) {
    match hart.pc
    case Idle => AtRest(hart)
    case Scan(i) => AtRest(hart) && i <= NPROC
    case Marked(i) => AtRest(hart) && i < |procs| && procs[i].state == RUNNING && procs[i].resume != Gone
    case Picked(i) => hart.cur == Slot(i) && hart.scan == i && hart.satp == KERNEL && i < |procs|
      && procs[i].state == RUNNING && procs[i].resume != Gone
    case Resumed => OnCpu(hart, procs) && procs[hart.cur.i].resume != Gone
    case ExitWoken => OnCpu(hart, procs) && ParentAwake(procs, hart.cur.i)
    case Forking => OnCpu(hart, procs) && procs[hart.cur.i].table != KERNEL
    case Waiting(j, kids) => OnCpu(hart, procs) && j <= |procs| && Waited(procs, hart.cur.i, j, kids)
    case Keystroke(c) => AtRest(hart) || OnCpu(hart, procs)
    case Releasing => AtRest(hart) || OnCpu(hart, procs)
    case Leaving =>
      hart.cur.Slot? && hart.cur.i < |procs| && hart.scan == hart.cur.i
      && procs[hart.cur.i].state != RUNNING && hart.satp == procs[hart.cur.i].table
    case Unloaded => hart.cur.Slot? && hart.cur.i < |procs| && hart.scan == hart.cur.i
      && procs[hart.cur.i].state != RUNNING && hart.satp == KERNEL
    case _ => OnCpu(hart, procs)
  }

  ghost predicate LockOk(w: World) {
    && (w.locked ==> exists h :: 0 <= h < |w.harts| && Holding(w.harts[h].pc))
    && (forall h :: 0 <= h < |w.harts| && Holding(w.harts[h].pc) ==> w.locked)
    && (forall g, h :: 0 <= g < |w.harts| && 0 <= h < |w.harts| && Holding(w.harts[g].pc) && Holding(w.harts[h].pc) ==>
      g == h)
  }

  ghost predicate ClaimsApart(harts: seq<Hart>) {
    forall g, h :: 0 <= g < |harts| && 0 <= h < |harts| && g != h && Claim(harts[g]).Slot? ==>
      Claim(harts[g]) != Claim(harts[h])
  }

  ghost predicate RunningClaimed(harts: seq<Hart>, procs: seq<Proc>) {
    forall i :: 0 <= i < |procs| && procs[i].state == RUNNING ==>
      exists h :: 0 <= h < |harts| && Claim(harts[h]) == Slot(i)
  }

  /** No two live processes share a table, and an unused slot has no parent. */
  ghost predicate TablesOk(procs: seq<Proc>) {
    && (forall i, j :: 0 <= i < j < |procs| && procs[i].state != UNUSED && procs[j].state != UNUSED
                       && procs[i].table != KERNEL
                       ==> procs[i].table != procs[j].table)
    && (forall i :: 0 <= i < |procs| && procs[i].parent != NoSlot ==>
          procs[i].state != UNUSED && procs[i].table != KERNEL)
  }

  /** A sleeper sleeps on its own slot inside wait, or on the input inside console_read. */
  ghost predicate SleepersOk(procs: seq<Proc>) {
    forall i :: 0 <= i < |procs| ==> SleeperOk(procs, i)
  }

  ghost predicate SleeperOk(procs: seq<Proc>, i: nat)
    requires i < |procs|
  {
    var p := procs[i];
    && (p.state == SLEEPING ==> (p.chan == OwnSlot(i) && p.resume == InWait) || (p.chan == Input && p.resume.InRead?))
    && (p.state == SLEEPING && p.chan == OwnSlot(i) ==> Waited(procs, i, |procs|, true))
    && (p.state == RUNNABLE ==> p.resume != Gone)
  }

  ghost predicate InputOk(procs: seq<Proc>, input: seq<char>) {
    |input| <= INBUF && forall i :: 0 <= i < |procs| && procs[i].state == SLEEPING && procs[i].chan == Input ==>
      !HasLine(input)
  }

  /** The scheduler's loop visits slots in order, for ever. */
  ghost predicate LogOk(hart: Hart) {
    && (forall n :: 0 <= n < |hart.log| ==>
      hart.log[n].slot == n % NPROC && hart.log[n].dispatched == hart.log[n].ready)
    && NextVisit(hart) == |hart.log| % NPROC
  }

  /** The slot the hart will look at next. */
  function NextVisit(hart: Hart): nat {
    match hart.pc
    case Scan(i) => i % NPROC
    case Marked(i) => (i + 1) % NPROC
    case Picked(i) => (i + 1) % NPROC
    case _ => if hart.cur.Slot? then (hart.cur.i + 1) % NPROC else 0
  }

  ghost predicate Inv(w: World) {
    && |w.procs| == NPROC && LockOk(w) && ClaimsApart(w.harts) && RunningClaimed(w.harts, w.procs)
    && (forall h :: 0 <= h < |w.harts| ==> HartOk(w.harts[h], w.procs) && LogOk(w.harts[h]))
    && TablesOk(w.procs) && SleepersOk(w.procs) && InputOk(w.procs, w.input)
  }
}
