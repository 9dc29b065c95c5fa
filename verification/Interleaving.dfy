/**
 The VM manager and its monitor as interleaved steps. A step is the code
 between two await points. Each VM state sits behind its own lock, reached
 through a shared cell that outlives its removal from the map.
 */
module Interleaving {
  import opened Prelude
  import opened Phase
  import opened Refcounts

  datatype Cell = Cell(phase: VmPhase, lock: Option<nat>, image: Option<string>)

  /** Where a task is: what it has done and what it waits for. */
  datatype Pc =
    | CreateBooting(id: string, img: string)
    | CreateInserted(id: string, img: string)
    | StartWaiting(cell: nat)
    | StartBooting(cell: nat)
    | StopWaiting(cell: nat)
    | StopRunning(cell: nat)
    | DeleteWaiting(id: string, cell: nat)
    | DeleteRunning(id: string, image: Option<string>)
    | DeleteRemoved(id: string, image: Option<string>)
    | Monitoring(rest: seq<nat>)
    | Pinging(cell: nat, rest: seq<nat>)

  datatype State = State(vms: map<string, nat>, cells: map<nat, Cell>, counts: map<string, nat>, tasks: map<nat, Pc>)

  const EMPTY: State := State(map[], map[], map[], map[])

  /** One step of task `t`; booleans are answers of the world outside. */
  datatype Step =
    | BeginCreate(t: nat, id: string, img: string)
    | FinishBoot(t: nat, cell: nat, ok: bool)
    | Increment(t: nat)
    | BeginStart(t: nat, id: string)
    | LockForStart(t: nat)
    | FinishStart(t: nat, ok: bool)
    | BeginStop(t: nat, id: string)
    | LockForStop(t: nat)
    | FinishStop(t: nat, ok: bool)
    | BeginDelete(t: nat, id: string)
    | Capture(t: nat)
    | FinishDelete(t: nat, ok: bool)
    | Decrement(t: nat)
    | BeginMonitor(t: nat, order: seq<nat>)
    | MonitorNext(t: nat, alive: bool, container: bool)
    | MonitorPong(t: nat, ok: bool)
    | Recover(id: string, cell: nat, image: Option<string>)

  function LockOf(s: State, cell: nat): Option<nat> {
    if cell in s.cells then s.cells[cell].lock else None
  }

  /** Whether the step is the next thing its task can do. */
  ghost predicate Enabled(s: State, a: Step) {
    match a
    case BeginCreate(t, id, image) => t !in s.tasks && id !in s.vms
    case FinishBoot(t, cell, ok) => t in s.tasks && s.tasks[t].CreateBooting? && cell !in s.cells
    case Increment(t) => t in s.tasks && s.tasks[t].CreateInserted?
    case BeginStart(t, id) => t !in s.tasks && id in s.vms
    case LockForStart(t) => t in s.tasks && s.tasks[t].StartWaiting? && Free(s, s.tasks[t].cell)
    case FinishStart(t, ok) => t in s.tasks && s.tasks[t].StartBooting? && s.tasks[t].cell in s.cells
    case BeginStop(t, id) => t !in s.tasks && id in s.vms
    case LockForStop(t) => t in s.tasks && s.tasks[t].StopWaiting? && Free(s, s.tasks[t].cell)
    case FinishStop(t, ok) => t in s.tasks && s.tasks[t].StopRunning? && s.tasks[t].cell in s.cells
    case BeginDelete(t, id) => t !in s.tasks && id in s.vms
    case Capture(t) => t in s.tasks && s.tasks[t].DeleteWaiting? && Free(s, s.tasks[t].cell)
    case FinishDelete(t, ok) => t in s.tasks && s.tasks[t].DeleteRunning?
    case Decrement(t) => t in s.tasks && s.tasks[t].DeleteRemoved?
    case BeginMonitor(t, order) => t !in s.tasks && forall c :: c in order <==> c in s.vms.Values
    case MonitorNext(t, alive, container) =>
      t in s.tasks && s.tasks[t].Monitoring? && s.tasks[t].rest != [] && s.tasks[t].rest[0] in s.cells
    case MonitorPong(t, ok) => t in s.tasks && s.tasks[t].Pinging? && s.tasks[t].cell in s.cells
    case Recover(id, cell, image) => cell !in s.cells
  }

  predicate Free(s: State, cell: nat) {
    cell in s.cells && s.cells[cell].lock.None?
  }

  function Goto(s: State, t: nat, pc: Pc): State {
    s.(tasks := s.tasks[t := pc])
  }

  function Done(s: State, t: nat): State {
    s.(tasks := s.tasks - {t})
  }

  function SetCell(s: State, cell: nat, c: Cell): State {
    s.(cells := s.cells[cell := c])
  }

  predicate Watched(p: VmPhase) {
    p == Running || p == Starting
  }

  /** The state after an enabled step. */
  ghost function Next(s: State, a: Step): State
    requires Enabled(s, a)
  {
    match a
    case BeginCreate(t, id, image) => Goto(s, t, CreateBooting(id, image))
    case FinishBoot(t, cell, ok) =>
      var pc := s.tasks[t];
      if !ok then Done(s, t)
      else
        Goto(SetCell(s, cell, Cell(Running, None, Some(pc.img))).(vms := s.vms[pc.id := cell]),
             t, CreateInserted(pc.id, pc.img))
    case Increment(t) => Done(s.(counts := Incremented(s.counts, s.tasks[t].img)), t)
    case BeginStart(t, id) => Goto(s, t, StartWaiting(s.vms[id]))
    case LockForStart(t) =>
      var cell := s.tasks[t].cell;
      var c := s.cells[cell];
      // A running VM, and one that may not start, end the call with the lock released.
      if c.phase == Running || !CanTransitionTo(c.phase, Starting) then Done(s, t)
      else Goto(SetCell(s, cell, c.(phase := Starting, lock := Some(t))), t, StartBooting(cell))
    case FinishStart(t, ok) =>
      var cell := s.tasks[t].cell;
      Done(SetCell(s, cell, s.cells[cell].(phase := if ok then Running else Failed, lock := None)), t)
    case BeginStop(t, id) => Goto(s, t, StopWaiting(s.vms[id]))
    case LockForStop(t) =>
      var cell := s.tasks[t].cell;
      Goto(SetCell(s, cell, s.cells[cell].(lock := Some(t))), t, StopRunning(cell))
    case FinishStop(t, ok) =>
      var cell := s.tasks[t].cell;
      var c := s.cells[cell];
      Done(SetCell(s, cell, c.(phase := if ok then Stopped else c.phase, lock := None)), t)
    case BeginDelete(t, id) => Goto(s, t, DeleteWaiting(id, s.vms[id]))
    case Capture(t) => Goto(s, t, DeleteRunning(s.tasks[t].id, s.cells[s.tasks[t].cell].image))
    case FinishDelete(t, ok) =>
      var pc := s.tasks[t];
      if !ok then Done(s, t)
      else Goto(s.(vms := s.vms - {pc.id}), t, DeleteRemoved(pc.id, pc.image))
    case Decrement(t) =>
      var image := s.tasks[t].image;
      Done(if image.Some? then s.(counts := Decremented(s.counts, image.value)) else s, t)
    case BeginMonitor(t, order) => Goto(s, t, Monitoring(order))
    case MonitorNext(t, alive, container) =>
      var cell, rest := s.tasks[t].rest[0], s.tasks[t].rest[1..];
      var c := s.cells[cell];
      if c.lock.Some? || !Watched(c.phase) then Goto(s, t, Monitoring(rest))
      else if !alive then Goto(SetCell(s, cell, c.(phase := Failed)), t, Monitoring(rest))
      else if container then Goto(s, t, Monitoring(rest))
      else Goto(s, t, Pinging(cell, rest))
    case MonitorPong(t, ok) =>
      var cell, rest := s.tasks[t].cell, s.tasks[t].rest;
      var c := s.cells[cell];
      if c.lock.Some? || !Watched(c.phase) || ok then Goto(s, t, Monitoring(rest))
      else Goto(SetCell(s, cell, c.(phase := Failed)), t, Monitoring(rest))
    case Recover(id, cell, image) => SetCell(s, cell, Cell(Running, None, image)).(vms := s.vms[id := cell])
  }

  /** Any interleaving: every step enabled where it is taken. */
  ghost predicate Run(s: State, steps: seq<Step>)
    decreases |steps|
  {
    steps != [] ==> Enabled(s, steps[0]) && Run(Next(s, steps[0]), steps[1..])
  }

  ghost function After(s: State, steps: seq<Step>): State
    requires Run(s, steps)
    decreases |steps|
  {
    if steps == [] then s else After(Next(s, steps[0]), steps[1..])
  }

  // ------------------------------------------------------------------
  // Phases under the lock
  // ------------------------------------------------------------------

  predicate Settled(p: VmPhase) {
    p == Running || p == Stopped || p == Failed
  }

  ghost predicate HolderAgrees(s: State, cell: nat)
    requires cell in s.cells
  {
    var c := s.cells[cell];
    match c.lock
    case None => Settled(c.phase)
    case Some(t) =>
      t in s.tasks && if c.phase == Starting then s.tasks[t] == StartBooting(cell)
                      else s.tasks[t] == StopRunning(cell) && Settled(c.phase)
  }

  ghost predicate TaskAgrees(s: State, t: nat)
    requires t in s.tasks
  {
    match s.tasks[t]
    case StartBooting(cell) => LockOf(s, cell) == Some(t)
    case StopRunning(cell) => LockOf(s, cell) == Some(t)
    case StartWaiting(cell) => cell in s.cells
    case StopWaiting(cell) => cell in s.cells
    case DeleteWaiting(_, cell) => cell in s.cells
    case Monitoring(rest) => forall c :: c in rest ==> c in s.cells
    case Pinging(cell, rest) => cell in s.cells && forall c :: c in rest ==> c in s.cells
    case _ => true
  }

  /** A lock is held exactly by the start or stop that took it, and a free cell is settled. */
  ghost predicate Locked(s: State) {
    && (forall id :: id in s.vms ==> s.vms[id] in s.cells)
    && (forall cell :: cell in s.cells ==> HolderAgrees(s, cell))
    && (forall t :: t in s.tasks ==> TaskAgrees(s, t))
  }

  predicate Holds(pc: Pc) {
    pc.StartBooting? || pc.StopRunning?
  }

  lemma KeepsMap(s: State, vms: map<string, nat>)
    requires Locked(s) && forall id :: id in vms ==> vms[id] in s.cells
    ensures Locked(s.(vms := vms))
  {
  }

  lemma KeepsCounts(s: State, counts: map<string, nat>)
    requires Locked(s)
    ensures Locked(s.(counts := counts))
  {
  }

  /** A task that holds no lock moves on or ends. */
  lemma KeepsTask(s: State, t: nat, pc: Pc)
    requires Locked(s) && (t in s.tasks ==> !Holds(s.tasks[t])) && !Holds(pc)
    requires TaskAgrees(Goto(s, t, pc), t)
    ensures Locked(Goto(s, t, pc))
  {
  }

  lemma KeepsDone(s: State, t: nat)
    requires Locked(s) && t in s.tasks && !Holds(s.tasks[t])
    ensures Locked(Done(s, t))
  {
  }

  /** A new cell, or a phase written under a momentary lock. */
  lemma KeepsCell(s: State, cell: nat, c: Cell)
    requires Locked(s) && (cell in s.cells ==> Free(s, cell)) && c.lock.None? && Settled(c.phase)
    ensures Locked(SetCell(s, cell, c))
  {
  }

  lemma KeepsTake(s: State, t: nat, cell: nat, phase: VmPhase, pc: Pc)
    requires Locked(s) && Free(s, cell) && t in s.tasks && !Holds(s.tasks[t])
    requires pc == if phase == Starting then StartBooting(cell) else StopRunning(cell)
    requires phase == Starting || Settled(phase)
    ensures Locked(Goto(SetCell(s, cell, s.cells[cell].(phase := phase, lock := Some(t))), t, pc))
  {
  }

  lemma KeepsRelease(s: State, t: nat, cell: nat, phase: VmPhase)
    requires Locked(s) && LockOf(s, cell) == Some(t) && Settled(phase)
    ensures Locked(Done(SetCell(s, cell, s.cells[cell].(phase := phase, lock := None)), t))
  {
  }

  lemma FinishBootKeepsLocked(s: State, a: Step)
    requires Locked(s) && Enabled(s, a) && a.FinishBoot?
    ensures Locked(Next(s, a))
  {
    hide Locked;
    var FinishBoot(t, cell, ok) := a;
    if ok {
      var pc := s.tasks[t];
      var s1 := SetCell(s, cell, Cell(Running, None, Some(pc.img)));
      KeepsCell(s, cell, Cell(Running, None, Some(pc.img)));
      assert forall id :: id in s.vms ==> s.vms[id] in s.cells by {
        VmsHaveCells(s);
      }
      KeepsMap(s1, s.vms[pc.id := cell]);
      KeepsTask(s1.(vms := s.vms[pc.id := cell]), t, CreateInserted(pc.id, pc.img));
    } else {
      KeepsDone(s, t);
    }
  }

  lemma FinishDeleteKeepsLocked(s: State, a: Step)
    requires Locked(s) && Enabled(s, a) && a.FinishDelete?
    ensures Locked(Next(s, a))
  {
    hide Locked;
    var FinishDelete(t, ok) := a;
    if ok {
      var pc := s.tasks[t];
      VmsHaveCells(s);
      KeepsMap(s, s.vms - {pc.id});
      KeepsTask(s.(vms := s.vms - {pc.id}), t, DeleteRemoved(pc.id, pc.image));
    } else {
      KeepsDone(s, t);
    }
  }

  lemma DecrementKeepsLocked(s: State, a: Step)
    requires Locked(s) && Enabled(s, a) && a.Decrement?
    ensures Locked(Next(s, a))
  {
  }

  lemma MonitorNextKeepsLocked(s: State, a: Step)
    requires Locked(s) && Enabled(s, a) && a.MonitorNext?
    ensures Locked(Next(s, a))
  {
    hide Locked;
    var MonitorNext(t, alive, container) := a;
    var cell, rest := s.tasks[t].rest[0], s.tasks[t].rest[1..];
    TaskCells(s, t);
    var c := s.cells[cell];
    if c.lock.None? && Watched(c.phase) && !alive {
      var s1 := SetCell(s, cell, c.(phase := Failed));
      KeepsCell(s, cell, c.(phase := Failed));
      KeepsTask(s1, t, Monitoring(rest));
    } else if c.lock.Some? || !Watched(c.phase) || container {
      KeepsTask(s, t, Monitoring(rest));
    } else {
      KeepsTask(s, t, Pinging(cell, rest));
    }
  }

  lemma MonitorPongKeepsLocked(s: State, a: Step)
    requires Locked(s) && Enabled(s, a) && a.MonitorPong?
    ensures Locked(Next(s, a))
  {
    hide Locked;
    var MonitorPong(t, ok) := a;
    var cell, rest := s.tasks[t].cell, s.tasks[t].rest;
    TaskCells(s, t);
    var c := s.cells[cell];
    if c.lock.Some? || !Watched(c.phase) || ok {
      KeepsTask(s, t, Monitoring(rest));
    } else {
      var s1 := SetCell(s, cell, c.(phase := Failed));
      KeepsCell(s, cell, c.(phase := Failed));
      KeepsTask(s1, t, Monitoring(rest));
    }
  }

  lemma RecoverKeepsLocked(s: State, a: Step)
    requires Locked(s) && Enabled(s, a) && a.Recover?
    ensures Locked(Next(s, a))
  {
    hide Locked;
    var Recover(id, cell, image) := a;
    KeepsCell(s, cell, Cell(Running, None, image));
    VmsHaveCells(s);
    KeepsMap(SetCell(s, cell, Cell(Running, None, image)), s.vms[id := cell]);
  }

  lemma StepKeepsLocked(s: State, a: Step)
    requires Locked(s) && Enabled(s, a)
    ensures Locked(Next(s, a))
  {
    hide Locked;
    match a
    case BeginCreate(t, id, img) => KeepsTask(s, t, CreateBooting(id, img));
    case FinishBoot(_, _, _) => FinishBootKeepsLocked(s, a);
    case Increment(t) =>
      KeepsCounts(s, Incremented(s.counts, s.tasks[t].img));
      KeepsDone(s.(counts := Incremented(s.counts, s.tasks[t].img)), t);
    case BeginStart(t, id) =>
      VmsHaveCells(s);
      KeepsTask(s, t, StartWaiting(s.vms[id]));
    case LockForStart(t) =>
      var cell := s.tasks[t].cell;
      var c := s.cells[cell];
      if c.phase == Running || !CanTransitionTo(c.phase, Starting) {
        KeepsDone(s, t);
      } else {
        KeepsTake(s, t, cell, Starting, StartBooting(cell));
      }
    case FinishStart(t, ok) =>
      CellAgrees(s, t);
      KeepsRelease(s, t, s.tasks[t].cell, if ok then Running else Failed);
    case BeginStop(t, id) =>
      VmsHaveCells(s);
      KeepsTask(s, t, StopWaiting(s.vms[id]));
    case LockForStop(t) =>
      var cell := s.tasks[t].cell;
      FreeIsSettled(s, cell);
      KeepsTake(s, t, cell, s.cells[cell].phase, StopRunning(cell));
    case FinishStop(t, ok) =>
      CellAgrees(s, t);
      KeepsRelease(s, t, s.tasks[t].cell, if ok then Stopped else s.cells[s.tasks[t].cell].phase);
    case BeginDelete(t, id) =>
      VmsHaveCells(s);
      KeepsTask(s, t, DeleteWaiting(id, s.vms[id]));
    case Capture(t) => KeepsTask(s, t, DeleteRunning(s.tasks[t].id, s.cells[s.tasks[t].cell].image));
    case FinishDelete(_, _) => FinishDeleteKeepsLocked(s, a);
    case Decrement(_) => DecrementKeepsLocked(s, a);
    case BeginMonitor(t, order) =>
      VmsHaveCells(s);
      KeepsTask(s, t, Monitoring(order));
    case MonitorNext(_, _, _) => MonitorNextKeepsLocked(s, a);
    case MonitorPong(_, _) => MonitorPongKeepsLocked(s, a);
    case Recover(_, _, _) => RecoverKeepsLocked(s, a);
  }

  lemma VmsHaveCells(s: State)
    requires Locked(s)
    ensures forall id :: id in s.vms ==> s.vms[id] in s.cells
    ensures forall c :: c in s.vms.Values ==> c in s.cells
  {
  }

  lemma TaskCells(s: State, t: nat)
    requires Locked(s) && t in s.tasks
    ensures TaskAgrees(s, t)
  {
  }

  lemma FreeIsSettled(s: State, cell: nat)
    requires Locked(s) && Free(s, cell)
    ensures Settled(s.cells[cell].phase)
  {
    assert HolderAgrees(s, cell);
  }

  lemma CellAgrees(s: State, t: nat)
    requires Locked(s) && t in s.tasks && Holds(s.tasks[t])
    ensures var cell := s.tasks[t].cell;
            && LockOf(s, cell) == Some(t) && cell in s.cells
            && (s.tasks[t].StopRunning? ==> Settled(s.cells[cell].phase))
            && (s.tasks[t].StartBooting? ==> s.cells[cell].phase == Starting)
  {
    assert TaskAgrees(s, t);
    assert HolderAgrees(s, s.tasks[t].cell);
  }

  /** In every state of every interleaving, a VM whose lock is free is running, stopped or failed. */
  lemma {:induction false} RunKeepsLocked(s: State, steps: seq<Step>)
    requires Locked(s) && Run(s, steps)
    ensures Locked(After(s, steps))
    ensures forall cell :: Free(After(s, steps), cell) ==> Settled(After(s, steps).cells[cell].phase)
    decreases |steps|
  {
    if steps == [] {
      forall cell | Free(s, cell)
        ensures Settled(s.cells[cell].phase)
      {
        FreeIsSettled(s, cell);
      }
    } else {
      StepKeepsLocked(s, steps[0]);
      RunKeepsLocked(Next(s, steps[0]), steps[1..]);
    }
  }

  /** The phase changes there are: which step takes a VM from where to where. */
  predicate Edge(a: Step, p: VmPhase, q: VmPhase) {
    match a
    case LockForStart(_) => p == Stopped && q == Starting
    case FinishStart(_, ok) => p == Starting && q == if ok then Running else Failed
    case FinishStop(_, ok) => ok && q == Stopped && (p == Running || p == Failed)
    case MonitorNext(_, alive, _) => !alive && p == Running && q == Failed
    case MonitorPong(_, ok) => !ok && p == Running && q == Failed
    case _ => false
  }

  /** The VM whose state a step works on. */
  ghost function Target(s: State, a: Step): Option<nat>
    requires Enabled(s, a)
  {
    if a.LockForStart? || a.FinishStart? || a.LockForStop? || a.FinishStop? || a.MonitorPong? then Some(s.tasks[a.t].cell)
    else if a.MonitorNext? then Some(s.tasks[a.t].rest[0])
    else None
  }

  /**
   A phase changes exactly where an edge says so: for the step's own VM, and
   for the monitor only while it can have the lock. There are no other changes
   and no missed ones; a dead or silent running VM is marked failed.
   */
  lemma EdgesTaken(s: State, a: Step, cell: nat)
    requires Locked(s) && Enabled(s, a) && cell in s.cells
    ensures cell in Next(s, a).cells
    ensures var p, q := s.cells[cell].phase, Next(s, a).cells[cell].phase;
            && (p != q ==> Edge(a, p, q))
            && (p != q <==> Target(s, a) == Some(cell) && (IsMonitor(a) ==> Free(s, cell))
                            && exists to :: Edge(a, p, to))
  {
    hide Locked;
    if Free(s, cell) {
      FreeIsSettled(s, cell);
    }
    if a.FinishStart? || a.FinishStop? {
      CellAgrees(s, a.t);
    }
    EdgeTo(a, s.cells[cell].phase);
  }

  /** An edge leads to one phase, and not back to its own. */
  lemma EdgeTo(a: Step, p: VmPhase)
    ensures forall q :: Edge(a, p, q) ==> p != q && q == EdgeEnd(a)
    ensures (exists q :: Edge(a, p, q)) <==> Edge(a, p, EdgeEnd(a))
  {
  }

  function EdgeEnd(a: Step): VmPhase {
    match a
    case LockForStart(_) => Starting
    case FinishStart(_, ok) => if ok then Running else Failed
    case FinishStop(_, _) => Stopped
    case _ => Failed
  }

  /** A VM comes in running and unlocked, by a creation that booted or by a recovery. */
  lemma NewVmsRun(s: State, a: Step, cell: nat)
    requires Enabled(s, a) && cell in Next(s, a).cells && cell !in s.cells
    ensures Next(s, a).cells[cell].phase == Running && Next(s, a).cells[cell].lock == None
    ensures (a.FinishBoot? && a.ok) || a.Recover?
  {
  }

  /** How many more steps of its own a task can take. */
  function StepsLeft(pc: Pc): nat {
    match pc
    case CreateBooting(_, _) => 2
    case CreateInserted(_, _) => 1
    case StartWaiting(_) => 2
    case StartBooting(_) => 1
    case StopWaiting(_) => 2
    case StopRunning(_) => 1
    case DeleteWaiting(_, _) => 3
    case DeleteRunning(_, _) => 2
    case DeleteRemoved(_, _) => 1
    case Monitoring(rest) => 2 * |rest|
    case Pinging(_, rest) => 2 * |rest| + 1
  }

  /** Every step brings its own task nearer to its end, or begins one, and leaves all others alone. */
  lemma StepsRunOut(s: State, a: Step)
    requires Enabled(s, a) && !a.Recover?
    ensures Next(s, a).tasks - {a.t} == s.tasks - {a.t}
    ensures a.t !in s.tasks ==> a.t in Next(s, a).tasks
    ensures a.t in s.tasks ==> a.t !in Next(s, a).tasks || StepsLeft(Next(s, a).tasks[a.t]) < StepsLeft(s.tasks[a.t])
  {
    var tasks := Next(s, a).tasks;
    if a.t in tasks {
      assert tasks == s.tasks[a.t := tasks[a.t]];
      TasksElsewhere(s.tasks, a.t, tasks[a.t]);
    } else {
      assert tasks == s.tasks - {a.t};
    }
  }

  /** The phase graph allows every change but the end of a shutdown, and never that one. */
  lemma EdgesLegal(a: Step, p: VmPhase, q: VmPhase)
    requires Edge(a, p, q)
    ensures CanTransitionTo(p, q) <==> !a.FinishStop?
  {
  }

  /** While a monitor looks at a VM it can lock, the VM is not starting. */
  lemma MonitorSeesSettled(s: State, a: Step)
    requires Locked(s) && Enabled(s, a) && (a.MonitorNext? || a.MonitorPong?)
    ensures var cell := if a.MonitorNext? then s.tasks[a.t].rest[0] else s.tasks[a.t].cell;
            s.cells[cell].lock.None? ==> s.cells[cell].phase != Starting
  {
    var cell := if a.MonitorNext? then s.tasks[a.t].rest[0] else s.tasks[a.t].cell;
    assert HolderAgrees(s, cell);
  }

  // ------------------------------------------------------------------
  // Reference counts
  // ------------------------------------------------------------------

  /** The tracked VMs with their images. */
  ghost function ImagesOf(s: State): Images {
    map id | id in s.vms && s.vms[id] in s.cells :: s.cells[s.vms[id]].image
  }

  /** A creation that has inserted a VM of this image and not counted it yet. */
  predicate OwesIncrement(pc: Pc, img: string) {
    pc.CreateInserted? && pc.img == img
  }

  /** A deletion that has removed a VM of this image and not uncounted it yet. */
  predicate OwesDecrement(pc: Pc, img: string) {
    pc.DeleteRemoved? && pc.image == Some(img)
  }

  function PendingIncrements(tasks: map<nat, Pc>, img: string): set<nat> {
    set t | t in tasks && OwesIncrement(tasks[t], img)
  }

  function PendingDecrements(tasks: map<nat, Pc>, img: string): set<nat> {
    set t | t in tasks && OwesDecrement(tasks[t], img)
  }

  /** Counted and about to be counted, less tracked and about to be uncounted. */
  ghost function Surplus(s: State, img: string): int {
    Count(s.counts, img) + |PendingIncrements(s.tasks, img)|
    - |Tracked(ImagesOf(s), img)| - |PendingDecrements(s.tasks, img)|
  }

  function Bit(b: bool): int {
    if b then 1 else 0
  }

  /**
   What a step adds to the surplus: a creation over a tracked id, a deletion
   that removes something else than it captured, an unmatched decrement, and
   a recovered VM are the only ways.
   */
  ghost function Drift(s: State, a: Step, img: string): int
    requires Enabled(s, a)
  {
    match a
    case FinishBoot(t, _, ok) => if ok then Bit(ImageOf(ImagesOf(s), s.tasks[t].id) == Some(img)) else 0
    case FinishDelete(t, ok) =>
      if ok then Bit(ImageOf(ImagesOf(s), s.tasks[t].id) == Some(img)) - Bit(s.tasks[t].image == Some(img)) else 0
    case Decrement(t) => Bit(s.tasks[t].image == Some(img) && Count(s.counts, img) == 0)
    case Recover(id, _, image) => Bit(ImageOf(ImagesOf(s), id) == Some(img)) - Bit(image == Some(img))
    case _ => 0
  }

  lemma OneMore(rest: set<nat>, all: set<nat>, t: nat, more: bool)
    requires t !in rest && forall u :: u in all <==> u in rest || (u == t && more)
    ensures |all| == |rest| + Bit(more)
  {
    assert all == if more then rest + {t} else rest;
  }

  lemma IncrementsGoto(tasks: map<nat, Pc>, t: nat, pc: Pc, img: string)
    ensures |PendingIncrements(tasks[t := pc], img)| == |PendingIncrements(tasks - {t}, img)| + Bit(OwesIncrement(pc, img))
  {
    hide OwesIncrement, Bit;
    OneMore(PendingIncrements(tasks - {t}, img), PendingIncrements(tasks[t := pc], img), t, OwesIncrement(pc, img));
  }

  lemma DecrementsGoto(tasks: map<nat, Pc>, t: nat, pc: Pc, img: string)
    ensures |PendingDecrements(tasks[t := pc], img)| == |PendingDecrements(tasks - {t}, img)| + Bit(OwesDecrement(pc, img))
  {
    hide OwesDecrement, Bit;
    OneMore(PendingDecrements(tasks - {t}, img), PendingDecrements(tasks[t := pc], img), t, OwesDecrement(pc, img));
  }

  lemma PendingDone(tasks: map<nat, Pc>, t: nat, img: string)
    requires t in tasks
    ensures |PendingIncrements(tasks, img)| == |PendingIncrements(tasks - {t}, img)| + Bit(OwesIncrement(tasks[t], img))
    ensures |PendingDecrements(tasks, img)| == |PendingDecrements(tasks - {t}, img)| + Bit(OwesDecrement(tasks[t], img))
  {
    hide PendingIncrements, PendingDecrements;
    assert tasks[t := tasks[t]] == tasks;
    IncrementsGoto(tasks, t, tasks[t], img);
    DecrementsGoto(tasks, t, tasks[t], img);
  }

  lemma NewTask(tasks: map<nat, Pc>, t: nat)
    requires t !in tasks
    ensures tasks - {t} == tasks
  {
  }

  /** A step of `t` that moves no image, no count and no debt. */
  ghost predicate Quiet(s: State, s': State, t: nat) {
    && s'.counts == s.counts && ImagesOf(s') == ImagesOf(s)
    && s'.tasks - {t} == s.tasks - {t}
    && (t in s.tasks ==> !s.tasks[t].CreateInserted? && !s.tasks[t].DeleteRemoved?)
    && (t in s'.tasks ==> !s'.tasks[t].CreateInserted? && !s'.tasks[t].DeleteRemoved?)
  }

  lemma QuietSurplus(s: State, s': State, t: nat, img: string)
    requires Quiet(s, s', t)
    ensures Surplus(s', img) == Surplus(s, img)
  {
    hide PendingIncrements, PendingDecrements, ImagesOf;
    if t in s.tasks {
      PendingDone(s.tasks, t, img);
    } else {
      NewTask(s.tasks, t);
    }
    if t in s'.tasks {
      PendingDone(s'.tasks, t, img);
    } else {
      NewTask(s'.tasks, t);
    }
  }

  lemma NextBoot(s: State, a: Step)
    requires Locked(s) && Enabled(s, a) && a.FinishBoot? && a.ok
    ensures a.t in s.tasks && s.tasks[a.t].CreateBooting?
    ensures var pc, s' := s.tasks[a.t], Next(s, a);
            && s'.tasks == s.tasks[a.t := CreateInserted(pc.id, pc.img)] && s'.counts == s.counts
            && s'.vms == s.vms[pc.id := a.cell]
            && ImagesOf(s') == ImagesOf(s)[pc.id := Some(pc.img)]
  {
    hide Locked;
    VmsHaveCells(s);
  }

  lemma BootSurplus(s: State, a: Step, img: string)
    requires Locked(s) && Enabled(s, a) && a.FinishBoot? && a.ok
    ensures Surplus(Next(s, a), img) == Surplus(s, img) + Drift(s, a, img)
  {
    hide PendingIncrements, PendingDecrements, Locked, ImagesOf, Tracked, Next, Enabled;
    NextBoot(s, a);
    var pc := s.tasks[a.t];
    TrackedInsert(ImagesOf(s), pc.id, Some(pc.img), img);
    PendingDone(s.tasks, a.t, img);
    IncrementsGoto(s.tasks, a.t, CreateInserted(pc.id, pc.img), img);
    DecrementsGoto(s.tasks, a.t, CreateInserted(pc.id, pc.img), img);
  }

  lemma NextDelete(s: State, a: Step)
    requires Locked(s) && Enabled(s, a) && a.FinishDelete? && a.ok
    ensures a.t in s.tasks && s.tasks[a.t].DeleteRunning?
    ensures var pc, s' := s.tasks[a.t], Next(s, a);
            && s'.tasks == s.tasks[a.t := DeleteRemoved(pc.id, pc.image)] && s'.counts == s.counts
            && s'.vms == s.vms - {pc.id}
            && ImagesOf(s') == ImagesOf(s) - {pc.id}
  {
    hide Locked;
    VmsHaveCells(s);
  }

  lemma DeleteSurplus(s: State, a: Step, img: string)
    requires Locked(s) && Enabled(s, a) && a.FinishDelete? && a.ok
    ensures Surplus(Next(s, a), img) == Surplus(s, img) + Drift(s, a, img)
  {
    hide PendingIncrements, PendingDecrements, Locked, ImagesOf, Tracked, Next, Enabled;
    NextDelete(s, a);
    var pc := s.tasks[a.t];
    TrackedRemove(ImagesOf(s), pc.id, img);
    PendingDone(s.tasks, a.t, img);
    IncrementsGoto(s.tasks, a.t, DeleteRemoved(pc.id, pc.image), img);
    DecrementsGoto(s.tasks, a.t, DeleteRemoved(pc.id, pc.image), img);
  }

  lemma SameImages(s: State, s': State)
    requires s'.vms == s.vms && forall id :: id in s.vms ==> s.vms[id] in s.cells
    requires forall c :: c in s.cells ==> c in s'.cells && s'.cells[c].image == s.cells[c].image
    ensures ImagesOf(s') == ImagesOf(s)
  {
  }

  lemma IncrementSurplus(s: State, a: Step, img: string)
    requires Locked(s) && Enabled(s, a) && a.Increment?
    ensures Surplus(Next(s, a), img) == Surplus(s, img)
  {
    hide PendingIncrements, PendingDecrements, Tracked, ImagesOf, Locked;
    VmsHaveCells(s);
    SameImages(s, Next(s, a));
    PendingDone(s.tasks, a.t, img);
  }

  lemma DecrementSurplus(s: State, a: Step, img: string)
    requires Locked(s) && Enabled(s, a) && a.Decrement?
    ensures Surplus(Next(s, a), img) == Surplus(s, img) + Drift(s, a, img)
  {
    hide PendingIncrements, PendingDecrements, Tracked, ImagesOf, Locked;
    VmsHaveCells(s);
    SameImages(s, Next(s, a));
    PendingDone(s.tasks, a.t, img);
  }

  lemma NextRecover(s: State, a: Step)
    requires Locked(s) && Enabled(s, a) && a.Recover?
    ensures var s' := Next(s, a);
            s'.tasks == s.tasks && s'.counts == s.counts && ImagesOf(s') == ImagesOf(s)[a.id := a.image]
  {
    hide Locked;
    VmsHaveCells(s);
  }

  lemma RecoverSurplus(s: State, a: Step, img: string)
    requires Locked(s) && Enabled(s, a) && a.Recover?
    ensures Surplus(Next(s, a), img) == Surplus(s, img) + Drift(s, a, img)
  {
    hide PendingIncrements, PendingDecrements, Locked, ImagesOf, Tracked, Next, Enabled;
    NextRecover(s, a);
    TrackedInsert(ImagesOf(s), a.id, a.image, img);
  }

  predicate Counts(a: Step) {
    || a.Increment? || a.Decrement? || a.Recover?
    || (a.FinishBoot? && a.ok) || (a.FinishDelete? && a.ok)
  }

  predicate IsMonitor(a: Step) {
    a.BeginMonitor? || a.MonitorNext? || a.MonitorPong?
  }

  lemma TasksElsewhere(tasks: map<nat, Pc>, t: nat, pc: Pc)
    ensures tasks[t := pc] - {t} == tasks - {t}
  {
  }

  lemma MonitorQuiet(s: State, a: Step)
    requires Locked(s) && Enabled(s, a) && IsMonitor(a)
    ensures Quiet(s, Next(s, a), a.t)
  {
    hide Locked, ImagesOf;
    VmsHaveCells(s);
    var s' := Next(s, a);
    assert a.t in s'.tasks && s'.tasks == s.tasks[a.t := s'.tasks[a.t]];
    TasksElsewhere(s.tasks, a.t, s'.tasks[a.t]);
    SameImages(s, s');
  }

  lemma OtherStepsQuiet(s: State, a: Step)
    requires Locked(s) && Enabled(s, a) && !Counts(a)
    ensures Quiet(s, Next(s, a), a.t)
  {
    hide Locked, ImagesOf;
    if IsMonitor(a) {
      MonitorQuiet(s, a);
    } else {
      VmsHaveCells(s);
      SameImages(s, Next(s, a));
    }
  }

  /** The exact law of conservation: each step changes the surplus by its drift. */
  lemma SurplusLaw(s: State, a: Step, img: string)
    requires Locked(s) && Enabled(s, a)
    ensures Surplus(Next(s, a), img) == Surplus(s, img) + Drift(s, a, img)
  {
    hide Surplus, Locked, Next, Quiet, Enabled;
    if !Counts(a) {
      OtherStepsQuiet(s, a);
      QuietSurplus(s, Next(s, a), a.t, img);
    } else if a.FinishBoot? {
      BootSurplus(s, a, img);
    } else if a.FinishDelete? {
      DeleteSurplus(s, a, img);
    } else if a.Recover? {
      RecoverSurplus(s, a, img);
    } else if a.Increment? {
      IncrementSurplus(s, a, img);
    } else {
      DecrementSurplus(s, a, img);
    }
  }

  /** Every image is counted once for each tracked VM, up to what is pending. */
  ghost predicate Conserved(s: State) {
    forall img :: Surplus(s, img) == 0
  }

  /** From a conserved state, a step conserves exactly when it drifts for no image. */
  lemma ConservedIff(s: State, a: Step)
    requires Locked(s) && Enabled(s, a) && Conserved(s)
    ensures Conserved(Next(s, a)) <==> forall img :: Drift(s, a, img) == 0
  {
    hide Surplus, Locked, Next, Drift, Enabled;
    forall img
      ensures Surplus(Next(s, a), img) == Drift(s, a, img)
    {
      SurplusLaw(s, a, img);
    }
  }

  // ------------------------------------------------------------------
  // One creation or deletion at a time per id
  // ------------------------------------------------------------------

  /** The id a creation or deletion works on. */
  function OpId(pc: Pc): Option<string> {
    match pc
    case CreateBooting(id, _) => Some(id)
    case CreateInserted(id, _) => Some(id)
    case DeleteWaiting(id, _) => Some(id)
    case DeleteRunning(id, _) => Some(id)
    case DeleteRemoved(id, _) => Some(id)
    case _ => None
  }

  ghost predicate Exclusive(tasks: map<nat, Pc>) {
    forall t, u :: t in tasks && u in tasks && t != u && OpId(tasks[t]).Some? ==> OpId(tasks[t]) != OpId(tasks[u])
  }

  /** What a task on an id can rely on while no other works on that id. */
  predicate Claim(vms: map<string, nat>, images: Images, pc: Pc) {
    match pc
    case CreateBooting(id, _) => id !in vms
    case CreateInserted(id, img) => id in images && images[id] == Some(img)
    case DeleteWaiting(id, cell) => id in vms && vms[id] == cell
    case DeleteRunning(id, image) => id in images && images[id] == image
    case DeleteRemoved(id, _) => id !in vms
    case _ => true
  }

  ghost predicate Claims(s: State) {
    Exclusive(s.tasks) && forall t :: t in s.tasks ==> Claim(s.vms, ImagesOf(s), s.tasks[t])
  }

  /** Creations and deletions start only on ids nobody is creating or deleting; nothing is recovered. */
  ghost predicate Disciplined(s: State, a: Step) {
    && !a.Recover?
    && (a.BeginCreate? || a.BeginDelete? ==> forall t :: t in s.tasks ==> OpId(s.tasks[t]) != Some(a.id))
  }

  /** Where a step leaves its task: on the same id, or on none. */
  lemma TaskAfter(s: State, a: Step)
    requires Locked(s) && Claims(s) && Enabled(s, a) && Disciplined(s, a)
    ensures Next(s, a).tasks - {a.t} == s.tasks - {a.t}
    ensures a.t in Next(s, a).tasks ==>
              var pc := Next(s, a).tasks[a.t];
              && Claim(Next(s, a).vms, ImagesOf(Next(s, a)), pc)
              && (OpId(pc).Some? ==> if a.t in s.tasks then OpId(pc) == OpId(s.tasks[a.t])
                                     else forall u :: u in s.tasks ==> OpId(s.tasks[u]) != OpId(pc))
  {
    hide Locked, Exclusive, ImagesOf;
    if Counts(a) {
      if a.FinishBoot? {
        NextBoot(s, a);
      } else if a.FinishDelete? {
        NextDelete(s, a);
      }
    } else {
      OtherStepsQuiet(s, a);
      VmsHaveCells(s);
      if a.Capture? {
        CapturedImage(s, s.tasks[a.t].id);
      }
    }
  }

  lemma CapturedImage(s: State, id: string)
    requires Locked(s) && id in s.vms
    ensures id in ImagesOf(s) && s.vms[id] in s.cells && ImagesOf(s)[id] == s.cells[s.vms[id]].image
  {
    VmsHaveCells(s);
  }

  /** A step leaves the claims of other tasks alone. */
  lemma OthersClaim(s: State, a: Step, u: nat)
    requires Locked(s) && Claims(s) && Enabled(s, a) && Disciplined(s, a)
    requires u in s.tasks && u != a.t
    ensures Claim(Next(s, a).vms, ImagesOf(Next(s, a)), s.tasks[u])
  {
    hide Locked, ImagesOf, Next;
    assert Claim(s.vms, ImagesOf(s), s.tasks[u]);
    if Counts(a) {
      if a.FinishBoot? {
        NextBoot(s, a);
      } else if a.FinishDelete? {
        NextDelete(s, a);
      } else {
        SameVms(s, a);
      }
    } else {
      SameVms(s, a);
    }
  }

  lemma SameVms(s: State, a: Step)
    requires Locked(s) && Enabled(s, a) && (!Counts(a) || a.Increment? || a.Decrement?)
    ensures Next(s, a).vms == s.vms && ImagesOf(Next(s, a)) == ImagesOf(s)
  {
    hide Locked, ImagesOf;
    if Counts(a) {
      VmsHaveCells(s);
      SameImages(s, Next(s, a));
    } else {
      OtherStepsQuiet(s, a);
    }
  }

  lemma StepKeepsClaims(s: State, a: Step)
    requires Locked(s) && Claims(s) && Enabled(s, a) && Disciplined(s, a)
    ensures Claims(Next(s, a))
  {
    hide Locked, ImagesOf, Next, Enabled, Claim;
    var s' := Next(s, a);
    TaskAfter(s, a);
    forall u | u in s'.tasks && u != a.t
      ensures u in s.tasks && s'.tasks[u] == s.tasks[u] && Claim(s'.vms, ImagesOf(s'), s'.tasks[u])
    {
      assert u in s'.tasks - {a.t};
      assert (s'.tasks - {a.t})[u] == (s.tasks - {a.t})[u];
      OthersClaim(s, a, u);
    }
  }

  function IdsOf(tasks: map<nat, Pc>, ts: set<nat>): set<string>
    requires forall t :: t in ts ==> t in tasks && OpId(tasks[t]).Some?
  {
    set t | t in ts :: OpId(tasks[t]).value
  }

  lemma {:induction false} DistinctIds(tasks: map<nat, Pc>, ts: set<nat>)
    requires Exclusive(tasks) && forall t :: t in ts ==> t in tasks && OpId(tasks[t]).Some?
    ensures |IdsOf(tasks, ts)| == |ts|
  {
    if ts != {} {
      var t :| t in ts;
      DistinctIds(tasks, ts - {t});
      var id := OpId(tasks[t]).value;
      assert id !in IdsOf(tasks, ts - {t});
      assert IdsOf(tasks, ts) == IdsOf(tasks, ts - {t}) + {id};
    }
  }

  /** The VMs of pending increments are tracked, each with its own id. */
  lemma IncrementsTracked(s: State, img: string)
    requires Claims(s)
    ensures |PendingIncrements(s.tasks, img)| <= |Tracked(ImagesOf(s), img)|
  {
    var ts := PendingIncrements(s.tasks, img);
    DistinctIds(s.tasks, ts);
    forall id | id in IdsOf(s.tasks, ts)
      ensures id in Tracked(ImagesOf(s), img)
    {
      var t :| t in ts && OpId(s.tasks[t]).value == id;
      assert Claim(s.vms, ImagesOf(s), s.tasks[t]);
    }
    SubsetSize(IdsOf(s.tasks, ts), Tracked(ImagesOf(s), img));
  }

  /** A decrement always finds something to take away: the saturating subtraction never clips. */
  lemma NeverClips(s: State, t: nat)
    requires Claims(s) && Conserved(s) && t in s.tasks && s.tasks[t].DeleteRemoved? && s.tasks[t].image.Some?
    ensures Count(s.counts, s.tasks[t].image.value) >= 1
  {
    hide Claims, ImagesOf, Tracked, PendingIncrements;
    var img := s.tasks[t].image.value;
    assert Surplus(s, img) == 0;
    IncrementsTracked(s, img);
    assert t in PendingDecrements(s.tasks, img);
  }

  lemma DisciplinedStepConserves(s: State, a: Step)
    requires Locked(s) && Claims(s) && Conserved(s) && Enabled(s, a) && Disciplined(s, a)
    ensures Conserved(Next(s, a))
  {
    hide Locked, ImagesOf, Next, Conserved;
    forall img
      ensures Drift(s, a, img) == 0
    {
      if a.Decrement? {
        if s.tasks[a.t].image == Some(img) {
          NeverClips(s, a.t);
        }
      } else if a.FinishBoot? || a.FinishDelete? {
        assert Claim(s.vms, ImagesOf(s), s.tasks[a.t]);
        ImagesOfVms(s);
      }
    }
    ConservedIff(s, a);
  }

  lemma ImagesOfVms(s: State)
    ensures ImagesOf(s).Keys <= s.vms.Keys
  {
  }

  ghost predicate DisciplinedRun(s: State, steps: seq<Step>)
    decreases |steps|
  {
    steps != [] ==>
      Enabled(s, steps[0]) && Disciplined(s, steps[0]) && DisciplinedRun(Next(s, steps[0]), steps[1..])
  }

  /**
   In every interleaving in which at most one creation or deletion at a time
   works on an id, counts and pending increments equal tracked VMs and pending
   decrements, image by image.
   */
  lemma {:induction false} RunConserves(s: State, steps: seq<Step>)
    requires Locked(s) && Claims(s) && Conserved(s) && DisciplinedRun(s, steps)
    ensures Run(s, steps) && Claims(After(s, steps)) && Conserved(After(s, steps))
    decreases |steps|
  {
    hide Locked, Claims, Conserved, Next, Enabled, Disciplined;
    if steps != [] {
      StepKeepsLocked(s, steps[0]);
      StepKeepsClaims(s, steps[0]);
      DisciplinedStepConserves(s, steps[0]);
      RunConserves(Next(s, steps[0]), steps[1..]);
    }
  }

  lemma EmptyConserves()
    ensures Locked(EMPTY) && Claims(EMPTY) && Conserved(EMPTY)
  {
  }

  // ------------------------------------------------------------------
  // What the interleavings allow
  // ------------------------------------------------------------------

  /** One more step at the front of a run. */
  lemma RunFirst(s: State, a: Step, steps: seq<Step>)
    requires Enabled(s, a) && Run(Next(s, a), steps)
    ensures Run(s, [a] + steps) && After(s, [a] + steps) == After(Next(s, a), steps)
  {
  }

  /** The creation race, step by step. */
  function RaceSteps(id: string, img: string): seq<Step> {
    [BeginCreate(0, id, img)] + ([BeginCreate(1, id, img)] + ([FinishBoot(0, 0, true)] + ([FinishBoot(1, 1, true)] + [])))
  }

  lemma RaceStates(id: string, img: string) returns (s1: State, s2: State, s3: State, s4: State)
    ensures Enabled(EMPTY, BeginCreate(0, id, img)) && s1 == Next(EMPTY, BeginCreate(0, id, img))
    ensures Enabled(s1, BeginCreate(1, id, img)) && s2 == Next(s1, BeginCreate(1, id, img))
    ensures Enabled(s2, FinishBoot(0, 0, true)) && s3 == Next(s2, FinishBoot(0, 0, true))
    ensures Enabled(s3, FinishBoot(1, 1, true)) && s4 == Next(s3, FinishBoot(1, 1, true))
    ensures s4.vms == map[id := 1] && s4.counts == map[] && 1 in s4.cells && s4.cells[1].image == Some(img)
    ensures s4.tasks == map[0 := CreateInserted(id, img), 1 := CreateInserted(id, img)]
  {
    s1 := Next(EMPTY, BeginCreate(0, id, img));
    s2 := Next(s1, BeginCreate(1, id, img));
    s3 := Next(s2, FinishBoot(0, 0, true));
    s4 := Next(s3, FinishBoot(1, 1, true));
  }

  /**
   Without the discipline the counts can go wrong from the start: two
   creations of one id that overlap both pass the duplicate check, and the
   image ends up owed two counts for one tracked VM.
   */
  lemma RacingCreationsOvercount(id: string, img: string)
    ensures Run(EMPTY, RaceSteps(id, img)) && Surplus(After(EMPTY, RaceSteps(id, img)), img) == 1
  {
    hide Next, Enabled;
    var s1, s2, s3, s4 := RaceStates(id, img);
    RunFirst(s3, FinishBoot(1, 1, true), []);
    RunFirst(s2, FinishBoot(0, 0, true), [FinishBoot(1, 1, true)] + []);
    RunFirst(s1, BeginCreate(1, id, img), [FinishBoot(0, 0, true)] + ([FinishBoot(1, 1, true)] + []));
    RunFirst(EMPTY, BeginCreate(0, id, img),
             [BeginCreate(1, id, img)] + ([FinishBoot(0, 0, true)] + ([FinishBoot(1, 1, true)] + [])));
    assert After(s4, []) == s4;
    assert PendingIncrements(s4.tasks, img) == {0, 1} && PendingDecrements(s4.tasks, img) == {};
    assert Tracked(ImagesOf(s4), img) == {id};
  }

  // ------------------------------------------------------------------
  // Whole operations without interruption
  // ------------------------------------------------------------------

  function CreateSteps(t: nat, id: string, img: string, cell: nat, ok: bool): seq<Step> {
    [BeginCreate(t, id, img)] + ([FinishBoot(t, cell, ok)] + (if ok then [Increment(t)] + [] else []))
  }

  /** A creation alone tracks a running VM and counts its image once, or does nothing. */
  lemma CreatesAlone(s: State, t: nat, id: string, img: string, cell: nat, ok: bool)
    requires t !in s.tasks && id !in s.vms && cell !in s.cells
    ensures var steps := CreateSteps(t, id, img, cell, ok);
            && Run(s, steps)
            && After(s, steps) ==
               if ok then State(s.vms[id := cell], s.cells[cell := Cell(Running, None, Some(img))],
                                s.counts[img := Count(s.counts, img) + 1], s.tasks)
               else s
  {
    hide Next, Enabled;
    var s1, s2, s3 := CreateStates(s, t, id, img, cell, ok);
    var last := if ok then [Increment(t)] + [] else [];
    if ok {
      RunFirst(s2, Increment(t), []);
    }
    RunFirst(s1, FinishBoot(t, cell, ok), last);
    RunFirst(s, BeginCreate(t, id, img), [FinishBoot(t, cell, ok)] + last);
  }

  lemma CreateStates(s: State, t: nat, id: string, img: string, cell: nat, ok: bool)
    returns (s1: State, s2: State, s3: State)
    requires t !in s.tasks && id !in s.vms && cell !in s.cells
    ensures Enabled(s, BeginCreate(t, id, img)) && s1 == Next(s, BeginCreate(t, id, img))
    ensures Enabled(s1, FinishBoot(t, cell, ok)) && s2 == Next(s1, FinishBoot(t, cell, ok))
    ensures ok ==> Enabled(s2, Increment(t)) && s3 == Next(s2, Increment(t))
    ensures !ok ==> s3 == s2
    ensures s3 == if ok then State(s.vms[id := cell], s.cells[cell := Cell(Running, None, Some(img))],
                                   s.counts[img := Count(s.counts, img) + 1], s.tasks)
                  else s
  {
    s1 := Next(s, BeginCreate(t, id, img));
    s2 := Next(s1, FinishBoot(t, cell, ok));
    s3 := if ok then Next(s2, Increment(t)) else s2;
    assert s3.tasks == s.tasks;
  }

  function DeleteSteps(t: nat, id: string, ok: bool): seq<Step> {
    [BeginDelete(t, id)] + ([Capture(t)] + ([FinishDelete(t, ok)] + (if ok then [Decrement(t)] + [] else [])))
  }

  /** A deletion alone untracks the VM and uncounts its image once, or does nothing. */
  lemma DeletesAlone(s: State, t: nat, id: string, ok: bool)
    requires t !in s.tasks && id in s.vms && Free(s, s.vms[id])
    ensures var steps, image := DeleteSteps(t, id, ok), s.cells[s.vms[id]].image;
            && Run(s, steps)
            && After(s, steps) ==
               if ok then s.(vms := s.vms - {id},
                             counts := if image.Some? then Decremented(s.counts, image.value) else s.counts)
               else s
  {
    hide Next, Enabled, Decremented;
    var s1, s2, s3, s4 := DeleteStates(s, t, id, ok);
    var last := if ok then [Decrement(t)] + [] else [];
    if ok {
      RunFirst(s3, Decrement(t), []);
    }
    RunFirst(s2, FinishDelete(t, ok), last);
    RunFirst(s1, Capture(t), [FinishDelete(t, ok)] + last);
    RunFirst(s, BeginDelete(t, id), [Capture(t)] + ([FinishDelete(t, ok)] + last));
  }

  lemma DeleteStates(s: State, t: nat, id: string, ok: bool) returns (s1: State, s2: State, s3: State, s4: State)
    requires t !in s.tasks && id in s.vms && Free(s, s.vms[id])
    ensures Enabled(s, BeginDelete(t, id)) && s1 == Next(s, BeginDelete(t, id))
    ensures Enabled(s1, Capture(t)) && s2 == Next(s1, Capture(t))
    ensures Enabled(s2, FinishDelete(t, ok)) && s3 == Next(s2, FinishDelete(t, ok))
    ensures ok ==> Enabled(s3, Decrement(t)) && s4 == Next(s3, Decrement(t))
    ensures !ok ==> s4 == s3
    ensures var image := s.cells[s.vms[id]].image;
            s4 == if ok then s.(vms := s.vms - {id},
                                counts := if image.Some? then Decremented(s.counts, image.value) else s.counts)
                  else s
  {
    hide Decremented;
    s1 := Next(s, BeginDelete(t, id));
    s2 := Next(s1, Capture(t));
    s3 := Next(s2, FinishDelete(t, ok));
    s4 := if ok then Next(s3, Decrement(t)) else s3;
    assert s4.tasks == s.tasks;
  }

  function StopSteps(t: nat, id: string, ok: bool): seq<Step> {
    [BeginStop(t, id)] + ([LockForStop(t)] + ([FinishStop(t, ok)] + []))
  }

  function StartSteps(t: nat, id: string, ok: bool): seq<Step> {
    [BeginStart(t, id)] + ([LockForStart(t)] + ([FinishStart(t, ok)] + []))
  }

  /** The state with the phase of one VM changed. */
  function InPhase(s: State, cell: nat, phase: VmPhase): State
    requires cell in s.cells
  {
    SetCell(s, cell, s.cells[cell].(phase := phase))
  }

  /** A shutdown alone stops the VM from any phase, or does nothing. */
  lemma ShutsDown(s: State, t: nat, id: string, ok: bool)
    requires t !in s.tasks && id in s.vms && Free(s, s.vms[id])
    ensures var steps := StopSteps(t, id, ok);
            Run(s, steps) && After(s, steps) == if ok then InPhase(s, s.vms[id], Stopped) else s
  {
    hide Next, Enabled;
    var s1, s2, s3 := StopStates(s, t, id, ok);
    RunFirst(s2, FinishStop(t, ok), []);
    RunFirst(s1, LockForStop(t), [FinishStop(t, ok)] + []);
    RunFirst(s, BeginStop(t, id), [LockForStop(t)] + ([FinishStop(t, ok)] + []));
  }

  lemma StopStates(s: State, t: nat, id: string, ok: bool) returns (s1: State, s2: State, s3: State)
    requires t !in s.tasks && id in s.vms && Free(s, s.vms[id])
    ensures Enabled(s, BeginStop(t, id)) && s1 == Next(s, BeginStop(t, id))
    ensures Enabled(s1, LockForStop(t)) && s2 == Next(s1, LockForStop(t))
    ensures Enabled(s2, FinishStop(t, ok)) && s3 == Next(s2, FinishStop(t, ok))
    ensures s3 == if ok then InPhase(s, s.vms[id], Stopped) else s
  {
    s1 := Next(s, BeginStop(t, id));
    s2 := Next(s1, LockForStop(t));
    s3 := Next(s2, FinishStop(t, ok));
    assert s3.tasks == s.tasks && s3.cells == if ok then InPhase(s, s.vms[id], Stopped).cells else s.cells;
  }

  /** A start alone brings a stopped VM up, or leaves it failed. */
  lemma StartsUp(s: State, t: nat, id: string, ok: bool)
    requires t !in s.tasks && id in s.vms && Free(s, s.vms[id]) && s.cells[s.vms[id]].phase == Stopped
    ensures var steps := StartSteps(t, id, ok);
            Run(s, steps) && After(s, steps) == InPhase(s, s.vms[id], if ok then Running else Failed)
  {
    hide Next, Enabled;
    var s1, s2, s3 := StartStates(s, t, id, ok);
    RunFirst(s2, FinishStart(t, ok), []);
    RunFirst(s1, LockForStart(t), [FinishStart(t, ok)] + []);
    RunFirst(s, BeginStart(t, id), [LockForStart(t)] + ([FinishStart(t, ok)] + []));
  }

  lemma StartStates(s: State, t: nat, id: string, ok: bool) returns (s1: State, s2: State, s3: State)
    requires t !in s.tasks && id in s.vms && Free(s, s.vms[id]) && s.cells[s.vms[id]].phase == Stopped
    ensures Enabled(s, BeginStart(t, id)) && s1 == Next(s, BeginStart(t, id))
    ensures Enabled(s1, LockForStart(t)) && s2 == Next(s1, LockForStart(t))
    ensures Enabled(s2, FinishStart(t, ok)) && s3 == Next(s2, FinishStart(t, ok))
    ensures s3 == InPhase(s, s.vms[id], if ok then Running else Failed)
  {
    s1 := Next(s, BeginStart(t, id));
    s2 := Next(s1, LockForStart(t));
    s3 := Next(s2, FinishStart(t, ok));
    assert s3.tasks == s.tasks && s3.cells == InPhase(s, s.vms[id], if ok then Running else Failed).cells;
  }

  /** A start of a VM that is not stopped ends when it has looked, and does nothing. */
  lemma StartRefused(s: State, t: nat, id: string)
    requires t !in s.tasks && id in s.vms && Free(s, s.vms[id]) && s.cells[s.vms[id]].phase != Stopped
    requires Settled(s.cells[s.vms[id]].phase)
    ensures var steps := [BeginStart(t, id)] + ([LockForStart(t)] + []);
            Run(s, steps) && After(s, steps) == s
  {
    var s1 := Next(s, BeginStart(t, id));
    var s2 := Next(s1, LockForStart(t));
    assert s2.tasks == s.tasks;
    hide Next, Enabled;
    RunFirst(s1, LockForStart(t), []);
    RunFirst(s, BeginStart(t, id), [LockForStart(t)] + []);
  }

  /** What the monitor would find out about each VM. */
  datatype Health = Health(alive: nat -> bool, container: nat -> bool, pong: nat -> bool)

  /** Dead, or a hypervisor whose socket does not answer. */
  predicate Unwell(w: Health, cell: nat) {
    !w.alive(cell) || (!w.container(cell) && !w.pong(cell))
  }

  /** What the monitor at `pc` is still going to find wrong. */
  predicate WillMark(w: Health, pc: Pc, cell: nat) {
    match pc
    case Monitoring(rest) => cell in rest && Unwell(w, cell)
    case Pinging(c, rest) => (cell == c && !w.pong(cell)) || (cell in rest && Unwell(w, cell))
    case _ => false
  }

  predicate Looking(s: State, t: nat) {
    t in s.tasks && (s.tasks[t].Pinging? || (s.tasks[t].Monitoring? && s.tasks[t].rest != []))
  }

  function LookStep(s: State, t: nat, w: Health): Step
    requires Looking(s, t)
  {
    if s.tasks[t].Pinging? then MonitorPong(t, w.pong(s.tasks[t].cell))
    else MonitorNext(t, w.alive(s.tasks[t].rest[0]), w.container(s.tasks[t].rest[0]))
  }

  /** The rest of a monitor pass that nothing interrupts. */
  ghost predicate Sweep(s: State, t: nat, w: Health, steps: seq<Step>)
    decreases |steps|
  {
    if steps == [] then t in s.tasks && s.tasks[t] == Monitoring([])
    else
      && Looking(s, t) && steps[0] == LookStep(s, t, w) && Enabled(s, steps[0])
      && Sweep(Next(s, steps[0]), t, w, steps[1..])
  }

  /** The cell as the pass leaves it. */
  function Marked(w: Health, pc: Pc, cell: nat, c: Cell): Cell {
    if c.lock.None? && c.phase == Running && WillMark(w, pc, cell) then c.(phase := Failed) else c
  }

  lemma NextLookMarks(s: State, t: nat, w: Health, cell: nat)
    requires Looking(s, t) && s.tasks[t].Monitoring? && Enabled(s, LookStep(s, t, w)) && cell in s.cells
    requires Free(s, cell) ==> Settled(s.cells[cell].phase)
    ensures var s' := Next(s, LookStep(s, t, w));
            && cell in s'.cells && t in s'.tasks
            && Marked(w, s'.tasks[t], cell, s'.cells[cell]) == Marked(w, s.tasks[t], cell, s.cells[cell])
  {
    var rest := s.tasks[t].rest;
    assert rest == [rest[0]] + rest[1..];
    assert cell in rest <==> cell == rest[0] || cell in rest[1..];
  }

  lemma PongLookMarks(s: State, t: nat, w: Health, cell: nat)
    requires Looking(s, t) && s.tasks[t].Pinging? && Enabled(s, LookStep(s, t, w)) && cell in s.cells
    requires Free(s, cell) ==> Settled(s.cells[cell].phase)
    ensures var s' := Next(s, LookStep(s, t, w));
            && cell in s'.cells && t in s'.tasks
            && Marked(w, s'.tasks[t], cell, s'.cells[cell]) == Marked(w, s.tasks[t], cell, s.cells[cell])
  {
  }

  lemma LookMarks(s: State, t: nat, w: Health, cell: nat)
    requires Locked(s) && Looking(s, t) && Enabled(s, LookStep(s, t, w)) && cell in s.cells
    ensures var s' := Next(s, LookStep(s, t, w));
            && cell in s'.cells && t in s'.tasks
            && Marked(w, s'.tasks[t], cell, s'.cells[cell]) == Marked(w, s.tasks[t], cell, s.cells[cell])
  {
    hide Locked, Next, Enabled, Marked, LookStep;
    if Free(s, cell) {
      FreeIsSettled(s, cell);
    }
    if s.tasks[t].Monitoring? {
      NextLookMarks(s, t, w, cell);
    } else {
      PongLookMarks(s, t, w, cell);
    }
  }

  /** A pass always comes to its end, in at most two steps for each VM. */
  lemma {:induction false} SweepEnds(s: State, t: nat, w: Health) returns (steps: seq<Step>)
    requires Locked(s) && t in s.tasks && (s.tasks[t].Monitoring? || s.tasks[t].Pinging?)
    ensures Sweep(s, t, w, steps) && |steps| <= StepsLeft(s.tasks[t])
    decreases StepsLeft(s.tasks[t])
  {
    if s.tasks[t] == Monitoring([]) {
      steps := [];
    } else {
      var a := LookStep(s, t, w);
      LookEnabled(s, t, w);
      StepKeepsLocked(s, a);
      hide Next, Enabled, Locked;
      var rest := SweepEnds(Next(s, a), t, w);
      steps := [a] + rest;
      assert steps[1..] == rest;
    }
  }

  lemma LookEnabled(s: State, t: nat, w: Health)
    requires Locked(s) && Looking(s, t)
    ensures var a := LookStep(s, t, w);
            && Enabled(s, a) && a.t == t && t in Next(s, a).tasks
            && StepsLeft(Next(s, a).tasks[t]) < StepsLeft(s.tasks[t])
            && (Next(s, a).tasks[t].Monitoring? || Next(s, a).tasks[t].Pinging?)
  {
    hide Locked;
    TaskCells(s, t);
  }

  lemma {:induction false} SweepMarks(s: State, t: nat, w: Health, steps: seq<Step>, cell: nat)
    requires Locked(s) && Sweep(s, t, w, steps) && cell in s.cells
    ensures Run(s, steps) && t in s.tasks && cell in After(s, steps).cells
    ensures After(s, steps).cells[cell] == Marked(w, s.tasks[t], cell, s.cells[cell])
    decreases |steps|
  {
    if steps != [] {
      hide Locked, Next, Enabled, Marked;
      StepKeepsLocked(s, steps[0]);
      LookMarks(s, t, w, cell);
      SweepMarks(Next(s, steps[0]), t, w, steps[1..], cell);
    }
  }

  lemma BeginPass(s: State, t: nat, order: seq<nat>) returns (s1: State)
    requires Enabled(s, BeginMonitor(t, order))
    ensures s1 == Next(s, BeginMonitor(t, order)) && s1.cells == s.cells
    ensures t in s1.tasks && s1.tasks[t] == Monitoring(order)
    ensures forall c :: c in order <==> c in s.vms.Values
  {
    s1 := Next(s, BeginMonitor(t, order));
  }

  lemma PassMarks(s: State, order: seq<nat>, w: Health, cell: nat)
    requires cell in s.cells && (cell in order <==> cell in s.vms.Values)
    ensures Marked(w, Monitoring(order), cell, s.cells[cell]) ==
            if Free(s, cell) && s.cells[cell].phase == Running && cell in s.vms.Values && Unwell(w, cell)
            then s.cells[cell].(phase := Failed) else s.cells[cell]
  {
  }

  /**
   A monitor pass alone marks failed exactly the tracked VMs that are running
   with a free lock and are unwell, and leaves every other VM as it was.
   */
  lemma MonitorPass(s: State, t: nat, order: seq<nat>, w: Health, steps: seq<Step>, cell: nat)
    requires Locked(s) && Enabled(s, BeginMonitor(t, order)) && cell in s.cells
    requires Sweep(Next(s, BeginMonitor(t, order)), t, w, steps)
    ensures var all := [BeginMonitor(t, order)] + steps;
            && Run(s, all) && cell in After(s, all).cells
            && After(s, all).cells[cell] ==
               if Free(s, cell) && s.cells[cell].phase == Running && cell in s.vms.Values && Unwell(w, cell)
               then s.cells[cell].(phase := Failed) else s.cells[cell]
  {
    hide *;
    var s1 := BeginPass(s, t, order);
    StepKeepsLocked(s, BeginMonitor(t, order));
    SweepMarks(s1, t, w, steps, cell);
    PassMarks(s, order, w, cell);
    RunFirst(s, BeginMonitor(t, order), steps);
  }

  lemma {:induction false} RunThen(s: State, first: seq<Step>, second: seq<Step>)
    requires Run(s, first) && Run(After(s, first), second)
    ensures Run(s, first + second) && After(s, first + second) == After(After(s, first), second)
    decreases |first|
  {
    hide Next, Enabled;
    if first == [] {
      assert first + second == second;
    } else {
      assert (first + second)[1..] == first[1..] + second;
      RunThen(Next(s, first[0]), first[1..], second);
    }
  }

  /**
   The manager can do what no run of legal edges can: any failed VM it tracks
   is running again after a shutdown and a start.
   */
  lemma FailedRunsAgain(s: State, t: nat, id: string)
    requires t !in s.tasks && id in s.vms && Free(s, s.vms[id]) && s.cells[s.vms[id]].phase == Failed
    ensures var steps := StopSteps(t, id, true) + StartSteps(t, id, true);
            Run(s, steps) && After(s, steps) == InPhase(s, s.vms[id], Running)
  {
    hide Run, After, Next, StopSteps, StartSteps;
    ShutsDown(s, t, id, true);
    var stopped := InPhase(s, s.vms[id], Stopped);
    StartsUp(stopped, t, id, true);
    assert InPhase(stopped, s.vms[id], Running) == InPhase(s, s.vms[id], Running);
    RunThen(s, StopSteps(t, id, true), StartSteps(t, id, true));
  }
}
