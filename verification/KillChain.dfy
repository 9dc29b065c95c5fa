/**
 The four-level kill chain, its two copies, and VM deletion. The outside world
 answers through an oracle that sees everything done and observed so far.
 */
module KillChain {
  import opened Phase

  datatype ApiCall = Graceful | Force | DeleteCall

  datatype Sig = SigTerm | SigKill

  datatype Action =
    | Observe(alive: bool)
    | Call(api: ApiCall, ok: bool, ms: nat)
    | Send(sig: Sig)
    | Sleep(ms: nat)
    | RemoveDir(ok: bool)

  type Trace = seq<Action>

  const CLIENT_TIMEOUT_MS: nat := 10000
  const POLL_MS: nat := 200

  /** Liveness, the answer and duration of API calls, and whether removing the directory works. */
  datatype World = World(alive: Trace -> bool, answers: (Trace, ApiCall) -> bool,
                         takes: (Trace, ApiCall) -> nat, removable: Trace -> bool)

  function Observed(w: World, t: Trace): Trace {
    t + [Observe(w.alive(t))]
  }

  /** An API call, which the client cuts off after its timeout. */
  function Called(w: World, t: Trace, api: ApiCall): Trace {
    var ms := w.takes(t, api);
    t + [Call(api, ms <= CLIENT_TIMEOUT_MS && w.answers(t, api), if ms <= CLIENT_TIMEOUT_MS then ms else CLIENT_TIMEOUT_MS)]
  }

  function Removed(w: World, t: Trace): Trace {
    t + [RemoveDir(w.removable(t))]
  }

  function Last(t: Trace): Action
    requires t != []
  {
    t[|t| - 1]
  }

  /** Time spent in a trace, in milliseconds. */
  function Elapsed(t: Trace): nat {
    if t == [] then 0
    else Elapsed(t[..|t| - 1]) + (if Last(t).Call? || Last(t).Sleep? then Last(t).ms else 0)
  }

  // ------------------------------------------------------------------
  // The chain as a list of levels
  // ------------------------------------------------------------------

  datatype Request = Ask(api: ApiCall) | Deliver(sig: Sig)

  datatype Level = Level(request: Request, timeoutMs: nat)

  const GRACEFUL_LEVEL: Level := Level(Ask(Graceful), 30000)
  const FORCE_LEVELS: seq<Level> := [Level(Ask(Force), 10000), Level(Deliver(SigTerm), 5000)]

  datatype Outcome = Outcome(trace: Trace, exited: bool)

  /** Polling for the exit until `timeout`, `waited` milliseconds after the start. */
  function Polled(w: World, t: Trace, waited: nat, timeout: nat): Outcome
    decreases if waited < timeout then timeout - waited else 0
  {
    var seen := Observed(w, t);
    if !w.alive(t) then Outcome(seen, true)
    else if waited >= timeout then Outcome(seen, false)
    else Polled(w, seen + [Sleep(POLL_MS)], waited + POLL_MS, timeout)
  }

  /** One level: a request, and a wait unless an API call failed. */
  function RunLevel(w: World, t: Trace, level: Level): Outcome {
    match level.request
    case Ask(api) =>
      var called := Called(w, t, api);
      if Last(called).ok then Polled(w, called, 0, level.timeoutMs) else Outcome(called, false)
    case Deliver(sig) => Polled(w, t + [Send(sig)], 0, level.timeoutMs)
  }

  /** Levels in turn, each only for a process still alive; SIGKILL when they are used up. */
  function RunLevels(w: World, t: Trace, levels: seq<Level>): Outcome
    decreases |levels|
  {
    var seen := Observed(w, t);
    if !w.alive(t) then Outcome(seen, true)
    else if levels == [] then
      var killed := seen + [Send(SigKill), Sleep(100)];
      Outcome(Observed(w, killed), !w.alive(killed))
    else
      var o := RunLevel(w, seen, levels[0]);
      if o.exited then o else RunLevels(w, o.trace, levels[1..])
  }

  /** The whole chain: the graceful level shares the first liveness check. */
  function Chain(w: World, t: Trace, force: bool): Outcome {
    var seen := Observed(w, t);
    if !w.alive(t) then Outcome(seen, true)
    else if force then RunLevels(w, seen, FORCE_LEVELS)
    else
      var o := RunLevel(w, seen, GRACEFUL_LEVEL);
      if o.exited then o else RunLevels(w, o.trace, FORCE_LEVELS)
  }

  /** The chain and, after an exit, the removal of the runtime directory. */
  function ChainTrace(w: World, t: Trace, force: bool): Trace {
    var o := Chain(w, t, force);
    if o.exited then Removed(w, o.trace) else o.trace
  }

  // ------------------------------------------------------------------
  // The code
  // ------------------------------------------------------------------

  /** How the chain goes on after its first check and graceful level. */
  lemma ChainStart(w: World, t: Trace, force: bool)
    ensures var seen := Observed(w, t);
            var called := Called(w, seen, Graceful);
            var polled := Polled(w, called, 0, 30000);
            Chain(w, t, force) ==
            if !w.alive(t) then Outcome(seen, true)
            else if force then RunLevels(w, seen, FORCE_LEVELS)
            else if !Last(called).ok then RunLevels(w, called, FORCE_LEVELS)
            else if polled.exited then polled
            else RunLevels(w, polled.trace, FORCE_LEVELS)
  {
  }

  lemma ForceLevel(w: World, t: Trace)
    ensures var seen := Observed(w, t);
            var called := Called(w, seen, Force);
            var polled := Polled(w, called, 0, 10000);
            RunLevels(w, t, FORCE_LEVELS) ==
            if !w.alive(t) then Outcome(seen, true)
            else if !Last(called).ok then RunLevels(w, called, FORCE_LEVELS[1..])
            else if polled.exited then polled
            else RunLevels(w, polled.trace, FORCE_LEVELS[1..])
  {
  }

  lemma TermLevel(w: World, t: Trace)
    ensures var seen := Observed(w, t);
            var polled := Polled(w, seen + [Send(SigTerm)], 0, 5000);
            RunLevels(w, t, FORCE_LEVELS[1..]) ==
            if !w.alive(t) then Outcome(seen, true)
            else if polled.exited then polled
            else RunLevels(w, polled.trace, [])
  {
    assert FORCE_LEVELS[1..][1..] == [];
  }

  lemma KillLevel(w: World, t: Trace)
    ensures var seen := Observed(w, t);
            var killed := seen + [Send(SigKill)] + [Sleep(100)];
            RunLevels(w, t, []) ==
            if !w.alive(t) then Outcome(seen, true) else Outcome(Observed(w, killed), !w.alive(killed))
  {
    assert Observed(w, t) + [Send(SigKill)] + [Sleep(100)] == Observed(w, t) + [Send(SigKill), Sleep(100)];
  }

  class Host {
    const world: World
    var trace: Trace

    constructor (world: World)
      ensures this.world == world && trace == []
    {
      this.world, trace := world, [];
    }

    method IsPidAlive() returns (alive: bool)
      modifies this
      ensures trace == Observed(world, old(trace)) && alive == world.alive(old(trace))
    {
      alive := world.alive(trace);
      trace := trace + [Observe(alive)];
    }

    method CallApi(api: ApiCall) returns (ok: bool)
      modifies this
      ensures trace == Called(world, old(trace), api) && ok == Last(trace).ok
      ensures ok <==> world.answers(old(trace), api) && world.takes(old(trace), api) <= 10000
    {
      trace := Called(world, trace, api);
      ok := Last(trace).ok;
    }

    method SendSignal(sig: Sig)
      modifies this
      ensures trace == old(trace) + [Send(sig)]
    {
      trace := trace + [Send(sig)];
    }

    method SleepFor(ms: nat)
      modifies this
      ensures trace == old(trace) + [Sleep(ms)]
    {
      trace := trace + [Sleep(ms)];
    }

    method Cleanup() returns (ok: bool)
      modifies this
      ensures trace == Removed(world, old(trace)) && ok == Last(trace).ok
    {
      ok := world.removable(trace);
      trace := trace + [RemoveDir(ok)];
    }

    /** `wait_for_pid_exit`, on a clock that only sleeping moves. */
    method WaitForPidExit(timeout: nat) returns (exited: bool)
      modifies this
      ensures Outcome(trace, exited) == Polled(world, old(trace), 0, timeout)
    {
      var elapsed := 0;
      while true
        invariant Polled(world, trace, elapsed, timeout) == Polled(world, old(trace), 0, timeout)
        decreases if elapsed < timeout then timeout - elapsed else 0
      {
        var alive := IsPidAlive();
        if !alive {
          return true;
        }
        if elapsed >= timeout {
          return false;
        }
        SleepFor(POLL_MS);
        elapsed := elapsed + POLL_MS;
      }
    }

    /** `ChRuntime::stop`: a failed directory removal is ignored. */
    method ChStop(force: bool) returns (ok: bool)
      modifies this
      ensures trace == ChainTrace(world, old(trace), force)
      ensures ok == Chain(world, old(trace), force).exited
    {
      hide Polled, Called, RunLevels, Chain;
      ChainStart(world, trace, force);
      var alive := IsPidAlive();
      if !alive {
        var _ := Cleanup();
        return true;
      }
      // Level 1: graceful shutdown, skipped when forced.
      if !force {
        var called := CallApi(Graceful);
        if called {
          var exited := WaitForPidExit(30000);
          if exited {
            var _ := Cleanup();
            return true;
          }
        }
      }
      ForceLevel(world, trace);
      // Level 2: forced shutdown.
      alive := IsPidAlive();
      if !alive {
        var _ := Cleanup();
        return true;
      }
      var called := CallApi(Force);
      if called {
        var exited := WaitForPidExit(10000);
        if exited {
          var _ := Cleanup();
          return true;
        }
      }
      TermLevel(world, trace);
      // Level 3: SIGTERM.
      alive := IsPidAlive();
      if !alive {
        var _ := Cleanup();
        return true;
      }
      SendSignal(SigTerm);
      var exited := WaitForPidExit(5000);
      if exited {
        var _ := Cleanup();
        return true;
      }
      KillLevel(world, trace);
      // Level 4: SIGKILL.
      alive := IsPidAlive();
      if !alive {
        var _ := Cleanup();
        return true;
      }
      SendSignal(SigKill);
      SleepFor(100);
      alive := IsPidAlive();
      if alive {
        return false;
      }
      var _ := Cleanup();
      ok := true;
    }
  }

  // ------------------------------------------------------------------
  // A VM: the chain with phases, and deletion
  // ------------------------------------------------------------------

  datatype Result = Ok | TransitionError | CleanupError | SignalError

  class Vm {
    const host: Host
    var phase: VmPhase
    /** Every phase this VM has had. */
    ghost var phases: seq<VmPhase>

    ghost predicate Valid()
      reads this
    {
      phases != [] && phases[|phases| - 1] == phase
    }

    constructor (host: Host, phase: VmPhase)
      ensures Valid() && this.host == host && this.phase == phase && phases == [phase]
    {
      this.host, this.phase, phases := host, phase, [phase];
    }

    /** `state.current_phase = state.current_phase.transition(target)?`. */
    method Transition(target: VmPhase) returns (ok: bool)
      requires Valid()
      modifies this
      ensures Valid() && ok == CanTransitionTo(old(phase), target)
      ensures phase == if ok then target else old(phase)
      ensures phases == if ok then old(phases) + [target] else old(phases)
    {
      ok := CanTransitionTo(phase, target);
      if ok {
        phase, phases := target, phases + [target];
      }
    }

    /** The end of the chain after an exit was seen. */
    method Finish() returns (r: Result)
      requires Valid() && phase == Stopping
      modifies this, host
      ensures Valid() && phase == Stopped && phases == old(phases) + [Stopped]
      ensures host.trace == Removed(host.world, old(host.trace))
      ensures r == if Last(host.trace).ok then Ok else CleanupError
    {
      var _ := Transition(Stopped);
      var ok := host.Cleanup();
      r := if ok then Ok else CleanupError;
    }

    /** The levels of `kill_vm_inner`; every way out with a dead process leads to `Finish`. */
    method KillLevels(force: bool) returns (exited: bool)
      modifies host
      ensures Outcome(host.trace, exited) == Chain(host.world, old(host.trace), force)
    {
      hide Polled, Called, RunLevels, Chain;
      ghost var w := host.world;
      ChainStart(w, host.trace, force);
      var alive := host.IsPidAlive();
      if !alive {
        return true;
      }
      // Level 1: graceful shutdown, skipped when forced.
      if !force {
        var called := host.CallApi(Graceful);
        if called {
          exited := host.WaitForPidExit(30000);
          if exited {
            return;
          }
        }
      }
      ForceLevel(w, host.trace);
      // Level 2: forced shutdown.
      alive := host.IsPidAlive();
      if !alive {
        return true;
      }
      var called := host.CallApi(Force);
      if called {
        exited := host.WaitForPidExit(10000);
        if exited {
          return;
        }
      }
      TermLevel(w, host.trace);
      // Level 3: SIGTERM.
      alive := host.IsPidAlive();
      if !alive {
        return true;
      }
      host.SendSignal(SigTerm);
      exited := host.WaitForPidExit(5000);
      if exited {
        return;
      }
      KillLevel(w, host.trace);
      // Level 4: SIGKILL.
      alive := host.IsPidAlive();
      if !alive {
        return true;
      }
      host.SendSignal(SigKill);
      host.SleepFor(100);
      alive := host.IsPidAlive();
      exited := !alive;
    }

    /** `kill_vm_inner`. */
    method KillVmInner(force: bool) returns (r: Result)
      requires Valid()
      modifies this, host
      ensures Valid()
      ensures r.TransitionError? <==> old(phase) != Running && old(phase) != Stopping
      ensures r.TransitionError? ==> phases == old(phases) && host.trace == old(host.trace)
      ensures !r.TransitionError? ==>
                var o := Chain(host.world, old(host.trace), force);
                && host.trace == ChainTrace(host.world, old(host.trace), force)
                && phases == old(phases) + (if old(phase) == Stopping then [] else [Stopping])
                             + [if o.exited then Stopped else Failed]
                && r == (if !o.exited then SignalError else if Last(host.trace).ok then Ok else CleanupError)
    {
      hide Chain;
      if phase != Stopping {
        var ok := Transition(Stopping);
        if !ok {
          return TransitionError;
        }
      }
      var exited := KillLevels(force);
      if !exited {
        var _ := Transition(Failed);
        return SignalError;
      }
      r := Finish();
    }

    /** The end of `delete_vm`: the API call and the directory removal are best effort. */
    method FinishDelete()
      requires Valid() && phase == Deleting
      modifies this, host
      ensures Valid() && phase == Deleted && phases == old(phases) + [Deleted]
      ensures host.trace == Removed(host.world, Called(host.world, old(host.trace), DeleteCall))
    {
      var _ := host.CallApi(DeleteCall);
      var _ := host.Cleanup();
      var _ := Transition(Deleted);
    }

    /** `delete_vm` of a VM whose chain has to run first. */
    method KillThenDelete() returns (r: Result)
      requires Valid() && (phase == Running || phase == Stopping)
      modifies this, host
      ensures Valid()
      ensures var t := old(host.trace);
              var chained := ChainTrace(host.world, t, false);
              var exited := Chain(host.world, t, false).exited;
              var gone := exited && Last(chained).ok;
              && r == (if gone then Ok else if exited then CleanupError else SignalError)
              && phases == old(phases) + DeletePath(old(phase), exited, gone)
              && host.trace == if gone then Removed(host.world, Called(host.world, chained, DeleteCall)) else chained
    {
      hide Chain, Called, Removed, Observed;
      r := KillVmInner(false);
      if r != Ok {
        return;
      }
      var _ := Transition(Deleting);
      FinishDelete();
    }

    /** `delete_vm`. */
    method DeleteVm() returns (r: Result)
      requires Valid()
      modifies this, host
      ensures Valid()
      ensures var kills := old(phase) == Running || old(phase) == Stopping;
              var t := old(host.trace);
              var chained := if kills then ChainTrace(host.world, t, false) else t;
              var exited := Chain(host.world, t, false).exited;
              var gone := kills ==> exited && Last(chained).ok;
              && r == (if gone then Ok else if exited then CleanupError else SignalError)
              && phases == old(phases) + DeletePath(old(phase), exited, gone)
              && host.trace == if !gone || old(phase) == Deleted then chained
                               else Removed(host.world, Called(host.world, chained, DeleteCall))
    {
      hide Chain, Called, Removed, Observed;
      match phase {
        case Running =>
          r := KillThenDelete();
          return;
        case Stopping =>
          r := KillThenDelete();
          return;
        case Starting =>
          var _ := Transition(Failed);
          var _ := Transition(Deleting);
        case Provisioning =>
          var _ := Transition(Failed);
          var _ := Transition(Deleting);
        case Stopped =>
          var _ := Transition(Deleting);
        case Failed =>
          var _ := Transition(Deleting);
        case Deleting =>
        case Deleted =>
          return Ok;
        case Pending =>
          // No edge leads from `Pending` to `Deleting`; the phase is forced.
          phase, phases := Deleting, phases + [Deleting];
      }
      FinishDelete();
      r := Ok;
    }
  }

  /** The phases a deletion goes through: whether the chain saw the exit, and whether nothing failed. */
  function DeletePath(from: VmPhase, exited: bool, gone: bool): seq<VmPhase> {
    var stop := if !exited then [Failed] else if !gone then [Stopped] else [Stopped, Deleting, Deleted];
    match from
    case Deleted => []
    case Deleting => [Deleted]
    case Pending => [Deleting, Deleted]
    case Stopped => [Deleting, Deleted]
    case Failed => [Deleting, Deleted]
    case Provisioning => [Failed, Deleting, Deleted]
    case Starting => [Failed, Deleting, Deleted]
    case Running => [Stopping] + stop
    case Stopping => stop
  }

  /** The phase a deletion ends in. */
  function LastPhase(from: VmPhase, exited: bool, gone: bool): VmPhase {
    var run := [from] + DeletePath(from, exited, gone);
    run[|run| - 1]
  }

  /**
   A deletion follows legal edges from every phase but `Pending`. It ends in
   `Deleted`, or in `Stopped` or `Failed`, and then a second one ends in
   `Deleted` whatever the world answers.
   */
  lemma DeleteEnds(from: VmPhase, exited: bool, gone: bool)
    requires gone && (from == Running || from == Stopping) ==> exited
    requires from != Running && from != Stopping ==> gone
    ensures var run := [from] + DeletePath(from, exited, gone);
            var end := LastPhase(from, exited, gone);
            && (LegalRun(run) <==> from != Pending)
            && (gone <==> end == Deleted)
            && (!gone ==> end == if exited then Stopped else Failed)
            && forall exited', gone' :: LastPhase(end, exited', gone') == Deleted
  {
    var run := [from] + DeletePath(from, exited, gone);
    if from == Pending {
      assert run[0] == Pending && run[1] == Deleting;
    }
  }

  /** The two copies, started alike, do the same and differ only in reporting a failed removal. */
  method StopBothWays(vm: Vm, ch: Host, force: bool) returns (killed: Result, stopped: bool)
    requires vm.Valid() && (vm.phase == Running || vm.phase == Stopping)
    requires ch != vm.host && ch.world == vm.host.world && ch.trace == vm.host.trace
    modifies vm, vm.host, ch
    ensures ch.trace == vm.host.trace && ch.trace != []
    ensures stopped <==> killed == Ok || killed == CleanupError
    ensures killed == Ok <==> vm.phase == Stopped && Last(ch.trace) == RemoveDir(true)
    ensures !stopped <==> vm.phase == Failed && Last(ch.trace) == Observe(true)
  {
    hide Chain;
    var _ := ChainEnds(ch.world, ch.trace, force);
    killed := vm.KillVmInner(force);
    stopped := ch.ChStop(force);
  }

  // ------------------------------------------------------------------
  // What every trace of the chain shows
  // ------------------------------------------------------------------

  predicate IsRequest(a: Action) {
    a.Send? || (a.Call? && a.api != DeleteCall)
  }

  function RequestOf(a: Action): Request
    requires IsRequest(a)
  {
    if a.Send? then Deliver(a.sig) else Ask(a.api)
  }

  /** The requests made, in order. */
  function Requests(t: Trace): seq<Request> {
    if t == [] then []
    else Requests(t[..|t| - 1]) + (if IsRequest(Last(t)) then [RequestOf(Last(t))] else [])
  }

  /**
   `u` continues `t` with exactly the requests `reqs` in at most `ms`
   milliseconds. Each request but a first one directly follows a sight of the
   process alive, a sight of it dead can only be the last action, and the
   runtime directory is left alone.
   */
  ghost predicate Continues(t: Trace, u: Trace, exited: bool, reqs: seq<Request>, ms: nat) {
    && |t| < |u| && u[..|t|] == t
    && Requests(u) == Requests(t) + reqs
    && Elapsed(u) <= Elapsed(t) + ms
    && (forall i :: |t| < i < |u| && IsRequest(u[i]) ==> u[i - 1] == Observe(true))
    && (forall i :: |t| <= i < |u| ==> !u[i].RemoveDir?)
    && (forall i :: |t| <= i < |u| - 1 ==> u[i] != Observe(false))
    && (exited <==> Last(u) == Observe(false))
  }

  lemma ContinuesOne(t: Trace, a: Action)
    requires !a.RemoveDir?
    ensures Continues(t, t + [a], a == Observe(false), if IsRequest(a) then [RequestOf(a)] else [],
                      if a.Call? || a.Sleep? then a.ms else 0)
  {
    assert (t + [a])[..|t|] == t;
  }

  lemma ContinuesOn(t: Trace, u: Trace, v: Trace, exited: bool, reqs: seq<Request>, ms: nat,
                    reqs': seq<Request>, ms': nat, all: seq<Request>, total: nat)
    requires Continues(t, u, false, reqs, ms) && Continues(u, v, exited, reqs', ms')
    requires IsRequest(v[|u|]) ==> Last(u) == Observe(true)
    requires all == reqs + reqs' && ms + ms' <= total
    ensures Continues(t, v, exited, all, total)
  {
  }

  lemma ElapsedOf(t: Trace, a: Action)
    ensures Elapsed(t + [a]) == Elapsed(t) + (if a.Call? || a.Sleep? then a.ms else 0)
  {
    assert (t + [a])[..|t|] == t;
  }

  /** A wait rounded up to whole polls. */
  function RoundedUp(ms: int): nat {
    if ms <= 0 then 0 else (ms + POLL_MS - 1) / POLL_MS * POLL_MS
  }

  /**
   The wait makes no request and ends within its timeout rounded up to whole
   polls. It reports an exit exactly when a poll saw the process dead;
   otherwise it lasted the whole timeout and last saw the process alive.
   */
  lemma {:induction false} WaitEnds(w: World, t: Trace, waited: nat, timeout: nat)
    ensures var o := Polled(w, t, waited, timeout);
            && Continues(t, o.trace, o.exited, [], RoundedUp(timeout - waited))
            && o.trace[|t|].Observe?
            && (!o.exited ==> Last(o.trace) == Observe(true) && Elapsed(o.trace) >= Elapsed(t) + timeout - waited)
    decreases if waited < timeout then timeout - waited else 0
  {
    hide Continues;
    var seen := Observed(w, t);
    ContinuesOne(t, Observe(w.alive(t)));
    assert seen[..|t|] == t;
    if w.alive(t) && waited < timeout {
      var slept := seen + [Sleep(POLL_MS)];
      ContinuesOne(seen, Sleep(POLL_MS));
      ContinuesOn(t, seen, slept, false, [], 0, [], POLL_MS, [], POLL_MS);
      assert slept[..|seen|] == seen;
      var o := Polled(w, slept, waited + POLL_MS, timeout);
      WaitEnds(w, slept, waited + POLL_MS, timeout);
      ContinuesOn(t, slept, o.trace, o.exited, [], POLL_MS, [], RoundedUp(timeout - waited - POLL_MS),
                  [], RoundedUp(timeout - waited));
      Prefixed(slept, o.trace, o.exited, [], RoundedUp(timeout - waited - POLL_MS));
      assert o.trace[|t|] == slept[|t|];
    } else {
      WithinMore(t, seen, !w.alive(t), [], 0, RoundedUp(timeout - waited));
    }
  }

  lemma Prefixed(t: Trace, u: Trace, exited: bool, reqs: seq<Request>, ms: nat)
    requires Continues(t, u, exited, reqs, ms)
    ensures |t| < |u| && forall i :: 0 <= i < |t| ==> u[i] == t[i]
  {
    assert forall i :: 0 <= i < |t| ==> u[..|t|][i] == u[i];
  }

  lemma WithinMore(t: Trace, u: Trace, exited: bool, reqs: seq<Request>, ms: nat, more: nat)
    requires Continues(t, u, exited, reqs, ms) && ms <= more
    ensures Continues(t, u, exited, reqs, more)
  {
    hide Requests, Elapsed;
  }

  function LevelBudget(level: Level): nat {
    (if level.request.Ask? then CLIENT_TIMEOUT_MS else 0) + RoundedUp(level.timeoutMs)
  }

  /**
   A level makes its one request; when that is taken and the process stays, it
   waits its whole timeout, and when an API call fails it does not wait at all.
   */
  lemma LevelContinues(w: World, t: Trace, level: Level)
    requires level.request != Ask(DeleteCall)
    ensures var o := RunLevel(w, t, level);
            && Continues(t, o.trace, o.exited, [level.request], LevelBudget(level))
            && |t| < |o.trace|
            && (!o.exited && (level.request.Ask? ==> o.trace[|t|].Call? && o.trace[|t|].ok) ==>
                  Elapsed(o.trace) >= Elapsed(t) + level.timeoutMs)
            && (level.request.Ask? && !(o.trace[|t|].Call? && o.trace[|t|].ok) ==> |o.trace| == |t| + 1)
  {
    hide Continues, Polled, Elapsed, RoundedUp;
    var o := RunLevel(w, t, level);
    var asked := if level.request.Ask? then Called(w, t, level.request.api) else t + [Send(level.request.sig)];
    var base := if level.request.Ask? then CLIENT_TIMEOUT_MS else 0;
    ContinuesOne(t, Last(asked));
    assert Continues(t, asked, false, [level.request], base) by {
      var spent := if Last(asked).Call? then Last(asked).ms else 0;
      WithinMore(t, asked, false, [level.request], spent, base);
    }
    Prefixed(t, asked, false, [level.request], base);
    if level.request.Ask? && !Last(asked).ok {
      WithinMore(t, asked, false, [level.request], base, LevelBudget(level));
    } else {
      WaitEnds(w, asked, 0, level.timeoutMs);
      ContinuesOn(t, asked, o.trace, o.exited, [level.request], base, [], RoundedUp(level.timeoutMs),
                  [level.request], LevelBudget(level));
      Prefixed(asked, o.trace, o.exited, [], RoundedUp(level.timeoutMs));
      ElapsedOf(t, Last(asked));
    }
  }

  /** The requests of a list of levels, then SIGKILL. */
  function Escalation(levels: seq<Level>): seq<Request> {
    if levels == [] then [Deliver(SigKill)] else [levels[0].request] + Escalation(levels[1..])
  }

  function Budget(levels: seq<Level>): nat {
    if levels == [] then 100 else LevelBudget(levels[0]) + Budget(levels[1..])
  }

  /** Levels are used in order, and only a process that outlives SIGKILL is reported alive. */
  lemma {:induction false} LevelsContinue(w: World, t: Trace, levels: seq<Level>) returns (used: nat)
    requires forall i :: 0 <= i < |levels| ==> levels[i].request != Ask(DeleteCall)
    ensures used <= |Escalation(levels)|
    ensures var o := RunLevels(w, t, levels);
            && Continues(t, o.trace, o.exited, Escalation(levels)[..used], Budget(levels))
            && o.trace[|t|].Observe?
            && (!o.exited ==> used == |Escalation(levels)| && Last(o.trace) == Observe(true))
    decreases |levels|
  {
    hide Continues, RunLevel;
    var o := RunLevels(w, t, levels);
    var seen := Observed(w, t);
    ContinuesOne(t, Observe(w.alive(t)));
    assert seen[|t|].Observe?;
    if !w.alive(t) {
      used := 0;
      WithinMore(t, seen, true, [], 0, Budget(levels));
    } else if levels == [] {
      used := 1;
      var kill := [Deliver(SigKill)];
      var sent := seen + [Send(SigKill)];
      var slept := sent + [Sleep(100)];
      assert slept == seen + [Send(SigKill), Sleep(100)];
      ContinuesOne(seen, Send(SigKill));
      ContinuesOn(t, seen, sent, false, [], 0, kill, 0, kill, 0);
      ContinuesOne(sent, Sleep(100));
      ContinuesOn(t, sent, slept, false, kill, 0, [], 100, kill, 100);
      ContinuesOne(slept, Observe(w.alive(slept)));
      ContinuesOn(t, slept, o.trace, o.exited, kill, 100, [], 0, Escalation(levels)[..used], 100);
    } else {
      var level := RunLevel(w, seen, levels[0]);
      var reqs, ms := [levels[0].request], LevelBudget(levels[0]);
      LevelContinues(w, seen, levels[0]);
      ContinuesOn(t, seen, level.trace, level.exited, [], 0, reqs, ms, reqs, ms);
      Prefixed(seen, level.trace, level.exited, reqs, ms);
      if level.exited {
        used := 1;
        assert Escalation(levels)[..1] == reqs;
        WithinMore(t, level.trace, true, reqs, ms, Budget(levels));
      } else {
        var k := LevelsContinue(w, level.trace, levels[1..]);
        var rest := Escalation(levels[1..])[..k];
        used := k + 1;
        assert Escalation(levels)[..used] == reqs + rest;
        Prefixed(level.trace, o.trace, o.exited, rest, Budget(levels[1..]));
        ContinuesOn(t, level.trace, o.trace, o.exited, reqs, ms, rest, Budget(levels[1..]),
                    Escalation(levels)[..used], Budget(levels));
      }
    }
  }

  /** Every request the chain may make, in order. */
  function FullEscalation(force: bool): seq<Request> {
    (if force then [] else [Ask(Graceful)]) + [Ask(Force), Deliver(SigTerm), Deliver(SigKill)]
  }

  function ChainBudget(force: bool): nat {
    if force then 25100 else 65100
  }

  /**
   For every world: the chain makes a prefix of its requests, in order, each
   right after seeing the process alive; it stops at the first sight of the
   process dead; it ends within a fixed time; and it reports a survivor only
   after SIGKILL and a last sight of the process alive.
   */
  lemma ChainEnds(w: World, t: Trace, force: bool) returns (used: nat)
    ensures used <= |FullEscalation(force)|
    ensures var o := Chain(w, t, force);
            && Continues(t, o.trace, o.exited, FullEscalation(force)[..used], ChainBudget(force))
            && (!o.exited ==> used == |FullEscalation(force)| && Last(o.trace) == Observe(true))
  {
    hide Continues, RunLevels, Polled;
    ForceEscalation();
    var o := Chain(w, t, force);
    var seen := Observed(w, t);
    ContinuesOne(t, Observe(w.alive(t)));
    if !w.alive(t) {
      used := 0;
      WithinMore(t, seen, true, [], 0, ChainBudget(force));
    } else if force {
      used := LevelsContinue(w, seen, FORCE_LEVELS);
      var reqs := Escalation(FORCE_LEVELS)[..used];
      ContinuesOn(t, seen, o.trace, o.exited, [], 0, reqs, 25100, FullEscalation(force)[..used], 25100);
    } else {
      var level := RunLevel(w, seen, GRACEFUL_LEVEL);
      var reqs := [Ask(Graceful)];
      LevelContinues(w, seen, GRACEFUL_LEVEL);
      ContinuesOn(t, seen, level.trace, level.exited, [], 0, reqs, 40000, reqs, 40000);
      if level.exited {
        used := 1;
        assert FullEscalation(force)[..1] == reqs;
        WithinMore(t, level.trace, true, reqs, 40000, 65100);
      } else {
        var k := LevelsContinue(w, level.trace, FORCE_LEVELS);
        used := k + 1;
        var rest := Escalation(FORCE_LEVELS)[..k];
        assert FullEscalation(force)[..used] == reqs + rest;
        ContinuesOn(t, level.trace, o.trace, o.exited, reqs, 40000, rest, 25100, FullEscalation(force)[..used], 65100);
      }
    }
  }

  lemma ForceEscalation()
    ensures Escalation(FORCE_LEVELS) == [Ask(Force), Deliver(SigTerm), Deliver(SigKill)]
    ensures Budget(FORCE_LEVELS) == 25100 && Patience(FORCE_LEVELS) == 15100
    ensures LevelBudget(GRACEFUL_LEVEL) == 40000
  {
  }

  /** The polls of a wait are 200 milliseconds apart. */
  lemma {:induction false} PollSpacing(w: World, t: Trace, waited: nat, timeout: nat)
    ensures var o := Polled(w, t, waited, timeout);
            |o.trace| > |t| && 2 * (Elapsed(o.trace) - Elapsed(t)) == 200 * (|o.trace| - |t| - 1)
    decreases if waited < timeout then timeout - waited else 0
  {
    hide Elapsed;
    var seen := Observed(w, t);
    ElapsedOf(t, Observe(w.alive(t)));
    if w.alive(t) && waited < timeout {
      ElapsedOf(seen, Sleep(POLL_MS));
      PollSpacing(w, seen + [Sleep(POLL_MS)], waited + POLL_MS, timeout);
    }
  }

  /** The time levels give a process that answers and stays. */
  function Patience(levels: seq<Level>): nat {
    if levels == [] then 100 else levels[0].timeoutMs + Patience(levels[1..])
  }

  /** Every API call from action `n` on was taken. */
  ghost predicate Answered(u: Trace, n: nat) {
    forall i :: n <= i < |u| && u[i].Call? ==> u[i].ok
  }

  lemma {:induction false} LevelsPatient(w: World, t: Trace, levels: seq<Level>)
    requires forall i :: 0 <= i < |levels| ==> levels[i].request != Ask(DeleteCall)
    ensures var o := RunLevels(w, t, levels);
            !o.exited && Answered(o.trace, |t|) ==> Elapsed(o.trace) >= Elapsed(t) + Patience(levels)
    decreases |levels|
  {
    hide Continues, RunLevel, Elapsed, Escalation, Budget;
    var o, seen := RunLevels(w, t, levels), Observed(w, t);
    ElapsedOf(t, Observe(w.alive(t)));
    if w.alive(t) {
      if levels == [] {
        KillLevel(w, t);
        var sent := seen + [Send(SigKill)];
        ElapsedOf(seen, Send(SigKill));
        ElapsedOf(sent, Sleep(100));
        ElapsedOf(sent + [Sleep(100)], Observe(w.alive(sent + [Sleep(100)])));
      } else {
        LevelPatient(w, t, levels);
      }
    }
  }

  lemma {:induction false} LevelPatient(w: World, t: Trace, levels: seq<Level>)
    requires levels != [] && w.alive(t) && Elapsed(Observed(w, t)) == Elapsed(t)
    requires forall i :: 0 <= i < |levels| ==> levels[i].request != Ask(DeleteCall)
    ensures var o := RunLevels(w, t, levels);
            !o.exited && Answered(o.trace, |t|) ==> Elapsed(o.trace) >= Elapsed(t) + Patience(levels)
    decreases |levels|, 0
  {
    hide Continues, RunLevel, Elapsed, Escalation, Budget;
    var o, seen := RunLevels(w, t, levels), Observed(w, t);
    var level := RunLevel(w, seen, levels[0]);
    LevelContinues(w, seen, levels[0]);
    if !level.exited && Answered(o.trace, |t|) {
      var k := LevelsContinue(w, level.trace, levels[1..]);
      Prefixed(level.trace, o.trace, o.exited, Escalation(levels[1..])[..k], Budget(levels[1..]));
      assert level.trace[|seen|] == o.trace[|seen|];
      LevelAsks(w, seen, levels[0]);
      LevelsPatient(w, level.trace, levels[1..]);
    }
  }

  /** The first action of a level is its request. */
  lemma LevelAsks(w: World, t: Trace, level: Level)
    requires level.request != Ask(DeleteCall)
    ensures var o := RunLevel(w, t, level);
            |o.trace| > |t| && (level.request.Ask? ==> o.trace[|t|].Call?)
  {
    hide Continues, Polled;
    var asked := if level.request.Ask? then Called(w, t, level.request.api) else t + [Send(level.request.sig)];
    WaitEnds(w, asked, 0, level.timeoutMs);
    Prefixed(asked, Polled(w, asked, 0, level.timeoutMs).trace, Polled(w, asked, 0, level.timeoutMs).exited,
             [], RoundedUp(level.timeoutMs));
  }

  /** A survivor that took every API call was given the whole timeout of every level. */
  lemma ChainPatient(w: World, t: Trace, force: bool)
    ensures var o := Chain(w, t, force);
            !o.exited && Answered(o.trace, |t|) ==> Elapsed(o.trace) >= Elapsed(t) + if force then 15100 else 45100
  {
    hide Continues, RunLevels, RunLevel, Polled, Elapsed, Escalation, Budget;
    assert Patience(FORCE_LEVELS) == 15100;
    var o, seen := Chain(w, t, force), Observed(w, t);
    ElapsedOf(t, Observe(w.alive(t)));
    if w.alive(t) && force {
      LevelsPatient(w, seen, FORCE_LEVELS);
    } else if w.alive(t) {
      var level := RunLevel(w, seen, GRACEFUL_LEVEL);
      LevelContinues(w, seen, GRACEFUL_LEVEL);
      if !level.exited && Answered(o.trace, |t|) {
        var k := LevelsContinue(w, level.trace, FORCE_LEVELS);
        Prefixed(level.trace, o.trace, o.exited, Escalation(FORCE_LEVELS)[..k], Budget(FORCE_LEVELS));
        assert level.trace[|seen|] == o.trace[|seen|];
        LevelAsks(w, seen, GRACEFUL_LEVEL);
        LevelsPatient(w, level.trace, FORCE_LEVELS);
      }
    }
  }

  /** The directory is removed only as the last step and right after seeing the process dead, and never for a survivor. */
  lemma RemovedOnlyWhenDead(w: World, t: Trace, force: bool, i: nat)
    requires |t| <= i < |ChainTrace(w, t, force)|
    ensures var u := ChainTrace(w, t, force);
            u[i].RemoveDir? <==> i == |u| - 1 && i > |t| && u[i - 1] == Observe(false)
  {
    hide Chain, Requests, Elapsed;
    var _ := ChainEnds(w, t, force);
  }
}
