/**
 What each operation of the UI thread achieves from its call to its return while no monitor
 moves, and what becomes of the monitors it supersedes. `envs` is what its steps meet.
 */
module SupervisionCalls {
  import opened Common
  import opened ServerManager
  import opened Supervision
  import opened SupervisionProofs
  import opened SupervisionRest
  import opened SupervisionRounds

  /** The steps of the UI thread up to the return of its operation; step `k` is the next one. */
  function UiRun(s: State, envs: seq<Env>, k: nat): State
    decreases |envs| - k
  {
    if k >= |envs| || s.ui.Idle? then s else UiRun(UiNext(s, envs[k]), envs, k + 1)
  }

  /** The number of steps that put the old monitor and process out of the way. */
  function Clearing(s: State): nat { if s.world.shared.owned.Some? then 4 else 3 }

  /** The token of the last Start is cancelled. */
  function WithTokenCancelled(s: State): set<nat> {
    if s.token.Some? then s.cancelled + {s.token.value} else s.cancelled
  }

  /** From `s` to `t` everything is superseded, detached and disposed, and nothing is launched. */
  predicate Cleared(s: State, t: State, state: ManagerState) {
    && t.world.shared == Shared(state, None, s.world.shared.generation + 1)
    && t.world.launches == s.world.launches && t.world.nextPid == s.world.nextPid
    && t.monitors == s.monitors && t.disposed == s.disposed && t.cancelled == WithTokenCancelled(s)
    && (s.world.shared.owned.Some? ==>
          s.world.shared.owned.value in t.world.places && t.world.places[s.world.shared.owned.value] == Disposed(Ui))
  }

  lemma Clear(s: State, op: UiOp, envs: seq<Env>, k: nat) returns (t: State)
    requires s.ui == Supersede(op) && k + 4 <= |envs|
    ensures UiRun(s, envs, k) == UiRun(t, envs, k + Clearing(s))
    ensures Cleared(s, t, s.world.shared.state)
    ensures t.token == if op.StartOp? then Some(t.world.shared.generation) else None
    ensures t.ui == if op.StartOp? then UiLaunch(Create) else if op.RecoverOp? then AwaitShutdown else EnterStopped(op)
  {
    var cancel := UiNext(s, envs[k]);
    var detach := UiNext(cancel, envs[k + 1]);
    t := UiNext(detach, envs[k + 2]);
    assert UiRun(s, envs, k) == UiRun(cancel, envs, k + 1) == UiRun(detach, envs, k + 2) == UiRun(t, envs, k + 3);
    if s.world.shared.owned.Some? {
      var last := UiNext(t, envs[k + 3]);
      assert UiRun(t, envs, k + 3) == UiRun(last, envs, k + 4);
      t := last;
    }
  }

  // ----- Stop and Dispose -----

  lemma ClearAndStop(s: State, op: UiOp, envs: seq<Env>, k: nat)
    requires s.ui == Supersede(op) && (op.StopOp? || op.DisposeOp?) && k + 5 <= |envs|
    ensures var t := UiRun(s, envs, k);
            t.ui.Idle? && t.token == None && Cleared(s, t, Stopped)
  {
    var cleared := Clear(s, op, envs, k);
    var t := UiNext(cleared, envs[k + Clearing(s)]);
    assert UiRun(cleared, envs, k + Clearing(s)) == t;
  }

  /** Stop returns with everything superseded, cancelled, detached and disposed, in Stopped. */
  lemma StopCall(s: State, envs: seq<Env>)
    requires s.ui.Idle? && |envs| >= 5
    ensures var t := UiRun(Next(s, BeginStop), envs, 0);
            t.ui.Idle? && t.token == None && Cleared(s, t, Stopped)
  {
    ClearAndStop(Next(s, BeginStop), StopOp, envs, 0);
  }

  /** Dispose does the same once, and after it Start, Recover and Dispose do nothing. */
  lemma DisposeCall(s: State, envs: seq<Env>, verified: bool)
    requires s.ui.Idle? && |envs| >= 5
    ensures var t := UiRun(Next(s, BeginDispose), envs, 0);
            && t.disposed
            && (if s.disposed then t == s else t.ui.Idle? && Cleared(s.(disposed := true), t, Stopped))
            && Next(t, BeginStart) == Next(t, BeginRecover(verified)) == Next(t, BeginDispose) == t
  {
    if !s.disposed {
      ClearAndStop(Next(s, BeginDispose), DisposeOp, envs, 0);
    }
  }

  // ----- Start -----

  lemma {:induction false} UiRunIsLaunch(s: State, pc: LaunchPc, envs: seq<Env>, k: nat)
    requires s.ui == UiLaunch(pc) && !pc.Returned?
    requires LaunchRun(s.world, Ui, None, pc, envs, k).1.Returned?
    ensures var (w', pc', end) := LaunchRun(s.world, Ui, None, pc, envs, k);
            UiRun(s, envs, k) == UiRun(s.(world := w', ui := SpawnMonitor), envs, end)
    decreases |envs| - k
  {
    if k < |envs| {
      var (w1, pc1) := LaunchStep(s.world, Ui, None, pc, envs[k]);
      var t := UiNext(s, envs[k]);
      assert UiRun(s, envs, k) == UiRun(t, envs, k + 1);
      if !pc1.Returned? {
        UiRunIsLaunch(t, pc1, envs, k + 1);
        assert t.(world := s.world, ui := s.ui) == s;
      } else {
        assert LaunchRun(w1, Ui, None, pc1, envs, k + 1) == (w1, pc1, k + 1);
      }
    }
  }

  /**
   A new generation was started: one launch, for it alone, and a monitor of its own with an
   uncancelled token and all restarts left. The launch left Starting with a new process, or Faulted.
   */
  ghost predicate StartedAnew(s: State, t: State, ok: bool) {
    var g := t.world.shared.generation;
    && t.ui.Idle? && g > s.world.shared.generation && t.token == Some(g)
    && LaunchesOf(t.world, g) == 1
    && (forall h: nat | h != g :: LaunchesOf(t.world, h) == LaunchesOf(s.world, h))
    && t.monitors == s.monitors[g := MonitorThread(Top, 0)]
    && t.cancelled == WithTokenCancelled(s)
    && (if ok then t.world.shared.state == Starting && t.world.shared.owned == Some(s.world.nextPid)
        else t.world.shared.state == Faulted && t.world.shared.owned == None)
  }

  lemma LaunchAndSpawn(s: State, envs: seq<Env>, k: nat)
    requires s.ui == UiLaunch(Create) && s.world.shared.owned == None && k + 8 <= |envs|
    ensures var t := UiRun(s, envs, k);
            && LaunchedOnce(s.world, t.world, s.world.shared.generation, Launches(envs, k))
            && t == s.(world := t.world, ui := Idle, monitors := s.monitors[s.world.shared.generation := MonitorThread(Top, 0)])
  {
    LaunchOutcome(s.world, Ui, None, envs, k);
    UiRunIsLaunch(s, Create, envs, k);
    var (w', pc', end) := LaunchRun(s.world, Ui, None, Create, envs, k);
    var spawn := s.(world := w', ui := SpawnMonitor);
    assert UiRun(spawn, envs, end) == UiNext(spawn, envs[end]);
  }

  lemma ClearAndLaunch(s: State, envs: seq<Env>, k: nat)
    requires s.ui == Supersede(StartOp) && k + 12 <= |envs|
    requires forall g <- s.world.launches :: g <= s.world.shared.generation
    ensures StartedAnew(s, UiRun(s, envs, k), Launches(envs, k + Clearing(s)))
  {
    var cleared := Clear(s, StartOp, envs, k);
    LaunchAndSpawn(cleared, envs, k + Clearing(s));
    assert s.world.shared.generation + 1 !in s.world.launches;
    forall h: nat ensures LaunchesOf(cleared.world, h) == LaunchesOf(s.world, h) {
    }
  }

  /** Start does nothing to a server that is Starting or Running, and otherwise starts one anew. */
  lemma StartCall(s: State, envs: seq<Env>)
    requires Reachable(s) && s.ui.Idle? && !s.disposed && |envs| >= 13
    ensures var t := UiRun(Next(s, BeginStart), envs, 0);
            if s.world.shared.state == Starting || s.world.shared.state == Running then t == s
            else StartedAnew(s, t, Launches(envs, 1 + Clearing(s)))
  {
    ReachableInv(s);
    CheckAndStart(Next(s, BeginStart), envs, 0);
  }

  lemma CheckAndStart(s: State, envs: seq<Env>, k: nat)
    requires s.ui == CheckStart && k + 13 <= |envs|
    requires forall g <- s.world.launches :: g <= s.world.shared.generation
    ensures var t := UiRun(s, envs, k);
            if Alive(s.world.shared.state) then t == s.(ui := Idle)
            else StartedAnew(s, t, Launches(envs, k + 1 + Clearing(s)))
  {
    var next := UiNext(s, envs[k]);
    assert UiRun(s, envs, k) == UiRun(next, envs, k + 1);
    if !Alive(s.world.shared.state) {
      ClearAndLaunch(next, envs, k + 1);
    }
  }

  // ----- Recover -----

  /**
   Recover acts exactly on a verified Conflict: it supersedes what there is, and once the other
   server has agreed to shut down it starts anew; otherwise the state stays Conflict.
   */
  lemma RecoverCall(s: State, verified: bool, envs: seq<Env>)
    requires Reachable(s) && s.ui.Idle? && !s.disposed && |envs| >= 20
    ensures var t := UiRun(Next(s, BeginRecover(verified)), envs, 0);
            if s.world.shared.state != Conflict || !verified then t == s
            else if !envs[4].shutdown then t.ui.Idle? && t.token == None && Cleared(s, t, Conflict)
            else StartedAnew(s, t, Launches(envs, 10))
  {
    ReachableRest(s);
    var begun := Next(s, BeginRecover(verified));
    var next := UiNext(begun, envs[0]);
    assert UiRun(begun, envs, 0) == UiRun(next, envs, 1);
    if s.world.shared.state == Conflict && verified {
      var cleared := Clear(next, RecoverOp, envs, 1);
      var decided := UiNext(cleared, envs[4]);
      assert UiRun(cleared, envs, 4) == UiRun(decided, envs, 5);
      if envs[4].shutdown {
        RestartAfterShutdown(decided, envs);
      }
    }
  }

  lemma RestartAfterShutdown(s: State, envs: seq<Env>)
    requires s.ui == EnterStopped(RecoverOp) && s.world.shared.owned == None && s.token == None && |envs| >= 20
    requires forall g <- s.world.launches :: g <= s.world.shared.generation
    ensures StartedAnew(s, UiRun(s, envs, 5), Launches(envs, 10))
  {
    var stopped := UiNext(s, envs[5]);
    assert UiRun(s, envs, 5) == UiRun(stopped, envs, 6);
    CheckAndStart(stopped, envs, 6);
  }

  // ----- superseded monitors are cancelled -----

  /** Every monitor has been cancelled, or holds the token of the last Start. */
  predicate CancelInv(s: State) {
    && (forall g <- s.monitors :: g in s.cancelled || s.token == Some(g))
    && (s.token.Some? && s.token.value != s.world.shared.generation ==> s.ui.CancelToken?)
    && (s.ui.UiLaunch? || s.ui.SpawnMonitor? ==> s.token == Some(s.world.shared.generation))
  }

  lemma UiKeepsCancel(s: State, env: Env)
    requires CancelInv(s)
    ensures CancelInv(UiNext(s, env))
  {
    if s.ui.UiLaunch? {
      LaunchCounts(s.world, Ui, None, s.ui.launch, env);
    }
  }

  lemma StepKeepsCancel(s: State, step: Step)
    requires Inv(s) && CancelInv(s)
    ensures CancelInv(Next(s, step))
  {
    match step
    case UiStep(env) => UiKeepsCancel(s, env);
    case MonitorStep(g, env) =>
      MonitorFrame(s, g, env);
      if g != s.world.shared.generation {
        StaleMonitorIsInert(s, g, env);
      } else if g in s.monitors {
        CurrentMonitorKeepsPhases(s, g, env);
      }
    case _ =>
  }

  lemma {:induction false} RunKeepsCancel(s: State, steps: seq<Step>)
    requires Inv(s) && CancelInv(s)
    ensures CancelInv(Run(s, steps))
    decreases |steps|
  {
    if steps != [] {
      StepKeepsInv(s, steps[0]);
      StepKeepsCancel(s, steps[0]);
      RunKeepsCancel(Next(s, steps[0]), steps[1..]);
    }
  }

  /** At rest, the cancelled monitors are exactly the superseded ones. */
  lemma SupersededIsCancelled(s: State, g: nat)
    requires Reachable(s) && s.ui.Idle? && g in s.monitors
    ensures g in s.cancelled <==> g < s.world.shared.generation
  {
    ReachableRest(s);
    var steps :| Run(Initial(), steps) == s;
    RunKeepsCancel(Initial(), steps);
  }

  /** A cancelled monitor ends at the top of its loop, and after an exit does not ask for a restart. */
  lemma CancelledMonitorEnds(s: State, g: nat, env: Env)
    requires g in s.monitors && g in s.cancelled
    ensures var pc, pc' := s.monitors[g].pc, MonitorNext(s, g, env).monitors[g].pc;
            && (pc == Top ==> pc' == Ended)
            && (pc.Branch? ==> pc' == if pc.code == 2 then EnterConflict else GiveUp)
  {
  }

  /** A superseded monitor is shown no process, gets none to dispose, and is refused a restart. */
  lemma SupersededMonitorEnds(s: State, g: nat, env: Env)
    requires g in s.monitors && g != s.world.shared.generation
    ensures var pc, pc' := s.monitors[g].pc, MonitorNext(s, g, env).monitors[g].pc;
            && (pc == Fetch || pc.DetachExited? ==> pc' == Ended)
            && (pc == CheckCurrent ==> pc' == GiveUp)
  {
  }

  // ----- superseded monitors launch no more -----

  /** Generation `g` is superseded and its monitor, if any, is not in the middle of a launch. */
  predicate Superannuated(s: State, g: nat) {
    g < s.world.shared.generation && (g in s.monitors ==> !s.monitors[g].pc.Relaunch?)
  }

  lemma OthersNeverLaunchFor(s: State, step: Step, g: nat)
    requires Inv(s) && g < s.world.shared.generation && !(step.MonitorStep? && step.generation == g)
    ensures LaunchesOf(Next(s, step).world, g) == LaunchesOf(s.world, g)
    ensures g in Next(s, step).monitors <==> g in s.monitors
    ensures g in s.monitors ==> Next(s, step).monitors[g] == s.monitors[g]
  {
    match step
    case UiStep(env) =>
      if s.ui.UiLaunch? {
        LaunchCounts(s.world, Ui, None, s.ui.launch, env);
      } else if !s.ui.Supersede? && !s.ui.SpawnMonitor? {
        OtherUiStepsDoNotLaunch(s, env);
      }
    case MonitorStep(h, env) =>
      MonitorFrame(s, h, env);
      if h in s.monitors {
        if s.monitors[h].pc.Relaunch? {
          LaunchCounts(s.world, Monitor(h), Some(h), s.monitors[h].pc.launch, env);
        } else {
          OtherMonitorStepsDoNotLaunch(s, h, env);
        }
      }
    case _ =>
  }

  lemma StepKeepsSuperannuated(s: State, step: Step, g: nat)
    requires Inv(s) && Superannuated(s, g)
    ensures Superannuated(Next(s, step), g) && LaunchesOf(Next(s, step).world, g) == LaunchesOf(s.world, g)
  {
    StepGeneration(s, step);
    if step.MonitorStep? && step.generation == g {
      if g in s.monitors {
        OtherMonitorStepsDoNotLaunch(s, g, step.env);
      }
    } else {
      OthersNeverLaunchFor(s, step, g);
    }
  }

  /** Along every run, a superseded generation makes no launch but one that was already under way. */
  lemma {:induction false} SupersededNeverLaunches(s: State, later: seq<Step>, g: nat)
    requires Inv(s) && Superannuated(s, g)
    ensures LaunchesOf(Run(s, later).world, g) == LaunchesOf(s.world, g)
    decreases |later|
  {
    if later != [] {
      StepKeepsInv(s, later[0]);
      StepKeepsSuperannuated(s, later[0], g);
      SupersededNeverLaunches(Next(s, later[0]), later[1..], g);
    }
  }
}
