/**
 When a monitor starts a process that is no longer owned: taking ownership, entering Starting
 and starting the process are separate steps, and the UI thread may come in between.
 */
module SupervisionStart {
  import opened Common
  import opened ServerManager
  import opened Supervision
  import opened SupervisionProofs

  /** The process a monitor has put under ownership and is about to start. */
  function AboutToStart(pc: MonitorPc): Option<Pid> {
    if !pc.Relaunch? then None
    else
      match pc.launch
      case EnterStarting(p) => Some(p)
      case StartProcess(p) => Some(p)
      case _ => None
  }

  /** Generation `g` is current, or its successor has not yet come to detach what it owned. */
  predicate NotYetDetached(s: State, g: nat) {
    var current := s.world.shared.generation;
    g == current || (g + 1 == current && (s.ui.CancelToken? || s.ui.DetachOld?))
  }

  predicate StartPhase(s: State, g: nat, p: Pid) {
    && p in s.world.places
    && (if NotYetDetached(s, g) then s.world.shared.owned == Some(p)
        else s.world.places[p] == Detached(Ui) || s.world.places[p] == Disposed(Ui))
  }

  predicate StartInv(s: State) {
    forall g <- s.monitors :: AboutToStart(s.monitors[g].pc).Some? ==> StartPhase(s, g, AboutToStart(s.monitors[g].pc).value)
  }

  lemma UiKeepsStartPhase(s: State, env: Env, g: nat, p: Pid)
    requires Inv(s) && g in s.monitors && StartPhase(s, g, p)
    ensures StartPhase(UiNext(s, env), g, p)
  {
    var s' := UiNext(s, env);
    UiMovesOneProcess(s, env);
    MoveIsLifecycle(s, s', Ui, p);
  }

  lemma OthersKeepStartPhase(s: State, h: nat, env: Env, g: nat, p: Pid)
    requires Inv(s) && g in s.monitors && h in s.monitors && h != g && StartPhase(s, g, p)
    ensures StartPhase(MonitorNext(s, h, env), g, p)
  {
    var s' := MonitorNext(s, h, env);
    MonitorMovesOneProcess(s, h, env);
    MoveIsLifecycle(s, s', Monitor(h), p);
    if h == s.world.shared.generation {
      CurrentMonitorKeepsPhases(s, h, env);
    } else {
      StaleMonitorIsInert(s, h, env);
    }
  }

  /** A launch comes to the point of starting `p` by taking ownership of it, and stays there untouched. */
  lemma LaunchComesToStart(w: World, g: nat, pc: LaunchPc, env: Env, p: Pid)
    requires var pc' := LaunchStep(w, Monitor(g), Some(g), pc, env).1; pc' == EnterStarting(p) || pc' == StartProcess(p)
    ensures var w' := LaunchStep(w, Monitor(g), Some(g), pc, env).0;
            && w'.shared.generation == w.shared.generation
            && (if pc == Assign(p) then g == w.shared.generation && w'.shared.owned == Some(p) && p in w'.places
                else pc == EnterStarting(p) && w'.shared.owned == w.shared.owned && w'.places == w.places)
  {
  }

  lemma OwnStepKeepsStartPhase(s: State, g: nat, env: Env)
    requires Inv(s) && StartInv(s) && g in s.monitors
    ensures var s' := MonitorNext(s, g, env);
            AboutToStart(s'.monitors[g].pc).Some? ==> StartPhase(s', g, AboutToStart(s'.monitors[g].pc).value)
  {
    var s' := MonitorNext(s, g, env);
    var pc := s.monitors[g].pc;
    if AboutToStart(s'.monitors[g].pc).Some? {
      var p := AboutToStart(s'.monitors[g].pc).value;
      assert pc.Relaunch?;
      LaunchComesToStart(s.world, g, pc.launch, env, p);
      assert s'.ui == s.ui;
      if pc.launch.EnterStarting? {
        assert StartPhase(s, g, p);
      }
    }
  }

  lemma UiKeepsStart(s: State, env: Env)
    requires Inv(s) && StartInv(s)
    ensures StartInv(UiNext(s, env))
  {
    var s' := UiNext(s, env);
    forall g <- s'.monitors | AboutToStart(s'.monitors[g].pc).Some?
      ensures StartPhase(s', g, AboutToStart(s'.monitors[g].pc).value)
    {
      UiKeepsStartPhase(s, env, g, AboutToStart(s'.monitors[g].pc).value);
    }
  }

  lemma MonitorKeepsStart(s: State, h: nat, env: Env)
    requires Inv(s) && StartInv(s) && h in s.monitors
    ensures StartInv(MonitorNext(s, h, env))
  {
    var s' := MonitorNext(s, h, env);
    forall g <- s'.monitors | AboutToStart(s'.monitors[g].pc).Some?
      ensures StartPhase(s', g, AboutToStart(s'.monitors[g].pc).value)
    {
      if g == h {
        OwnStepKeepsStartPhase(s, h, env);
      } else {
        OthersKeepStartPhase(s, h, env, g, AboutToStart(s.monitors[g].pc).value);
      }
    }
  }

  lemma BeginKeepsStart(s: State, step: Step)
    requires StartInv(s) && !step.UiStep? && !step.MonitorStep?
    ensures StartInv(Next(s, step))
  {
    var s' := Next(s, step);
    assert s'.world == s.world && s'.monitors == s.monitors;
    assert forall g, p :: StartPhase(s, g, p) ==> StartPhase(s', g, p);
  }

  lemma {:induction false} RunKeepsStart(s: State, steps: seq<Step>)
    requires Inv(s) && StartInv(s)
    ensures StartInv(Run(s, steps))
    decreases |steps|
  {
    if steps != [] {
      var step := steps[0];
      StepKeepsInv(s, step);
      match step {
        case UiStep(env) => UiKeepsStart(s, env);
        case MonitorStep(h, env) =>
          if h in s.monitors {
            MonitorKeepsStart(s, h, env);
          }
        case _ => BeginKeepsStart(s, step);
      }
      RunKeepsStart(Next(s, step), steps[1..]);
    }
  }

  /**
   A monitor starts a process that is still owned exactly if its generation is current or the
   next one has not come to detach it; otherwise the UI thread has detached it, and disposed it
   or is about to.
   */
  lemma StartActsOnOwned(s: State, g: nat, p: Pid)
    requires Reachable(s) && g in s.monitors && s.monitors[g].pc == Relaunch(StartProcess(p))
    ensures s.world.shared.owned == Some(p) <==> NotYetDetached(s, g)
    ensures p in s.world.places
    ensures !NotYetDetached(s, g) ==> s.world.places[p] == Detached(Ui) || s.world.places[p] == Disposed(Ui)
  {
    ReachableInv(s);
    var steps :| Run(Initial(), steps) == s;
    RunKeepsStart(Initial(), steps);
    assert StartPhase(s, g, p);
  }

  /** The UI thread only ever starts the process that is owned. */
  lemma UiStartsOwned(s: State, p: Pid)
    requires Reachable(s) && s.ui == UiLaunch(StartProcess(p))
    ensures s.world.shared.owned == Some(p) && s.world.shared.state.Starting?
  {
    ReachableInv(s);
  }
}
