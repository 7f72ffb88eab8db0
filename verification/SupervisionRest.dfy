/** What the reported state means while the UI thread is at rest: who watches, and what is owned. */
module SupervisionRest {
  import opened Common
  import opened ServerManager
  import opened Supervision
  import opened SupervisionProofs

  /** Points at which no UI operation has superseded the current monitor. */
  predicate AtRest(pc: UiPc) { !UiExclusive(pc) }

  /** A cancelled token belongs to a superseded generation. */
  predicate TokenInv(s: State) {
    && (forall g <- s.cancelled :: g < s.world.shared.generation)
    && (s.token.Some? ==> s.token.value <= s.world.shared.generation)
    && (s.token.Some? && s.ui.CancelToken? ==> s.token.value < s.world.shared.generation)
  }

  predicate Recovering(pc: UiPc) {
    match pc
    case Supersede(op) => op.RecoverOp?
    case CancelToken(op) => op.RecoverOp?
    case DetachOld(op) => op.RecoverOp?
    case DisposeOld(op, _) => op.RecoverOp?
    case AwaitShutdown => true
    case _ => false
  }

  predicate Watched(s: State) {
    var g := s.world.shared.generation;
    g in s.monitors && !s.monitors[g].pc.Ended?
  }

  predicate RestInv(s: State) {
    && TokenInv(s)
    && (Recovering(s.ui) ==> !Alive(s.world.shared.state))
    && (AtRest(s.ui) && Alive(s.world.shared.state) ==> Watched(s))
    && (AtRest(s.ui) && s.world.shared.state.Conflict? ==> s.world.shared.owned == None)
  }

  lemma UiKeepsTokens(s: State, env: Env)
    requires TokenInv(s)
    ensures TokenInv(UiNext(s, env))
  {
    if s.ui.UiLaunch? {
      LaunchCounts(s.world, Ui, None, s.ui.launch, env);
    }
  }

  lemma UiKeepsRest(s: State, env: Env)
    requires GenerationsInv(s) && UiPhase(s) && RestInv(s)
    ensures RestInv(UiNext(s, env))
  {
    UiKeepsTokens(s, env);
    if s.ui.UiLaunch? {
      LaunchKeepsPhase(s.world, Ui, None, s.ui.launch, env);
    }
  }

  lemma MonitorFrame(s: State, g: nat, env: Env)
    ensures var s' := MonitorNext(s, g, env);
            && s'.ui == s.ui && s'.token == s.token && s'.cancelled == s.cancelled
            && s'.monitors.Keys == s.monitors.Keys
            && forall h <- s.monitors :: h != g ==> s'.monitors[h] == s.monitors[h]
  {
  }

  /** The current monitor ends only after it has written that the server is not up. */
  lemma EndingMonitorReports(s: State, g: nat, env: Env)
    requires g in s.monitors && g == s.world.shared.generation && !s.monitors[g].pc.Ended?
    requires GenerationsInv(s) && MonitorPhase(s.world, s.monitors[g].pc) && g !in s.cancelled
    ensures var s' := MonitorNext(s, g, env);
            && (s'.monitors[g].pc.Ended? ==> !Alive(s'.world.shared.state))
            && (s'.world.shared.state.Conflict? ==> s'.world.shared.owned == None)
  {
    if s.monitors[g].pc.Relaunch? {
      LaunchKeepsPhase(s.world, Monitor(g), Some(g), s.monitors[g].pc.launch, env);
    }
  }

  lemma MonitorKeepsRest(s: State, g: nat, env: Env)
    requires Inv(s) && RestInv(s) && g in s.monitors
    ensures RestInv(MonitorNext(s, g, env))
  {
    MonitorFrame(s, g, env);
    if g == s.world.shared.generation {
      CurrentMonitorKeepsPhases(s, g, env);
      if !s.monitors[g].pc.Ended? {
        EndingMonitorReports(s, g, env);
      }
    } else {
      StaleMonitorIsInert(s, g, env);
    }
  }

  lemma {:induction false} RunKeepsRest(s: State, steps: seq<Step>)
    requires Inv(s) && RestInv(s)
    ensures RestInv(Run(s, steps))
    decreases |steps|
  {
    if steps != [] {
      var step := steps[0];
      StepKeepsInv(s, step);
      match step {
        case UiStep(env) => UiKeepsRest(s, env);
        case MonitorStep(g, env) =>
          if g in s.monitors {
            MonitorKeepsRest(s, g, env);
          }
        case _ =>
      }
      RunKeepsRest(Next(s, step), steps[1..]);
    }
  }

  lemma ReachableRest(s: State)
    requires Reachable(s)
    ensures Inv(s) && RestInv(s)
  {
    ReachableInv(s);
    var steps :| Run(Initial(), steps) == s;
    RunKeepsRest(Initial(), steps);
  }

  /**
   A server that is reported as Starting or Running is being watched: the monitor of the current
   generation exists, has not ended and is not cancelled, and it either finds a process to watch
   or is about to report or replace the one that exited.
   */
  lemma ReportedServerIsWatched(s: State)
    requires Reachable(s) && s.ui.Idle? && (s.world.shared.state.Starting? || s.world.shared.state.Running?)
    ensures Watched(s) && s.world.shared.generation !in s.cancelled
    ensures var pc := s.monitors[s.world.shared.generation].pc;
            s.world.shared.owned.Some? || pc.DisposeExited? || pc.Branch? || pc.CheckCurrent?
            || pc.EnterConflict? || pc.GiveUp? || pc.Relaunch?
  {
    ReachableRest(s);
  }

  /** At rest, Conflict and Stopped both mean that this manager owns no server. */
  lemma ConflictOwnsNothing(s: State)
    requires Reachable(s) && s.ui.Idle? && (s.world.shared.state.Conflict? || s.world.shared.state.Stopped?)
    ensures s.world.shared.owned == None
  {
    ReachableRest(s);
  }
}
