/**
 What every interleaving of the UI thread with old and current monitors keeps.
 The invariant is proved in three parts: control phases, places of processes, launch budget.
 */
module SupervisionProofs {
  import opened Common
  import opened ServerManager
  import opened Supervision

  // ----- launching -----

  /** A current launch either goes on, or returns with an active server or with Faulted. */
  lemma LaunchKeepsPhase(w: World, actor: Actor, expected: Option<nat>, pc: LaunchPc, env: Env)
    requires Current(w.shared, expected) && LaunchPhase(w, pc)
    requires pc.EnterStarting? ==> Active(w) || !Alive(w.shared.state)
    ensures var (w', pc') := LaunchStep(w, actor, expected, pc, env);
            && w'.shared.generation == w.shared.generation
            && (if pc'.Returned? then Launched(w') && (pc'.ok <==> w'.shared.owned.Some?)
                else LaunchPhase(w', pc'))
            && (!pc.EnterStarting? && !pc.EnterFaulted? ==>
                  w'.shared.state == w.shared.state && w'.writtenIn == w.writtenIn)
            && (pc.EnterStarting? ==> Active(w'))
  {
  }

  /**
   A superseded launch leaves the guarded state alone. It still reports success if it was
   superseded after its last check, just before it started the process.
   */
  lemma StaleLaunchIsInert(w: World, actor: Actor, expected: Option<nat>, pc: LaunchPc, env: Env)
    requires !Current(w.shared, expected)
    ensures var (w', pc') := LaunchStep(w, actor, expected, pc, env);
            && w'.shared == w.shared && w'.writtenIn == w.writtenIn
            && (pc' == Returned(true) <==> pc == Returned(true) || (pc.StartProcess? && !env.throws))
  {
  }

  // ----- control phases -----

  lemma UiLaunchKeepsPhases(s: State, env: Env)
    requires GenerationsInv(s) && UiPhase(s) && s.ui.UiLaunch?
    ensures var s' := UiNext(s, env); GenerationsInv(s') && UiPhase(s') && CurrentMonitorInv(s')
  {
    LaunchKeepsPhase(s.world, Ui, None, s.ui.launch, env);
  }

  lemma UiKeepsPhases(s: State, env: Env)
    requires GenerationsInv(s) && UiPhase(s) && CurrentMonitorInv(s)
    ensures var s' := UiNext(s, env); GenerationsInv(s') && UiPhase(s') && CurrentMonitorInv(s')
  {
    if s.ui.UiLaunch? {
      UiLaunchKeepsPhases(s, env);
    }
  }

  lemma StaleMonitorIsInert(s: State, g: nat, env: Env)
    requires g != s.world.shared.generation
    ensures var s' := MonitorNext(s, g, env);
            && s'.world.shared == s.world.shared
            && s'.world.writtenIn == s.world.writtenIn
  {
    if g in s.monitors && s.monitors[g].pc.Relaunch? {
      StaleLaunchIsInert(s.world, Monitor(g), Some(g), s.monitors[g].pc.launch, env);
    }
  }

  lemma CurrentMonitorKeepsPhases(s: State, g: nat, env: Env)
    requires g in s.monitors && g == s.world.shared.generation
    requires GenerationsInv(s) && UiPhase(s) && MonitorPhase(s.world, s.monitors[g].pc)
    ensures var s' := MonitorNext(s, g, env);
            && s'.world.shared.generation == g && s'.world.writtenIn <= g
            && MonitorPhase(s'.world, s'.monitors[g].pc)
            && (!Alive(s.world.shared.state) ==> s'.world.shared.state == s.world.shared.state)
  {
    if s.monitors[g].pc.Relaunch? {
      LaunchKeepsPhase(s.world, Monitor(g), Some(g), s.monitors[g].pc.launch, env);
    }
  }

  lemma MonitorKeepsPhases(s: State, g: nat, env: Env)
    requires GenerationsInv(s) && UiPhase(s) && CurrentMonitorInv(s)
    ensures var s' := MonitorNext(s, g, env); GenerationsInv(s') && UiPhase(s') && CurrentMonitorInv(s')
  {
    var s' := MonitorNext(s, g, env);
    if g in s.monitors {
      assert s'.monitors.Keys == s.monitors.Keys;
      if g == s.world.shared.generation {
        CurrentMonitorKeepsPhases(s, g, env);
      } else {
        StaleMonitorIsInert(s, g, env);
      }
    }
  }

  // ----- places of processes -----

  ghost predicate OthersUntouched(s: State, s': State, b: Actor) {
    forall a: Actor | a != b :: InHand(s', a) == InHand(s, a) && Held(s', a) == Held(s, a)
  }

  /**
   The ways one step of actor `b` may move a process, given what `b` has created (`made`)
   and detached (`held`) before and after the step.
   */
  predicate WorldMove(w: World, w': World, b: Actor,
                      made: Option<Pid>, made': Option<Pid>, held: Option<Pid>, held': Option<Pid>)
  {
    match (made, made', held, held')
    case (None, None, None, None) =>
      w'.nextPid == w.nextPid && w'.places == w.places && w'.shared.owned == w.shared.owned
    case (None, Some(p), None, None) =>
      && p == w.nextPid && w'.nextPid == p + 1
      && w'.places == w.places[p := Created(b)] && w'.shared.owned == w.shared.owned
    case (Some(p), None, None, None) =>
      && w'.nextPid == w.nextPid
      && (|| (w'.places == w.places[p := Owned] && w.shared.owned == None && w'.shared.owned == Some(p))
          || (w'.places == w.places[p := Disposed(b)] && w'.shared.owned == w.shared.owned))
    case (None, None, None, Some(p)) =>
      && w'.nextPid == w.nextPid
      && w.shared.owned == Some(p) && w'.shared.owned == None
      && w'.places == w.places[p := Detached(b)]
    case (None, None, Some(p), None) =>
      && w'.nextPid == w.nextPid
      && w'.places == w.places[p := Disposed(b)] && w'.shared.owned == w.shared.owned
    case _ => false
  }

  /** A step of actor `b` moves at most one process, and only one that `b` may move. */
  ghost predicate PlaceMove(s: State, s': State, b: Actor) {
    && OthersUntouched(s, s', b)
    && WorldMove(s.world, s'.world, b, InHand(s, b), InHand(s', b), Held(s, b), Held(s', b))
  }

  /** What `a` has created or detached is marked as such. */
  predicate Marked(s: State, a: Actor) {
    && (InHand(s, a).Some? ==> InHand(s, a).value in s.world.places && s.world.places[InHand(s, a).value] == Created(a))
    && (Held(s, a).Some? ==> Held(s, a).value in s.world.places && s.world.places[Held(s, a).value] == Detached(a))
  }

  lemma PlaceMoveKeepsMarks(s: State, s': State, b: Actor, a: Actor)
    requires PlacesInv(s) && PlaceMove(s, s', b)
    ensures Marked(s', a)
  {
    assert Marked(s, a) && Marked(s, b);
  }

  lemma PlaceMoveKeepsPlaced(s: State, s': State, b: Actor, p: Pid)
    requires PlacesInv(s) && PlaceMove(s, s', b) && p in s'.world.places
    ensures p < s'.world.nextPid && PlacedBy(s', p, s'.world.places[p])
  {
    if p in s.world.places {
      assert PlacedBy(s, p, s.world.places[p]);
    }
  }

  lemma PlaceMoveKeepsPlaces(s: State, s': State, b: Actor)
    requires PlacesInv(s) && PlaceMove(s, s', b)
    ensures PlacesInv(s')
  {
    forall a: Actor ensures Marked(s', a) {
      PlaceMoveKeepsMarks(s, s', b, a);
    }
    forall p <- s'.world.places ensures p < s'.world.nextPid && PlacedBy(s', p, s'.world.places[p]) {
      PlaceMoveKeepsPlaced(s, s', b, p);
    }
  }

  lemma LaunchMovesOneProcess(w: World, b: Actor, expected: Option<nat>, pc: LaunchPc, env: Env)
    requires Current(w.shared, expected) ==> LaunchPhase(w, pc)
    ensures var (w', pc') := LaunchStep(w, b, expected, pc, env);
            WorldMove(w, w', b, LaunchInHand(pc), LaunchInHand(pc'), LaunchHeld(pc), LaunchHeld(pc'))
  {
  }

  lemma UiLeavesOthers(s: State, env: Env)
    requires GenerationsInv(s)
    ensures OthersUntouched(s, UiNext(s, env), Ui)
  {
    if !s.ui.SpawnMonitor? {
      assert UiNext(s, env).monitors == s.monitors;
    }
  }

  lemma UiMovesOneProcess(s: State, env: Env)
    requires GenerationsInv(s) && UiPhase(s)
    ensures PlaceMove(s, UiNext(s, env), Ui)
  {
    UiLeavesOthers(s, env);
    if s.ui.UiLaunch? {
      LaunchMovesOneProcess(s.world, Ui, None, s.ui.launch, env);
    }
  }

  lemma MonitorLeavesOthers(s: State, g: nat, env: Env)
    ensures OthersUntouched(s, MonitorNext(s, g, env), Monitor(g))
  {
    var s' := MonitorNext(s, g, env);
    assert s'.ui == s.ui;
    forall h | h != g ensures InHand(s', Monitor(h)) == InHand(s, Monitor(h)) && Held(s', Monitor(h)) == Held(s, Monitor(h)) {
      assert h in s'.monitors <==> h in s.monitors;
      assert h in s.monitors ==> s'.monitors[h] == s.monitors[h];
    }
  }

  lemma RelaunchMovesOneProcess(s: State, g: nat, env: Env)
    requires CurrentMonitorInv(s) && g in s.monitors && s.monitors[g].pc.Relaunch?
    ensures PlaceMove(s, MonitorNext(s, g, env), Monitor(g))
  {
    MonitorLeavesOthers(s, g, env);
    LaunchMovesOneProcess(s.world, Monitor(g), Some(g), s.monitors[g].pc.launch, env);
  }

  lemma MonitorMovesOneProcess(s: State, g: nat, env: Env)
    requires CurrentMonitorInv(s)
    ensures PlaceMove(s, MonitorNext(s, g, env), Monitor(g))
  {
    if g in s.monitors && s.monitors[g].pc.Relaunch? {
      RelaunchMovesOneProcess(s, g, env);
    } else {
      MonitorLeavesOthers(s, g, env);
    }
  }

  // ----- launch budget and the meaning of Stopped -----

  lemma LaunchCounts(w: World, actor: Actor, expected: Option<nat>, pc: LaunchPc, env: Env)
    ensures var w' := LaunchStep(w, actor, expected, pc, env).0;
            var g := if expected.Some? then expected.value else w.shared.generation;
            && w'.launches == (if pc.Create? then w.launches[g := LaunchesOf(w, g) + 1] else w.launches)
            && w'.shared.generation == w.shared.generation
            && !LaunchStep(w, actor, expected, pc, env).1.Create?
  {
  }

  lemma UiLaunchKeepsBudget(s: State, env: Env)
    requires GenerationsInv(s) && BudgetInv(s) && s.ui.UiLaunch?
    ensures BudgetInv(UiNext(s, env))
  {
    LaunchCounts(s.world, Ui, None, s.ui.launch, env);
    var s' := UiNext(s, env);
    forall g <- s.monitors ensures LaunchesOf(s'.world, g) == LaunchesOf(s.world, g) {
    }
  }

  /** The frame of a UI step that neither launches nor supersedes nor spawns. */
  lemma OtherUiStepsDoNotLaunch(s: State, env: Env)
    requires !s.ui.UiLaunch? && !s.ui.Supersede? && !s.ui.SpawnMonitor?
    ensures var s' := UiNext(s, env);
            && s'.world.launches == s.world.launches && s'.monitors == s.monitors
            && s'.world.shared.generation == s.world.shared.generation
            && !s'.ui.SpawnMonitor? && (s'.ui.UiLaunch? ==> s'.ui.launch.Create?)
            && (UiExclusive(s'.ui) ==> UiExclusive(s.ui))
  {
  }

  lemma UiKeepsBudget(s: State, env: Env)
    requires GenerationsInv(s) && BudgetInv(s)
    ensures BudgetInv(UiNext(s, env))
  {
    if s.ui.UiLaunch? {
      UiLaunchKeepsBudget(s, env);
    } else if s.ui.Supersede? {
      assert s.world.shared.generation + 1 !in s.world.launches;
    } else if !s.ui.SpawnMonitor? {
      OtherUiStepsDoNotLaunch(s, env);
    }
  }

  lemma RelaunchKeepsBudget(s: State, g: nat, env: Env)
    requires GenerationsInv(s) && BudgetInv(s) && g in s.monitors && s.monitors[g].pc.Relaunch?
    ensures BudgetInv(MonitorNext(s, g, env))
  {
    LaunchCounts(s.world, Monitor(g), Some(g), s.monitors[g].pc.launch, env);
    var s' := MonitorNext(s, g, env);
    forall h <- s.monitors | h != g ensures LaunchesOf(s'.world, h) == LaunchesOf(s.world, h) {
    }
    assert UiExclusive(s.ui) ==> g != s.world.shared.generation;
  }

  lemma OtherMonitorStepsDoNotLaunch(s: State, g: nat, env: Env)
    requires g in s.monitors && !s.monitors[g].pc.Relaunch?
    ensures var s' := MonitorNext(s, g, env);
            && s'.world.launches == s.world.launches && s'.world.shared.generation == s.world.shared.generation
            && s'.ui == s.ui && s'.monitors == s.monitors[g := s'.monitors[g]]
            && (if s'.monitors[g].pc == Relaunch(Create)
                then s'.monitors[g].restarts == s.monitors[g].restarts + 1 <= MAX_AUTO_RESTARTS
                else s'.monitors[g].restarts == s.monitors[g].restarts)
  {
  }

  lemma MonitorKeepsBudget(s: State, g: nat, env: Env)
    requires GenerationsInv(s) && BudgetInv(s)
    ensures BudgetInv(MonitorNext(s, g, env))
  {
    if g in s.monitors {
      if s.monitors[g].pc.Relaunch? {
        RelaunchKeepsBudget(s, g, env);
      } else {
        OtherMonitorStepsDoNotLaunch(s, g, env);
      }
    }
  }

  lemma UiKeepsStopped(s: State, env: Env)
    requires GenerationsInv(s) && UiPhase(s) && StoppedInv(s)
    ensures StoppedInv(UiNext(s, env))
  {
  }

  lemma MonitorKeepsStopped(s: State, g: nat, env: Env)
    requires GenerationsInv(s) && UiPhase(s) && CurrentMonitorInv(s) && StoppedInv(s)
    ensures StoppedInv(MonitorNext(s, g, env))
  {
    if g in s.monitors {
      if g == s.world.shared.generation {
        CurrentMonitorKeepsPhases(s, g, env);
      } else {
        StaleMonitorIsInert(s, g, env);
      }
    }
  }

  // ----- every run -----

  lemma StepKeepsInv(s: State, step: Step)
    requires Inv(s)
    ensures Inv(Next(s, step))
  {
    match step
    case UiStep(env) =>
      UiKeepsPhases(s, env);
      UiMovesOneProcess(s, env);
      PlaceMoveKeepsPlaces(s, UiNext(s, env), Ui);
      UiKeepsBudget(s, env);
      UiKeepsStopped(s, env);
    case MonitorStep(g, env) =>
      MonitorKeepsPhases(s, g, env);
      MonitorMovesOneProcess(s, g, env);
      PlaceMoveKeepsPlaces(s, MonitorNext(s, g, env), Monitor(g));
      MonitorKeepsBudget(s, g, env);
      MonitorKeepsStopped(s, g, env);
    case _ => BeginKeepsInv(s, step);
  }

  lemma BeginKeepsPlaces(s: State, step: Step)
    requires PlacesInv(s) && !step.UiStep? && !step.MonitorStep?
    ensures PlacesInv(Next(s, step))
  {
    var s' := Next(s, step);
    forall a: Actor ensures InHand(s', a) == InHand(s, a) && Held(s', a) == Held(s, a) {
    }
    assert forall p, place :: PlacedBy(s, p, place) ==> PlacedBy(s', p, place);
  }

  lemma BeginKeepsInv(s: State, step: Step)
    requires Inv(s) && !step.UiStep? && !step.MonitorStep?
    ensures Inv(Next(s, step))
  {
    BeginKeepsPlaces(s, step);
    var s' := Next(s, step);
    assert s'.world == s.world && s'.monitors == s.monitors;
  }

  lemma {:induction false} RunKeepsInv(s: State, steps: seq<Step>)
    requires Inv(s)
    ensures Inv(Run(s, steps))
    decreases |steps|
  {
    if steps != [] {
      StepKeepsInv(s, steps[0]);
      RunKeepsInv(Next(s, steps[0]), steps[1..]);
    }
  }

  ghost predicate Reachable(s: State) {
    exists steps :: Run(Initial(), steps) == s
  }

  lemma ReachableInv(s: State)
    requires Reachable(s)
    ensures Inv(s)
  {
    var steps :| Run(Initial(), steps) == s;
    RunKeepsInv(Initial(), steps);
  }

  lemma {:induction false} GenerationsOnlyGrow(s: State, steps: seq<Step>)
    requires Inv(s)
    ensures s.world.shared.generation <= Run(s, steps).world.shared.generation
    decreases |steps|
  {
    if steps != [] {
      StepKeepsInv(s, steps[0]);
      StepGeneration(s, steps[0]);
      GenerationsOnlyGrow(Next(s, steps[0]), steps[1..]);
    }
  }

  lemma StepGeneration(s: State, step: Step)
    requires Inv(s)
    ensures s.world.shared.generation <= Next(s, step).world.shared.generation
  {
    if step.MonitorStep? && step.generation in s.monitors {
      if step.generation == s.world.shared.generation {
        CurrentMonitorKeepsPhases(s, step.generation, step.env);
      } else {
        StaleMonitorIsInert(s, step.generation, step.env);
      }
    }
  }

  // ----- the guarantees -----

  /** Once superseded, a monitor never again changes `_state` or `_ownedProcess`. */
  lemma SupersededMonitorNeverActs(s: State, later: seq<Step>, g: nat, env: Env)
    requires Reachable(s) && g < s.world.shared.generation
    ensures var t := Run(s, later);
            Next(t, MonitorStep(g, env)).world.shared == t.world.shared
  {
    ReachableInv(s);
    GenerationsOnlyGrow(s, later);
    StaleMonitorIsInert(Run(s, later), g, env);
  }

  lemma LaunchNeverEntersRunning(w: World, actor: Actor, expected: Option<nat>, pc: LaunchPc, env: Env)
    ensures LaunchStep(w, actor, expected, pc, env).0.shared.state == Running ==> w.shared.state == Running
  {
  }

  lemma UiNeverEntersRunning(s: State, env: Env)
    ensures UiNext(s, env).world.shared.state == Running ==> s.world.shared.state == Running
  {
    if s.ui.UiLaunch? {
      LaunchNeverEntersRunning(s.world, Ui, None, s.ui.launch, env);
    }
  }

  lemma MonitorEntersRunning(s: State, g: nat, env: Env)
    requires g in s.monitors
    requires MonitorNext(s, g, env).world.shared.state == Running && s.world.shared.state != Running
    ensures s.monitors[g].pc.EnterRunning?
  {
    if s.monitors[g].pc.Relaunch? {
      LaunchNeverEntersRunning(s.world, Monitor(g), Some(g), s.monitors[g].pc.launch, env);
    }
  }

  /**
   Whatever runs between the monitor's read of `Starting` and its write of `Running`, the
   write only ever lands on a `Starting` written in the very generation of that monitor.
   */
  lemma RunningComesFromStarting(s: State, step: Step)
    requires Reachable(s)
    requires Next(s, step).world.shared.state == Running && s.world.shared.state != Running
    ensures step.MonitorStep? && step.generation == s.world.shared.generation
    ensures s.world.shared.state == Starting && s.world.writtenIn == step.generation
    ensures s.world.shared.owned.Some? && Next(s, step).world.shared.owned == s.world.shared.owned
  {
    ReachableInv(s);
    match step
    case UiStep(env) => UiNeverEntersRunning(s, env);
    case MonitorStep(g, env) =>
      MonitorEntersRunning(s, g, env);
      if g != s.world.shared.generation {
        StaleMonitorIsInert(s, g, env);
      }
    case _ =>
  }

  function ActorOf(step: Step): Actor {
    if step.MonitorStep? then Monitor(step.generation) else Ui
  }

  /** The only moves a process can make; `Disposed` is final. */
  predicate LifecycleStep(before: Place, after: Place, actor: Actor) {
    || after == before
    || (before == Created(actor) && (after == Owned || after == Disposed(actor)))
    || (before == Owned && after == Detached(actor))
    || (before == Detached(actor) && after == Disposed(actor))
  }

  lemma MoveIsLifecycle(s: State, s': State, b: Actor, p: Pid)
    requires PlacesInv(s) && PlaceMove(s, s', b) && p in s.world.places
    ensures p in s'.world.places && LifecycleStep(s.world.places[p], s'.world.places[p], b)
    ensures s'.world.shared.owned == Some(p) && s.world.shared.owned != Some(p)
            ==> s.world.shared.owned == None && s.world.places[p] == Created(b)
  {
    assert p < s.world.nextPid && PlacedBy(s, p, s.world.places[p]);
  }

  /**
   A process is owned at most once, only while nothing else is owned, is detached at most
   once, and is disposed exactly by the actor that detached it (or created it in vain).
   */
  lemma ProcessLifecycle(s: State, step: Step, p: Pid)
    requires Reachable(s) && p in s.world.places
    ensures p in Next(s, step).world.places
    ensures LifecycleStep(s.world.places[p], Next(s, step).world.places[p], ActorOf(step))
    ensures Next(s, step).world.shared.owned == Some(p) && s.world.shared.owned != Some(p)
            ==> s.world.shared.owned == None && s.world.places[p] == Created(ActorOf(step))
  {
    ReachableInv(s);
    if step.UiStep? {
      UiMovesOneProcess(s, step.env);
      MoveIsLifecycle(s, Next(s, step), Ui, p);
    } else if step.MonitorStep? {
      MonitorMovesOneProcess(s, step.generation, step.env);
      MoveIsLifecycle(s, Next(s, step), Monitor(step.generation), p);
    } else {
      assert Next(s, step).world == s.world;
    }
  }

  /** When every thread is at rest, at most the one owned process is left undisposed. */
  lemma NoProcessLeaks(s: State, p: Pid)
    requires Reachable(s) && p in s.world.places
    requires s.ui.Idle? && forall g <- s.monitors :: s.monitors[g].pc.Ended?
    ensures s.world.places[p].Disposed? || s.world.shared.owned == Some(p)
  {
    ReachableInv(s);
    assert PlacedBy(s, p, s.world.places[p]);
  }

  /** Each effective Start causes at most one launch plus three restarts. */
  lemma LaunchBudget(s: State, g: nat)
    requires Reachable(s)
    ensures LaunchesOf(s.world, g) <= 1 + MAX_AUTO_RESTARTS
  {
    ReachableInv(s);
  }

  /** No monitor is current while the UI thread is at rest in Stopped. */
  lemma MonitorLeavesStopped(s: State, step: Step)
    requires Inv(s) && s.ui.Idle? && s.world.shared.state.Stopped? && step.MonitorStep?
    ensures Next(s, step).world.shared == s.world.shared && Next(s, step).ui.Idle?
  {
    if step.generation in s.monitors {
      StaleMonitorIsInert(s, step.generation, step.env);
    }
  }

  predicate OnlyMonitors(steps: seq<Step>) { forall i | 0 <= i < |steps| :: steps[i].MonitorStep? }

  lemma {:induction false} MonitorsLeaveStopped(s: State, later: seq<Step>)
    requires Inv(s) && s.ui.Idle? && s.world.shared.state.Stopped? && OnlyMonitors(later)
    ensures Run(s, later).world.shared == s.world.shared
    decreases |later|
  {
    if later != [] {
      MonitorLeavesStopped(s, later[0]);
      StepKeepsInv(s, later[0]);
      MonitorsLeaveStopped(Next(s, later[0]), later[1..]);
    }
  }

  /** At rest after Stop or Dispose nothing is owned, and no run of monitors changes anything. */
  lemma StoppedStaysStopped(s: State, later: seq<Step>)
    requires Reachable(s) && s.ui.Idle? && (s.disposed || s.world.shared.state.Stopped?) && OnlyMonitors(later)
    ensures s.world.shared.state.Stopped? && s.world.shared.owned == None
    ensures Run(s, later).world.shared == s.world.shared
  {
    ReachableInv(s);
    MonitorsLeaveStopped(s, later);
  }

  /**
   The last step of Stop or Dispose leaves Stopped with nothing owned, and until the UI thread
   acts again no steps of any monitors change that.
   */
  lemma StopIsFinal(s: State, env: Env, later: seq<Step>)
    requires Reachable(s) && s.ui.EnterStopped? && !s.ui.op.RecoverOp? && OnlyMonitors(later)
    ensures var t := Next(s, UiStep(env));
            && t.ui.Idle? && t.world.shared.state.Stopped? && t.world.shared.owned == None
            && Run(t, later).world.shared == t.world.shared
  {
    ReachableInv(s);
    StepKeepsInv(s, UiStep(env));
    MonitorsLeaveStopped(Next(s, UiStep(env)), later);
  }

  lemma {:induction false} DisposedForEver(s: State, later: seq<Step>)
    requires s.disposed
    ensures Run(s, later).disposed
    decreases |later|
  {
    if later != [] {
      DisposedForEver(Next(s, later[0]), later[1..]);
    }
  }

  /** Whatever is called after Dispose, the manager is Stopped and owns nothing whenever it is at rest. */
  lemma DisposedStaysStopped(s: State, later: seq<Step>)
    requires Reachable(s) && s.disposed && Run(s, later).ui.Idle?
    ensures Run(s, later).world.shared.state.Stopped? && Run(s, later).world.shared.owned == None
  {
    ReachableInv(s);
    RunKeepsInv(s, later);
    DisposedForEver(s, later);
  }
}
