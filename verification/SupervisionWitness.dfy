/** The bounds of the supervision model are attained: concrete runs. */
module SupervisionWitness {
  import opened Common
  import opened ServerManager
  import opened Supervision
  import opened SupervisionProofs

  lemma {:induction false} RunAppend(s: State, steps: seq<Step>, step: Step)
    ensures Run(s, steps + [step]) == Next(Run(s, steps), step)
    decreases |steps|
  {
    if steps != [] {
      assert (steps + [step])[1..] == steps[1..] + [step];
      RunAppend(Next(s, steps[0]), steps[1..], step);
    }
  }

  lemma ReachableStep(s: State, step: Step)
    requires Reachable(s)
    ensures Reachable(Next(s, step))
  {
    var steps :| Run(Initial(), steps) == s;
    RunAppend(Initial(), steps, step);
  }

  const QUIET := Env(false, false, 0, false)
  const CRASH := Env(false, true, 1, false)

  /** Generation 1 is being watched and owns a process after `restarts` restarts. */
  predicate Watching(s: State, restarts: nat) {
    && s.ui.Idle? && s.world.shared.generation == 1 && s.cancelled == {}
    && s.world.shared.owned.Some? && s.monitors == map[1 := MonitorThread(Top, restarts)]
    && LaunchesOf(s.world, 1) == 1 + restarts
  }

  /** The first Start, up to the point where it creates its process. */
  lemma FirstSupersede() returns (s: State)
    ensures Reachable(s) && s.ui == UiLaunch(Create) && s.world == World(Shared(Stopped, None, 1), 0, map[], 0, map[])
    ensures s.cancelled == {} && s.monitors == map[]
  {
    assert Run(Initial(), []) == Initial();
    s := Advance(Initial(), BeginStart);
    s := Advance(s, UiStep(QUIET));
    s := Advance(s, UiStep(QUIET));
    s := Advance(s, UiStep(QUIET));
    s := Advance(s, UiStep(QUIET));
  }

  lemma FirstLaunch() returns (s: State)
    ensures Reachable(s) && Watching(s, 0)
  {
    s := FirstSupersede();
    s := Advance(s, UiStep(QUIET));
    assert s.ui == UiLaunch(Assign(0)) && LaunchesOf(s.world, 1) == 1;
    s := Advance(s, UiStep(QUIET));
    s := Advance(s, UiStep(QUIET));
    s := Advance(s, UiStep(QUIET));
    assert s.ui == SpawnMonitor;
    s := Advance(s, UiStep(QUIET));
  }

  lemma Advance(s: State, step: Step) returns (s': State)
    requires Reachable(s)
    ensures Reachable(s') && s' == Next(s, step)
  {
    ReachableStep(s, step);
    s' := Next(s, step);
  }

  lemma Crash(s: State, restarts: nat) returns (s': State)
    requires Reachable(s) && Watching(s, restarts)
    ensures Reachable(s') && s'.monitors == map[1 := MonitorThread(Branch(1), restarts)]
    ensures s'.ui.Idle? && s'.world.shared.generation == 1 && s'.cancelled == {} && LaunchesOf(s'.world, 1) == 1 + restarts
  {
    s' := Advance(s, MonitorStep(1, QUIET));
    s' := Advance(s', MonitorStep(1, QUIET));
    s' := Advance(s', MonitorStep(1, CRASH));
    s' := Advance(s', MonitorStep(1, QUIET));
    s' := Advance(s', MonitorStep(1, QUIET));
  }

  lemma CreateAgain(s: State, restarts: nat) returns (s': State)
    requires Reachable(s) && Watching(s, restarts) && restarts < MAX_AUTO_RESTARTS
    ensures Reachable(s') && s'.ui.Idle? && s'.world.shared.generation == 1 && s'.cancelled == {}
    ensures LaunchesOf(s'.world, 1) == 2 + restarts
    ensures s'.monitors.Keys == {1} && s'.monitors[1].restarts == restarts + 1
    ensures s'.monitors[1].pc.Relaunch? && s'.monitors[1].pc.launch.Assign?
  {
    s' := Crash(s, restarts);
    s' := Advance(s', MonitorStep(1, QUIET));
    s' := Advance(s', MonitorStep(1, QUIET));
    assert s'.monitors[1] == MonitorThread(Relaunch(Create), restarts + 1);
    s' := Advance(s', MonitorStep(1, QUIET));
  }

  lemma RestartToStart(s: State, restarts: nat) returns (s': State)
    requires Reachable(s) && Watching(s, restarts) && restarts < MAX_AUTO_RESTARTS
    ensures Reachable(s') && s'.ui.Idle? && s'.world.shared.generation == 1 && s'.cancelled == {}
    ensures s'.world.shared.owned.Some? && LaunchesOf(s'.world, 1) == 2 + restarts
    ensures s'.monitors == map[1 := MonitorThread(Relaunch(StartProcess(s'.world.shared.owned.value)), restarts + 1)]
  {
    s' := CreateAgain(s, restarts);
    s' := Advance(s', MonitorStep(1, QUIET));
    s' := Advance(s', MonitorStep(1, QUIET));
  }

  lemma Restart(s: State, restarts: nat) returns (s': State)
    requires Reachable(s) && Watching(s, restarts) && restarts < MAX_AUTO_RESTARTS
    ensures Reachable(s') && Watching(s', restarts + 1)
  {
    s' := RestartToStart(s, restarts);
    s' := Advance(s', MonitorStep(1, QUIET));
  }

  /** The launch budget is tight: some run makes all four launches for one Start. */
  lemma LaunchBudgetIsReached() returns (s: State)
    ensures Reachable(s) && LaunchesOf(s.world, 1) == 1 + MAX_AUTO_RESTARTS
  {
    s := FirstLaunch();
    s := Restart(s, 0);
    s := Restart(s, 1);
    s := Restart(s, 2);
  }

  /** Running is reached, two monitor rounds after a launch. */
  lemma RunningIsReached() returns (s: State)
    ensures Reachable(s) && s.world.shared.state.Running? && s.world.shared.owned.Some?
  {
    s := FirstLaunch();
    ReachableInv(s);
    s := Advance(s, MonitorStep(1, QUIET));
    s := Advance(s, MonitorStep(1, QUIET));
    s := Advance(s, MonitorStep(1, QUIET));
    s := Advance(s, MonitorStep(1, QUIET));
    s := Advance(s, MonitorStep(1, QUIET));
  }

  /** A restart that Stop overtakes can come to start a process the UI thread has disposed. */
  lemma LateStartIsReached() returns (s: State, p: Pid)
    ensures Reachable(s) && s.monitors == map[1 := MonitorThread(Relaunch(StartProcess(p)), 1)]
    ensures p in s.world.places && s.world.places[p] == Disposed(Ui)
  {
    s := FirstLaunch();
    s := RestartToStart(s, 0);
    p := s.world.shared.owned.value;
    s := Advance(s, BeginStop);
    s := Advance(s, UiStep(QUIET));
    s := Advance(s, UiStep(QUIET));
    s := Advance(s, UiStep(QUIET));
    s := Advance(s, UiStep(QUIET));
  }
}
