/**
 What one thread achieves while nobody else moves: a launch, the round of a monitor (decided by
 what it sees of its process), and each operation of the UI thread from its call to its return.
 `envs` is what the thread meets at each step. Exit codes and the restart limit are written out.
 */
module SupervisionRounds {
  import opened Common
  import opened ServerManager
  import opened Supervision
  import opened SupervisionProofs
  import opened SupervisionRest

  // ----- a launch -----

  /** `LaunchOwnedServer` from `pc` to its return; step `k` is the next one, before and after. */
  function LaunchRun(w: World, actor: Actor, expected: Option<nat>, pc: LaunchPc, envs: seq<Env>, k: nat): (World, LaunchPc, nat)
    decreases |envs| - k
  {
    if k >= |envs| || pc.Returned? then (w, pc, k)
    else
      var (w', pc') := LaunchStep(w, actor, expected, pc, envs[k]);
      LaunchRun(w', actor, expected, pc', envs, k + 1)
  }

  /** A launch begun at step `k` meets no exception, neither creating nor starting the process. */
  predicate Launches(envs: seq<Env>, k: nat)
    requires k + 7 <= |envs|
  {
    !envs[k].throws && !envs[k + 3].throws
  }

  /** From `w` to `w'` generation `g` made one launch, which succeeded or left Faulted. */
  ghost predicate LaunchedOnce(w: World, w': World, g: nat, ok: bool) {
    && w'.shared.generation == w.shared.generation
    && LaunchesOf(w', g) == LaunchesOf(w, g) + 1
    && (forall h: nat | h != g :: LaunchesOf(w', h) == LaunchesOf(w, h))
    && (if ok then w'.shared.state == Starting && w'.shared.owned == Some(w.nextPid)
        else w'.shared.state == Faulted && w'.shared.owned == None)
  }

  lemma LaunchFails(w: World, actor: Actor, expected: Option<nat>, thrown: Option<Pid>, envs: seq<Env>, k: nat)
    requires k + 3 <= |envs| && Current(w.shared, expected) && w.shared.owned == thrown
    ensures var (w', pc', end) := LaunchRun(w, actor, expected, Catch(thrown), envs, k);
            && end <= k + 3 && pc' == Returned(false) && w'.launches == w.launches && w'.shared == Shared(Faulted, None, w.shared.generation)
  {
    var w1 := LaunchStep(w, actor, expected, Catch(thrown), envs[k]).0;
    if thrown.Some? {
      var w2 := LaunchStep(w1, actor, expected, DisposeCaught(thrown.value), envs[k + 1]).0;
      var w3 := LaunchStep(w2, actor, expected, EnterFaulted, envs[k + 2]).0;
      assert LaunchRun(w2, actor, expected, EnterFaulted, envs, k + 2) == (w3, Returned(false), k + 3);
    } else {
      var w2 := LaunchStep(w1, actor, expected, EnterFaulted, envs[k + 1]).0;
      assert LaunchRun(w1, actor, expected, EnterFaulted, envs, k + 1) == (w2, Returned(false), k + 2);
    }
  }

  /** A current launch takes at most seven steps. */
  lemma LaunchOutcome(w: World, actor: Actor, expected: Option<nat>, envs: seq<Env>, k: nat)
    requires k + 7 <= |envs| && Current(w.shared, expected) && w.shared.owned == None
    ensures var (w', pc', end) := LaunchRun(w, actor, expected, Create, envs, k);
            && end <= k + 7 && pc' == Returned(Launches(envs, k))
            && LaunchedOnce(w, w', w.shared.generation, Launches(envs, k))
  {
    var (w1, pc1) := LaunchStep(w, actor, expected, Create, envs[k]);
    assert LaunchRun(w, actor, expected, Create, envs, k) == LaunchRun(w1, actor, expected, pc1, envs, k + 1);
    if envs[k].throws {
      LaunchFails(w1, actor, expected, None, envs, k + 1);
    } else {
      AssignedOutcome(w1, actor, expected, w.nextPid, envs, k + 1);
    }
  }

  lemma AssignedOutcome(w: World, actor: Actor, expected: Option<nat>, p: Pid, envs: seq<Env>, k: nat)
    requires k + 6 <= |envs| && Current(w.shared, expected) && w.shared.owned == None
    ensures var (w', pc', end) := LaunchRun(w, actor, expected, Assign(p), envs, k);
            var ok := !envs[k + 2].throws;
            && end <= k + 6 && pc' == Returned(ok) && w'.launches == w.launches
            && w'.shared == (if ok then Shared(Starting, Some(p), w.shared.generation)
                             else Shared(Faulted, None, w.shared.generation))
  {
    var w1 := LaunchStep(w, actor, expected, Assign(p), envs[k]).0;
    var w2 := LaunchStep(w1, actor, expected, EnterStarting(p), envs[k + 1]).0;
    assert LaunchRun(w, actor, expected, Assign(p), envs, k) == LaunchRun(w2, actor, expected, StartProcess(p), envs, k + 2) by {
      assert LaunchRun(w1, actor, expected, EnterStarting(p), envs, k + 1) == LaunchRun(w2, actor, expected, StartProcess(p), envs, k + 2);
    }
    var pc3 := LaunchStep(w2, actor, expected, StartProcess(p), envs[k + 2]).1;
    assert LaunchRun(w2, actor, expected, StartProcess(p), envs, k + 2) == LaunchRun(w2, actor, expected, pc3, envs, k + 3);
    if envs[k + 2].throws {
      LaunchFails(w2, actor, expected, Some(p), envs, k + 3);
    }
  }

  // ----- rounds of a monitor -----

  predicate RoundEnds(pc: MonitorPc) { pc.Top? || pc.Ended? }

  /** The steps of monitor `g` alone, up to the end of its round. */
  function Round(s: State, g: nat, envs: seq<Env>, k: nat): State
    decreases |envs| - k
  {
    if k >= |envs| || g !in s.monitors || RoundEnds(s.monitors[g].pc) then s
    else Round(MonitorNext(s, g, envs[k]), g, envs, k + 1)
  }

  /** The monitor of the current generation is at `pc`, and its generation is not cancelled. */
  predicate CurrentAt(s: State, g: nat, pc: MonitorPc, restarts: nat) {
    && g == s.world.shared.generation && g in s.monitors && g !in s.cancelled
    && s.monitors[g] == MonitorThread(pc, restarts)
  }

  /** From `s` to `t` monitor `g` has ended without a launch, reporting `state`; it owns what it owned, or nothing. */
  predicate EndsIn(s: State, t: State, g: nat, state: ManagerState, owned: Option<Pid>) {
    && g in t.monitors && t.monitors[g].pc.Ended?
    && t.world.shared == Shared(state, owned, g) && t.world.launches == s.world.launches
  }

  lemma FinalWrite(s: State, g: nat, pc: MonitorPc, restarts: nat, envs: seq<Env>, k: nat)
    requires k < |envs| && CurrentAt(s, g, pc, restarts) && (pc.EnterConflict? || pc.GiveUp?)
    ensures EndsIn(s, Round(s, g, envs, k), g, if pc.EnterConflict? then Conflict else Faulted, s.world.shared.owned)
  {
    var t := MonitorNext(s, g, envs[k]);
    assert Round(s, g, envs, k) == t;
  }

  /** The round goes on from `t` as from `s`; the exited process is out of the way. */
  lemma ExitIsDisposed(s: State, g: nat, p: Pid, code: int, restarts: nat, envs: seq<Env>, k: nat) returns (t: State)
    requires k + 2 <= |envs| && CurrentAt(s, g, DetachExited(p, code), restarts) && s.world.shared.owned == Some(p)
    ensures CurrentAt(t, g, Branch(code), restarts) && Round(s, g, envs, k) == Round(t, g, envs, k + 2)
    ensures t.world.shared == s.world.shared.(owned := None) && t.world.launches == s.world.launches
    ensures t.world.nextPid == s.world.nextPid
  {
    var mid := MonitorNext(s, g, envs[k]);
    t := MonitorNext(mid, g, envs[k + 1]);
    assert Round(mid, g, envs, k + 1) == Round(t, g, envs, k + 2);
  }

  lemma RestartIsDecided(s: State, g: nat, code: int, restarts: nat, envs: seq<Env>, k: nat) returns (t: State)
    requires k + 2 <= |envs| && CurrentAt(s, g, Branch(code), restarts) && code != 2 && code != 3
    ensures t.world == s.world && Round(s, g, envs, k) == Round(t, g, envs, k + 2)
    ensures if restarts < 3 then CurrentAt(t, g, Relaunch(Create), restarts + 1) else CurrentAt(t, g, GiveUp, restarts)
  {
    var mid := MonitorNext(s, g, envs[k]);
    t := MonitorNext(mid, g, envs[k + 1]);
    assert Round(mid, g, envs, k + 1) == Round(t, g, envs, k + 2);
  }

  lemma {:induction false} RoundIsLaunch(s: State, g: nat, pc: LaunchPc, restarts: nat, envs: seq<Env>, k: nat)
    requires CurrentAt(s, g, Relaunch(pc), restarts) && !pc.Returned?
    requires LaunchRun(s.world, Monitor(g), Some(g), pc, envs, k).1.Returned?
    ensures var (w', pc', end) := LaunchRun(s.world, Monitor(g), Some(g), pc, envs, k);
            var t := Round(s, g, envs, k);
            && t.world == w' && g in t.monitors
            && t.monitors[g] == MonitorThread(if pc'.ok then Top else Ended, restarts)
    decreases |envs| - k
  {
    if k < |envs| {
      var (w1, pc1) := LaunchStep(s.world, Monitor(g), Some(g), pc, envs[k]);
      var t := MonitorNext(s, g, envs[k]);
      LaunchCounts(s.world, Monitor(g), Some(g), pc, envs[k]);
      assert t.world == w1;
      if !pc1.Returned? {
        RoundIsLaunch(t, g, pc1, restarts, envs, k + 1);
      } else {
        assert LaunchRun(w1, Monitor(g), Some(g), pc1, envs, k + 1) == (w1, pc1, k + 1);
      }
    }
  }

  /** The monitor has replaced its process, or has given up trying. */
  ghost predicate Replaced(s: State, t: State, g: nat, restarts: nat, ok: bool) {
    && LaunchedOnce(s.world, t.world, g, ok)
    && g in t.monitors && t.monitors[g] == MonitorThread(if ok then Top else Ended, restarts + 1)
  }

  lemma RelaunchRound(s: State, g: nat, restarts: nat, envs: seq<Env>, k: nat)
    requires k + 7 <= |envs| && CurrentAt(s, g, Relaunch(Create), restarts + 1) && s.world.shared.owned == None
    ensures Replaced(s, Round(s, g, envs, k), g, restarts, Launches(envs, k))
  {
    LaunchOutcome(s.world, Monitor(g), Some(g), envs, k);
    RoundIsLaunch(s, g, Create, restarts + 1, envs, k);
  }

  /** What the rest of the round does about exit code `code`, decided at step `k`. */
  ghost predicate ExitHandled(s: State, t: State, g: nat, code: int, restarts: nat, envs: seq<Env>, k: nat)
    requires k + 11 <= |envs|
  {
    if code == 2 then EndsIn(s, t, g, Conflict, None)
    else if code == 3 || restarts >= 3 then EndsIn(s, t, g, Faulted, None)
    else Replaced(s, t, g, restarts, Launches(envs, k + 4))
  }

  lemma ExitRoundAlone(s: State, g: nat, p: Pid, code: int, restarts: nat, envs: seq<Env>, k: nat)
    requires k + 11 <= |envs| && CurrentAt(s, g, DetachExited(p, code), restarts) && s.world.shared.owned == Some(p)
    ensures ExitHandled(s, Round(s, g, envs, k), g, code, restarts, envs, k)
  {
    var t := ExitIsDisposed(s, g, p, code, restarts, envs, k);
    if code == 2 || code == 3 {
      var u := MonitorNext(t, g, envs[k + 2]);
      assert Round(t, g, envs, k + 2) == Round(u, g, envs, k + 3);
      FinalWrite(u, g, if code == 2 then EnterConflict else GiveUp, restarts, envs, k + 3);
    } else {
      t := RestartIsDecided(t, g, code, restarts, envs, k + 2);
      if restarts < 3 {
        RelaunchRound(t, g, restarts, envs, k + 4);
      } else {
        FinalWrite(t, g, GiveUp, restarts, envs, k + 4);
      }
    }
  }

  /**
   From every reachable state in which the current monitor has found its process exited, its own
   steps report Conflict exactly for exit code 2; Faulted without a launch for exit code 3 and
   when three restarts are used up; otherwise they make exactly one more launch, which leaves
   a new owned process in Starting, or Faulted if it throws.
   */
  lemma ExitRound(s: State, g: nat, p: Pid, code: int, restarts: nat, envs: seq<Env>)
    requires Reachable(s) && g == s.world.shared.generation && |envs| >= 11
    requires g in s.monitors && s.monitors[g] == MonitorThread(DetachExited(p, code), restarts)
    ensures var t := Round(s, g, envs, 0);
            && g in t.monitors && RoundEnds(t.monitors[g].pc)
            && (t.world.shared.state == Conflict <==> code == 2)
            && ExitHandled(s, t, g, code, restarts, envs, 0)
  {
    ReachableRest(s);
    ExitRoundAlone(s, g, p, code, restarts, envs, 0);
  }

  /** What the third step of a round sees of the process. */
  lemma Look(s: State, g: nat, p: Pid, restarts: nat, envs: seq<Env>) returns (t: State)
    requires |envs| >= 3 && CurrentAt(s, g, Top, restarts) && s.world.shared.owned == Some(p)
    ensures t.world == s.world
    ensures CurrentAt(t, g, if envs[2].throws then GiveUp else if envs[2].exited then DetachExited(p, envs[2].code) else CheckStarting, restarts)
    ensures Round(MonitorNext(s, g, envs[0]), g, envs, 1) == Round(t, g, envs, 3)
  {
    var fetch := MonitorNext(s, g, envs[0]);
    var inspect := MonitorNext(fetch, g, envs[1]);
    t := MonitorNext(inspect, g, envs[2]);
    assert Round(fetch, g, envs, 1) == Round(inspect, g, envs, 2) == Round(t, g, envs, 3);
  }

  lemma HealthyRound(s: State, g: nat, restarts: nat, envs: seq<Env>, k: nat)
    requires k + 2 <= |envs| && CurrentAt(s, g, CheckStarting, restarts) && Alive(s.world.shared.state)
    ensures var t := Round(s, g, envs, k);
            && CurrentAt(t, g, Top, restarts) && t.world.launches == s.world.launches
            && t.world.shared == s.world.shared.(state := Running)
  {
    var mid := MonitorNext(s, g, envs[k]);
    if s.world.shared.state.Starting? {
      var t := MonitorNext(mid, g, envs[k + 1]);
      assert Round(mid, g, envs, k + 1) == t;
    } else {
      assert Round(s, g, envs, k) == mid;
    }
  }

  /**
   A whole round over a live process ends in Running and changes nothing else; one over a process
   that cannot be inspected ends in Faulted; one over an exited process handles its exit code.
   */
  lemma WatchRound(s: State, g: nat, p: Pid, restarts: nat, envs: seq<Env>)
    requires Reachable(s) && g == s.world.shared.generation && |envs| >= 14
    requires g in s.monitors && s.monitors[g] == MonitorThread(Top, restarts) && s.world.shared.owned == Some(p)
    ensures var t := Round(MonitorNext(s, g, envs[0]), g, envs, 1);
            if envs[2].throws then EndsIn(s, t, g, Faulted, Some(p))
            else if envs[2].exited then ExitHandled(s, t, g, envs[2].code, restarts, envs, 3)
            else CurrentAt(t, g, Top, restarts) && t.world.launches == s.world.launches
                 && t.world.shared == Shared(Running, Some(p), g)
  {
    ReachableRest(s);
    var t := Look(s, g, p, restarts, envs);
    if envs[2].throws {
      FinalWrite(t, g, GiveUp, restarts, envs, 3);
    } else if envs[2].exited {
      ExitRoundAlone(t, g, p, envs[2].code, restarts, envs, 3);
    } else {
      HealthyRound(t, g, restarts, envs, 3);
    }
  }
}
