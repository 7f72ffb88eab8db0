/**
 The coalescing metric sender of the Windows client: any thread records a rate, a single
 background pump sends the newest one at most once a second, and `FinishAsync` closes the
 trace with a zero. Times are milliseconds.
 */
module Telemetry {
  import opened Common

  const INTERVAL_MS := 1000

  type TaskId = nat

  /** What `_gate` protects. A `lastSentAt` of None is the initial `DateTimeOffset.MinValue`. */
  datatype Shared = Shared(
    pump: Option<TaskId>,
    pending: Option<real>,
    lastSentAt: Option<int>,
    finished: bool)

  function BytesPerSecond(currentMBps: real): (r: real)
    ensures r >= 0.0
  {
    (if currentMBps > 0.0 then currentMBps else 0.0) * 1000000.0
  }

  /** A rate in megabytes per second is posted in bytes per second; a negative one as 0. */
  lemma RateIsConverted(currentMBps: real)
    ensures currentMBps >= 0.0 ==> BytesPerSecond(currentMBps) / 1000000.0 == currentMBps
    ensures currentMBps < 0.0 ==> BytesPerSecond(currentMBps) == 0.0
  {
  }

  function Recorded(s: Shared, rate: real, task: TaskId): Shared {
    if s.finished then s
    else s.(pending := Some(BytesPerSecond(rate)), pump := if s.pump.None? then Some(task) else s.pump)
  }

  predicate PumpLeaves(s: Shared) { s.finished || s.pending.None? }

  function Taken(s: Shared, now: int): Shared {
    if s.finished then s.(pump := None) else s.(pending := None, lastSentAt := Some(now))
  }

  function Finishing(s: Shared): Shared { s.(finished := true, pending := None) }

  class NativeTransferTelemetry {
    var pump: Option<TaskId>
    var pending: Option<real>
    var lastSentAt: Option<int>
    var finished: bool

    ghost function View(): Shared
      reads this
    {
      Shared(pump, pending, lastSentAt, finished)
    }

    constructor ()
      ensures View() == Shared(None, None, None, false)
    {
      pump, pending, lastSentAt, finished := None, None, None, false;
    }

    /** `started` says that `task` was put to work as the pump. */
    method RecordCurrentMediaRate(rate: real, task: TaskId) returns (started: bool)
      modifies this
      ensures View() == Recorded(old(View()), rate, task)
      ensures started == (!old(finished) && old(pump).None?)
    {
      if finished {
        return false;
      }
      pending := Some(BytesPerSecond(rate));
      started := pump.None?;
      if started {
        pump := Some(task);
      }
    }

    /** The first lock section of the pump loop: leave, or learn how long to wait. */
    method EnterPump(now: int) returns (left: bool, wakeAt: int)
      modifies this`pump
      ensures left == PumpLeaves(old(View()))
      ensures View() == if left then old(View()).(pump := None) else old(View())
      ensures !left ==> wakeAt == if lastSentAt.Some? then lastSentAt.value + 1000 else now
    {
      if finished || pending.None? {
        pump := None;
        return true, now;
      }
      return false, if lastSentAt.Some? then lastSentAt.value + INTERVAL_MS else now;
    }

    /** The second lock section: take the newest sample and stamp the clock. */
    method TakeSample(now: int) returns (left: bool, sample: Option<real>)
      modifies this
      ensures View() == Taken(old(View()), now)
      ensures left == old(finished)
      ensures sample == if left then None else old(pending)
    {
      if finished {
        pump := None;
        return true, None;
      }
      sample := pending;
      pending, lastSentAt := None, Some(now);
      left := false;
    }

    method BeginFinish() returns (awaited: Option<TaskId>)
      modifies this
      ensures View() == Finishing(old(View()))
      ensures awaited == old(pump)
    {
      finished, pending := true, None;
      return pump;
    }
  }

  // ----- interleavings -----

  datatype PumpPc =
    | Enter
    | Delaying(wakeAt: int)
    | Take
    | Sending(sample: real, index: nat)
    | Exited

  datatype FinishPc = NotCalled | Awaiting(task: Option<TaskId>) | SendZero | Finished

  /** A posted metric: a recorded sample with its position among all recorded ones, or the final 0. */
  datatype Metric = Sample(value: real, index: nat) | Zero

  /** `recorded`, `takes` and `trace` are history. */
  datatype State = State(
    shared: Shared,
    now: int,
    pumps: map<TaskId, PumpPc>,
    nextTask: TaskId,
    finisher: FinishPc,
    recorded: seq<real>,
    takes: seq<int>,
    trace: seq<Metric>)

  datatype Step =
    | Tick(elapsed: nat)
    | RecordRate(currentMBps: real)
    | PumpStep(task: TaskId)
    | FinishStep

  function PumpNext(s: State, t: TaskId): State
    requires t in s.pumps
  {
    var sh := s.shared;
    match s.pumps[t]
    case Enter =>
      if PumpLeaves(sh) then s.(shared := sh.(pump := None), pumps := s.pumps[t := Exited])
      else
        var wakeAt := if sh.lastSentAt.Some? then sh.lastSentAt.value + INTERVAL_MS else s.now;
        s.(pumps := s.pumps[t := if wakeAt > s.now then Delaying(wakeAt) else Take])
    case Delaying(wakeAt) => if s.now >= wakeAt then s.(pumps := s.pumps[t := Take]) else s
    case Take =>
      if sh.finished then s.(shared := Taken(sh, s.now), pumps := s.pumps[t := Exited])
      else
        s.(shared := Taken(sh, s.now), takes := s.takes + [s.now],
           pumps := s.pumps[t := if sh.pending.Some? && s.recorded != []
                                 then Sending(sh.pending.value, |s.recorded| - 1) else Enter])
    case Sending(x, k) => s.(trace := s.trace + [Sample(x, k)], pumps := s.pumps[t := Enter])
    case Exited => s
  }

  function FinishNext(s: State): State {
    match s.finisher
    case NotCalled => s.(shared := Finishing(s.shared), finisher := Awaiting(s.shared.pump))
    case Awaiting(task) =>
      if task.None? || (task.value in s.pumps && s.pumps[task.value].Exited?)
      then s.(finisher := SendZero) else s
    case SendZero => s.(trace := s.trace + [Zero], finisher := Finished)
    case Finished => s
  }

  function Next(s: State, step: Step): State {
    match step
    case Tick(elapsed) => s.(now := s.now + elapsed)
    case RecordRate(rate) =>
      if s.shared.finished then s
      else
        var started := s.shared.pump.None?;
        s.(shared := Recorded(s.shared, rate, s.nextTask),
           recorded := s.recorded + [BytesPerSecond(rate)],
           pumps := if started then s.pumps[s.nextTask := Enter] else s.pumps,
           nextTask := if started then s.nextTask + 1 else s.nextTask)
    case PumpStep(t) => if t in s.pumps then PumpNext(s, t) else s
    case FinishStep => FinishNext(s)
  }

  function Initial(): State {
    State(Shared(None, None, None, false), 0, map[], 0, NotCalled, [], [], [])
  }

  function Run(steps: seq<Step>): State
    decreases |steps|
  {
    if steps == [] then Initial() else Next(Run(steps[..|steps| - 1]), steps[|steps| - 1])
  }

  // ----- the invariant -----

  predicate Live(pc: PumpPc) { !pc.Exited? }

  /** The field `_pump` names the one task that is still in the loop. */
  predicate PumpInv(s: State) {
    && (forall t <- s.pumps :: t < s.nextTask && (Live(s.pumps[t]) <==> s.shared.pump == Some(t)))
    && (s.shared.pump.Some? ==> s.shared.pump.value in s.pumps)
    && (!s.shared.finished && s.shared.pending.Some? ==> s.shared.pump.Some?)
  }

  /** The last position already sent, or on its way. */
  function LastUsed(s: State): int {
    if s.shared.pump.Some? && s.shared.pump.value in s.pumps && s.pumps[s.shared.pump.value].Sending?
    then s.pumps[s.shared.pump.value].index
    else LastSent(s.trace)
  }

  function LastSent(trace: seq<Metric>): int
    decreases |trace|
  {
    if trace == [] then -1
    else if trace[|trace| - 1].Sample? then trace[|trace| - 1].index
    else LastSent(trace[..|trace| - 1])
  }

  /** A waiting pump has something to send; what is pending is the newest sample, never sent before. */
  predicate SampleInv(s: State) {
    && LastUsed(s) < |s.recorded|
    && (s.shared.pending.Some? ==>
          s.recorded != [] && s.shared.pending.value == s.recorded[|s.recorded| - 1] && LastUsed(s) < |s.recorded| - 1)
    && (!s.shared.finished && s.recorded != [] && s.shared.pending.None? ==> LastUsed(s) == |s.recorded| - 1)
    && (forall t <- s.pumps :: !s.shared.finished && (s.pumps[t].Take? || s.pumps[t].Delaying?) ==> s.shared.pending.Some?)
    && (forall t <- s.pumps :: s.pumps[t].Sending? ==>
          s.pumps[t].index < |s.recorded| && s.pumps[t].sample == s.recorded[s.pumps[t].index]
          && LastSent(s.trace) < s.pumps[t].index)
  }

  predicate Entry(recorded: seq<real>, m: Metric) {
    m.Sample? ==> m.index < |recorded| && m.value == recorded[m.index]
  }

  predicate Increasing(trace: seq<Metric>) {
    forall i, j | 0 <= i < j < |trace| :: trace[i].Sample? && trace[j].Sample? ==> trace[i].index < trace[j].index
  }

  predicate TraceInv(s: State) {
    && (forall i | 0 <= i < |s.trace| :: Entry(s.recorded, s.trace[i]))
    && Increasing(s.trace)
    && (s.finisher.Finished? ==> s.trace != [] && s.trace[|s.trace| - 1].Zero?)
    && (forall i | 0 <= i < |s.trace| :: s.trace[i].Zero? ==> s.finisher.Finished? && i == |s.trace| - 1)
  }

  predicate FinishInv(s: State) {
    && (s.finisher.NotCalled? <==> !s.shared.finished)
    && (s.finisher.Awaiting? && s.finisher.task.None? ==> s.shared.pump.None?)
    && (s.finisher.Awaiting? && s.finisher.task.Some? ==>
          s.finisher.task.value in s.pumps && (s.shared.pump.None? || s.shared.pump == s.finisher.task))
    && (s.finisher.SendZero? || s.finisher.Finished? ==> s.shared.pump.None?)
  }

  predicate Spaced(takes: seq<int>) {
    forall i | 0 < i < |takes| :: takes[i - 1] + 1000 <= takes[i]
  }

  predicate ClockInv(s: State) {
    && Spaced(s.takes)
    && s.shared.lastSentAt == (if s.takes == [] then None else Some(s.takes[|s.takes| - 1]))
    && (forall t <- s.pumps :: s.pumps[t].Delaying? ==>
          s.takes != [] && s.pumps[t].wakeAt == s.takes[|s.takes| - 1] + 1000)
    && (forall t <- s.pumps :: s.pumps[t].Take? && s.takes != [] ==>
          s.takes[|s.takes| - 1] + 1000 <= s.now)
    && (forall i | 0 <= i < |s.takes| :: s.takes[i] <= s.now)
  }

  predicate Inv(s: State) {
    PumpInv(s) && SampleInv(s) && TraceInv(s) && FinishInv(s) && ClockInv(s)
  }

  // ----- proofs -----

  lemma {:induction false} LastSentIsLargest(trace: seq<Metric>, i: nat)
    requires Increasing(trace) && i < |trace| && trace[i].Sample?
    ensures trace[i].index <= LastSent(trace)
    decreases |trace|
  {
    var last := |trace| - 1;
    if !trace[last].Sample? {
      LastSentIsLargest(trace[..last], i);
    }
  }

  lemma RecordKeepsInv(s: State, rate: real)
    requires Inv(s)
    ensures Inv(Next(s, RecordRate(rate)))
  {
  }

  lemma PumpKeepsPumpInv(s: State, t: TaskId)
    requires PumpInv(s) && SampleInv(s) && t in s.pumps
    ensures PumpInv(PumpNext(s, t))
  {
  }

  lemma PumpKeepsFinish(s: State, t: TaskId)
    requires PumpInv(s) && FinishInv(s) && t in s.pumps
    ensures FinishInv(PumpNext(s, t))
  {
  }

  lemma PumpKeepsClock(s: State, t: TaskId)
    requires PumpInv(s) && ClockInv(s) && t in s.pumps
    ensures ClockInv(PumpNext(s, t))
  {
    var s' := PumpNext(s, t);
    assert forall u <- s.pumps :: u != t && Live(s.pumps[t]) ==> s.pumps[u].Exited?;
  }

  lemma PumpKeepsSamples(s: State, t: TaskId)
    requires PumpInv(s) && SampleInv(s) && t in s.pumps
    ensures SampleInv(PumpNext(s, t))
  {
    assert forall u <- s.pumps :: u != t && Live(s.pumps[t]) ==> s.pumps[u].Exited?;
  }

  lemma PumpKeepsTrace(s: State, t: TaskId)
    requires Inv(s) && t in s.pumps
    ensures TraceInv(PumpNext(s, t))
  {
    if s.pumps[t].Sending? {
      assert s.shared.pump == Some(t);
      forall i | 0 <= i < |s.trace| && s.trace[i].Sample? ensures s.trace[i].index < s.pumps[t].index {
        LastSentIsLargest(s.trace, i);
      }
    }
  }

  lemma FinishKeepsInv(s: State)
    requires Inv(s)
    ensures Inv(FinishNext(s))
  {
    if s.finisher.SendZero? {
      ZeroKeepsInv(s);
    }
  }

  lemma ZeroKeepsInv(s: State)
    requires Inv(s) && s.finisher.SendZero?
    ensures Inv(FinishNext(s))
  {
    var s' := FinishNext(s);
    assert s'.trace[..|s.trace|] == s.trace;
    assert LastSent(s'.trace) == LastSent(s.trace) && LastUsed(s') == LastUsed(s);
    assert TraceInv(s');
  }

  lemma StepKeepsInv(s: State, step: Step)
    requires Inv(s)
    ensures Inv(Next(s, step))
  {
    match step
    case Tick(_) =>
    case RecordRate(rate) => RecordKeepsInv(s, rate);
    case PumpStep(t) =>
      if t in s.pumps {
        PumpKeepsPumpInv(s, t);
        PumpKeepsFinish(s, t);
        PumpKeepsClock(s, t);
        PumpKeepsSamples(s, t);
        PumpKeepsTrace(s, t);
      }
    case FinishStep => FinishKeepsInv(s);
  }

  lemma {:induction false} RunInv(steps: seq<Step>)
    ensures Inv(Run(steps))
    decreases |steps|
  {
    if steps != [] {
      RunInv(steps[..|steps| - 1]);
      StepKeepsInv(Run(steps[..|steps| - 1]), steps[|steps| - 1]);
    }
  }

  // ----- the guarantees -----

  /** Never two pumps at once. */
  lemma AtMostOnePump(steps: seq<Step>, a: TaskId, b: TaskId)
    ensures var s := Run(steps);
            a in s.pumps && b in s.pumps && Live(s.pumps[a]) && Live(s.pumps[b]) ==> a == b
  {
    RunInv(steps);
  }

  /** No lost wake-up: as long as the transfer runs, a pending sample has a live pump. */
  lemma PendingHasPump(steps: seq<Step>)
    ensures var s := Run(steps);
            !s.shared.finished && s.shared.pending.Some? ==>
              s.shared.pump.Some? && s.shared.pump.value in s.pumps && Live(s.pumps[s.shared.pump.value])
  {
    RunInv(steps);
  }

  /** The samples sent are a subsequence of those recorded, at least a second apart. */
  lemma SentIsSubsequence(steps: seq<Step>)
    ensures var s := Run(steps);
            && Increasing(s.trace)
            && (forall i | 0 <= i < |s.trace| :: Entry(s.recorded, s.trace[i]))
            && Spaced(s.takes)
  {
    RunInv(steps);
  }

  /**
   Coalescing drops only what is out of date: until the transfer finishes, the newest sample
   recorded is pending, on its way, or the last one sent.
   */
  lemma NewestIsNeverDropped(steps: seq<Step>)
    ensures var s := Run(steps);
            var newest := |s.recorded| - 1;
            !s.shared.finished && s.recorded != [] ==>
              || s.shared.pending == Some(s.recorded[newest])
              || (exists t <- s.pumps :: s.pumps[t] == Sending(s.recorded[newest], newest))
              || (s.trace != [] && s.trace[|s.trace| - 1] == Sample(s.recorded[newest], newest))
  {
    RunInv(steps);
    var s := Run(steps);
    if !s.shared.finished && s.recorded != [] && s.shared.pending.None? {
      if s.shared.pump.Some? && s.pumps[s.shared.pump.value].Sending? {
        assert s.pumps[s.shared.pump.value] == Sending(s.recorded[|s.recorded| - 1], |s.recorded| - 1);
      } else {
        assert s.trace[|s.trace| - 1].Sample?;
      }
    }
  }

  /** A pump waits only after a first sample, and then until exactly one second after the last. */
  lemma PumpIsPrompt(steps: seq<Step>, t: TaskId)
    ensures var s := Run(steps);
            t in s.pumps && s.pumps[t].Delaying? ==>
              s.takes != [] && s.pumps[t].wakeAt == s.takes[|s.takes| - 1] + 1000 <= s.now + 1000
  {
    RunInv(steps);
  }

  lemma Then(steps: seq<Step>, step: Step)
    ensures Run(steps + [step]) == Next(Run(steps), step)
  {
    assert (steps + [step])[..|steps|] == steps;
  }

  /** One step of a due pump after Finish has begun brings it nearer its exit. */
  lemma FinishedPumpStep(s: State, t: TaskId)
    requires s.shared.finished && t in s.pumps && (s.pumps[t].Delaying? ==> s.pumps[t].wakeAt <= s.now)
    ensures var s' := Next(s, PumpStep(t));
            && s'.shared.finished && s'.finisher == s.finisher && t in s'.pumps && s'.now == s.now
            && (match s.pumps[t]
                case Sending(_, _) => s'.pumps[t].Enter?
                case Delaying(_) => s'.pumps[t].Take?
                case _ => s'.pumps[t].Exited?)
  {
  }

  /** After Finish has begun, a second and three steps of its own end any pump. */
  lemma PumpLeavesAfterFinish(steps: seq<Step>, t: TaskId) returns (more: seq<Step>)
    requires Run(steps).shared.finished && t in Run(steps).pumps
    ensures var s := Run(steps + more);
            t in s.pumps && s.pumps[t].Exited? && s.finisher == Run(steps).finisher
  {
    RunInv(steps);
    var s0 := steps + [Tick(1000)];
    var s1 := s0 + [PumpStep(t)];
    var s2 := s1 + [PumpStep(t)];
    Then(steps, Tick(1000));
    Then(s0, PumpStep(t));
    Then(s1, PumpStep(t));
    Then(s2, PumpStep(t));
    FinishedPumpStep(Run(s0), t);
    FinishedPumpStep(Run(s1), t);
    FinishedPumpStep(Run(s2), t);
    more := [Tick(1000)] + [PumpStep(t)] + [PumpStep(t)] + [PumpStep(t)];
    assert steps + more == s2 + [PumpStep(t)];
  }

  /** Finish forgets what is pending and waits for the pump there is. */
  lemma FinishBegins(steps: seq<Step>)
    requires Run(steps).finisher == NotCalled
    ensures var s := Run(steps + [FinishStep]);
            s.shared.finished && s.shared.pending == None && s.finisher == Awaiting(Run(steps).shared.pump)
  {
    Then(steps, FinishStep);
  }

  /** Until then every rate recorded becomes the pending sample, with a pump for it. */
  lemma RecordIsPending(steps: seq<Step>, rate: real)
    requires Run(steps).finisher == NotCalled
    ensures var s := Run(steps + [RecordRate(rate)]);
            && s.recorded == Run(steps).recorded + [BytesPerSecond(rate)]
            && s.shared.pending == Some(BytesPerSecond(rate)) && s.shared.pump.Some?
  {
    RunInv(steps);
    Then(steps, RecordRate(rate));
  }

  /** Every Finish that has begun can complete: the pump it waits for ends, and the zero is posted. */
  lemma FinishCompletes(steps: seq<Step>) returns (more: seq<Step>)
    requires Run(steps).finisher.Awaiting?
    ensures Run(steps + more).finisher == Finished
  {
    RunInv(steps);
    more := [];
    assert steps + [] == steps;
    if Run(steps).finisher.task.Some? {
      more := PumpLeavesAfterFinish(steps, Run(steps).finisher.task.value);
    }
    Then(steps + more, FinishStep);
    Then(steps + more + [FinishStep], FinishStep);
    assert steps + more + [FinishStep] + [FinishStep] == steps + (more + [FinishStep] + [FinishStep]);
    more := more + [FinishStep] + [FinishStep];
  }

  /** The pump is due and about to take what is pending. */
  predicate Due(s: State, t: TaskId, x: real, index: int) {
    && t in s.pumps && !s.shared.finished && s.shared.pending == Some(x) && |s.recorded| == index + 1 > 0
    && (s.pumps[t].Enter? || s.pumps[t].Delaying? || s.pumps[t].Take?)
    && (s.pumps[t].Delaying? ==> s.pumps[t].wakeAt <= s.now)
    && (s.shared.lastSentAt.Some? ==> s.shared.lastSentAt.value + 1000 <= s.now)
  }

  predicate Posted(s: State, x: real, index: int) {
    exists k | 0 <= k < |s.trace| :: s.trace[k].Sample? && s.trace[k].value == x && s.trace[k].index == index
  }

  lemma DuePumpTakes(s: State, t: TaskId, x: real, index: int)
    requires Due(s, t, x, index) && !s.pumps[t].Take?
    ensures Due(Next(s, PumpStep(t)), t, x, index) && Next(s, PumpStep(t)).pumps[t].Take?
  {
  }

  lemma TakenIsPosted(s: State, t: TaskId, x: real, index: int)
    requires Due(s, t, x, index) && s.pumps[t].Take?
    ensures Posted(Next(Next(s, PumpStep(t)), PumpStep(t)), x, index)
  {
    var trace := Next(Next(s, PumpStep(t)), PumpStep(t)).trace;
    assert trace[|trace| - 1] == Sample(x, index);
  }

  lemma WaitingIsSent(steps: seq<Step>, t: TaskId, x: real, index: int) returns (more: seq<Step>)
    requires Due(Run(steps), t, x, index)
    ensures Posted(Run(steps + more), x, index)
  {
    more := [];
    assert steps + [] == steps;
    if !Run(steps).pumps[t].Take? {
      DuePumpTakes(Run(steps), t, x, index);
      Then(steps, PumpStep(t));
      more := [PumpStep(t)];
    }
    TakenIsPosted(Run(steps + more), t, x, index);
    Then(steps + more, PumpStep(t));
    Then(steps + more + [PumpStep(t)], PumpStep(t));
    assert steps + more + [PumpStep(t)] + [PumpStep(t)] == steps + (more + [PumpStep(t)] + [PumpStep(t)]);
    more := more + [PumpStep(t)] + [PumpStep(t)];
  }

  lemma PumpBecomesDue(s: State)
    requires Inv(s) && !s.shared.finished && s.shared.pending.Some?
    ensures var t, late := s.shared.pump.value, Next(s, Tick(1000));
            var free := if s.pumps[t].Sending? then Next(late, PumpStep(t)) else late;
            Due(free, t, s.shared.pending.value, |s.recorded| - 1)
  {
  }

  /** What is pending gets sent: one second and at most four steps of the live pump are enough. */
  lemma PendingIsSent(steps: seq<Step>) returns (more: seq<Step>)
    requires !Run(steps).shared.finished && Run(steps).shared.pending.Some?
    ensures Posted(Run(steps + more), Run(steps).shared.pending.value, |Run(steps).recorded| - 1)
  {
    RunInv(steps);
    var s := Run(steps);
    var t := s.shared.pump.value;
    PumpBecomesDue(s);
    Then(steps, Tick(1000));
    Then(steps + [Tick(1000)], PumpStep(t));
    var now := if s.pumps[t].Sending? then [Tick(1000)] + [PumpStep(t)] else [Tick(1000)];
    assert steps + ([Tick(1000)] + [PumpStep(t)]) == steps + [Tick(1000)] + [PumpStep(t)];
    more := WaitingIsSent(steps + now, t, s.shared.pending.value, |s.recorded| - 1);
    assert steps + now + more == steps + (now + more);
    more := now + more;
  }

  /** Once `FinishAsync` has posted its zero, the trace ends with that one zero for ever. */
  lemma {:induction false} ZeroEndsTrace(steps: seq<Step>, more: seq<Step>)
    requires Run(steps).finisher.Finished?
    ensures Run(steps + more).trace == Run(steps).trace && Run(steps + more).finisher.Finished?
    ensures var trace := Run(steps).trace;
            trace != [] && trace[|trace| - 1].Zero? && forall i | 0 <= i < |trace| - 1 :: trace[i].Sample?
    decreases |more|
  {
    RunInv(steps);
    if more == [] {
      assert steps + more == steps;
    } else {
      var front := more[..|more| - 1];
      assert (steps + more)[..|steps + more| - 1] == steps + front;
      ZeroEndsTrace(steps, front);
      RunInv(steps + front);
    }
  }
}
