/**
 `BoundedWorkerPool.RunAsync`: workers claim indices from a shared atomic counter until it
 passes the end, the session is cancelled, or a processed item throws.
 */
module WorkerPool {
  import opened Common

  /** One `Interlocked.Increment` of the counter and the test of its result. */
  function ClaimNext(next: int, count: nat): (int, Option<nat>) {
    var index := next + 1;
    (index, if 0 <= index < count then Some(index) else None)
  }

  /** The indices below `n`, in order. */
  function Upto(n: nat): seq<nat> { seq(n, i requires 0 <= i => i) }

  /** How many of `count` indices a counter that stands at `next` has given out. */
  function GivenOut(next: int, count: nat): nat {
    if next + 1 < 0 then 0 else if next + 1 <= count then next + 1 else count
  }

  lemma UptoStep(n: nat)
    ensures Upto(n + 1) == Upto(n) + [n]
  {
  }

  lemma UptoMembers(n: nat)
    ensures forall i: nat :: i in Upto(n) <==> i < n
  {
    forall i: nat | i < n ensures i in Upto(n) {
      assert Upto(n)[i] == i;
    }
  }

  /** The atomic counter `next`, starting at -1; `issued` lists what it has given out. */
  class IndexCounter {
    var next: int
    const count: nat
    ghost var issued: seq<nat>

    ghost predicate Valid()
      reads this
    {
      next >= -1 && issued == Upto(GivenOut(next, count))
    }

    constructor (count: nat)
      ensures Valid() && issued == [] && this.count == count
    {
      this.next, this.count, this.issued := -1, count, [];
    }

    /** No index is given out twice, and none is withheld while one is left. */
    method Claim() returns (index: Option<nat>)
      requires Valid()
      modifies this
      ensures Valid() && (next, index) == ClaimNext(old(next), count)
      ensures index.None? <==> forall i: nat | i < count :: i in old(issued)
      ensures index.Some? ==> index.value < count && index.value !in old(issued)
      ensures issued == old(issued) + if index.Some? then [index.value] else []
    {
      UptoMembers(GivenOut(next, count));
      UptoStep(GivenOut(next, count));
      next := next + 1;
      if next >= count {
        return None;
      }
      var claimed: nat := next;
      assert claimed !in issued;
      issued := issued + [claimed];
      return Some(claimed);
    }
  }

  datatype WorkerPc =
    | Check
    | Claim
    | Working(index: nat)
    | Rethrowing
    | Returned
    | Threw

  /** History of an index that has been handed to `process`. */
  datatype Status = Handed(worker: nat) | Done | Abandoned

  datatype Outcome = Waiting | Succeeded | Failed

  /**
   `next` is the shared counter; `session` and `external` are the two cancellation flags.
   `handed` and `completed` list the calls of `process` and their normal returns, in order.
   */
  datatype Pool = Pool(
    count: nat,
    next: int,
    workers: seq<WorkerPc>,
    session: bool,
    external: bool,
    outcome: Outcome,
    handed: seq<nat>,
    completed: seq<nat>,
    status: map<nat, Status>)

  /** How a call of `process` ends; `fatal` is the verdict of `sessionFatal` on the exception. */
  datatype Ending = Completes | Throws(cancellation: bool, fatal: bool)

  datatype Step =
    | Advance(worker: nat)
    | Finish(worker: nat, ending: Ending)
    | CancelExternally
    | PropagateCancellation
    | Join

  function Initial(count: nat, maxWorkers: nat): Pool
    requires maxWorkers > 0
  {
    Pool(count, -1, seq(if count <= maxWorkers then count else maxWorkers, _ => Check),
         false, false, Waiting, [], [], map[])
  }

  predicate Stopped(pc: WorkerPc) { pc.Returned? || pc.Threw? }

  predicate AllStopped(s: Pool) {
    forall w | 0 <= w < |s.workers| :: Stopped(s.workers[w])
  }

  predicate SomeThrew(s: Pool) {
    exists w | 0 <= w < |s.workers| :: s.workers[w].Threw? || s.workers[w].Rethrowing?
  }

  function AdvanceWorker(s: Pool, w: nat): Pool
    requires w < |s.workers|
  {
    match s.workers[w]
    case Check => s.(workers := s.workers[w := if s.session then Returned else Claim])
    case Claim =>
      var (next, claimed) := ClaimNext(s.next, s.count);
      (match claimed
       case None => s.(next := next, workers := s.workers[w := Returned])
       case Some(index) =>
         s.(next := next, workers := s.workers[w := Working(index)],
            handed := s.handed + [index], status := s.status[index := Handed(w)]))
    case Rethrowing => s.(workers := s.workers[w := Threw])
    case _ => s
  }

  function FinishWorker(s: Pool, w: nat, ending: Ending): Pool
    requires w < |s.workers| && s.workers[w].Working?
  {
    var index := s.workers[w].index;
    match ending
    case Completes =>
      s.(workers := s.workers[w := Check], completed := s.completed + [index], status := s.status[index := Done])
    case Throws(cancellation, fatal) =>
      var left := s.(status := s.status[index := Abandoned]);
      if cancellation && s.session && !s.external then left.(workers := s.workers[w := Returned])
      else if fatal then left.(session := true, workers := s.workers[w := Rethrowing])
      else left.(workers := s.workers[w := Threw])
  }

  function Next(s: Pool, step: Step): Pool {
    match step
    case Advance(w) => if w < |s.workers| then AdvanceWorker(s, w) else s
    case Finish(w, ending) =>
      if w < |s.workers| && s.workers[w].Working? then FinishWorker(s, w, ending) else s
    case CancelExternally => s.(external := true)
    case PropagateCancellation => if s.external then s.(session := true) else s
    case Join =>
      if s.outcome.Waiting? && AllStopped(s)
      then s.(outcome := if SomeThrew(s) || s.external then Failed else Succeeded) else s
  }

  function Run(s: Pool, steps: seq<Step>): Pool
    decreases |steps|
  {
    if steps == [] then s else Next(Run(s, steps[..|steps| - 1]), steps[|steps| - 1])
  }

  // ----- the invariant -----

  function Claimed(s: Pool): nat { GivenOut(s.next, s.count) }

  ghost predicate HandedInv(s: Pool) {
    && s.next >= -1
    && s.handed == Upto(Claimed(s))
    && (forall i: nat :: i in s.status <==> i < Claimed(s))
  }

  /** An index is being processed exactly by the worker it was handed to. */
  predicate OwnerInv(s: Pool) {
    && (forall w | 0 <= w < |s.workers| :: s.workers[w].Working? ==>
          s.workers[w].index in s.status && s.status[s.workers[w].index] == Handed(w))
    && (forall i <- s.status :: s.status[i].Handed? ==>
          s.status[i].worker < |s.workers| && s.workers[s.status[i].worker] == Working(i))
  }

  predicate CompletedInv(s: Pool) {
    && (forall i <- s.status :: s.status[i].Done? <==> i in s.completed)
    && (forall i <- s.completed :: i in s.status)
    && Distinct(s.completed)
  }

  predicate BlameInv(s: Pool) {
    && (s.session ==> s.external || SomeThrew(s))
    && (forall i <- s.status :: s.status[i].Abandoned? ==> s.session || SomeThrew(s))
    && (forall w | 0 <= w < |s.workers| :: s.workers[w].Returned? ==> s.session || s.next >= s.count)
    && (s.count > 0 ==> |s.workers| > 0)
  }

  ghost predicate SuccessInv(s: Pool) {
    s.outcome.Succeeded? ==> forall i: nat | i < s.count :: i in s.status && s.status[i].Done?
  }

  ghost predicate Inv(s: Pool) {
    && HandedInv(s)
    && OwnerInv(s)
    && CompletedInv(s)
    && BlameInv(s)
    && SuccessInv(s)
  }

  lemma AdvanceKeepsHanded(s: Pool, w: nat)
    requires HandedInv(s)
    ensures HandedInv(Next(s, Advance(w)))
  {
    var s' := Next(s, Advance(w));
    if w < |s.workers| && s.workers[w].Claim? && s.next + 1 < s.count {
      assert s'.handed == Upto(Claimed(s')) by {
        UptoStep(Claimed(s));
      }
    }
  }

  lemma ClaimKeepsOwners(s: Pool, w: nat, i: nat)
    requires OwnerInv(s) && w < |s.workers| && !s.workers[w].Working? && i !in s.status
    ensures OwnerInv(s.(workers := s.workers[w := Working(i)], status := s.status[i := Handed(w)]))
  {
  }

  lemma IdleMoveKeepsOwners(s: Pool, w: nat, pc: WorkerPc)
    requires OwnerInv(s) && w < |s.workers| && !s.workers[w].Working? && !pc.Working?
    ensures OwnerInv(s.(workers := s.workers[w := pc]))
  {
  }

  lemma AdvanceKeepsOwners(s: Pool, w: nat)
    requires HandedInv(s) && OwnerInv(s)
    ensures OwnerInv(Next(s, Advance(w)))
  {
    var s' := Next(s, Advance(w));
    if w < |s.workers| && !s.workers[w].Working? {
      if s'.workers[w].Working? {
        ClaimKeepsOwners(s, w, s.next + 1);
      } else {
        IdleMoveKeepsOwners(s, w, s'.workers[w]);
      }
    }
  }

  lemma AdvanceKeepsCompleted(s: Pool, w: nat)
    requires HandedInv(s) && CompletedInv(s)
    ensures CompletedInv(Next(s, Advance(w)))
  {
    if w < |s.workers| && s.workers[w].Claim? && s.next + 1 < s.count {
      assert s.next + 1 !in s.completed;
    }
  }

  lemma ThrowerStays(s: Pool, s': Pool, w: nat)
    requires w < |s.workers| == |s'.workers|
    requires !s.workers[w].Threw? && (s.workers[w].Rethrowing? ==> s'.workers[w].Threw?)
    requires forall v | 0 <= v < |s.workers| && v != w :: s'.workers[v] == s.workers[v]
    ensures SomeThrew(s) ==> SomeThrew(s')
  {
    if SomeThrew(s) {
      var v :| 0 <= v < |s.workers| && (s.workers[v].Threw? || s.workers[v].Rethrowing?);
      assert s'.workers[v].Threw? || s'.workers[v].Rethrowing?;
    }
  }

  lemma AdvanceKeepsBlame(s: Pool, w: nat)
    requires HandedInv(s) && BlameInv(s)
    ensures BlameInv(Next(s, Advance(w)))
  {
    if w < |s.workers| && !s.workers[w].Threw? {
      ThrowerStays(s, Next(s, Advance(w)), w);
    }
  }

  lemma FinishKeepsHanded(s: Pool, w: nat, ending: Ending)
    requires HandedInv(s) && OwnerInv(s)
    ensures HandedInv(Next(s, Finish(w, ending)))
  {
  }

  lemma FinishKeepsOwners(s: Pool, w: nat, ending: Ending)
    requires OwnerInv(s)
    ensures OwnerInv(Next(s, Finish(w, ending)))
  {
    var s' := Next(s, Finish(w, ending));
    if w < |s.workers| && s.workers[w].Working? {
      var index := s.workers[w].index;
      assert s'.status == s.status[index := s'.status[index]] && !s'.status[index].Handed?;
      assert s'.workers == s.workers[w := s'.workers[w]] && !s'.workers[w].Working?;
    }
  }

  lemma FinishKeepsCompleted(s: Pool, w: nat, ending: Ending)
    requires OwnerInv(s) && CompletedInv(s)
    ensures CompletedInv(Next(s, Finish(w, ending)))
  {
    if w < |s.workers| && s.workers[w].Working? {
      assert s.workers[w].index !in s.completed;
    }
  }

  lemma FinishKeepsBlame(s: Pool, w: nat, ending: Ending)
    requires OwnerInv(s) && BlameInv(s)
    ensures BlameInv(Next(s, Finish(w, ending)))
  {
    var s' := Next(s, Finish(w, ending));
    if w < |s.workers| && s.workers[w].Working? {
      ThrowerStays(s, s', w);
      assert s'.workers[w].Threw? || s'.workers[w].Rethrowing? ==> SomeThrew(s');
    }
  }

  /** All workers stopped, none threw and the caller did not cancel: nothing can be missing. */
  lemma JoinKeepsInv(s: Pool)
    requires Inv(s)
    ensures Inv(Next(s, Join))
  {
    if s.outcome.Waiting? && AllStopped(s) && !SomeThrew(s) && !s.external && s.count > 0 {
      assert s.workers[0].Returned?;
      assert Claimed(s) == s.count;
    }
  }

  lemma StepKeepsSuccess(s: Pool, step: Step)
    requires HandedInv(s) && OwnerInv(s) && SuccessInv(s) && !step.Join?
    ensures SuccessInv(Next(s, step))
  {
    if !step.Finish? {
      NonFinishFrame(s, step);
    }
  }

  lemma StepKeepsInv(s: Pool, step: Step)
    requires Inv(s)
    ensures Inv(Next(s, step))
  {
    if !step.Join? {
      StepKeepsSuccess(s, step);
    }
    match step
    case Advance(w) =>
      AdvanceKeepsHanded(s, w);
      AdvanceKeepsOwners(s, w);
      AdvanceKeepsCompleted(s, w);
      AdvanceKeepsBlame(s, w);
    case Finish(w, ending) =>
      FinishKeepsHanded(s, w, ending);
      FinishKeepsOwners(s, w, ending);
      FinishKeepsCompleted(s, w, ending);
      FinishKeepsBlame(s, w, ending);
    case Join => JoinKeepsInv(s);
    case _ =>
  }

  lemma {:induction false} RunKeepsInv(s: Pool, steps: seq<Step>)
    requires Inv(s)
    ensures Inv(Run(s, steps))
    decreases |steps|
  {
    if steps != [] {
      RunKeepsInv(s, steps[..|steps| - 1]);
      StepKeepsInv(Run(s, steps[..|steps| - 1]), steps[|steps| - 1]);
    }
  }

  /** A step that ends no item leaves every item alone, except for handing out a new one. */
  lemma NonFinishFrame(s: Pool, step: Step)
    requires HandedInv(s) && !step.Finish?
    ensures var s' := Next(s, step);
            && s'.count == s.count && |s'.workers| == |s.workers|
            && (forall i <- s.status :: i in s'.status && s'.status[i] == s.status[i])
            && (forall i <- s'.status :: i !in s.status ==> s'.status[i].Handed?)
            && (forall w | 0 <= w < |s.workers| :: s'.workers[w].Working? ==>
                  s'.workers[w] == s.workers[w] || (!s.workers[w].Working? && s'.workers[w].index !in s.status))
            && (forall w | 0 <= w < |s.workers| :: s.workers[w].Working? ==> s'.workers[w] == s.workers[w])
  {
    if step.Advance? && step.worker < |s.workers| && s.workers[step.worker].Claim? && s.next + 1 < s.count {
      assert s.next + 1 !in s.status;
    }
  }

  // ----- the guarantees -----

  /** In every schedule indices are handed out as 0, 1, 2, ...: each at most once. */
  lemma HandedAtMostOnce(count: nat, maxWorkers: nat, steps: seq<Step>)
    requires maxWorkers > 0
    ensures var s := Run(Initial(count, maxWorkers), steps);
            && |s.handed| <= s.count
            && (forall j | 0 <= j < |s.handed| :: s.handed[j] == j)
            && (forall i <- s.completed :: i in s.handed)
            && Distinct(s.completed)
  {
    RunKeepsInv(Initial(count, maxWorkers), steps);
    var s := Run(Initial(count, maxWorkers), steps);
    forall i <- s.completed ensures i in s.handed {
      assert s.handed[i] == i;
    }
  }

  lemma {:induction false} CountNeverChanges(s: Pool, steps: seq<Step>)
    ensures Run(s, steps).count == s.count && |Run(s, steps).workers| == |s.workers|
    decreases |steps|
  {
    if steps != [] {
      CountNeverChanges(s, steps[..|steps| - 1]);
    }
  }

  /** A normal return means every index was processed to completion, exactly once. */
  lemma NormalReturnIsComplete(count: nat, maxWorkers: nat, steps: seq<Step>, i: nat)
    requires maxWorkers > 0 && i < count
    requires Run(Initial(count, maxWorkers), steps).outcome.Succeeded?
    ensures multiset(Run(Initial(count, maxWorkers), steps).completed)[i] == 1
  {
    RunKeepsInv(Initial(count, maxWorkers), steps);
    CountNeverChanges(Initial(count, maxWorkers), steps);
    var s := Run(Initial(count, maxWorkers), steps);
    assert s.status[i].Done?;
    OccursOnce(s.completed, i);
  }

  lemma {:induction false} OccursOnce(q: seq<nat>, x: nat)
    requires x in q && Distinct(q)
    ensures multiset(q)[x] == 1
  {
    assert q == [q[0]] + q[1..];
    if q[0] != x {
      OccursOnce(q[1..], x);
    } else {
      assert x !in q[1..];
    }
  }

  // ----- how a pool ends -----

  /** Nothing throws and the caller does not cancel. */
  predicate Undisturbed(steps: seq<Step>) {
    forall i | 0 <= i < |steps| :: !steps[i].CancelExternally? && (steps[i].Finish? ==> steps[i].ending.Completes?)
  }

  lemma {:induction false} UndisturbedRun(s: Pool, steps: seq<Step>)
    requires Undisturbed(steps) && !s.external && !s.session && !SomeThrew(s) && !s.outcome.Failed?
    ensures var t := Run(s, steps); !t.external && !t.session && !SomeThrew(t) && !t.outcome.Failed?
    decreases |steps|
  {
    if steps != [] {
      UndisturbedRun(s, steps[..|steps| - 1]);
    }
  }

  /** A pool that nothing disturbs never fails, and succeeds as soon as all its workers have stopped. */
  lemma UndisturbedSucceeds(count: nat, maxWorkers: nat, steps: seq<Step>)
    requires maxWorkers > 0 && Undisturbed(steps)
    ensures var s := Run(Initial(count, maxWorkers), steps);
            && s.outcome != Failed
            && (AllStopped(s) ==> Next(s, Join).outcome == Succeeded)
  {
    UndisturbedRun(Initial(count, maxWorkers), steps);
  }

  /** The verdict of the join: an exception of any worker or a cancellation by the caller fails it. */
  lemma JoinVerdict(s: Pool)
    requires s.outcome == Waiting && AllStopped(s)
    ensures Next(s, Join).outcome == Succeeded <==>
            !s.external && forall w | 0 <= w < |s.workers| :: s.workers[w] != Threw
    ensures Next(s, Join).outcome != Waiting
  {
  }

  /** There are as many workers as allowed, but no more than items, in every schedule. */
  lemma WorkersAreBounded(count: nat, maxWorkers: nat, steps: seq<Step>)
    requires maxWorkers > 0
    ensures |Run(Initial(count, maxWorkers), steps).workers| == Min(count, maxWorkers)
  {
    CountNeverChanges(Initial(count, maxWorkers), steps);
  }

  // ----- cancellation -----

  function AtClaim(workers: seq<WorkerPc>): nat {
    if workers == [] then 0 else (if workers[0].Claim? then 1 else 0) + AtClaim(workers[1..])
  }

  lemma {:induction false} AtClaimUpdate(workers: seq<WorkerPc>, w: nat, pc: WorkerPc)
    requires w < |workers|
    ensures AtClaim(workers[w := pc]) == AtClaim(workers) - (if workers[w].Claim? then 1 else 0) + (if pc.Claim? then 1 else 0)
  {
    if w == 0 {
      assert workers[w := pc][1..] == workers[1..];
    } else {
      assert workers[w := pc][1..] == workers[1..][w - 1 := pc];
      AtClaimUpdate(workers[1..], w - 1, pc);
    }
  }

  lemma AdvanceAfterCancel(s: Pool, w: nat)
    requires s.session && w < |s.workers|
    ensures var t := AdvanceWorker(s, w);
            t.session && |t.handed| + AtClaim(t.workers) <= |s.handed| + AtClaim(s.workers)
  {
    var pc := AdvanceWorker(s, w).workers[w];
    AtClaimUpdate(s.workers, w, pc);
    assert AdvanceWorker(s, w).workers == s.workers[w := pc];
  }

  lemma FinishAfterCancel(s: Pool, w: nat, ending: Ending)
    requires s.session && w < |s.workers| && s.workers[w].Working?
    ensures var t := FinishWorker(s, w, ending);
            t.session && |t.handed| + AtClaim(t.workers) <= |s.handed| + AtClaim(s.workers)
  {
    var pc := FinishWorker(s, w, ending).workers[w];
    AtClaimUpdate(s.workers, w, pc);
    assert FinishWorker(s, w, ending).workers == s.workers[w := pc];
  }

  lemma StepAfterCancel(s: Pool, step: Step)
    requires s.session
    ensures var t := Next(s, step);
            t.session && |t.handed| + AtClaim(t.workers) <= |s.handed| + AtClaim(s.workers)
  {
    match step
    case Advance(w) =>
      if w < |s.workers| {
        AdvanceAfterCancel(s, w);
      }
    case Finish(w, ending) =>
      if w < |s.workers| && s.workers[w].Working? {
        FinishAfterCancel(s, w, ending);
      }
    case _ =>
  }

  /** Once the session is cancelled, only workers already past their check hand out one more item each. */
  lemma {:induction false} CancellationStopsClaims(s: Pool, steps: seq<Step>)
    requires s.session
    ensures var t := Run(s, steps); t.session && |t.handed| + AtClaim(t.workers) <= |s.handed| + AtClaim(s.workers)
    decreases |steps|
  {
    if steps != [] {
      CancellationStopsClaims(s, steps[..|steps| - 1]);
      StepAfterCancel(Run(s, steps[..|steps| - 1]), steps[|steps| - 1]);
    }
  }

  predicate HasThrown(s: Pool, w: nat) { w < |s.workers| && (s.workers[w].Rethrowing? || s.workers[w].Threw?) }

  lemma StepKeepsThrown(s: Pool, step: Step, w: nat)
    requires HasThrown(s, w) && s.outcome != Succeeded
    ensures HasThrown(Next(s, step), w) && Next(s, step).outcome != Succeeded
  {
    assert SomeThrew(s);
  }

  lemma {:induction false} ThrownNeverSucceeds(s: Pool, steps: seq<Step>, w: nat)
    requires HasThrown(s, w) && s.outcome != Succeeded
    ensures HasThrown(Run(s, steps), w) && Run(s, steps).outcome != Succeeded
    decreases |steps|
  {
    if steps != [] {
      ThrownNeverSucceeds(s, steps[..|steps| - 1], w);
      StepKeepsThrown(Run(s, steps[..|steps| - 1]), steps[|steps| - 1], w);
    }
  }

  /** The exception of an item is the cancellation of the session by another one. */
  predicate Excused(s: Pool, ending: Ending) { ending.Throws? && ending.cancellation && s.session && !s.external }

  /**
   An item that throws fails the pool, unless it was only told that the session is over. If the
   exception is fatal, it also ends the session: the other workers begin at most one item each.
   */
  lemma ThrowFailsPool(s: Pool, w: nat, ending: Ending, steps: seq<Step>)
    requires w < |s.workers| && s.workers[w].Working? && s.outcome == Waiting && ending.Throws? && !Excused(s, ending)
    ensures var t := Run(Next(s, Finish(w, ending)), steps);
            && t.outcome != Succeeded
            && (ending.fatal ==> t.session && |t.handed| <= |s.handed| + AtClaim(s.workers))
  {
    var thrown := Next(s, Finish(w, ending));
    ThrownNeverSucceeds(thrown, steps, w);
    if ending.fatal {
      AtClaimUpdate(s.workers, w, Rethrowing);
      CancellationStopsClaims(thrown, steps);
    }
  }

  lemma StepAfterCaller(s: Pool, step: Step)
    requires s.external && s.outcome != Succeeded
    ensures Next(s, step).external && Next(s, step).outcome != Succeeded
  {
  }

  lemma {:induction false} CallerNeverSucceeds(s: Pool, steps: seq<Step>)
    requires s.external && s.outcome != Succeeded
    ensures Run(s, steps).external && Run(s, steps).outcome != Succeeded
    decreases |steps|
  {
    if steps != [] {
      CallerNeverSucceeds(s, steps[..|steps| - 1]);
      StepAfterCaller(Run(s, steps[..|steps| - 1]), steps[|steps| - 1]);
    }
  }

  /** A caller who cancels before the join gets no success, and ends the session once that has spread. */
  lemma CallerCancels(s: Pool, steps: seq<Step>)
    requires s.outcome == Waiting
    ensures Run(Next(s, CancelExternally), steps).outcome != Succeeded
    ensures Next(Next(s, CancelExternally), PropagateCancellation).session
  {
    CallerNeverSucceeds(Next(s, CancelExternally), steps);
  }

  /** An item that throws stops its worker for good, by its next step. */
  lemma ThrowingWorkerStops(s: Pool, w: nat, ending: Ending)
    requires w < |s.workers| && s.workers[w].Working? && ending.Throws?
    ensures Stopped(Next(Next(s, Finish(w, ending)), Advance(w)).workers[w])
  {
  }

  /** An excused worker returns quietly. */
  lemma ExcusedReturns(s: Pool, w: nat, ending: Ending)
    requires w < |s.workers| && s.workers[w].Working? && Excused(s, ending)
    ensures Next(s, Finish(w, ending)).workers[w] == Returned
  {
  }

  // ----- a schedule that completes -----

  lemma {:induction false} RunConcat(s: Pool, a: seq<Step>, b: seq<Step>)
    ensures Run(s, a + b) == Run(Run(s, a), b)
    decreases |b|
  {
    if b == [] {
      assert a + b == a;
    } else {
      assert (a + b)[..|a + b| - 1] == a + b[..|b| - 1];
      RunConcat(s, a, b[..|b| - 1]);
    }
  }

  lemma OneStep(s: Pool, step: Step)
    ensures Run(s, [step]) == Next(s, step)
  {
    assert [step][..0] == [];
  }

  lemma Extend(s: Pool, steps: seq<Step>, step: Step)
    ensures Run(s, steps + [step]) == Next(Run(s, steps), step)
  {
    RunConcat(s, steps, [step]);
    OneStep(Run(s, steps), step);
  }

  /** Worker 0 alone processes `n` items while the others wait at their check. */
  predicate Halfway(s: Pool, count: nat, n: nat) {
    && s.count == count && s.next == n - 1 && !s.session && !s.external && s.outcome == Waiting
    && s.completed == Upto(n) && forall w | 0 <= w < |s.workers| :: s.workers[w] == Check
  }

  lemma {:induction false} WorkThrough(s: Pool, count: nat, n: nat) returns (steps: seq<Step>)
    requires Halfway(s, count, 0) && |s.workers| > 0 && n <= count
    ensures Undisturbed(steps) && Halfway(Run(s, steps), count, n) && |Run(s, steps).workers| == |s.workers|
  {
    if n == 0 {
      steps := [];
    } else {
      steps := WorkThrough(s, count, n - 1);
      var before := Run(s, steps);
      Extend(s, steps, Advance(0));
      Extend(s, steps + [Advance(0)], Advance(0));
      Extend(s, steps + [Advance(0)] + [Advance(0)], Finish(0, Completes));
      steps := steps + [Advance(0)] + [Advance(0)] + [Finish(0, Completes)];
      UptoStep(n - 1);
    }
  }

  predicate Leaving(s: Pool, count: nat, n: nat) {
    && s.count == count && s.next >= count - 1 && !s.session && !s.external && s.outcome == Waiting
    && s.completed == Upto(count) && n <= |s.workers|
    && (forall w | 0 <= w < n :: s.workers[w] == Returned)
    && (forall w | n <= w < |s.workers| :: s.workers[w] == Check)
  }

  lemma {:induction false} Leave(s: Pool, count: nat, n: nat) returns (steps: seq<Step>)
    requires Leaving(s, count, 0) && n <= |s.workers|
    ensures Undisturbed(steps) && Leaving(Run(s, steps), count, n) && |Run(s, steps).workers| == |s.workers|
  {
    if n == 0 {
      steps := [];
    } else {
      steps := Leave(s, count, n - 1);
      Extend(s, steps, Advance(n - 1));
      Extend(s, steps + [Advance(n - 1)], Advance(n - 1));
      steps := steps + [Advance(n - 1)] + [Advance(n - 1)];
    }
  }

  /** For every number of items and workers some schedule completes all items and succeeds. */
  lemma CompletionIsReached(count: nat, maxWorkers: nat) returns (steps: seq<Step>)
    requires maxWorkers > 0
    ensures Undisturbed(steps) && Run(Initial(count, maxWorkers), steps).outcome == Succeeded
    ensures Run(Initial(count, maxWorkers), steps).completed == Upto(count)
  {
    var start := Initial(count, maxWorkers);
    var work := [];
    if count > 0 {
      work := WorkThrough(start, count, count);
    }
    var leave := Leave(Run(start, work), count, |start.workers|);
    RunConcat(start, work, leave);
    Extend(start, work + leave, Join);
    steps := work + leave + [Join];
  }
}
