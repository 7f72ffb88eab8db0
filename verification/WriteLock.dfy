/**
 Lifetime of the write lock of the pipe client: a semaphore shared by any number of sends
 and disposed by whoever is last once the loop itself has been disposed.
 */
module WriteLock {
  import opened Common

  /** What `_sendStateLock` protects. */
  datatype Shared = Shared(disposed: bool, activeSends: int, lockDisposed: bool)

  function SendEntered(s: Shared): Shared {
    if s.disposed then s else s.(activeSends := s.activeSends + 1)
  }

  predicate LeaverDisposes(s: Shared) { s.disposed && s.activeSends - 1 == 0 && !s.lockDisposed }

  function SendLeft(s: Shared): Shared {
    s.(activeSends := s.activeSends - 1, lockDisposed := s.lockDisposed || LeaverDisposes(s))
  }

  predicate CloserDisposes(s: Shared) { s.activeSends == 0 && !s.lockDisposed }

  function DisposeEnded(s: Shared): Shared {
    s.(lockDisposed := s.lockDisposed || CloserDisposes(s))
  }

  class PipeConnectionLoop {
    var disposed: bool
    var activeSends: int
    var writeLockDisposed: bool

    ghost function View(): Shared
      reads this
    {
      Shared(disposed, activeSends, writeLockDisposed)
    }

    constructor ()
      ensures View() == Shared(false, 0, false)
    {
      disposed, activeSends, writeLockDisposed := false, 0, false;
    }

    /** Entry of `SendCommandAsync`. */
    method EnterSend() returns (entered: bool)
      modifies this`activeSends
      ensures View() == SendEntered(old(View())) && entered == !old(disposed)
    {
      if disposed {
        return false;
      }
      activeSends := activeSends + 1;
      return true;
    }

    /** The `finally` block; `disposes` says that this send disposed the semaphore. */
    method LeaveSend() returns (disposes: bool)
      modifies this
      ensures View() == SendLeft(old(View())) && disposes == LeaverDisposes(old(View()))
    {
      activeSends := activeSends - 1;
      disposes := disposed && activeSends == 0 && !writeLockDisposed;
      if disposes {
        writeLockDisposed := true;
      }
    }

    method BeginDispose() returns (first: bool)
      modifies this`disposed
      ensures View() == old(View()).(disposed := true) && first == !old(disposed)
    {
      first := !disposed;
      disposed := true;
    }

    method EndDispose() returns (disposes: bool)
      modifies this`writeLockDisposed
      ensures View() == DisposeEnded(old(View())) && disposes == CloserDisposes(old(View()))
    {
      disposes := activeSends == 0 && !writeLockDisposed;
      if disposes {
        writeLockDisposed := true;
      }
    }
  }

  // ----- interleavings -----

  type ThreadId = nat

  datatype Pc = Sending | SendDone | Stopping | DisposeDone

  /** History: `closer` made the effective Dispose; `disposals` counts `_writeLock.Dispose()`. */
  datatype State = State(
    shared: Shared,
    threads: map<ThreadId, Pc>,
    sending: set<ThreadId>,
    closer: Option<ThreadId>,
    disposals: nat)

  datatype Step = CallSend(thread: ThreadId) | CallDispose(thread: ThreadId) | Continue(thread: ThreadId)

  function Next(s: State, step: Step): State {
    var t := step.thread;
    match step
    case CallSend(_) =>
      if t in s.threads then s
      else if s.shared.disposed then s.(threads := s.threads[t := SendDone])
      else s.(shared := SendEntered(s.shared), threads := s.threads[t := Sending], sending := s.sending + {t})
    case CallDispose(_) =>
      if t in s.threads then s
      else if s.shared.disposed then s.(threads := s.threads[t := DisposeDone])
      else s.(shared := s.shared.(disposed := true), threads := s.threads[t := Stopping], closer := Some(t))
    case Continue(_) =>
      if t !in s.threads then s
      else
        match s.threads[t]
        case Sending =>
          s.(shared := SendLeft(s.shared), threads := s.threads[t := SendDone], sending := s.sending - {t},
             disposals := s.disposals + (if LeaverDisposes(s.shared) then 1 else 0))
        case Stopping =>
          s.(shared := DisposeEnded(s.shared), threads := s.threads[t := DisposeDone],
             disposals := s.disposals + (if CloserDisposes(s.shared) then 1 else 0))
        case _ => s
  }

  function Initial(): State { State(Shared(false, 0, false), map[], {}, None, 0) }

  function Run(steps: seq<Step>): State
    decreases |steps|
  {
    if steps == [] then Initial() else Next(Run(steps[..|steps| - 1]), steps[|steps| - 1])
  }

  predicate Inv(s: State) {
    && (forall t <- s.sending :: t in s.threads && s.threads[t].Sending?)
    && (forall t <- s.threads :: s.threads[t].Sending? ==> t in s.sending)
    && s.shared.activeSends == |s.sending|
    && s.disposals == (if s.shared.lockDisposed then 1 else 0)
    && (s.shared.lockDisposed ==> s.shared.disposed && s.sending == {})
    && (s.shared.disposed <==> s.closer.Some?)
    && (s.closer.Some? ==>
          && s.closer.value in s.threads
          && (s.threads[s.closer.value].Stopping? || s.threads[s.closer.value].DisposeDone?))
    && (s.shared.disposed && s.sending == {} && !s.shared.lockDisposed ==> s.threads[s.closer.value].Stopping?)
    && (forall t <- s.threads :: s.threads[t].Stopping? ==> s.closer == Some(t))
    && (forall t <- s.threads :: s.threads[t].DisposeDone? ==> s.shared.disposed)
  }

  lemma CallKeepsInv(s: State, step: Step)
    requires Inv(s) && !step.Continue?
    ensures Inv(Next(s, step))
  {
    assert step.thread !in s.threads ==> step.thread !in s.sending;
  }

  lemma LeavingKeepsInv(s: State, t: ThreadId)
    requires Inv(s) && t in s.threads && s.threads[t].Sending?
    ensures Inv(Next(s, Continue(t)))
  {
    var s' := Next(s, Continue(t));
    assert |s'.sending| == |s.sending| - 1;
    assert |s'.sending| == 0 <==> s'.sending == {};
  }

  lemma StepKeepsInv(s: State, step: Step)
    requires Inv(s)
    ensures Inv(Next(s, step))
  {
    if !step.Continue? {
      CallKeepsInv(s, step);
    } else if step.thread in s.threads && s.threads[step.thread].Sending? {
      LeavingKeepsInv(s, step.thread);
    }
  }

  lemma {:induction false} RunInv(steps: seq<Step>)
    ensures Inv(Run(steps))
    decreases |steps|
  {
    if steps != [] {
      RunInv(steps[..|steps| - 1]);
      StepKeepsInv(Run(steps[..|steps| - 1]), steps[|steps| - 1]);
    }
  }

  /** Never disposed twice, never under an active send, never before the loop is disposed. */
  lemma DisposedSafely(steps: seq<Step>)
    ensures var s := Run(steps);
            && s.disposals <= 1
            && (s.disposals == 1 ==> s.shared.disposed && forall t <- s.threads :: !s.threads[t].Sending?)
  {
    RunInv(steps);
  }

  /** Once a Dispose and all sends have finished, it has been disposed exactly once. */
  lemma DisposedEventually(steps: seq<Step>)
    requires var s := Run(steps);
             && (forall t <- s.threads :: s.threads[t].SendDone? || s.threads[t].DisposeDone?)
             && exists t <- s.threads :: s.threads[t].DisposeDone?
    ensures Run(steps).disposals == 1
  {
    RunInv(steps);
  }

  predicate NoDispose(steps: seq<Step>) { forall i | 0 <= i < |steps| :: !steps[i].CallDispose? }

  lemma {:induction false} OnlyDisposeDisposes(steps: seq<Step>)
    requires NoDispose(steps)
    ensures !Run(steps).shared.disposed
    decreases |steps|
  {
    if steps != [] {
      OnlyDisposeDisposes(steps[..|steps| - 1]);
    }
  }

  lemma Then(steps: seq<Step>, step: Step)
    ensures Run(steps + [step]) == Next(Run(steps), step)
  {
    assert (steps + [step])[..|steps|] == steps;
  }

  /** A new send enters, and may use the lock, exactly if the loop has not been disposed. */
  lemma SendsEnterUntilDisposed(steps: seq<Step>, t: ThreadId)
    requires t !in Run(steps).threads
    ensures var s := Run(steps + [CallSend(t)]);
            t in s.threads && (s.threads[t].Sending? <==> !Run(steps).shared.disposed)
    ensures NoDispose(steps) ==> Run(steps + [CallSend(t)]).threads[t].Sending?
    ensures Run(steps + [CallDispose(t)]).shared.disposed
  {
    Then(steps, CallSend(t));
    Then(steps, CallDispose(t));
    if NoDispose(steps) {
      OnlyDisposeDisposes(steps);
    }
  }

  /** A send that has entered ends, and a Dispose that has begun ends, by its next step. */
  lemma EveryCallEnds(steps: seq<Step>, t: ThreadId)
    requires t in Run(steps).threads
    ensures var pc := Run(steps + [Continue(t)]).threads[t]; pc.SendDone? || pc.DisposeDone?
  {
    Then(steps, Continue(t));
  }
}
