/**
 The fields that `ServerManager` guards with `_stateLock`, and every lock section
 that touches them. Each section is a function on the guarded fields (used by the
 interleaving model in `Supervision`) and a method of the class that updates them in place.
 */
module ServerManager {
  import opened Common

  type Pid = nat

  datatype ManagerState = Stopped | Starting | Running | Conflict | Faulted

  /** What `_stateLock` protects. */
  datatype Shared = Shared(state: ManagerState, owned: Option<Pid>, generation: nat)

  /** A section called without an expected generation is never refused. */
  predicate Current(s: Shared, expected: Option<nat>) {
    expected.Some? ==> expected.value == s.generation
  }

  function StateSet(s: Shared, next: ManagerState, expected: Option<nat>): Shared {
    if Current(s, expected) then s.(state := next) else s
  }

  function OwnerSet(s: Shared, process: Pid, expected: Option<nat>): Shared {
    if Current(s, expected) then s.(owned := Some(process)) else s
  }

  predicate Detaches(s: Shared, process: Option<Pid>, expected: Option<nat>) {
    && Current(s, expected)
    && (process.Some? ==> s.owned == process)
    && s.owned.Some?
  }

  function OwnerDetached(s: Shared, process: Option<Pid>, expected: Option<nat>): Shared {
    if Detaches(s, process, expected) then s.(owned := None) else s
  }

  function Superseded(s: Shared): Shared {
    s.(generation := s.generation + 1)
  }

  class Manager {
    var state: ManagerState
    var ownedProcess: Option<Pid>
    var monitorGeneration: nat

    ghost function View(): Shared
      reads this
    {
      Shared(state, ownedProcess, monitorGeneration)
    }

    constructor ()
      ensures View() == Shared(Stopped, None, 0)
    {
      state, ownedProcess, monitorGeneration := Stopped, None, 0;
    }

    /** Returns whether the caller still owns the generation it acts for. */
    method SetState(next: ManagerState, expected: Option<nat>) returns (accepted: bool)
      modifies this`state
      ensures View() == StateSet(old(View()), next, expected)
      ensures accepted == Current(old(View()), expected)
    {
      if expected.Some? && expected.value != monitorGeneration {
        return false;
      }
      if state == next {
        return true;
      }
      state := next;
      return true;
    }

    /** The first lock section of `LaunchOwnedServer`. */
    method AssignOwnedProcess(process: Pid, expected: Option<nat>) returns (accepted: bool)
      modifies this`ownedProcess
      ensures View() == OwnerSet(old(View()), process, expected)
      ensures accepted == Current(old(View()), expected)
    {
      if expected.Some? && expected.value != monitorGeneration {
        return false;
      }
      ownedProcess := Some(process);
      return true;
    }

    /** The only place that empties `_ownedProcess`; the caller must dispose what it gets. */
    method DetachOwnedProcess(process: Option<Pid>, expected: Option<nat>)
      returns (detached: Option<Pid>)
      modifies this`ownedProcess
      ensures View() == OwnerDetached(old(View()), process, expected)
      ensures detached ==
              if Detaches(old(View()), process, expected) then old(ownedProcess) else None
    {
      if expected.Some? && expected.value != monitorGeneration {
        return None;
      }
      if process.Some? && ownedProcess != process {
        return None;
      }
      detached := ownedProcess;
      ownedProcess := None;
    }

    /** The lock section of `StopMonitor`: every existing monitor becomes stale. */
    method SupersedeMonitor()
      modifies this`monitorGeneration
      ensures View() == Superseded(old(View()))
      ensures forall g: nat :: Current(old(View()), Some(g)) ==> !Current(View(), Some(g))
    {
      monitorGeneration := monitorGeneration + 1;
    }

    method GetOwnedProcess(generation: nat) returns (process: Option<Pid>)
      ensures process.Some? <==> Current(View(), Some(generation)) && View().owned.Some?
      ensures process.Some? ==> process == View().owned
    {
      process := if generation == monitorGeneration then ownedProcess else None;
    }
  }
}
