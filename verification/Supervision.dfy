/**
 Owned-server supervision as an interleaving of one UI thread with any number of
 background monitors, of which at most one is current. Every step is one lock section
 of `ServerManager`, or one access to a process object. The outcome of anything the
 program does not control (a process exiting, a call throwing) is read from `Env`.
 */
module Supervision {
  import opened Common
  import opened ServerManager

  const MAX_AUTO_RESTARTS := 3
  const ALREADY_RUNNING_EXIT_CODE := 2
  const INVENTORY_FAILURE_EXIT_CODE := 3

  datatype Actor = Ui | Monitor(generation: nat)

  /** Where a process object is: every process ever created is in exactly one place. */
  datatype Place =
    | Created(actor: Actor)
    | Owned
    | Detached(actor: Actor)
    | Disposed(actor: Actor)

  /** Control points of `LaunchOwnedServer`. */
  datatype LaunchPc =
    | Create
    | Assign(process: Pid)
    | EnterStarting(process: Pid)
    | StartProcess(process: Pid)
    | Reject(process: Pid)
    | DisposeRejected(process: Pid)
    | Catch(thrown: Option<Pid>)
    | DisposeCaught(process: Pid)
    | EnterFaulted
    | Returned(ok: bool)

  datatype UiOp = StartOp | StopOp | RecoverOp | DisposeOp

  /** Control points of the UI thread; operations do not overlap each other. */
  datatype UiPc =
    | Idle
    | CheckStart
    | CheckConflict(verified: bool)
    | Supersede(op: UiOp)
    | CancelToken(op: UiOp)
    | DetachOld(op: UiOp)
    | DisposeOld(op: UiOp, process: Pid)
    | AwaitShutdown
    | EnterStopped(op: UiOp)
    | UiLaunch(launch: LaunchPc)
    | SpawnMonitor

  /** Control points of `ServerProcessMonitor.RunAsync`. */
  datatype MonitorPc =
    | Top
    | Fetch
    | Inspect(process: Pid)
    | CheckStarting
    | EnterRunning
    | DetachExited(process: Pid, code: int)
    | DisposeExited(process: Pid, code: int)
    | Branch(code: int)
    | CheckCurrent
    | Relaunch(launch: LaunchPc)
    | EnterConflict
    | GiveUp
    | Ended

  datatype MonitorThread = MonitorThread(pc: MonitorPc, restarts: nat)

  /**
   `shared` is the guarded state. The other fields are history: the generation in which
   `state` was last written, the place of every process, the launches made per generation.
   */
  datatype World = World(
    shared: Shared,
    writtenIn: nat,
    places: map<Pid, Place>,
    nextPid: Pid,
    launches: map<nat, nat>)

  datatype State = State(
    world: World,
    disposed: bool,
    token: Option<nat>,
    cancelled: set<nat>,
    ui: UiPc,
    monitors: map<nat, MonitorThread>)

  datatype Env = Env(throws: bool, exited: bool, code: int, shutdown: bool)

  datatype Step =
    | BeginStart
    | BeginStop
    | BeginRecover(verified: bool)
    | BeginDispose
    | UiStep(env: Env)
    | MonitorStep(generation: nat, env: Env)

  // ----- sections applied to the world -----

  function WriteState(w: World, next: ManagerState, expected: Option<nat>): World {
    w.(shared := StateSet(w.shared, next, expected),
       writtenIn := if Current(w.shared, expected) && w.shared.state != next
                    then w.shared.generation else w.writtenIn)
  }

  function DetachOwned(w: World, actor: Actor, process: Option<Pid>, expected: Option<nat>): World {
    w.(shared := OwnerDetached(w.shared, process, expected),
       places := if Detaches(w.shared, process, expected)
                 then w.places[w.shared.owned.value := Detached(actor)] else w.places)
  }

  function DisposeProcess(w: World, actor: Actor, process: Pid): World {
    w.(places := w.places[process := Disposed(actor)])
  }

  function LaunchesOf(w: World, generation: nat): nat {
    if generation in w.launches then w.launches[generation] else 0
  }

  /** `expected` is None for the UI thread and the monitor's own generation otherwise. */
  function LaunchStep(w: World, actor: Actor, expected: Option<nat>, pc: LaunchPc, env: Env)
    : (World, LaunchPc)
  {
    match pc
    case Create =>
      var g := if expected.Some? then expected.value else w.shared.generation;
      var counted := w.(launches := w.launches[g := LaunchesOf(w, g) + 1]);
      if env.throws then (counted, Catch(None))
      else (counted.(places := w.places[w.nextPid := Created(actor)], nextPid := w.nextPid + 1),
            Assign(w.nextPid))
    case Assign(p) =>
      if Current(w.shared, expected) then
        (w.(shared := OwnerSet(w.shared, p, expected), places := w.places[p := Owned]), EnterStarting(p))
      else (DisposeProcess(w, actor, p), Returned(false))
    case EnterStarting(p) =>
      (WriteState(w, Starting, expected),
       if Current(w.shared, expected) then StartProcess(p) else Reject(p))
    case StartProcess(p) =>
      (w, if env.throws then Catch(Some(p)) else Returned(true))
    case Reject(p) =>
      (DetachOwned(w, actor, Some(p), expected),
       if Detaches(w.shared, Some(p), expected) then DisposeRejected(p) else Returned(false))
    case DisposeRejected(p) => (DisposeProcess(w, actor, p), Returned(false))
    case Catch(thrown) =>
      (DetachOwned(w, actor, thrown, expected),
       if Detaches(w.shared, thrown, expected) then DisposeCaught(w.shared.owned.value) else EnterFaulted)
    case DisposeCaught(p) => (DisposeProcess(w, actor, p), EnterFaulted)
    case EnterFaulted => (WriteState(w, Faulted, expected), Returned(false))
    case Returned(_) => (w, pc)
  }

  // ----- the UI thread -----

  /** What an operation does once the old process is out of the way. */
  function AfterDetach(s: State, op: UiOp): State {
    match op
    case StartOp => s.(token := Some(s.world.shared.generation), ui := UiLaunch(Create))
    case RecoverOp => s.(ui := AwaitShutdown)
    case StopOp => s.(ui := EnterStopped(op))
    case DisposeOp => s.(ui := EnterStopped(op))
  }

  function UiNext(s: State, env: Env): State {
    var w := s.world;
    match s.ui
    case Idle => s
    case CheckStart =>
      s.(ui := if w.shared.state.Starting? || w.shared.state.Running? then Idle else Supersede(StartOp))
    case CheckConflict(verified) =>
      s.(ui := if w.shared.state.Conflict? && verified then Supersede(RecoverOp) else Idle)
    case Supersede(op) =>
      s.(world := w.(shared := Superseded(w.shared)), ui := CancelToken(op))
    case CancelToken(op) =>
      s.(cancelled := if s.token.Some? then s.cancelled + {s.token.value} else s.cancelled,
         token := None, ui := DetachOld(op))
    case DetachOld(op) =>
      if Detaches(w.shared, None, None) then
        s.(world := DetachOwned(w, Ui, None, None), ui := DisposeOld(op, w.shared.owned.value))
      else AfterDetach(s, op)
    case DisposeOld(op, p) => AfterDetach(s.(world := DisposeProcess(w, Ui, p)), op)
    case AwaitShutdown => s.(ui := if env.shutdown then EnterStopped(RecoverOp) else Idle)
    case EnterStopped(op) =>
      s.(world := WriteState(w, Stopped, None), ui := if op.RecoverOp? then CheckStart else Idle)
    case UiLaunch(pc) =>
      var (w', pc') := LaunchStep(w, Ui, None, pc, env);
      s.(world := w', ui := if pc'.Returned? then SpawnMonitor else UiLaunch(pc'))
    case SpawnMonitor =>
      s.(monitors := s.monitors[w.shared.generation := MonitorThread(Top, 0)], ui := Idle)
  }

  // ----- a monitor -----

  function MonitorPcNext(s: State, g: nat, m: MonitorThread, env: Env): (World, MonitorThread)
    requires !m.pc.Relaunch?
  {
    var w := s.world;
    var me := Some(g);
    match m.pc
    case Top => (w, m.(pc := if g in s.cancelled then Ended else Fetch))
    case Fetch =>
      (w, m.(pc := if Current(w.shared, me) && w.shared.owned.Some?
                   then Inspect(w.shared.owned.value) else Ended))
    case Inspect(p) =>
      (w, m.(pc := if env.throws then GiveUp
                   else if env.exited then DetachExited(p, env.code) else CheckStarting))
    case CheckStarting => (w, m.(pc := if w.shared.state.Starting? then EnterRunning else Top))
    case EnterRunning => (WriteState(w, Running, me), m.(pc := Top))
    case DetachExited(p, code) =>
      (DetachOwned(w, Monitor(g), Some(p), me),
       m.(pc := if Detaches(w.shared, Some(p), me) then DisposeExited(p, code) else Ended))
    case DisposeExited(p, code) => (DisposeProcess(w, Monitor(g), p), m.(pc := Branch(code)))
    case Branch(code) =>
      (w, m.(pc := if code == ALREADY_RUNNING_EXIT_CODE then EnterConflict
                   else if code == INVENTORY_FAILURE_EXIT_CODE || g in s.cancelled then GiveUp
                   else CheckCurrent))
    case CheckCurrent =>
      (w, if Current(w.shared, me) && m.restarts < MAX_AUTO_RESTARTS
          then MonitorThread(Relaunch(Create), m.restarts + 1) else m.(pc := GiveUp))
    case EnterConflict => (WriteState(w, Conflict, me), m.(pc := Ended))
    case GiveUp => (WriteState(w, Faulted, me), m.(pc := Ended))
    case Ended => (w, m)
  }

  function MonitorNext(s: State, g: nat, env: Env): State {
    if g !in s.monitors then s
    else
      var m := s.monitors[g];
      if m.pc.Relaunch? then
        var (w', pc') := LaunchStep(s.world, Monitor(g), Some(g), m.pc.launch, env);
        var next := if pc' == Returned(true) then Top else if pc'.Returned? then Ended else Relaunch(pc');
        s.(world := w', monitors := s.monitors[g := m.(pc := next)])
      else
        var (w', m') := MonitorPcNext(s, g, m, env);
        s.(world := w', monitors := s.monitors[g := m'])
  }

  // ----- runs -----

  function Initial(): State {
    State(World(Shared(Stopped, None, 0), 0, map[], 0, map[]), false, None, {}, Idle, map[])
  }

  function Next(s: State, step: Step): State {
    match step
    case BeginStart => if s.ui.Idle? && !s.disposed then s.(ui := CheckStart) else s
    case BeginStop => if s.ui.Idle? then s.(ui := Supersede(StopOp)) else s
    case BeginRecover(v) => if s.ui.Idle? && !s.disposed then s.(ui := CheckConflict(v)) else s
    case BeginDispose =>
      if s.ui.Idle? && !s.disposed then s.(disposed := true, ui := Supersede(DisposeOp)) else s
    case UiStep(env) => UiNext(s, env)
    case MonitorStep(g, env) => MonitorNext(s, g, env)
  }

  function Run(s: State, steps: seq<Step>): State
    decreases |steps|
  {
    if steps == [] then s else Run(Next(s, steps[0]), steps[1..])
  }

  // ----- the invariant -----

  predicate Alive(state: ManagerState) { state.Starting? || state.Running? }

  /** A server of the current generation is up, or is being brought back up. */
  predicate Active(w: World) {
    Alive(w.shared.state) && w.writtenIn == w.shared.generation
  }

  /** Points at which the UI thread has superseded all monitors and not yet started its own. */
  predicate UiExclusive(pc: UiPc) {
    || pc.CancelToken? || pc.DetachOld? || pc.DisposeOld? || pc.AwaitShutdown?
    || pc.EnterStopped? || pc.UiLaunch? || pc.SpawnMonitor?
  }

  predicate GenerationsInv(s: State) {
    && (forall g <- s.monitors :: g <= s.world.shared.generation)
    && s.world.writtenIn <= s.world.shared.generation
    && (UiExclusive(s.ui) ==> s.world.shared.generation !in s.monitors)
  }

  /** What a launch in progress says about the guarded state, while its generation is current. */
  predicate LaunchPhase(w: World, pc: LaunchPc) {
    match pc
    case Create => w.shared.owned == None
    case Assign(_) => w.shared.owned == None
    case EnterStarting(p) => w.shared.owned == Some(p)
    case StartProcess(p) => w.shared.owned == Some(p) && w.shared.state.Starting? && Active(w)
    case Reject(_) => false
    case DisposeRejected(_) => false
    case Catch(thrown) => w.shared.owned == thrown
    case DisposeCaught(_) => w.shared.owned == None
    case EnterFaulted => w.shared.owned == None
    case Returned(_) => false
  }

  /** A fresh generation is about to be watched: its launch succeeded or left Faulted behind. */
  predicate Launched(w: World) {
    if w.shared.owned.Some? then Active(w) else w.shared.state.Faulted?
  }

  predicate UiPhase(s: State) {
    var w := s.world;
    match s.ui
    case Supersede(op) => op.StartOp? ==> !Alive(w.shared.state)
    case CancelToken(op) => op.StartOp? ==> !Alive(w.shared.state)
    case DetachOld(op) => op.StartOp? ==> !Alive(w.shared.state)
    case DisposeOld(op, _) => w.shared.owned == None && (op.StartOp? ==> !Alive(w.shared.state))
    case AwaitShutdown => w.shared.owned == None
    case EnterStopped(op) => w.shared.owned == None && !op.StartOp?
    case UiLaunch(pc) =>
      && LaunchPhase(w, pc)
      && (pc.Create? || pc.Assign? || pc.EnterStarting? ==> !Alive(w.shared.state))
    case SpawnMonitor => Launched(w)
    case _ => true
  }

  predicate MonitorPhase(w: World, pc: MonitorPc) {
    match pc
    case Top => Launched(w)
    case Fetch => Launched(w)
    case Inspect(p) => w.shared.owned == Some(p) && Active(w)
    case CheckStarting => w.shared.owned.Some? && Active(w)
    case EnterRunning => w.shared.owned.Some? && Active(w) && w.shared.state.Starting?
    case DetachExited(p, _) => w.shared.owned == Some(p) && Active(w)
    case DisposeExited(_, _) => w.shared.owned == None && Active(w)
    case Branch(_) => w.shared.owned == None && Active(w)
    case CheckCurrent => w.shared.owned == None && Active(w)
    case Relaunch(l) => LaunchPhase(w, l) && Active(w)
    case EnterConflict => w.shared.owned == None && Active(w)
    case GiveUp => Active(w)
    case Ended => true
  }

  predicate CurrentMonitorInv(s: State) {
    var g := s.world.shared.generation;
    g in s.monitors ==> MonitorPhase(s.world, s.monitors[g].pc)
  }

  function LaunchInHand(pc: LaunchPc): Option<Pid> {
    if pc.Assign? then Some(pc.process) else None
  }

  /** The process an actor created and has not yet put under ownership. */
  function InHand(s: State, a: Actor): Option<Pid> {
    match a
    case Ui => if s.ui.UiLaunch? then LaunchInHand(s.ui.launch) else None
    case Monitor(g) =>
      if g in s.monitors && s.monitors[g].pc.Relaunch? then LaunchInHand(s.monitors[g].pc.launch) else None
  }

  function LaunchHeld(pc: LaunchPc): Option<Pid> {
    match pc
    case DisposeRejected(p) => Some(p)
    case DisposeCaught(p) => Some(p)
    case _ => None
  }

  /** The process an actor has detached and must dispose. */
  function Held(s: State, a: Actor): Option<Pid> {
    match a
    case Ui =>
      (match s.ui
       case DisposeOld(_, p) => Some(p)
       case UiLaunch(pc) => LaunchHeld(pc)
       case _ => None)
    case Monitor(g) =>
      if g !in s.monitors then None
      else
        match s.monitors[g].pc
        case DisposeExited(p, _) => Some(p)
        case Relaunch(pc) => LaunchHeld(pc)
        case _ => None
  }

  predicate PlacedBy(s: State, p: Pid, place: Place) {
    match place
    case Created(a) => InHand(s, a) == Some(p)
    case Owned => s.world.shared.owned == Some(p)
    case Detached(a) => Held(s, a) == Some(p)
    case Disposed(_) => true
  }

  ghost predicate PlacesInv(s: State) {
    var places := s.world.places;
    && (forall p <- places :: p < s.world.nextPid && PlacedBy(s, p, places[p]))
    && (s.world.shared.owned.Some? ==>
          s.world.shared.owned.value in places && places[s.world.shared.owned.value] == Owned)
    && (forall a: Actor :: InHand(s, a).Some? ==>
          InHand(s, a).value in places && places[InHand(s, a).value] == Created(a))
    && (forall a: Actor :: Held(s, a).Some? ==>
          Held(s, a).value in places && places[Held(s, a).value] == Detached(a))
  }

  /** One launch by the UI thread plus one per restart, counting a launch about to be made. */
  predicate BudgetInv(s: State) {
    && (forall g <- s.world.launches :: g <= s.world.shared.generation && s.world.launches[g] <= 1 + MAX_AUTO_RESTARTS)
    && (forall g <- s.monitors ::
          && s.monitors[g].restarts <= MAX_AUTO_RESTARTS
          && LaunchesOf(s.world, g) + (if s.monitors[g].pc == Relaunch(Create) then 1 else 0)
             <= 1 + s.monitors[g].restarts)
    && (UiExclusive(s.ui) ==>
          LaunchesOf(s.world, s.world.shared.generation)
          <= if s.ui.SpawnMonitor? || (s.ui.UiLaunch? && !s.ui.launch.Create?) then 1 else 0)
  }

  /** Stopped means stopped: nothing is owned and nobody is entitled to launch. */
  predicate StoppedInv(s: State) {
    && ((s.ui.Idle? || s.ui.CheckStart? || s.ui.CheckConflict? || s.ui.Supersede?)
        && s.world.shared.state.Stopped?
        ==> s.world.shared.owned == None && s.world.shared.generation !in s.monitors)
    && (s.disposed ==>
          match s.ui
          case Idle => s.world.shared.state.Stopped?
          case Supersede(op) => op.StopOp? || op.DisposeOp?
          case CancelToken(op) => op.StopOp? || op.DisposeOp?
          case DetachOld(op) => op.StopOp? || op.DisposeOp?
          case DisposeOld(op, _) => op.StopOp? || op.DisposeOp?
          case EnterStopped(op) => op.StopOp? || op.DisposeOp?
          case _ => false)
  }

  ghost predicate Inv(s: State) {
    && GenerationsInv(s)
    && UiPhase(s)
    && CurrentMonitorInv(s)
    && PlacesInv(s)
    && BudgetInv(s)
    && StoppedInv(s)
  }
}
