/**
 The bounded outbound queue of the named-pipe server: `sendMessage` called from any
 number of producer threads, and the single drain loop that holds one message in flight.
 */
module PipeQueue {
  import opened Common

  const MAX_QUEUED_MESSAGES := 256
  const RESERVED_IMPORTANT_MESSAGES := 32

  /** Message types; the ones the queue treats specially have a name of their own. */
  datatype Kind =
    | Log
    | Metrics
    | TransferHistory
    | TrustedDevices
    | OwnershipProof
    | SessionReady
    | SessionRejected
    | Other(name: string)

  datatype Message = Message(kind: Kind, payload: string)

  predicate Coalescible(kind: Kind) {
    kind.Metrics? || kind.TransferHistory? || kind.TrustedDevices?
  }

  predicate Important(m: Message) {
    !m.kind.Log? && !Coalescible(m.kind)
  }

  /** The kind of a message type. */
  function KindOf(name: string): Kind {
    if name == "log" then Log
    else if name == "metrics" then Metrics
    else if name == "transfer_history" then TransferHistory
    else if name == "trusted_devices" then TrustedDevices
    else if name == "ownership_proof" then OwnershipProof
    else if name == "session_ready" then SessionReady
    else if name == "session_rejected" then SessionRejected
    else Other(name)
  }

  /** Kinds stand for type names one to one, and exactly three types are coalescible. */
  lemma TypesAreKinds(name: string, other: string)
    ensures KindOf(name) == KindOf(other) <==> name == other
    ensures Coalescible(KindOf(name)) <==> name == "metrics" || name == "transfer_history" || name == "trusted_devices"
    ensures Important(Message(KindOf(name), other)) <==> name != "log" && !Coalescible(KindOf(name))
  {
  }

  /** What a producer reads before it takes the queue lock. */
  datatype Gate = Gate(connected: bool, authenticationRequired: bool, authenticated: bool)

  predicate Admits(gate: Gate, kind: Kind) {
    && gate.connected
    && (gate.authenticationRequired && !gate.authenticated ==>
          kind.OwnershipProof? || kind.SessionReady? || kind.SessionRejected?)
  }

  /** A connected client gets everything once authenticated, and before that only the handshake. */
  lemma HandshakePassesFirst(gate: Gate, name: string)
    ensures Admits(gate, KindOf(name)) <==>
            gate.connected && (!gate.authenticationRequired || gate.authenticated || name == "ownership_proof"
                               || name == "session_ready" || name == "session_rejected")
  {
  }

  // ----- the queue as a value -----

  /** Index of the first message of `kind`, or the length. */
  function FirstOfKind(q: seq<Message>, kind: Kind): (i: nat)
    ensures i <= |q|
    ensures i < |q| ==> q[i].kind == kind
    ensures forall j | 0 <= j < i :: q[j].kind != kind
  {
    FirstIndex(q, (m: Message) => m.kind == kind)
  }

  /** Index of the first message that may be thrown away, or the length. */
  function FirstDisposable(q: seq<Message>): (i: nat)
    ensures i <= |q|
    ensures i < |q| ==> !Important(q[i])
    ensures forall j | 0 <= j < i :: Important(q[j])
  {
    FirstIndex(q, (m: Message) => !Important(m))
  }

  predicate Coalesces(q: seq<Message>, m: Message) {
    Coalescible(m.kind) && FirstOfKind(q, m.kind) < |q|
  }

  /** Whether an admitted message is turned away by the locked section. */
  predicate Refused(q: seq<Message>, m: Message) {
    && !Coalesces(q, m)
    && if m.kind.Log? then |q| >= MAX_QUEUED_MESSAGES - RESERVED_IMPORTANT_MESSAGES
       else |q| >= MAX_QUEUED_MESSAGES - 1 && FirstDisposable(q) == |q|
  }

  function Evict(q: seq<Message>, i: nat): seq<Message>
    requires i < |q|
  {
    q[..i] + q[i + 1..]
  }

  function Enqueue(q: seq<Message>, m: Message): seq<Message> {
    if Coalesces(q, m) then
      var i := FirstOfKind(q, m.kind);
      q[i := q[i].(payload := m.payload)]
    else if Refused(q, m) then q
    else if |q| >= MAX_QUEUED_MESSAGES - 1 then Evict(q, FirstDisposable(q)) + [m]
    else q + [m]
  }

  // ----- the queue in place -----

  class PipeServer {
    var outQueue: seq<Message>
    var droppedLogMessages: nat

    constructor ()
      ensures outQueue == [] && droppedLogMessages == 0
    {
      outQueue, droppedLogMessages := [], 0;
    }

    method SendMessage(gate: Gate, m: Message)
      modifies this
      ensures outQueue == if Admits(gate, m.kind) then Enqueue(old(outQueue), m) else old(outQueue)
      ensures droppedLogMessages == old(droppedLogMessages) +
              (if Admits(gate, m.kind) && m.kind.Log? && |old(outQueue)| >= 224 then 1 else 0)
    {
      if !gate.connected {
        return;
      }
      if gate.authenticationRequired && !gate.authenticated && !m.kind.OwnershipProof?
         && !m.kind.SessionReady? && !m.kind.SessionRejected? {
        return;
      }
      SendLocked(m);
    }

    /** The section of `sendMessage` under the queue lock, for an admitted message. */
    method SendLocked(m: Message)
      modifies this
      ensures outQueue == Enqueue(old(outQueue), m)
      ensures droppedLogMessages == old(droppedLogMessages) + (if m.kind.Log? && |old(outQueue)| >= 224 then 1 else 0)
    {
      if Coalescible(m.kind) {
        var pending := FindKind(m.kind);
        if pending < |outQueue| {
          outQueue := outQueue[pending := outQueue[pending].(payload := m.payload)];
          return;
        }
      }
      if m.kind.Log? && |outQueue| >= MAX_QUEUED_MESSAGES - RESERVED_IMPORTANT_MESSAGES {
        droppedLogMessages := droppedLogMessages + 1;
        return;
      }
      if |outQueue| >= MAX_QUEUED_MESSAGES - 1 {
        var disposable := FindDisposable();
        if disposable < |outQueue| {
          outQueue := outQueue[..disposable] + outQueue[disposable + 1..];
        } else {
          return;
        }
      }
      outQueue := outQueue + [m];
    }

    method FindKind(kind: Kind) returns (i: nat)
      ensures i == FirstOfKind(outQueue, kind)
    {
      i := 0;
      while i < |outQueue| && outQueue[i].kind != kind
        invariant 0 <= i <= |outQueue|
        invariant forall j | 0 <= j < i :: outQueue[j].kind != kind
      {
        i := i + 1;
      }
    }

    method FindDisposable() returns (i: nat)
      ensures i == FirstDisposable(outQueue)
    {
      i := 0;
      while i < |outQueue| && Important(outQueue[i])
        invariant 0 <= i <= |outQueue|
        invariant forall j | 0 <= j < i :: Important(outQueue[j])
      {
        i := i + 1;
      }
    }

    method TakeFront() returns (m: Option<Message>)
      modifies this`outQueue
      ensures old(outQueue) == [] ==> m == None && outQueue == []
      ensures old(outQueue) != [] ==> m.Some? && [m.value] + outQueue == old(outQueue)
    {
      if outQueue == [] {
        return None;
      }
      m := Some(outQueue[0]);
      outQueue := outQueue[1..];
    }

    method RequeueFront(m: Message)
      modifies this`outQueue
      ensures outQueue == [m] + old(outQueue)
    {
      outQueue := [m] + outQueue;
    }
  }

  // ----- interleavings -----

  /** `delivered` and `accepted` are history: written messages, and important ones let in. */
  datatype State = State(
    queue: seq<Message>,
    inFlight: Option<Message>,
    delivered: seq<Message>,
    accepted: seq<Message>)

  datatype Step =
    | Send(message: Message, seen: Gate)
    | Take
    | WriteSucceeds
    | WriteFails

  function Next(s: State, step: Step): State {
    match step
    case Send(m, seen) =>
      if !Admits(seen, m.kind) then s
      else s.(queue := Enqueue(s.queue, m),
              accepted := if Important(m) && !Refused(s.queue, m) then s.accepted + [m] else s.accepted)
    case Take =>
      if s.inFlight.Some? || s.queue == [] then s
      else s.(queue := s.queue[1..], inFlight := Some(s.queue[0]))
    case WriteSucceeds =>
      if s.inFlight.None? then s
      else s.(inFlight := None, delivered := s.delivered + [s.inFlight.value])
    case WriteFails =>
      if s.inFlight.None? then s
      else s.(inFlight := None, queue := [s.inFlight.value] + s.queue)
  }

  function Initial(): State { State([], None, [], []) }

  /** The state after a run of any length, in any interleaving. */
  function Run(steps: seq<Step>): State
    decreases |steps|
  {
    if steps == [] then Initial() else Next(Run(steps[..|steps| - 1]), steps[|steps| - 1])
  }

  function Flying(s: State): seq<Message> {
    if s.inFlight.Some? then [s.inFlight.value] else []
  }

  function OnlyImportant(q: seq<Message>): seq<Message> {
    if q == [] then []
    else (if Important(q[0]) then [q[0]] else []) + OnlyImportant(q[1..])
  }

  function CountKind(q: seq<Message>, kind: Kind): nat {
    if q == [] then 0 else (if q[0].kind == kind then 1 else 0) + CountKind(q[1..], kind)
  }

  // ----- sequence lemmas -----

  lemma {:induction false} OnlyImportantConcat(a: seq<Message>, b: seq<Message>)
    ensures OnlyImportant(a + b) == OnlyImportant(a) + OnlyImportant(b)
  {
    if a == [] {
      assert a + b == b;
    } else {
      assert (a + b)[1..] == a[1..] + b && (a + b)[0] == a[0];
      OnlyImportantConcat(a[1..], b);
      Associative(if Important(a[0]) then [a[0]] else [], OnlyImportant(a[1..]), OnlyImportant(b));
    }
  }

  lemma {:induction false} CountKindConcat(a: seq<Message>, b: seq<Message>, kind: Kind)
    ensures CountKind(a + b, kind) == CountKind(a, kind) + CountKind(b, kind)
  {
    if a == [] {
      assert a + b == b;
    } else {
      assert (a + b)[1..] == a[1..] + b;
      CountKindConcat(a[1..], b, kind);
    }
  }

  /** Replacing one message by `x` changes what is important in that place only. */
  lemma ImportantAround(q: seq<Message>, i: nat, x: seq<Message>)
    requires i < |q|
    ensures OnlyImportant(q) == OnlyImportant(q[..i]) + OnlyImportant([q[i]]) + OnlyImportant(q[i + 1..])
    ensures OnlyImportant(q[..i] + x + q[i + 1..])
         == OnlyImportant(q[..i]) + OnlyImportant(x) + OnlyImportant(q[i + 1..])
  {
    assert q == q[..i] + [q[i]] + q[i + 1..];
    OnlyImportantConcat(q[..i] + [q[i]], q[i + 1..]);
    OnlyImportantConcat(q[..i], [q[i]]);
    OnlyImportantConcat(q[..i] + x, q[i + 1..]);
    OnlyImportantConcat(q[..i], x);
  }

  lemma CountAround(q: seq<Message>, i: nat, x: seq<Message>, kind: Kind)
    requires i < |q|
    ensures CountKind(q[..i] + x + q[i + 1..], kind) == CountKind(q, kind) - CountKind([q[i]], kind) + CountKind(x, kind)
  {
    assert q == q[..i] + [q[i]] + q[i + 1..];
    CountKindConcat(q[..i] + [q[i]], q[i + 1..], kind);
    CountKindConcat(q[..i], [q[i]], kind);
    CountKindConcat(q[..i] + x, q[i + 1..], kind);
    CountKindConcat(q[..i], x, kind);
  }

  /** Dropping or overwriting a message that is not important keeps the important ones. */
  lemma DisposableIsInvisible(q: seq<Message>, i: nat, x: Message)
    requires i < |q| && !Important(q[i]) && !Important(x)
    ensures OnlyImportant(q[i := x]) == OnlyImportant(q) == OnlyImportant(Evict(q, i))
  {
    ImportantAround(q, i, [x]);
    assert q[i := x] == q[..i] + [x] + q[i + 1..];
    ImportantAround(q, i, []);
    assert Evict(q, i) == q[..i] + [] + q[i + 1..];
  }

  lemma {:induction false} NoneOfKind(q: seq<Message>, kind: Kind)
    requires FirstOfKind(q, kind) == |q|
    ensures CountKind(q, kind) == 0
  {
    if q != [] {
      NoneOfKind(q[1..], kind);
    }
  }

  // ----- one call of sendMessage -----

  /** Important messages are appended or refused; every other send leaves them as they were. */
  lemma EnqueueKeepsImportant(q: seq<Message>, m: Message)
    ensures OnlyImportant(Enqueue(q, m)) ==
            OnlyImportant(q) + (if Important(m) && !Refused(q, m) then [m] else [])
  {
    if Coalesces(q, m) {
      var i := FirstOfKind(q, m.kind);
      DisposableIsInvisible(q, i, q[i].(payload := m.payload));
    } else if !Refused(q, m) {
      if |q| >= MAX_QUEUED_MESSAGES - 1 {
        var i := FirstDisposable(q);
        DisposableIsInvisible(q, i, q[i]);
        OnlyImportantConcat(Evict(q, i), [m]);
      } else {
        OnlyImportantConcat(q, [m]);
      }
    }
  }

  lemma CoalescingKeepsCounts(q: seq<Message>, m: Message, kind: Kind)
    requires Coalesces(q, m)
    ensures CountKind(Enqueue(q, m), kind) == CountKind(q, kind)
  {
    var i := FirstOfKind(q, m.kind);
    var x := q[i].(payload := m.payload);
    CountAround(q, i, [x], kind);
    assert Enqueue(q, m) == q[..i] + [x] + q[i + 1..];
  }

  lemma EvictionLowersCounts(q: seq<Message>, i: nat, kind: Kind)
    requires i < |q|
    ensures CountKind(Evict(q, i), kind) <= CountKind(q, kind)
  {
    CountAround(q, i, [], kind);
    assert q[..i] + [] + q[i + 1..] == Evict(q, i);
  }

  /** A send never makes a second pending message of a coalescible type. */
  lemma EnqueueBoundsKind(q: seq<Message>, m: Message, kind: Kind)
    requires Coalescible(kind)
    ensures CountKind(Enqueue(q, m), kind) <= Max(CountKind(q, kind), 1)
  {
    if Coalesces(q, m) {
      CoalescingKeepsCounts(q, m, kind);
    } else if !Refused(q, m) {
      if m.kind == kind {
        NoneOfKind(q, kind);
      }
      if |q| >= MAX_QUEUED_MESSAGES - 1 {
        EvictionLowersCounts(q, FirstDisposable(q), kind);
        CountKindConcat(Evict(q, FirstDisposable(q)), [m], kind);
      } else {
        CountKindConcat(q, [m], kind);
      }
    }
  }

  lemma {:induction false} CountAtMostLength(q: seq<Message>, kind: Kind)
    ensures CountKind(q, kind) <= |q|
  {
    if q != [] {
      CountAtMostLength(q[1..], kind);
    }
  }

  /** A log is let in only below the reserve, and no other send adds one. */
  lemma EnqueueBoundsLogs(q: seq<Message>, m: Message)
    ensures CountKind(Enqueue(q, m), Log) <= Max(CountKind(q, Log), 224)
  {
    if Coalesces(q, m) {
      CoalescingKeepsCounts(q, m, Log);
    } else if !Refused(q, m) {
      if |q| >= MAX_QUEUED_MESSAGES - 1 {
        EvictionLowersCounts(q, FirstDisposable(q), Log);
        CountKindConcat(Evict(q, FirstDisposable(q)), [m], Log);
      } else {
        CountAtMostLength(q, Log);
        CountKindConcat(q, [m], Log);
      }
    }
  }

  /** Whatever its type, a message is queued with its payload exactly unless it is refused. */
  lemma QueuedUnlessRefused(q: seq<Message>, m: Message)
    ensures m in Enqueue(q, m) <==> !Refused(q, m) || m in q
  {
    if Coalesces(q, m) {
      var i := FirstOfKind(q, m.kind);
      assert Enqueue(q, m)[i] == m;
    } else if !Refused(q, m) {
      assert Enqueue(q, m)[|Enqueue(q, m)| - 1] == m;
    }
  }

  /** A log is appended exactly while fewer than 224 messages are queued, and dropped otherwise. */
  lemma LogsStopAtReserve(q: seq<Message>, m: Message)
    requires m.kind.Log?
    ensures Enqueue(q, m) == q + [m] <==> |q| < 224
    ensures |q| >= 224 ==> Enqueue(q, m) == q
  {
  }

  /** A value is lost only to a full queue of important messages; otherwise the queue holds it. */
  lemma ValuesYieldToImportant(q: seq<Message>, m: Message)
    requires Coalescible(m.kind)
    ensures m !in Enqueue(q, m) <==> |q| >= 255 && forall i | 0 <= i < |q| :: Important(q[i])
  {
    if Coalesces(q, m) {
      assert Enqueue(q, m)[FirstOfKind(q, m.kind)] == m;
      assert !Important(q[FirstOfKind(q, m.kind)]);
    } else if !(|q| >= 255 && forall i | 0 <= i < |q| :: Important(q[i])) {
      assert Enqueue(q, m)[|Enqueue(q, m)| - 1] == m;
    }
  }

  /** A full queue gives up its oldest log or value for a message it lets in, and nothing else. */
  lemma OldestIsEvicted(q: seq<Message>, m: Message, i: nat)
    requires |q| >= 255 && !m.kind.Log? && (Important(m) || forall j | 0 <= j < |q| :: q[j].kind != m.kind)
    requires i < |q| && !Important(q[i]) && forall j | 0 <= j < i :: Important(q[j])
    ensures Enqueue(q, m) == q[..i] + q[i + 1..] + [m]
  {
    assert FirstDisposable(q) == i;
  }

  /** Below 255 queued nothing is thrown away, and sends alone never bring the queue past 255. */
  lemma RoomIsKept(q: seq<Message>, m: Message)
    ensures |q| < 255 && !Coalescible(m.kind) && !m.kind.Log? ==> Enqueue(q, m) == q + [m]
    ensures |Enqueue(q, m)| >= |q|
    ensures |q| <= 255 ==> |Enqueue(q, m)| <= 255
  {
  }

  /** An important message is refused exactly when 255 or more are queued and all are important. */
  lemma RefusedOnlyByImportant(q: seq<Message>, m: Message)
    requires Important(m)
    ensures Refused(q, m) <==>
            |q| >= 255 && forall i | 0 <= i < |q| :: Important(q[i])
  {
    if |q| >= MAX_QUEUED_MESSAGES - 1 && FirstDisposable(q) < |q| {
      assert !Important(q[FirstDisposable(q)]);
    }
  }

  // ----- every interleaving -----

  /** The important messages let in are those delivered, in flight and queued, in that order. */
  predicate OrderInv(s: State) {
    s.accepted == OnlyImportant(s.delivered) + OnlyImportant(Flying(s)) + OnlyImportant(s.queue)
  }

  ghost predicate KindInv(s: State) {
    forall kind | Coalescible(kind) :: CountKind(s.queue, kind) + CountKind(Flying(s), kind) <= 2
  }

  /** Logs leave the reserve to other messages, but for one that was requeued. */
  predicate ReserveInv(s: State) {
    CountKind(s.queue, Log) + CountKind(Flying(s), Log) <= 225
  }

  ghost predicate Inv(s: State) {
    && |s.queue| + |Flying(s)| <= 256
    && OrderInv(s)
    && KindInv(s)
    && ReserveInv(s)
  }

  lemma Associative(a: seq<Message>, b: seq<Message>, c: seq<Message>)
    ensures a + b + c == a + (b + c)
  {
  }

  lemma SendKeepsOrder(s: State, m: Message, seen: Gate)
    requires OrderInv(s)
    ensures OrderInv(Next(s, Send(m, seen)))
  {
    var added := if Important(m) && !Refused(s.queue, m) then [m] else [];
    EnqueueKeepsImportant(s.queue, m);
    Associative(OnlyImportant(s.delivered) + OnlyImportant(Flying(s)), OnlyImportant(s.queue), added);
    assert s.accepted + [] == s.accepted;
  }

  lemma SendKeepsKinds(s: State, m: Message, seen: Gate)
    requires KindInv(s)
    ensures KindInv(Next(s, Send(m, seen)))
  {
    forall kind | Coalescible(kind)
      ensures CountKind(Enqueue(s.queue, m), kind) + CountKind(Flying(s), kind) <= 2
    {
      EnqueueBoundsKind(s.queue, m, kind);
    }
  }

  lemma TakeKeepsOrder(s: State)
    requires OrderInv(s) && s.inFlight.None? && s.queue != []
    ensures OrderInv(Next(s, Take))
  {
    assert s.queue == [s.queue[0]] + s.queue[1..];
    OnlyImportantConcat([s.queue[0]], s.queue[1..]);
    Associative(OnlyImportant(s.delivered), OnlyImportant([s.queue[0]]), OnlyImportant(s.queue[1..]));
  }

  lemma WrittenKeepsOrder(s: State)
    requires OrderInv(s) && s.inFlight.Some?
    ensures OrderInv(Next(s, WriteSucceeds))
  {
    OnlyImportantConcat(s.delivered, Flying(s));
  }

  lemma RequeueKeepsOrder(s: State)
    requires OrderInv(s) && s.inFlight.Some?
    ensures OrderInv(Next(s, WriteFails))
  {
    OnlyImportantConcat(Flying(s), s.queue);
    Associative(OnlyImportant(s.delivered), OnlyImportant(Flying(s)), OnlyImportant(s.queue));
  }

  lemma DrainKeepsKinds(s: State, step: Step)
    requires KindInv(s) && !step.Send?
    ensures KindInv(Next(s, step))
  {
    forall kind | Coalescible(kind)
      ensures CountKind(Next(s, step).queue, kind) + CountKind(Flying(Next(s, step)), kind) <= 2
    {
      if step.Take? && s.queue != [] {
        CountKindConcat([s.queue[0]], s.queue[1..], kind);
        assert s.queue == [s.queue[0]] + s.queue[1..];
      } else if step.WriteFails? {
        CountKindConcat(Flying(s), s.queue, kind);
      }
    }
  }

  lemma StepKeepsReserve(s: State, step: Step)
    requires ReserveInv(s)
    ensures ReserveInv(Next(s, step))
  {
    if step.Send? {
      EnqueueBoundsLogs(s.queue, step.message);
    } else if step.Take? && s.queue != [] {
      CountKindConcat([s.queue[0]], s.queue[1..], Log);
      assert s.queue == [s.queue[0]] + s.queue[1..];
    } else if step.WriteFails? {
      CountKindConcat(Flying(s), s.queue, Log);
    }
  }

  lemma StepKeepsInv(s: State, step: Step)
    requires Inv(s)
    ensures Inv(Next(s, step))
  {
    StepKeepsReserve(s, step);
    if step.Send? {
      SendKeepsOrder(s, step.message, step.seen);
      SendKeepsKinds(s, step.message, step.seen);
    } else {
      if step.Take? && s.inFlight.None? && s.queue != [] {
        TakeKeepsOrder(s);
      } else if step.WriteSucceeds? && s.inFlight.Some? {
        WrittenKeepsOrder(s);
      } else if step.WriteFails? && s.inFlight.Some? {
        RequeueKeepsOrder(s);
      }
      DrainKeepsKinds(s, step);
    }
  }

  /**
   In every interleaving: at most 256 messages are queued or in flight; the important
   messages let in are exactly those delivered, in flight and queued, in that order, so none
   is lost, duplicated or overtaken; at most two of a coalescible type are outstanding; and
   at most 225 logs, so that 31 places are never taken by logs.
   */
  lemma {:induction false} EveryInterleaving(steps: seq<Step>)
    ensures Inv(Run(steps))
    decreases |steps|
  {
    if steps != [] {
      EveryInterleaving(steps[..|steps| - 1]);
      StepKeepsInv(Run(steps[..|steps| - 1]), steps[|steps| - 1]);
    }
  }

  // ----- delivery -----

  /** A send does to the queue of any interleaving what `sendMessage` does to it alone. */
  lemma SendEnqueues(s: State, m: Message, seen: Gate)
    ensures Next(s, Send(m, seen)).queue == if Admits(seen, m.kind) then Enqueue(s.queue, m) else s.queue
    ensures Next(s, Send(m, seen)).delivered == s.delivered && Next(s, Send(m, seen)).inFlight == s.inFlight
    ensures seen.connected && !seen.authenticationRequired && m.kind == Log && |s.queue| < 224 ==>
              Next(s, Send(m, seen)).queue == s.queue + [m]
  {
  }

  predicate Sent(steps: seq<Step>, m: Message) { exists i | 0 <= i < |steps| :: steps[i].Send? && steps[i].message == m }

  /** Nothing is invented: what is delivered, in flight or queued was sent as it is. */
  lemma {:induction false} HeldWasSent(steps: seq<Step>, m: Message)
    requires m in Run(steps).delivered + Flying(Run(steps)) + Run(steps).queue
    ensures Sent(steps, m)
    decreases |steps|
  {
    var front, last := steps[..|steps| - 1], steps[|steps| - 1];
    var s := Run(front);
    if m in s.delivered + Flying(s) + s.queue {
      HeldWasSent(front, m);
    } else {
      OnlySendsAdd(s, last, m);
    }
  }

  lemma OnlySendsAdd(s: State, step: Step, m: Message)
    requires m in Next(s, step).delivered + Flying(Next(s, step)) + Next(s, step).queue
    requires m !in s.delivered + Flying(s) + s.queue
    ensures step.Send? && step.message == m
  {
    if step.Send? && m != step.message {
      EnqueueAddsOnlyItself(s.queue, step.message, m);
    }
  }

  lemma EnqueueAddsOnlyItself(q: seq<Message>, m: Message, other: Message)
    requires other in Enqueue(q, m) && other != m
    ensures other in q
  {
    if Coalesces(q, m) {
      var i :| 0 <= i < |q| && Enqueue(q, m)[i] == other;
      assert Enqueue(q, m)[FirstOfKind(q, m.kind)] == m;
    }
  }

  /** The drain loop while every write succeeds and nobody sends. */
  function Drain(s: State, writes: nat): State
    decreases writes
  {
    if writes == 0 then s else Drain(Next(Next(s, Take), WriteSucceeds), writes - 1)
  }

  /** It delivers everything that is queued, of any type, in order. */
  lemma {:induction false} DrainDelivers(s: State)
    requires s.inFlight == None
    ensures Drain(s, |s.queue|) == s.(queue := [], delivered := s.delivered + s.queue)
    decreases |s.queue|
  {
    if s.queue != [] {
      var next := Next(Next(s, Take), WriteSucceeds);
      assert next == s.(queue := s.queue[1..], delivered := s.delivered + [s.queue[0]]);
      DrainDelivers(next);
      assert s.delivered + [s.queue[0]] + s.queue[1..] == s.delivered + s.queue;
    }
  }

  // ----- what coalescing does not promise -----

  /** Payload of the last queued message of `kind`: what the client is left showing. */
  function LastPayload(q: seq<Message>, kind: Kind): Option<string>
    decreases |q|
  {
    if q == [] then None
    else if q[|q| - 1].kind == kind then Some(q[|q| - 1].payload)
    else LastPayload(q[..|q| - 1], kind)
  }

  lemma {:induction false} LastPayloadConcat(a: seq<Message>, b: seq<Message>, kind: Kind)
    ensures LastPayload(a + b, kind) ==
            if CountKind(b, kind) > 0 then LastPayload(b, kind) else LastPayload(a, kind)
    decreases |b|
  {
    if b == [] {
      assert a + b == a;
    } else {
      var front := b[..|b| - 1];
      assert (a + b)[..|a + b| - 1] == a + front;
      assert b == front + [b[|b| - 1]];
      CountKindConcat(front, [b[|b| - 1]], kind);
      LastPayloadConcat(a, front, kind);
    }
  }

  /** A failed write can leave two messages of one coalescible type in the queue. */
  lemma FailedWriteLeavesTwo(a: string, b: string, seen: Gate)
    requires Admits(seen, Metrics)
    ensures var m, n := Message(Metrics, a), Message(Metrics, b);
            Run([Send(m, seen), Take, Send(n, seen), WriteFails]).queue == [m, n]
  {
    var m, n := Message(Metrics, a), Message(Metrics, b);
    var steps := [Send(m, seen), Take, Send(n, seen), WriteFails];
    assert steps[..3] == [Send(m, seen), Take, Send(n, seen)];
    assert steps[..3][..2] == [Send(m, seen), Take];
    assert steps[..3][..2][..1] == [Send(m, seen)];
    assert Run(steps[..3][..2][..1]).queue == [m];
    assert Run(steps[..3][..2]) == State([], Some(m), [], []);
  }

  /**
   Coalescing overwrites the first pending message of the type, so the newest value is also
   the last one delivered exactly when no second message of that type was already queued
   (or the one queued last says the same).
   */
  lemma NewestValueIsLast(q: seq<Message>, m: Message)
    requires Coalescible(m.kind) && !Refused(q, m)
    ensures LastPayload(Enqueue(q, m), m.kind) == Some(m.payload)
            <==> CountKind(q, m.kind) <= 1 || LastPayload(q, m.kind) == Some(m.payload)
  {
    if Coalesces(q, m) {
      OverwrittenIsFirst(q, m);
    } else {
      NoneOfKind(q, m.kind);
    }
  }

  lemma {:induction false} SplitCounts(q: seq<Message>, i: nat, kind: Kind)
    requires i < |q| && q[i].kind == kind && forall j | 0 <= j < i :: q[j].kind != kind
    ensures CountKind(q, kind) == 1 + CountKind(q[i + 1..], kind)
  {
    if i > 0 {
      assert q[1..][i..] == q[i + 1..];
      SplitCounts(q[1..], i - 1, kind);
    }
  }

  lemma LastOfSplit(q: seq<Message>, i: nat, x: Message)
    requires i < |q|
    ensures LastPayload(q[i := x], x.kind) ==
            if CountKind(q[i + 1..], x.kind) > 0 then LastPayload(q[i + 1..], x.kind) else Some(x.payload)
  {
    var front := q[..i] + [x];
    assert q[i := x] == front + q[i + 1..];
    LastPayloadConcat(front, q[i + 1..], x.kind);
    assert front[|front| - 1] == x;
  }

  /** The new payload ends the type's messages only if the overwritten one was the only one. */
  lemma OverwrittenIsFirst(q: seq<Message>, m: Message)
    requires Coalesces(q, m)
    ensures CountKind(q, m.kind) > 0
    ensures LastPayload(Enqueue(q, m), m.kind) ==
            if CountKind(q, m.kind) == 1 then Some(m.payload) else LastPayload(q, m.kind)
  {
    var i := FirstOfKind(q, m.kind);
    SplitCounts(q, i, m.kind);
    LastOfSplit(q, i, q[i].(payload := m.payload));
    LastOfSplit(q, i, q[i]);
    assert q[i := q[i]] == q;
  }
}
