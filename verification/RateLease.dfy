/**
 Rate leases: the server exports the speed of every active session together with how long it
 stays valid, and the GUI recomputes the aggregate later without asking again.
 The server clock counts nanoseconds; leases are whole milliseconds. Speeds are reals.
 */
module RateLease {
  import opened Common

  const NS_PER_MS := 1_000_000
  const BYTES_PER_MEGABYTE := 1000000.0
  const MAX_NATIVE_PROGRESS_BYTES := 8388608.0
  const MAX_SESSIONS := 32
  const MIN_LEASE_MS := 5000
  const MAX_LEASE_MS := 30000

  datatype SessionId = SessionId(text: string)

  datatype Session = Session(id: SessionId, startedAt: int, sample: Option<Sample>)

  datatype Sample = Sample(speedMBps: real, receivedAt: int)

  function Clamp(x: real, low: real, high: real): real {
    if x < low then low else if x > high then high else x
  }

  /** Lifetime in milliseconds of a rate: the time two chunks take, within five to thirty seconds. */
  function SpeedLifetime(bytesPerSecond: real): (ms: int)
    ensures MIN_LEASE_MS <= ms <= MAX_LEASE_MS
  {
    if bytesPerSecond <= 0.0 then MIN_LEASE_MS
    else Clamp(2.0 * MAX_NATIVE_PROGRESS_BYTES / bytesPerSecond * 1000.0,
               MIN_LEASE_MS as real, MAX_LEASE_MS as real).Floor
  }

  /** Comparing a lifetime with a bound is comparing the rate with a multiple of the two chunks. */
  lemma BoundByRate(x: real, bound: real, rate: real)
    requires rate > 0.0 && x * rate == 16777216000.0
    ensures x <= bound <==> 16777216000.0 <= rate * bound
    ensures bound <= x <==> rate * bound <= 16777216000.0
  {
    ScalingKeepsOrder(x, bound, rate);
    ScalingKeepsOrder(bound, x, rate);
  }

  lemma TwoChunks(rate: real) returns (x: real)
    requires rate > 0.0
    ensures x * rate == 16777216000.0 && SpeedLifetime(rate) == Clamp(x, 5000.0, 30000.0).Floor
  {
    var seconds := 16777216.0 / rate;
    QuotientTimesDivisor(16777216.0, rate);
    x := seconds * 1000.0;
    assert 2.0 * MAX_NATIVE_PROGRESS_BYTES == 16777216.0;
  }

  /** The time two chunks of 8 MiB take at that rate, in whole milliseconds, within 5 and 30 seconds. */
  lemma LifetimeIsTwoChunks(rate: real)
    ensures rate <= 0.0 || rate * 5000.0 >= 16777216000.0 ==> SpeedLifetime(rate) == 5000
    ensures 0.0 < rate && rate * 30000.0 <= 16777216000.0 ==> SpeedLifetime(rate) == 30000
  {
    if rate > 0.0 {
      var x := TwoChunks(rate);
      BoundByRate(x, 5000.0, rate);
      BoundByRate(x, 30000.0, rate);
    }
  }

  lemma Bracket(x: real, low: real, high: real, rate: real)
    requires rate > 0.0 && x * rate == 16777216000.0 && low <= x < high
    ensures rate * low <= 16777216000.0 < rate * high
  {
    BoundByRate(x, low, rate);
    BoundByRate(x, high, rate);
  }

  lemma LifetimeIsFloor(rate: real) returns (x: real)
    requires rate > 0.0 && rate * 5000.0 <= 16777216000.0 <= rate * 30000.0
    ensures x * rate == 16777216000.0 && SpeedLifetime(rate) == x.Floor
  {
    x := TwoChunks(rate);
    BoundByRate(x, 5000.0, rate);
    BoundByRate(x, 30000.0, rate);
  }

  lemma LifetimeBetween(rate: real)
    requires rate > 0.0 && rate * 5000.0 <= 16777216000.0 <= rate * 30000.0
    ensures var ms := SpeedLifetime(rate) as real; rate * ms <= 16777216000.0 < rate * (ms + 1.0)
  {
    var x := LifetimeIsFloor(rate);
    var ms := SpeedLifetime(rate) as real;
    Bracket(x, ms, ms + 1.0, rate);
  }

  // ----- the server's snapshot -----

  datatype Component = Component(speedMBps: real, freshForMs: int)

  datatype Metrics = Metrics(components: seq<Component>, speedMBps: real, available: bool, freshForMs: int, active: bool)

  function Lifetime(sample: Sample): int { SpeedLifetime(sample.speedMBps * BYTES_PER_MEGABYTE) }

  function AgeMs(sample: Sample, now: int): int { (now - sample.receivedAt) / NS_PER_MS }

  predicate Fresh(session: Session, now: int) {
    session.sample.Some? && AgeMs(session.sample.value, now) < Lifetime(session.sample.value)
  }

  function Lease(sample: Sample, now: int): Component {
    Component(sample.speedMBps, Lifetime(sample) - AgeMs(sample, now))
  }

  function Components(sessions: seq<Session>, now: int): seq<Component> {
    if sessions == [] then []
    else (if Fresh(sessions[0], now) then [Lease(sessions[0].sample.value, now)] else [])
         + Components(sessions[1..], now)
  }

  function Total(components: seq<Component>): real {
    if components == [] then 0.0 else components[0].speedMBps + Total(components[1..])
  }

  /** The shortest lease, or 0 if there is none. */
  function ShortestLease(components: seq<Component>): int {
    if components == [] then 0
    else if |components| == 1 then components[0].freshForMs
    else Min(components[0].freshForMs, ShortestLease(components[1..]))
  }

  function Snapshot(sessions: seq<Session>, now: int): Metrics {
    var components := Components(sessions, now);
    Metrics(components, Total(components), components != [], ShortestLease(components), sessions != [])
  }

  /** What the server itself would show. */
  function Reported(m: Metrics): Option<real> {
    if m.available then Some(m.speedMBps) else None
  }

  // ----- the GUI's recomputation -----

  function FreshTotal(components: seq<Component>, ageNs: int): Option<real> {
    if components == [] then None
    else
      var rest := FreshTotal(components[1..], ageNs);
      var c := components[0];
      if c.freshForMs <= 0 || ageNs >= c.freshForMs * NS_PER_MS then rest
      else if rest.Some? then Some(c.speedMBps + rest.value) else Some(c.speedMBps)
  }

  /** A snapshot as the GUI holds it; a server without leases sends no components. */
  datatype Received = Received(components: Option<seq<Component>>, speedMBps: real, available: bool, freshForMs: int, active: bool)

  function Deliver(m: Metrics): Received {
    Received(Some(m.components), m.speedMBps, m.available, m.freshForMs, m.active)
  }

  function FreshSpeedAt(m: Received, ageNs: int): Option<real> {
    if !m.available || !m.active || ageNs < 0 then None
    else if m.components.Some? then FreshTotal(m.components.value, ageNs)
    else if m.freshForMs > 0 && ageNs < m.freshForMs * NS_PER_MS then Some(m.speedMBps)
    else None
  }

  // ----- agreement -----

  lemma AgeAdvances(sample: Sample, now: int, d: nat)
    ensures AgeMs(sample, now + d * NS_PER_MS) == AgeMs(sample, now) + d
  {
  }

  /** One component: its lease runs out exactly when the server would drop it. */
  lemma LeaseIsExact(sample: Sample, now: int, d: nat)
    ensures d * NS_PER_MS < Lease(sample, now).freshForMs * NS_PER_MS
            <==> AgeMs(sample, now + d * NS_PER_MS) < Lifetime(sample)
  {
    AgeAdvances(sample, now, d);
  }

  lemma {:induction false} ComponentsAgree(sessions: seq<Session>, now: int, d: nat)
    ensures var later := Components(sessions, now + d * NS_PER_MS);
            FreshTotal(Components(sessions, now), d * NS_PER_MS)
            == if later == [] then None else Some(Total(later))
  {
    if sessions != [] {
      ComponentsAgree(sessions[1..], now, d);
      var later := Components(sessions, now + d * NS_PER_MS);
      var s := sessions[0];
      if s.sample.Some? {
        LeaseIsExact(s.sample.value, now, d);
        AgeAdvances(s.sample.value, now, d);
      }
      if Fresh(s, now) {
        assert Components(sessions, now)[1..] == Components(sessions[1..], now);
      } else {
        assert Components(sessions, now) == Components(sessions[1..], now);
      }
      if Fresh(s, now + d * NS_PER_MS) {
        assert later[1..] == Components(sessions[1..], now + d * NS_PER_MS);
      } else {
        assert later == Components(sessions[1..], now + d * NS_PER_MS);
      }
    }
  }

  /**
   `d` milliseconds after an instantly delivered snapshot, the GUI shows exactly what the
   server would report then if nothing happened in between, "unavailable" included.
   */
  lemma LeasesAgree(sessions: seq<Session>, now: int, d: nat)
    ensures FreshSpeedAt(Deliver(Snapshot(sessions, now)), d * NS_PER_MS)
            == Reported(Snapshot(sessions, now + d * NS_PER_MS))
  {
    ComponentsAgree(sessions, now, d);
    if Components(sessions, now) == [] {
      NothingRevives(sessions, now, d);
    }
  }

  lemma {:induction false} NothingRevives(sessions: seq<Session>, now: int, d: nat)
    requires Components(sessions, now) == []
    ensures Components(sessions, now + d * NS_PER_MS) == []
  {
    if sessions != [] {
      if sessions[0].sample.Some? {
        AgeAdvances(sessions[0].sample.value, now, d);
      }
      NothingRevives(sessions[1..], now, d);
    }
  }

  /** Between whole milliseconds the GUI may lag, never lead, and by less than one millisecond. */
  lemma LagIsBelowOneMillisecond(sample: Sample, now: int, ageNs: nat)
    ensures AgeMs(sample, now + ageNs) < Lifetime(sample) ==> ageNs < Lease(sample, now).freshForMs * NS_PER_MS
    ensures ageNs < Lease(sample, now).freshForMs * NS_PER_MS
            ==> AgeMs(sample, now + ageNs - (NS_PER_MS - 1)) < Lifetime(sample)
  {
    var a := now - sample.receivedAt;
    assert a == a / NS_PER_MS * NS_PER_MS + a % NS_PER_MS;
  }

  /** Until the shortest lease runs out, the total needs no recomputation. */
  lemma {:induction false} ShortestLeaseIsSafe(components: seq<Component>, ageNs: nat)
    requires components != [] && ageNs < ShortestLease(components) * NS_PER_MS
    requires forall i | 0 <= i < |components| :: components[i].freshForMs > 0
    ensures FreshTotal(components, ageNs) == Some(Total(components))
  {
    if |components| > 1 {
      assert forall i | 0 <= i < |components[1..]| :: components[1..][i] == components[i + 1];
      ShortestLeaseIsSafe(components[1..], ageNs);
    } else {
      assert components[1..] == [];
    }
  }

  lemma {:induction false} LeasesArePositive(sessions: seq<Session>, now: int)
    ensures forall c <- Components(sessions, now) :: c.freshForMs > 0
  {
    if sessions != [] {
      LeasesArePositive(sessions[1..], now);
    }
  }

  lemma {:induction false} ShortestIsLeast(components: seq<Component>)
    ensures forall c <- components :: ShortestLease(components) <= c.freshForMs
  {
    if components != [] {
      ShortestIsLeast(components[1..]);
      assert components == [components[0]] + components[1..];
    }
  }

  /**
   The form without components shows a speed exactly as long as all components are fresh, and it is
   the one they give.
   */
  lemma AggregateFormIsExact(sessions: seq<Session>, now: int, ageNs: int)
    ensures var m := Deliver(Snapshot(sessions, now));
            var aggregate := FreshSpeedAt(m.(components := None), ageNs);
            && (aggregate.Some? ==> aggregate == FreshSpeedAt(m, ageNs))
            && (aggregate.Some? <==> m.available && ageNs >= 0 && forall c <- m.components.value :: ageNs < c.freshForMs * NS_PER_MS)
  {
    LeasesArePositive(sessions, now);
    var m := Snapshot(sessions, now);
    ShortestIsLeast(m.components);
    if m.components != [] {
      ShortestIsOne(m.components);
      if 0 <= ageNs < m.freshForMs * NS_PER_MS {
        ShortestLeaseIsSafe(m.components, ageNs);
      }
      SomeSession(sessions, now);
    }
  }

  lemma SomeSession(sessions: seq<Session>, now: int)
    requires Components(sessions, now) != []
    ensures sessions != []
  {
  }

  // ----- session traces -----

  datatype Event =
    | StartSession(id: SessionId, position: nat)
    | EndSession(id: SessionId)
    | RecordSpeed(bytesPerSecond: real, id: SessionId)
    | Elapse(ns: nat)

  datatype Collector = Collector(sessions: seq<Session>, now: int)

  function IndexOf(sessions: seq<Session>, id: SessionId): (i: nat)
    ensures i <= |sessions|
    ensures i < |sessions| ==> sessions[i].id == id
    ensures forall j | 0 <= j < i :: sessions[j].id != id
  {
    FirstIndex(sessions, (s: Session) => s.id == id)
  }

  /** An id that names no session, and is not the empty id of the only one there is. */
  predicate Unknown(sessions: seq<Session>, id: SessionId) {
    (forall j | 0 <= j < |sessions| :: sessions[j].id != id) && !(id.text == "" && |sessions| == 1)
  }

  /** An empty id addresses the only session there is. */
  function Lookup(sessions: seq<Session>, id: SessionId): (i: nat)
    ensures i <= |sessions|
    ensures i == |sessions| <==> Unknown(sessions, id)
    ensures i < |sessions| ==> sessions[i].id == id || (id.text == "" && |sessions| == 1)
    ensures forall j | 0 <= j < i :: sessions[j].id != id
  {
    var i := IndexOf(sessions, id);
    if i == |sessions| && id.text == "" && |sessions| == 1 then 0 else i
  }

  /** `std::min_element` by start time, in iteration order. */
  function Oldest(sessions: seq<Session>): (i: nat)
    requires sessions != []
    ensures i < |sessions| && forall j | 0 <= j < |sessions| :: sessions[i].startedAt <= sessions[j].startedAt
  {
    if |sessions| == 1 then 0
    else
      var i := 1 + Oldest(sessions[1..]);
      assert forall j | 1 <= j < |sessions| :: sessions[j] == sessions[1..][j - 1];
      if sessions[i].startedAt < sessions[0].startedAt then i else 0
  }

  function Drop(sessions: seq<Session>, i: nat): seq<Session>
    requires i < |sessions|
  {
    sessions[..i] + sessions[i + 1..]
  }

  /** A new id lands at any position of the hash map; the oldest session makes room. */
  function Started(sessions: seq<Session>, id: SessionId, position: nat, now: int): seq<Session> {
    var added := Session(id, now, None);
    var i := IndexOf(sessions, id);
    if i < |sessions| then sessions[i := added]
    else
      var kept := if |sessions| >= MAX_SESSIONS then Drop(sessions, Oldest(sessions)) else sessions;
      var at := Min(position, |kept|);
      kept[..at] + [added] + kept[at..]
  }

  function Next(c: Collector, e: Event): Collector {
    match e
    case StartSession(id, position) => c.(sessions := Started(c.sessions, id, position, c.now))
    case EndSession(id) =>
      var i := Lookup(c.sessions, id);
      if i < |c.sessions| then c.(sessions := Drop(c.sessions, i)) else c
    case RecordSpeed(rate, id) =>
      var i := Lookup(c.sessions, id);
      if rate < 0.0 || i == |c.sessions| then c
      else c.(sessions := c.sessions[i := c.sessions[i].(sample := Some(Sample(rate / BYTES_PER_MEGABYTE, c.now)))])
    case Elapse(ns) => c.(now := c.now + ns)
  }

  function Run(events: seq<Event>): Collector
    decreases |events|
  {
    if events == [] then Collector([], 0) else Next(Run(events[..|events| - 1]), events[|events| - 1])
  }

  /** A start leaves the new session without a rate, and of the others all but the oldest of 32. */
  lemma StartEffect(c: Collector, id: SessionId, position: nat)
    ensures var after := Next(c, StartSession(id, position)).sessions;
            && Session(id, c.now, None) in after
            && (forall s <- after :: s == Session(id, c.now, None) || s in c.sessions)
            && (forall s <- c.sessions :: s.id != id ==>
                  s in after || (|c.sessions| >= 32 && forall o <- c.sessions :: s.startedAt <= o.startedAt))
            && (|c.sessions| < 32 || id in Names(c.sessions) ==> forall s <- c.sessions :: s.id != id ==> s in after)
  {
    var i := IndexOf(c.sessions, id);
    if i < |c.sessions| {
      ReplaceKeepsOthers(c.sessions, i, Session(id, c.now, None));
    } else if |c.sessions| >= MAX_SESSIONS {
      var oldest := Oldest(c.sessions);
      DropKeepsOthers(c.sessions, oldest);
      InsertKeepsOthers(Drop(c.sessions, oldest), Min(position, |c.sessions| - 1), Session(id, c.now, None));
      assert forall o <- c.sessions :: c.sessions[oldest].startedAt <= o.startedAt;
    } else {
      InsertKeepsOthers(c.sessions, Min(position, |c.sessions|), Session(id, c.now, None));
    }
  }

  ghost function Names(sessions: seq<Session>): set<SessionId> { set s | s in sessions :: s.id }

  lemma ReplaceKeepsOthers(sessions: seq<Session>, i: nat, added: Session)
    requires i < |sessions| && sessions[i].id == added.id
    ensures added in sessions[i := added]
    ensures forall s <- sessions[i := added] :: s == added || s in sessions
    ensures forall s <- sessions :: s.id != added.id ==> s in sessions[i := added]
  {
    var after := sessions[i := added];
    assert after[i] == added;
    forall s <- sessions | s.id != added.id ensures s in after {
      var j :| 0 <= j < |sessions| && sessions[j] == s;
      assert after[j] == s;
    }
  }

  lemma DropKeepsOthers(sessions: seq<Session>, i: nat)
    requires i < |sessions|
    ensures forall s <- Drop(sessions, i) :: s in sessions
    ensures forall s <- sessions :: s in Drop(sessions, i) || s == sessions[i]
  {
    forall s <- sessions ensures s in Drop(sessions, i) || s == sessions[i] {
      var j :| 0 <= j < |sessions| && sessions[j] == s;
      if j < i {
        assert Drop(sessions, i)[j] == s;
      } else if j > i {
        assert Drop(sessions, i)[j - 1] == s;
      }
    }
  }

  lemma InsertKeepsOthers(kept: seq<Session>, at: nat, added: Session)
    requires at <= |kept|
    ensures forall s :: s in kept[..at] + [added] + kept[at..] <==> s == added || s in kept
  {
    assert kept == kept[..at] + kept[at..];
  }

  /** An end removes the addressed session and no other; an unknown id changes nothing. */
  lemma EndEffect(c: Collector, id: SessionId)
    ensures var after := Next(c, EndSession(id)).sessions;
            && (Unknown(c.sessions, id) ==> after == c.sessions)
            && (!Unknown(c.sessions, id) ==> |after| == |c.sessions| - 1)
            && (forall s <- after :: s in c.sessions)
            && (forall s <- c.sessions :: s.id != id && !(id.text == "" && |c.sessions| == 1) ==> s in after)
  {
    var i := Lookup(c.sessions, id);
    if i < |c.sessions| {
      DropKeepsOthers(c.sessions, i);
    }
  }

  /** A report sets rate and time of the addressed session and nothing else; a negative rate is refused. */
  lemma RecordEffect(c: Collector, rate: real, id: SessionId, j: nat)
    requires j < |c.sessions|
    ensures var after := Next(c, RecordSpeed(rate, id)).sessions;
            && |after| == |c.sessions| && after[j].(sample := None) == c.sessions[j].(sample := None)
            && (rate < 0.0 || Unknown(c.sessions, id) ==> after[j] == c.sessions[j])
            && (c.sessions[j].id != id && id.text != "" ==> after[j] == c.sessions[j])
            && (rate >= 0.0 && (forall i | 0 <= i < |c.sessions| && i != j :: c.sessions[i].id != id)
                && (c.sessions[j].id == id || (id.text == "" && |c.sessions| == 1)) ==>
                  after[j].sample.Some? && after[j].sample.value.receivedAt == c.now
                  && after[j].sample.value.speedMBps * 1000000.0 == rate)
  {
  }

  predicate ValidSession(s: Session, now: int) {
    && s.startedAt <= now
    && (s.sample.Some? ==> s.sample.value.receivedAt <= now && s.sample.value.speedMBps >= 0.0)
  }

  predicate SessionsInv(sessions: seq<Session>, now: int) {
    && (forall i | 0 <= i < |sessions| :: ValidSession(sessions[i], now))
    && (forall i, j | 0 <= i < j < |sessions| :: sessions[i].id != sessions[j].id)
  }

  predicate Inv(c: Collector) {
    |c.sessions| <= 32 && SessionsInv(c.sessions, c.now)
  }

  lemma DropKeepsSessions(sessions: seq<Session>, i: nat, now: int)
    requires SessionsInv(sessions, now) && i < |sessions|
    ensures SessionsInv(Drop(sessions, i), now)
    ensures forall s <- Drop(sessions, i) :: s in sessions
  {
  }

  lemma InsertKeepsSessions(kept: seq<Session>, at: nat, added: Session, now: int)
    requires SessionsInv(kept, now) && at <= |kept| && ValidSession(added, now)
    requires forall s <- kept :: s.id != added.id
    ensures SessionsInv(kept[..at] + [added] + kept[at..], now)
  {
  }

  lemma StartKeepsSessions(sessions: seq<Session>, id: SessionId, position: nat, now: int)
    requires SessionsInv(sessions, now) && |sessions| <= MAX_SESSIONS
    ensures SessionsInv(Started(sessions, id, position, now), now) && |Started(sessions, id, position, now)| <= MAX_SESSIONS
  {
    if IndexOf(sessions, id) == |sessions| {
      var kept := sessions;
      if |sessions| >= MAX_SESSIONS {
        DropKeepsSessions(sessions, Oldest(sessions), now);
        kept := Drop(sessions, Oldest(sessions));
      }
      InsertKeepsSessions(kept, Min(position, |kept|), Session(id, now, None), now);
    }
  }

  lemma StepKeepsInv(c: Collector, e: Event)
    requires Inv(c)
    ensures Inv(Next(c, e))
  {
    match e
    case StartSession(id, position) => StartKeepsSessions(c.sessions, id, position, c.now);
    case EndSession(id) =>
      if Lookup(c.sessions, id) < |c.sessions| {
        DropKeepsSessions(c.sessions, Lookup(c.sessions, id), c.now);
      }
    case _ =>
  }

  lemma {:induction false} RunInv(events: seq<Event>)
    ensures Inv(Run(events))
    decreases |events|
  {
    if events != [] {
      RunInv(events[..|events| - 1]);
      StepKeepsInv(Run(events[..|events| - 1]), events[|events| - 1]);
    }
  }

  lemma {:induction false} LeasesAreBounded(sessions: seq<Session>, now: int)
    requires forall i | 0 <= i < |sessions| :: ValidSession(sessions[i], now)
    ensures |Components(sessions, now)| <= |sessions|
    ensures forall c <- Components(sessions, now) :: 1 <= c.freshForMs <= MAX_LEASE_MS && c.speedMBps >= 0.0
    ensures 0.0 <= Total(Components(sessions, now))
  {
    if sessions != [] {
      LeasesAreBounded(sessions[1..], now);
      if Fresh(sessions[0], now) {
        assert Components(sessions, now)[1..] == Components(sessions[1..], now);
      } else {
        assert Components(sessions, now) == Components(sessions[1..], now);
      }
    }
  }

  lemma {:induction false} ShortestIsOne(components: seq<Component>)
    requires components != []
    ensures exists c <- components :: c.freshForMs == ShortestLease(components)
  {
    if |components| > 1 {
      ShortestIsOne(components[1..]);
    }
    assert components[0] in components;
  }

  // ----- what the GUI's parser accepts -----

  predicate ParserAccepts(m: Metrics) {
    && 0.0 <= m.speedMBps <= 4000000.0
    && 0 <= m.freshForMs <= 30000
    && |m.components| <= 32
    && forall c <- m.components :: 0.0 <= c.speedMBps <= 1000000.0 && 0 <= c.freshForMs <= 30000
  }

  /** The sum of the rates recorded in sessions that are fresh at `now`, in bytes per second. */
  function FreshRate(sessions: seq<Session>, now: int): real {
    if sessions == [] then 0.0
    else (if Fresh(sessions[0], now) then sessions[0].sample.value.speedMBps * BYTES_PER_MEGABYTE else 0.0)
         + FreshRate(sessions[1..], now)
  }

  /** No fresh session records more than 10^12 bytes per second, and all of them at most 4 * 10^12. */
  predicate RatesInRange(sessions: seq<Session>, now: int) {
    && FreshRate(sessions, now) <= 4000000000000.0
    && forall s <- sessions :: Fresh(s, now) ==> s.sample.value.speedMBps * BYTES_PER_MEGABYTE <= 1000000000000.0
  }

  lemma {:induction false} TotalIsFreshRate(sessions: seq<Session>, now: int)
    ensures Total(Components(sessions, now)) * BYTES_PER_MEGABYTE == FreshRate(sessions, now)
  {
    if sessions != [] {
      TotalIsFreshRate(sessions[1..], now);
      if Fresh(sessions[0], now) {
        assert Components(sessions, now)[1..] == Components(sessions[1..], now);
      } else {
        assert Components(sessions, now) == Components(sessions[1..], now);
      }
    }
  }

  lemma {:induction false} ComponentsAreFreshSessions(sessions: seq<Session>, now: int)
    ensures forall s <- sessions :: Fresh(s, now) ==> Lease(s.sample.value, now) in Components(sessions, now)
    ensures forall c <- Components(sessions, now) :: exists s <- sessions :: Fresh(s, now) && c == Lease(s.sample.value, now)
  {
    if sessions != [] {
      var rest := sessions[1..];
      ComponentsAreFreshSessions(rest, now);
      forall c <- Components(sessions, now) ensures exists s <- sessions :: Fresh(s, now) && c == Lease(s.sample.value, now) {
        if c in Components(rest, now) {
          var s :| s in rest && Fresh(s, now) && c == Lease(s.sample.value, now);
          assert s in sessions;
        } else {
          assert sessions[0] in sessions;
        }
      }
    }
  }

  lemma SpeedsInRange(sessions: seq<Session>, now: int)
    ensures (forall c <- Components(sessions, now) :: c.speedMBps <= 1000000.0) <==>
            (forall s <- sessions :: Fresh(s, now) ==> s.sample.value.speedMBps * BYTES_PER_MEGABYTE <= 1000000000000.0)
  {
    ComponentsAreFreshSessions(sessions, now);
    if forall c <- Components(sessions, now) :: c.speedMBps <= 1000000.0 {
      forall s <- sessions | Fresh(s, now) ensures s.sample.value.speedMBps * BYTES_PER_MEGABYTE <= 1000000000000.0 {
        assert Lease(s.sample.value, now).speedMBps <= 1000000.0;
      }
    }
  }

  /**
   After any trace a snapshot has at most 32 components with leases of 1 to 30000 ms, and the
   parser accepts it exactly when the rates recorded in fresh sessions are in range.
   */
  lemma SnapshotFitsParser(events: seq<Event>)
    ensures var c := Run(events);
            var m := Snapshot(c.sessions, c.now);
            && |m.components| <= 32
            && (forall k <- m.components :: 1 <= k.freshForMs <= 30000)
            && (ParserAccepts(m) <==> RatesInRange(c.sessions, c.now))
  {
    RunInv(events);
    var c := Run(events);
    LeasesAreBounded(c.sessions, c.now);
    if Components(c.sessions, c.now) != [] {
      ShortestIsOne(Components(c.sessions, c.now));
    }
    TotalIsFreshRate(c.sessions, c.now);
    SpeedsInRange(c.sessions, c.now);
  }

  /** A reported rate is shown for exactly its lifetime, counted in whole milliseconds, and then no speed. */
  lemma ReportIsShownFor(id: SessionId, rate: real, ns: nat)
    requires rate >= 0.0
    ensures var c := Run([StartSession(id, 0), RecordSpeed(rate, id), Elapse(ns)]);
            Reported(Snapshot(c.sessions, c.now)) ==
            if ns / 1_000_000 < SpeedLifetime(rate) then Some(rate / 1000000.0) else None
  {
    var events := [StartSession(id, 0), RecordSpeed(rate, id), Elapse(ns)];
    assert events[..2] == [StartSession(id, 0), RecordSpeed(rate, id)];
    assert events[..2][..1] == [StartSession(id, 0)];
    assert Run(events[..2][..1]) == Collector([Session(id, 0, None)], 0);
    var recorded := Session(id, 0, Some(Sample(rate / BYTES_PER_MEGABYTE, 0)));
    assert Run(events[..2]) == Collector([recorded], 0);
    assert Run(events) == Collector([recorded], ns);
    OneSession(recorded, ns);
  }

  lemma OneSession(s: Session, now: int)
    requires s.sample.Some?
    ensures Reported(Snapshot([s], now)) == if Fresh(s, now) then Some(s.sample.value.speedMBps) else None
  {
    assert [s][1..] == [];
    if Fresh(s, now) {
      var c := Lease(s.sample.value, now);
      assert Components([s], now) == [c] && |Components([s], now)| == 1;
      assert Total([c]) == c.speedMBps + Total([c][1..]) && [c][1..] == [];
    } else {
      assert Components([s], now) == [];
    }
  }

  // ----- what the HTTP handler lets in -----

  const MAX_CLIENT_BYTES_PER_SECOND := 107374182400.0

  /** The `/client_metrics` handler refuses rates above 100 GiB/s before they reach the collector. */
  predicate Admitted(events: seq<Event>) {
    forall i | 0 <= i < |events| && events[i].RecordSpeed? :: events[i].bytesPerSecond <= MAX_CLIENT_BYTES_PER_SECOND
  }

  predicate CappedSession(s: Session) { s.sample.Some? ==> s.sample.value.speedMBps <= 107374.1824 }

  predicate Capped(sessions: seq<Session>) { forall s <- sessions :: CappedSession(s) }

  lemma InsertKeepsCapped(kept: seq<Session>, at: nat, added: Session)
    requires Capped(kept) && at <= |kept| && CappedSession(added)
    ensures Capped(kept[..at] + [added] + kept[at..])
  {
  }

  lemma DropKeepsCapped(sessions: seq<Session>, i: nat)
    requires Capped(sessions) && i < |sessions|
    ensures Capped(Drop(sessions, i))
  {
  }

  lemma StartKeepsCapped(sessions: seq<Session>, id: SessionId, position: nat, now: int)
    requires Capped(sessions)
    ensures Capped(Started(sessions, id, position, now))
  {
    if IndexOf(sessions, id) == |sessions| {
      var kept := sessions;
      if |sessions| >= MAX_SESSIONS {
        DropKeepsCapped(sessions, Oldest(sessions));
        kept := Drop(sessions, Oldest(sessions));
      }
      InsertKeepsCapped(kept, Min(position, |kept|), Session(id, now, None));
    }
  }

  lemma {:induction false} AdmittedTraceIsCapped(events: seq<Event>)
    requires Admitted(events)
    ensures Capped(Run(events).sessions)
    decreases |events|
  {
    if events != [] {
      var c, e := Run(events[..|events| - 1]), events[|events| - 1];
      AdmittedTraceIsCapped(events[..|events| - 1]);
      match e
      case StartSession(id, position) => StartKeepsCapped(c.sessions, id, position, c.now);
      case RecordSpeed(rate, id) => RecordKeepsCapped(c, rate, id);
      case _ =>
    }
  }

  lemma RecordKeepsCapped(c: Collector, rate: real, id: SessionId)
    requires Capped(c.sessions) && rate <= MAX_CLIENT_BYTES_PER_SECOND
    ensures Capped(Next(c, RecordSpeed(rate, id)).sessions)
  {
    assert rate / BYTES_PER_MEGABYTE <= 107374.1824;
  }

  lemma {:induction false} CappedRate(sessions: seq<Session>, now: int)
    requires Capped(sessions)
    ensures FreshRate(sessions, now) <= |sessions| as real * 107374182400.0
  {
    if sessions != [] {
      CappedRate(sessions[1..], now);
      assert CappedSession(sessions[0]);
    }
  }

  lemma CappedIsInRange(sessions: seq<Session>, now: int)
    requires Capped(sessions) && |sessions| <= MAX_SESSIONS
    ensures RatesInRange(sessions, now)
  {
    CappedRate(sessions, now);
    forall s <- sessions | Fresh(s, now) ensures s.sample.value.speedMBps * BYTES_PER_MEGABYTE <= 1000000000000.0 {
      assert CappedSession(s);
    }
  }

  /** Behind that handler the parser accepts the snapshot after every trace: 32 such rates fit its limit. */
  lemma AdmittedTraceFitsParser(events: seq<Event>)
    requires Admitted(events)
    ensures ParserAccepts(Snapshot(Run(events).sessions, Run(events).now))
  {
    RunInv(events);
    SnapshotFitsParser(events);
    AdmittedTraceIsCapped(events);
    CappedIsInRange(Run(events).sessions, Run(events).now);
  }

  /** The collector alone promises less: the report of one client fits exactly up to 10^12 bytes per second. */
  lemma OneReportFitsParser(id: SessionId, rate: real)
    requires rate >= 0.0
    ensures var c := Run([StartSession(id, 0), RecordSpeed(rate, id)]);
            ParserAccepts(Snapshot(c.sessions, c.now)) <==> rate <= 1000000000000.0
  {
    var events := [StartSession(id, 0), RecordSpeed(rate, id)];
    assert events[..1] == [StartSession(id, 0)];
    assert Run(events[..1]) == Collector([Session(id, 0, None)], 0);
    var recorded := Session(id, 0, Some(Sample(rate / BYTES_PER_MEGABYTE, 0)));
    assert Run(events).sessions == [recorded] && Fresh(recorded, 0);
    SnapshotFitsParser(events);
    assert FreshRate([recorded], 0) == rate;
  }

  // ----- the collector and the recomputation in place -----

  lemma {:induction false} TotalConcat(a: seq<Component>, b: seq<Component>)
    ensures Total(a + b) == Total(a) + Total(b)
  {
    if a == [] {
      assert a + b == b;
    } else {
      assert (a + b)[1..] == a[1..] + b;
      TotalConcat(a[1..], b);
    }
  }

  lemma {:induction false} ShortestAppend(a: seq<Component>, c: Component)
    ensures ShortestLease(a + [c]) == if a == [] then c.freshForMs else Min(ShortestLease(a), c.freshForMs)
  {
    if a == [] {
      assert a + [c] == [c];
    } else {
      assert (a + [c])[1..] == a[1..] + [c];
      ShortestAppend(a[1..], c);
    }
  }

  class MetricsCollector {
    var sessions: seq<Session>

    constructor ()
      ensures sessions == []
    {
      sessions := [];
    }

    method Start(id: SessionId, position: nat, now: int)
      requires SessionsInv(sessions, now) && |sessions| <= MAX_SESSIONS
      modifies this
      ensures sessions == Started(old(sessions), id, position, now)
      ensures SessionsInv(sessions, now) && |sessions| <= MAX_SESSIONS
    {
      StartKeepsSessions(sessions, id, position, now);
      var added := Session(id, now, None);
      var i := IndexOf(sessions, id);
      if i < |sessions| {
        sessions := sessions[i := added];
        return;
      }
      if |sessions| >= MAX_SESSIONS {
        var oldest := Oldest(sessions);
        sessions := sessions[..oldest] + sessions[oldest + 1..];
      }
      var at := Min(position, |sessions|);
      sessions := sessions[..at] + [added] + sessions[at..];
    }

    method End(id: SessionId) returns (ended: bool)
      modifies this
      ensures forall now :: Collector(sessions, now) == Next(Collector(old(sessions), now), EndSession(id))
      ensures ended <==> Lookup(old(sessions), id) < |old(sessions)|
    {
      var i := Lookup(sessions, id);
      if i == |sessions| {
        return false;
      }
      sessions := sessions[..i] + sessions[i + 1..];
      return true;
    }

    /** Refuses a negative rate and a session that is not active. */
    method RecordClientSpeed(rate: real, id: SessionId, now: int) returns (recorded: bool)
      modifies this
      ensures Collector(sessions, now) == Next(Collector(old(sessions), now), RecordSpeed(rate, id))
      ensures recorded <==> rate >= 0.0 && Lookup(old(sessions), id) < |old(sessions)|
    {
      var i := Lookup(sessions, id);
      if rate < 0.0 || i == |sessions| {
        return false;
      }
      sessions := sessions[i := sessions[i].(sample := Some(Sample(rate / BYTES_PER_MEGABYTE, now)))];
      return true;
    }

    method GetRealtimeMetrics(now: int) returns (m: Metrics)
      ensures m == Snapshot(sessions, now)
    {
      var components, total, freshFor := [], 0.0, 0;
      for k := 0 to |sessions|
        invariant components + Components(sessions[k..], now) == Components(sessions, now)
        invariant Summarizes(components, total, freshFor)
      {
        NextComponent(sessions, k, now);
        if Fresh(sessions[k], now) {
          var lease := Lease(sessions[k].sample.value, now);
          AppendSummarizes(components, total, freshFor, lease);
          total := total + lease.speedMBps;
          freshFor := if freshFor == 0 then lease.freshForMs else Min(freshFor, lease.freshForMs);
          components := components + [lease];
        }
      }
      assert components == Components(sessions, now);
      m := Metrics(components, total, components != [], freshFor, sessions != []);
    }
  }

  lemma NextComponent(sessions: seq<Session>, k: nat, now: int)
    requires k < |sessions|
    ensures Components(sessions[k..], now) ==
            (if Fresh(sessions[k], now) then [Lease(sessions[k].sample.value, now)] else [])
            + Components(sessions[k + 1..], now)
    ensures Fresh(sessions[k], now) ==> Lease(sessions[k].sample.value, now).freshForMs > 0
  {
    assert sessions[k..][1..] == sessions[k + 1..];
  }

  /** The running aggregates of the snapshot loop; 0 stands for "no lease yet". */
  predicate Summarizes(components: seq<Component>, total: real, freshFor: int) {
    && total == Total(components)
    && freshFor == ShortestLease(components)
    && (components != [] ==> freshFor > 0)
  }

  lemma AppendSummarizes(components: seq<Component>, total: real, freshFor: int, lease: Component)
    requires Summarizes(components, total, freshFor) && lease.freshForMs > 0
    ensures Summarizes(components + [lease], total + lease.speedMBps,
                       if freshFor == 0 then lease.freshForMs else Min(freshFor, lease.freshForMs))
  {
    TotalConcat(components, [lease]);
    ShortestAppend(components, lease);
  }

  /** `MetricsData.FreshSpeedAt`: the loop the GUI runs on a snapshot of the given age. */
  method RecomputeSpeed(m: Received, ageNs: int) returns (speed: Option<real>)
    ensures speed == FreshSpeedAt(m, ageNs)
  {
    if !m.available || !m.active || ageNs < 0 {
      return None;
    }
    if m.components.None? {
      return if m.freshForMs > 0 && ageNs < m.freshForMs * NS_PER_MS then Some(m.speedMBps) else None;
    }
    var components := m.components.value;
    var total, hasFresh := 0.0, false;
    for k := 0 to |components|
      invariant !hasFresh ==> total == 0.0
      invariant var rest := FreshTotal(components[k..], ageNs);
                FreshTotal(components, ageNs) ==
                if rest.Some? then Some(total + rest.value) else if hasFresh then Some(total) else None
    {
      var c := components[k];
      assert components[k..][1..] == components[k + 1..];
      if c.freshForMs > 0 && ageNs < c.freshForMs * NS_PER_MS {
        total := total + c.speedMBps;
        hasFresh := true;
      }
    }
    speed := if hasFresh then Some(total) else None;
  }
}
