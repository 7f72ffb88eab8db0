/**
 The network log of the GUI: repeated messages are suppressed for a while, the list keeps the
 newest 300 entries, and the de-duplication cache is pruned when it grows. Times are
 milliseconds of a clock that never runs backwards.
 */
module LogDedup {
  import opened Common

  const MAX_ENTRIES := 300
  const DUPLICATE_WINDOW := 2000
  const CONNECTION_WINDOW := 12000

  type Cache = map<string, int>

  predicate White(c: char) {
    var n := c as int;
    || 9 <= n <= 13 || n == 32 || n == 0x85 || n == 0xA0 || n == 0x1680 || 0x2000 <= n <= 0x200A
    || n == 0x2028 || n == 0x2029 || n == 0x202F || n == 0x205F || n == 0x3000
  }

  predicate Blank(message: string) { forall i | 0 <= i < |message| :: White(message[i]) }

  function WindowFor(message: string): (ms: int)
    ensures 0 < ms <= CONNECTION_WINDOW
  {
    if Contains(Lower(message), "lost connection to server") || Contains(Lower(message), "connected to background server")
    then CONNECTION_WINDOW else DUPLICATE_WINDOW
  }

  predicate Suppressed(cache: Cache, message: string, now: int) {
    message in cache && now - cache[message] < WindowFor(message)
  }

  /** Entries that no window can reach any more are dropped, once the cache has grown past 600. */
  function Pruned(cache: Cache, now: int): Cache {
    if |cache| <= MAX_ENTRIES * 2 then cache
    else map message | message in cache && cache[message] >= now - CONNECTION_WINDOW :: cache[message]
  }

  function Newest(entries: seq<string>): seq<string> {
    if |entries| <= MAX_ENTRIES then entries else entries[..MAX_ENTRIES]
  }

  // ----- traces -----

  /** A call of `Add`, with the two clock readings it makes. */
  datatype Call = Call(message: string, now: int, pruneNow: int)

  predicate Monotone(calls: seq<Call>) {
    && (forall i | 0 <= i < |calls| :: calls[i].now <= calls[i].pruneNow)
    && (forall i, j | 0 <= i < j < |calls| :: calls[i].pruneNow <= calls[j].now)
  }

  /** `accepted` is every message let in, newest first. */
  datatype Log = Log(cache: Cache, entries: seq<string>, accepted: seq<string>)

  predicate Accepts(log: Log, call: Call) {
    !Blank(call.message) && !Suppressed(log.cache, call.message, call.now)
  }

  function Add(log: Log, call: Call, pruning: bool): Log {
    if !Accepts(log, call) then log
    else
      var cache := log.cache[call.message := call.now];
      Log(if pruning then Pruned(cache, call.pruneNow) else cache,
          Newest([call.message] + log.entries), [call.message] + log.accepted)
  }

  function Run(calls: seq<Call>, pruning: bool): Log
    decreases |calls|
  {
    if calls == [] then Log(map[], [], [])
    else Add(Run(calls[..|calls| - 1], pruning), calls[|calls| - 1], pruning)
  }

  // ----- pruning is unobservable -----

  /** The pruned cache lacks only entries that were out of every window at time `t`. */
  predicate Forgets(pruned: Cache, full: Cache, t: int) {
    && (forall m <- pruned :: m in full && full[m] == pruned[m])
    && (forall m <- full :: full[m] <= t && (m !in pruned ==> full[m] < t - CONNECTION_WINDOW))
  }

  lemma ForgettingIsInvisible(pruned: Cache, full: Cache, t: int, message: string, now: int)
    requires Forgets(pruned, full, t) && t <= now
    ensures Suppressed(pruned, message, now) <==> Suppressed(full, message, now)
  {
  }

  /** Past 600 entries pruning removes exactly those more than 12 seconds old, before that nothing. */
  lemma PruningIsBounded(cache: Cache, now: int, m: string)
    ensures |cache| <= 600 ==> Pruned(cache, now) == cache
    ensures |cache| > 600 ==> (m in Pruned(cache, now) <==> m in cache && now - cache[m] <= 12000)
    ensures m in Pruned(cache, now) ==> m in cache && Pruned(cache, now)[m] == cache[m]
  {
  }

  lemma AddForgets(pruned: Log, full: Log, t: int, call: Call)
    requires Forgets(pruned.cache, full.cache, t) && t <= call.now <= call.pruneNow
    ensures Accepts(pruned, call) <==> Accepts(full, call)
    ensures Forgets(Add(pruned, call, true).cache, Add(full, call, false).cache, call.pruneNow)
  {
    ForgettingIsInvisible(pruned.cache, full.cache, t, call.message, call.now);
  }

  lemma {:induction false} PruningSimulates(calls: seq<Call>)
    requires Monotone(calls)
    ensures Run(calls, true).accepted == Run(calls, false).accepted
    ensures Run(calls, true).entries == Run(calls, false).entries
    ensures calls != [] ==> Forgets(Run(calls, true).cache, Run(calls, false).cache, calls[|calls| - 1].pruneNow)
    decreases |calls|
  {
    if calls != [] {
      var before, call := calls[..|calls| - 1], calls[|calls| - 1];
      PruningSimulates(before);
      var t := if before == [] then call.now else before[|before| - 1].pruneNow;
      AddForgets(Run(before, true), Run(before, false), t, call);
    }
  }

  /** Call by call, the pruned log lets in exactly what a log that never prunes lets in. */
  lemma PruningIsUnobservable(calls: seq<Call>, k: nat)
    requires Monotone(calls) && k < |calls|
    ensures Accepts(Run(calls[..k], true), calls[k]) <==> Accepts(Run(calls[..k], false), calls[k])
  {
    PruningSimulates(calls[..k]);
    if k > 0 {
      ForgettingIsInvisible(Run(calls[..k], true).cache, Run(calls[..k], false).cache,
                            calls[k - 1].pruneNow, calls[k].message, calls[k].now);
    }
  }

  // ----- which messages are shown -----

  predicate AcceptedAt(calls: seq<Call>, j: nat, pruning: bool)
    requires j < |calls|
  {
    Accepts(Run(calls[..j], pruning), calls[j])
  }

  /** An earlier call with the same message that was let in. */
  predicate ShownBefore(calls: seq<Call>, j: nat, message: string, pruning: bool) {
    j < |calls| && calls[j].message == message && AcceptedAt(calls, j, pruning)
  }

  lemma PrefixAgrees(calls: seq<Call>, k: nat, j: nat, message: string, pruning: bool)
    requires j < k <= |calls|
    ensures ShownBefore(calls[..k], j, message, pruning) <==> ShownBefore(calls, j, message, pruning)
  {
    assert calls[..k][..j] == calls[..j];
  }

  /** Without pruning the cache holds the time of the latest showing of every message. */
  lemma {:induction false} CacheIsLatest(calls: seq<Call>, m: string)
    requires Monotone(calls)
    ensures var cache := Run(calls, false).cache;
            && (forall j | 0 <= j < |calls| && ShownBefore(calls, j, m, false) :: m in cache && calls[j].now <= cache[m])
            && (m in cache ==> exists j | 0 <= j < |calls| :: ShownBefore(calls, j, m, false) && calls[j].now == cache[m])
    decreases |calls|
  {
    if calls != [] {
      var k := |calls| - 1;
      var before, call := calls[..k], calls[k];
      CacheIsLatest(before, m);
      forall j | 0 <= j < k ensures ShownBefore(before, j, m, false) <==> ShownBefore(calls, j, m, false) {
        PrefixAgrees(calls, k, j, m, false);
      }
      assert ShownBefore(calls, k, m, false) <==> call.message == m && Accepts(Run(before, false), call);
    }
  }

  /** How long a repeat of the message is suppressed, in milliseconds. */
  function SilenceAfter(message: string): int {
    if Contains(Lower(message), "lost connection to server") || Contains(Lower(message), "connected to background server")
    then 12000 else 2000
  }

  lemma UnprunedVerdict(calls: seq<Call>, k: nat)
    requires Monotone(calls) && k < |calls|
    ensures AcceptedAt(calls, k, false) <==>
            && !Blank(calls[k].message)
            && forall j | 0 <= j < k && ShownBefore(calls, j, calls[k].message, false) ::
                 calls[k].now - calls[j].now >= SilenceAfter(calls[k].message)
  {
    var m := calls[k].message;
    CacheIsLatest(calls[..k], m);
    forall j | 0 <= j < k ensures ShownBefore(calls[..k], j, m, false) <==> ShownBefore(calls, j, m, false) {
      PrefixAgrees(calls, k, j, m, false);
    }
  }

  /**
   For every trace, with pruning or without: a message is shown exactly if it is not blank and
   every earlier showing of it is at least 2 seconds ago, or 12 for the two connection messages.
   */
  lemma ShownUnlessRepeated(calls: seq<Call>, k: nat, pruning: bool)
    requires Monotone(calls) && k < |calls|
    ensures AcceptedAt(calls, k, pruning) <==>
            && !Blank(calls[k].message)
            && forall j | 0 <= j < k && ShownBefore(calls, j, calls[k].message, pruning) ::
                 calls[k].now - calls[j].now >= SilenceAfter(calls[k].message)
  {
    UnprunedVerdict(calls, k);
    if pruning {
      forall j | 0 <= j <= k ensures AcceptedAt(calls, j, true) <==> AcceptedAt(calls, j, false) {
        PruningIsUnobservable(calls, j);
      }
      assert forall j | 0 <= j < k :: ShownBefore(calls, j, calls[k].message, true) <==> ShownBefore(calls, j, calls[k].message, false);
    }
  }

  /** Among ASCII characters exactly tab to carriage return and space are blank. */
  lemma AsciiBlanks(c: char)
    requires c as int < 128
    ensures Blank([c]) <==> c == ' ' || 9 <= c as int <= 13
  {
    assert [c][0] == c;
  }

  function ShownMessages(calls: seq<Call>, pruning: bool): seq<string>
    decreases |calls|
  {
    if calls == [] then []
    else
      var k := |calls| - 1;
      (if AcceptedAt(calls, k, pruning) then [calls[k].message] else []) + ShownMessages(calls[..k], pruning)
  }

  /** `accepted` is every message that was let in, newest first. */
  lemma {:induction false} AcceptedAreShown(calls: seq<Call>, pruning: bool)
    ensures Run(calls, pruning).accepted == ShownMessages(calls, pruning)
    decreases |calls|
  {
    if calls != [] {
      AcceptedAreShown(calls[..|calls| - 1], pruning);
    }
  }

  /** The list shows the newest 300 accepted messages, newest first. */
  lemma {:induction false} EntriesAreNewest(calls: seq<Call>, pruning: bool)
    ensures var log := Run(calls, pruning);
            log.entries == if |log.accepted| <= 300 then log.accepted else log.accepted[..300]
    decreases |calls|
  {
    if calls != [] {
      var before := calls[..|calls| - 1];
      EntriesAreNewest(before, pruning);
      var log, call := Run(before, pruning), calls[|calls| - 1];
      assert Newest([call.message] + log.entries) == Newest([call.message] + log.accepted);
    }
  }

  // ----- the service in place -----

  class NetworkLogService {
    var lastByMessage: Cache
    var entries: seq<string>
    ghost var accepted: seq<string>

    ghost function View(): Log
      reads this
    {
      Log(lastByMessage, entries, accepted)
    }

    constructor ()
      ensures View() == Log(map[], [], [])
    {
      lastByMessage, entries, accepted := map[], [], [];
    }

    method AddEntry(message: string, now: int, pruneNow: int)
      requires |entries| <= MAX_ENTRIES
      modifies this
      ensures View() == Add(old(View()), Call(message, now, pruneNow), true)
      ensures |entries| <= MAX_ENTRIES
    {
      if Blank(message) {
        return;
      }
      if message in lastByMessage && now - lastByMessage[message] < WindowFor(message) {
        return;
      }
      lastByMessage := lastByMessage[message := now];
      entries := [message] + entries;
      accepted := [message] + accepted;
      while |entries| > MAX_ENTRIES
        invariant |entries| >= MAX_ENTRIES ==> Newest(entries) == Newest([message] + old(entries))
        invariant |entries| < MAX_ENTRIES ==> entries == [message] + old(entries)
        invariant lastByMessage == old(lastByMessage)[message := now] && accepted == [message] + old(accepted)
        decreases |entries|
      {
        entries := entries[..|entries| - 1];
      }
      Prune(pruneNow);
    }

    method Prune(now: int)
      modifies this`lastByMessage
      ensures lastByMessage == Pruned(old(lastByMessage), now)
    {
      if |lastByMessage| <= MAX_ENTRIES * 2 {
        return;
      }
      var cutoff := now - CONNECTION_WINDOW;
      var expired: set<string> := {};
      var items := lastByMessage.Keys;
      while items != {}
        invariant items <= lastByMessage.Keys && expired <= lastByMessage.Keys
        invariant forall m <- lastByMessage :: m !in items ==> (m in expired <==> lastByMessage[m] < cutoff)
        invariant forall m <- expired :: m !in items
        decreases |items|
      {
        var m :| m in items;
        if lastByMessage[m] < cutoff {
          expired := expired + {m};
        }
        items := items - {m};
      }
      lastByMessage := lastByMessage - expired;
    }
  }
}
