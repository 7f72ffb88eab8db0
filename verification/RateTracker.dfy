/**
 The rolling acknowledged-rate tracker of the Windows client. `NativeTransferRateTracker`
 keeps a trimmed queue and running sums; the specification is stated over the full history.
 Clock ticks are tenths of a microsecond; rates are reals.
 */
module RateTracker {
  import opened Common

  const TICKS_PER_SECOND := 10_000_000
  const WINDOW_TICKS := 50_000_000

  datatype Ack = Ack(bytes: nat, ticks: int)

  /** A history: positive acknowledgements under a clock that never runs backwards. */
  predicate History(h: seq<Ack>) {
    && (forall i | 0 <= i < |h| :: h[i].bytes > 0)
    && (forall i, j | 0 <= i <= j < |h| :: h[i].ticks <= h[j].ticks)
  }

  // ----- the specification over the full history -----

  function TotalBytes(h: seq<Ack>): nat {
    if h == [] then 0 else h[0].bytes + TotalBytes(h[1..])
  }

  /** Bytes acknowledged less than five seconds before `now`. */
  function WindowBytes(h: seq<Ack>, now: int): nat {
    if h == [] then 0
    else (if now - h[0].ticks < WINDOW_TICKS then h[0].bytes else 0) + WindowBytes(h[1..], now)
  }

  function ClampedSeconds(elapsedTicks: int): (r: real)
    ensures 0.001 <= r <= 5.0
  {
    var seconds := elapsedTicks as real / TICKS_PER_SECOND as real;
    var capped := if seconds < 5.0 then seconds else 5.0;
    if capped > 0.001 then capped else 0.001
  }

  function RateFor(bytes: int, started: int, now: int): real {
    bytes as real / ClampedSeconds(now - started) / 1000000.0
  }

  /** Megabytes per second over the time since the start, taken as at least 1 ms and at most 5 s. */
  lemma RateIsBytesOverTime(bytes: int, started: int, now: int)
    ensures var rate, ticks := RateFor(bytes, started, now), now - started;
            && (ticks >= 50_000_000 ==> rate * 5000000.0 == bytes as real)
            && (10_000 <= ticks <= 50_000_000 ==> rate * ticks as real == 10.0 * bytes as real)
            && (ticks <= 10_000 ==> rate * 1000.0 == bytes as real)
  {
    var ticks := now - started;
    var seconds := ticks as real / 10000000.0;
    if 10_000 <= ticks <= 50_000_000 {
      assert ClampedSeconds(ticks) == seconds;
      QuotientTimesDivisor(bytes as real, seconds);
    }
  }

  /** The rate computed at the last acknowledgement of `h`. */
  function LastRate(h: seq<Ack>, started: int): real {
    if h == [] then 0.0
    else RateFor(WindowBytes(h, h[|h| - 1].ticks), started, h[|h| - 1].ticks)
  }

  /** The largest rate computed after any acknowledgement so far. */
  function Peak(h: seq<Ack>, started: int): (peak: real)
    ensures peak >= 0.0
    decreases |h|
  {
    if h == [] then 0.0
    else
      var before := Peak(h[..|h| - 1], started);
      if LastRate(h, started) > before then LastRate(h, started) else before
  }

  /** `Peak` is the maximum: an upper bound of all rates so far, and one of them. */
  lemma {:induction false} PeakIsMaximum(h: seq<Ack>, started: int, k: nat)
    requires k <= |h|
    ensures LastRate(h[..k], started) <= Peak(h, started)
    ensures exists i | 0 <= i <= |h| :: LastRate(h[..i], started) == Peak(h, started)
    decreases |h|
  {
    if h == [] {
      assert h[..0] == h;
    } else {
      var front := h[..|h| - 1];
      assert h[..|h|] == h;
      PeakIsMaximum(front, started, if k < |h| then k else 0);
      assert k < |h| ==> front[..k] == h[..k];
      if LastRate(h, started) <= Peak(front, started) {
        var i :| 0 <= i <= |front| && LastRate(front[..i], started) == Peak(front, started);
        assert front[..i] == h[..i];
      }
    }
  }

  /** How long the last rate may be shown, in milliseconds. */
  function StaleAfterMs(rate: real): (ms: real)
    requires rate > 0.0
    ensures 5000.0 <= ms <= 30000.0
  {
    var ms := 2.0 * 8.0 * 1024.0 * 1024.0 / (rate * 1000000.0) * 1000.0;
    if ms < 5000.0 then 5000.0 else if ms > 30000.0 then 30000.0 else ms
  }

  /** The time two chunks of 8 MiB take at that rate, within 5 and 30 seconds. */
  lemma StaleAfterTwoChunks(rate: real)
    requires rate > 0.0
    ensures rate * 5000.0 >= 16777.216 ==> StaleAfterMs(rate) == 5000.0
    ensures rate * 30000.0 <= 16777.216 ==> StaleAfterMs(rate) == 30000.0
    ensures rate * 5000.0 <= 16777.216 <= rate * 30000.0 ==> StaleAfterMs(rate) * rate == 16777.216
  {
    var ms := 2.0 * 8.0 * 1024.0 * 1024.0 / (rate * 1000000.0) * 1000.0;
    assert ms * rate == 16777.216 by {
      QuotientTimesDivisor(16777216.0, rate * 1000000.0);
    }
    ScalingKeepsOrder(ms, 5000.0, rate);
    ScalingKeepsOrder(5000.0, ms, rate);
    ScalingKeepsOrder(ms, 30000.0, rate);
    ScalingKeepsOrder(30000.0, ms, rate);
  }

  /** What is shown at `now`: the last rate while it is fresh, else nothing. */
  function CurrentRate(h: seq<Ack>, started: int, now: int): real {
    if h == [] || h[|h| - 1].ticks == 0 || LastRate(h, started) <= 0.0 then 0.0
    else if (now - h[|h| - 1].ticks) as real / 10000.0 <= StaleAfterMs(LastRate(h, started))
    then LastRate(h, started) else 0.0
  }

  /** After an acknowledgement the rate is shown for at least 5 seconds and at most 30, then 0. */
  lemma RateIsShownThenZero(h: seq<Ack>, started: int, now: int)
    requires h != [] && h[|h| - 1].ticks != 0 && LastRate(h, started) >= 0.0
    ensures now - h[|h| - 1].ticks <= 50_000_000 ==> CurrentRate(h, started, now) == LastRate(h, started)
    ensures now - h[|h| - 1].ticks > 300_000_000 ==> CurrentRate(h, started, now) == 0.0
    ensures LastRate(h, started) > 0.0 ==>
              (CurrentRate(h, started, now) == LastRate(h, started) <==>
               (now - h[|h| - 1].ticks) as real <= StaleAfterMs(LastRate(h, started)) * 10000.0)
  {
  }

  lemma CurrentNeverExceedsPeak(h: seq<Ack>, started: int, now: int)
    ensures 0.0 <= CurrentRate(h, started, now) <= Peak(h, started)
  {
    if h != [] {
      PeakIsMaximum(h, started, |h|);
      assert h[..|h|] == h;
    }
  }

  lemma PeakStep(h: seq<Ack>, a: Ack, started: int, rate: real, peak: real)
    requires rate == RateFor(WindowBytes(h + [a], a.ticks), started, a.ticks) && peak == Peak(h, started)
    ensures rate == LastRate(h + [a], started)
    ensures (if rate > peak then rate else peak) == Peak(h + [a], started)
  {
    assert (h + [a])[..|h|] == h;
  }

  // ----- sums -----

  lemma {:induction false} TotalAppend(h: seq<Ack>, a: Ack)
    ensures TotalBytes(h + [a]) == TotalBytes(h) + a.bytes
  {
    if h == [] {
      assert h + [a] == [a];
    } else {
      assert (h + [a])[1..] == h[1..] + [a];
      TotalAppend(h[1..], a);
    }
  }

  lemma AppendKeepsHistory(h: seq<Ack>, a: Ack)
    requires History(h) && a.bytes > 0 && forall i | 0 <= i < |h| :: h[i].ticks <= a.ticks
    ensures History(h + [a])
  {
  }

  lemma AppendToBoth(h: seq<Ack>, k: nat, a: Ack)
    requires k <= |h|
    ensures h[k..] + [a] == (h + [a])[k..]
    ensures TotalBytes(h + [a]) == TotalBytes(h) + a.bytes
    ensures TotalBytes((h + [a])[k..]) == TotalBytes(h[k..]) + a.bytes
  {
    assert h[k..] + [a] == (h + [a])[k..];
    TotalAppend(h, a);
    TotalAppend(h[k..], a);
  }

  /** The stale acknowledgements form a prefix; the window is the total of the rest. */
  lemma {:induction false} WindowIsSuffix(h: seq<Ack>, k: nat, now: int)
    requires k <= |h|
    requires forall i | 0 <= i < k :: now - h[i].ticks >= 50_000_000
    requires forall i | k <= i < |h| :: now - h[i].ticks < 50_000_000
    ensures WindowBytes(h, now) == TotalBytes(h[k..])
  {
    if h == [] {
      assert h[k..] == [];
    } else if k > 0 {
      WindowIsSuffix(h[1..], k - 1, now);
      assert h[1..][k - 1..] == h[k..];
    } else {
      WindowIsSuffix(h[1..], 0, now);
      assert h[1..][0..] == h[1..] && h[0..] == h;
    }
  }

  // ----- the tracker in place -----

  class NativeTransferRateTracker {
    const startedTicks: int
    var samples: seq<Ack>
    var activeBytes: int
    var lastAcknowledgementTicks: int
    var lastRate: real
    var acknowledgedBytes: int
    var peak: real
    ghost var history: seq<Ack>
    ghost var trimmed: nat

    /** The queue is the history without some acknowledgements that are stale at `now`. */
    ghost predicate Loaded(now: int)
      reads `history, `trimmed, `samples, `acknowledgedBytes, `activeBytes
    {
      && History(history) && trimmed <= |history| && samples == history[trimmed..]
      && acknowledgedBytes == TotalBytes(history) && activeBytes == TotalBytes(samples)
      && (forall i | 0 <= i < trimmed :: now - history[i].ticks >= WINDOW_TICKS)
    }

    /** The queue is the part of the history that is younger than the window at `now`. */
    ghost predicate QueueValid(now: int)
      reads `history, `trimmed, `samples, `acknowledgedBytes, `activeBytes
    {
      && Loaded(now)
      && (forall i | trimmed <= i < |history| :: now - history[i].ticks < WINDOW_TICKS)
      && activeBytes == WindowBytes(history, now)
    }

    /** The incremental fields agree with the full history. */
    ghost predicate Valid()
      reads this
    {
      && QueueValid(lastAcknowledgementTicks)
      && lastAcknowledgementTicks == (if history == [] then 0 else history[|history| - 1].ticks)
      && RatesValid()
    }

    ghost predicate RatesValid()
      reads `lastRate, `peak, `history
    {
      lastRate == LastRate(history, startedTicks) && peak == Peak(history, startedTicks)
    }

    constructor (started: int)
      ensures Valid() && history == [] && startedTicks == started
    {
      startedTicks := started;
      samples, activeBytes, lastAcknowledgementTicks, lastRate, acknowledgedBytes, peak := [], 0, 0, 0.0, 0, 0.0;
      history, trimmed := [], 0;
    }

    method Append(bytes: nat, ticks: int)
      requires Loaded(ticks) && bytes > 0 && forall i | 0 <= i < |history| :: history[i].ticks <= ticks
      modifies this`samples, this`activeBytes, this`acknowledgedBytes, this`history
      ensures Loaded(ticks) && history == old(history) + [Ack(bytes, ticks)]
    {
      var ack := Ack(bytes, ticks);
      AppendKeepsHistory(history, ack);
      AppendToBoth(history, trimmed, ack);
      acknowledgedBytes := acknowledgedBytes + bytes;
      activeBytes := activeBytes + bytes;
      samples := samples + [ack];
      history := history + [ack];
    }

    /** Drops what has fallen out of the window. */
    method Trim(ticks: int)
      requires Loaded(ticks)
      modifies this`samples, this`activeBytes, this`trimmed
      ensures QueueValid(ticks)
    {
      while |samples| > 0 && ticks - samples[0].ticks >= WINDOW_TICKS
        invariant Loaded(ticks)
        decreases |samples|
      {
        activeBytes := activeBytes - samples[0].bytes;
        samples := samples[1..];
        trimmed := trimmed + 1;
      }
      forall i | trimmed <= i < |history| ensures ticks - history[i].ticks < WINDOW_TICKS {
        assert samples[0] == history[trimmed];
      }
      WindowIsSuffix(history, trimmed, ticks);
    }

    method Enqueue(bytes: nat, ticks: int, ghost before: int)
      requires QueueValid(before) && bytes > 0 && (history != [] ==> before <= ticks)
      requires forall i | 0 <= i < |history| :: history[i].ticks <= ticks
      modifies `samples, `activeBytes, `trimmed, `acknowledgedBytes, `history
      ensures QueueValid(ticks) && history == old(history) + [Ack(bytes, ticks)]
    {
      Append(bytes, ticks);
      Trim(ticks);
    }

    method Acknowledge(bytes: int, ticks: int)
      requires Valid() && (history == [] || history[|history| - 1].ticks <= ticks)
      modifies this
      ensures Valid()
      ensures history == if bytes <= 0 then old(history) else old(history) + [Ack(bytes, ticks)]
    {
      if bytes <= 0 {
        return;
      }
      Enqueue(bytes, ticks, lastAcknowledgementTicks);
      UpdateRates(old(history), Ack(bytes, ticks));
      lastAcknowledgementTicks := ticks;
    }

    method UpdateRates(ghost before: seq<Ack>, ack: Ack)
      requires history == before + [ack] && activeBytes == WindowBytes(history, ack.ticks)
      requires peak == Peak(before, startedTicks)
      modifies this`lastRate, this`peak
      ensures RatesValid()
    {
      lastRate := RateFor(activeBytes, startedTicks, ack.ticks);
      PeakStep(before, ack, startedTicks, lastRate, peak);
      peak := if lastRate > peak then lastRate else peak;
    }

    method CurrentMBps(ticks: int) returns (rate: real)
      requires Valid()
      ensures rate == CurrentRate(history, startedTicks, ticks) && 0.0 <= rate <= peak
    {
      CurrentNeverExceedsPeak(history, startedTicks, ticks);
      if lastAcknowledgementTicks == 0 || lastRate <= 0.0 {
        return 0.0;
      }
      var staleAfterMs := StaleAfterMs(lastRate);
      rate := if (ticks - lastAcknowledgementTicks) as real / 10000.0 <= staleAfterMs then lastRate else 0.0;
    }
  }
}
