/**
 The chunk loop of the Windows uploader with its bounded retry, and the size limits that the
 Windows and iOS senders check. The network is an arbitrary function of chunk and attempt.
 */
module ChunkUpload {
  import opened Common

  const MAX_CHUNKS_PER_FILE := 10000
  const MAX_FILE_BYTES := 107374182400
  const MAX_ATTEMPTS := 4

  // ----- size limits -----

  /** None where the original throws. */
  function MaximumFileBytes(chunkSize: int): Option<int> {
    if chunkSize <= 0 then None else Some(Min(MAX_FILE_BYTES, MAX_CHUNKS_PER_FILE * chunkSize))
  }

  /** The Windows sender's checks on one file. */
  predicate WindowsAccepts(size: int, chunkSize: nat)
    requires chunkSize > 0
  {
    0 < size <= MAX_FILE_BYTES && size <= MaximumFileBytes(chunkSize).value
  }

  /** The iOS sender's check on one file. */
  predicate PhoneAccepts(size: nat, chunkSize: nat)
    requires chunkSize > 0
  {
    !(size > MAX_FILE_BYTES || TotalChunks(size, chunkSize) > MAX_CHUNKS_PER_FILE)
  }

  lemma CeilingBound(size: nat, chunkSize: nat, n: nat)
    requires chunkSize > 0
    ensures TotalChunks(size, chunkSize) <= n <==> size <= n * chunkSize
  {
    var q := TotalChunks(size, chunkSize);
    var r := (size + chunkSize - 1) % chunkSize;
    assert size + chunkSize - 1 == q * chunkSize + r;
    if q <= n {
      assert q * chunkSize <= n * chunkSize;
    } else {
      assert (n + 1) * chunkSize <= q * chunkSize;
    }
  }

  /** Both senders accept the same positive sizes, and then at most 10,000 chunks are needed. */
  lemma LimitsAgree(size: nat, chunkSize: nat)
    requires chunkSize > 0 && size > 0
    ensures WindowsAccepts(size, chunkSize) <==> PhoneAccepts(size, chunkSize)
    ensures WindowsAccepts(size, chunkSize) <==> size <= 107374182400 && size <= 10000 * chunkSize
    ensures WindowsAccepts(size, chunkSize) ==> 1 <= TotalChunks(size, chunkSize) <= 10000
  {
    CeilingBound(size, chunkSize, MAX_CHUNKS_PER_FILE);
    CeilingBound(size, chunkSize, 0);
  }

  // ----- the chunks of a file -----

  function Needed(size: nat, chunkSize: nat, index: nat): int {
    Min(chunkSize, size - index * chunkSize)
  }

  /** Chunks are not empty, start where the previous one ended, and the last one ends at `size`. */
  lemma ChunksPartition(size: nat, chunkSize: nat, index: nat)
    requires chunkSize > 0 && index < TotalChunks(size, chunkSize)
    ensures 0 < Needed(size, chunkSize, index) <= chunkSize
    ensures index * chunkSize + Needed(size, chunkSize, index) ==
            if index + 1 < TotalChunks(size, chunkSize) then (index + 1) * chunkSize else size
  {
    CeilingBound(size, chunkSize, index);
    CeilingBound(size, chunkSize, index + 1);
    assert (index + 1) * chunkSize == index * chunkSize + chunkSize;
  }

  // ----- one chunk -----

  datatype Response =
    | Success(filename: Option<string>, skipped: bool)
    | Status(code: int)
    | NetworkError
    | TlsError
    | Cancelled

  type Network = (nat, nat) -> Response

  predicate RetryableStatus(code: int) {
    code == 408 || code == 429 || code == 500 || code == 502 || code == 503 || code == 504
  }

  predicate Retryable(r: Response) {
    r.NetworkError? || (r.Status? && RetryableStatus(r.code))
  }

  /** The attempt that decides the chunk: the first one not worth repeating, or the fourth. */
  function Deciding(network: Network, index: nat, attempt: nat): (k: nat)
    requires attempt < MAX_ATTEMPTS
    ensures attempt <= k < MAX_ATTEMPTS
    ensures k < MAX_ATTEMPTS - 1 ==> !Retryable(network(index, k))
    ensures forall j | attempt <= j < k :: Retryable(network(index, j))
    decreases MAX_ATTEMPTS - attempt
  {
    if attempt == MAX_ATTEMPTS - 1 || !Retryable(network(index, attempt)) then attempt
    else Deciding(network, index, attempt + 1)
  }

  function Decision(network: Network, index: nat): Response {
    network(index, Deciding(network, index, 0))
  }

  /** Worth another attempt: a connection that failed, or a status that says to come back. */
  predicate Transient(r: Response) {
    r == NetworkError || (r.Status? && r.code in {408, 429, 500, 502, 503, 504})
  }

  lemma TransientIsRetried(r: Response)
    ensures Retryable(r) <==> Transient(r)
  {
  }

  /** Attempt `k` is made exactly if `k` is below four and all attempts before it were transient failures. */
  lemma AttemptsFollowFailures(network: Network, index: nat, k: nat)
    ensures k <= Deciding(network, index, 0) <==> k < 4 && forall j | 0 <= j < k :: Transient(network(index, j))
  {
    TransientIsRetried(network(index, Deciding(network, index, 0)));
    forall j | 0 <= j < k ensures Retryable(network(index, j)) <==> Transient(network(index, j)) {
      TransientIsRetried(network(index, j));
    }
  }

  datatype Sent = Sent(index: nat, attempt: nat)

  method SendChunkWithRetry(network: Network, index: nat) returns (response: Response, log: seq<Sent>)
    ensures response == Decision(network, index)
    ensures |log| == Deciding(network, index, 0) + 1 <= 4
    ensures forall k | 0 <= k < |log| :: log[k] == Sent(index, k)
  {
    log := [];
    var attempt := 0;
    while true
      invariant 0 <= attempt < MAX_ATTEMPTS && |log| == attempt
      invariant forall k | 0 <= k < |log| :: log[k] == Sent(index, k)
      invariant Deciding(network, index, 0) == Deciding(network, index, attempt)
      decreases MAX_ATTEMPTS - attempt
    {
      log := log + [Sent(index, attempt)];
      response := network(index, attempt);
      match response {
        case Status(code) =>
          if attempt >= 3 || !RetryableStatus(code) {
            return;
          }
        case NetworkError =>
          if attempt >= 3 {
            return;
          }
        case _ => return;
      }
      attempt := attempt + 1;
    }
  }

  // ----- one file -----

  datatype Outcome = Finished(skipped: bool, savedName: Option<string>) | Broken(index: nat, response: Response)

  /** All chunks before `n` succeed. */
  predicate AllSucceed(network: Network, n: nat) {
    forall i | 0 <= i < n :: Decision(network, i).Success?
  }

  /** The last file name the receiver gave in the first `n` replies. */
  function LastName(network: Network, n: nat): Option<string> {
    if n == 0 then None
    else if Decision(network, n - 1).Success? && Decision(network, n - 1).filename.Some?
    then Decision(network, n - 1).filename else LastName(network, n - 1)
  }

  /** The name is that of the last reply that gave one. */
  lemma {:induction false} LastNameIsLast(network: Network, n: nat, i: nat)
    requires AllSucceed(network, n) && i < n && Decision(network, i).filename.Some?
    requires forall j | i < j < n :: Decision(network, j).filename.None?
    ensures LastName(network, n) == Decision(network, i).filename
  {
    if i < n - 1 {
      LastNameIsLast(network, n - 1, i);
    }
  }

  lemma {:induction false} NoNameAtAll(network: Network, n: nat)
    requires AllSucceed(network, n) && forall j | 0 <= j < n :: Decision(network, j).filename.None?
    ensures LastName(network, n) == None
  {
    if n > 0 {
      NoNameAtAll(network, n - 1);
    }
  }

  /** Chunks are sent in order, each at most four times. */
  predicate LogInv(log: seq<Sent>, n: nat) {
    && (forall k | 0 <= k < |log| :: log[k].index < n && log[k].attempt < 4)
    && (forall j, k | 0 <= j < k < |log| ::
          log[j].index < log[k].index || (log[j].index == log[k].index && log[j].attempt < log[k].attempt))
  }

  /** Everything that is sent for chunk `index`: all attempts up to the deciding one. */
  function ChunkAttempts(network: Network, index: nat): seq<Sent> {
    seq(Deciding(network, index, 0) + 1, k requires 0 <= k => Sent(index, k))
  }

  /** Everything that is sent for the first `n` chunks. */
  function Attempts(network: Network, n: nat): seq<Sent> {
    if n == 0 then [] else Attempts(network, n - 1) + ChunkAttempts(network, n - 1)
  }

  /** What is sent goes through the chunks in order, each at most four times. */
  lemma {:induction false} AttemptsAreOrdered(network: Network, n: nat)
    ensures LogInv(Attempts(network, n), n)
  {
    if n > 0 {
      AttemptsAreOrdered(network, n - 1);
      LogAppend(Attempts(network, n - 1), ChunkAttempts(network, n - 1), n - 1);
    }
  }

  /**
   `acknowledged` are the byte counts passed to the progress callback. A finished file has had
   every chunk acknowledged exactly once, together exactly its size. `log` is exactly what the
   replies call for: no chunk is sent more than four times, nor again once acknowledged.
   */
  method UploadFile(network: Network, size: nat, chunkSize: nat)
    returns (outcome: Outcome, acknowledged: seq<int>, log: seq<Sent>)
    requires chunkSize > 0
    ensures |acknowledged| <= TotalChunks(size, chunkSize)
    ensures forall i | 0 <= i < |acknowledged| :: acknowledged[i] == Needed(size, chunkSize, i)
    ensures AllSucceed(network, |acknowledged|)
    ensures log == Attempts(network, |acknowledged| + if outcome.Broken? then 1 else 0)
    ensures LogInv(log, TotalChunks(size, chunkSize))
    ensures outcome.Finished? <==> AllSucceed(network, TotalChunks(size, chunkSize))
    ensures outcome.Finished? ==> |acknowledged| == TotalChunks(size, chunkSize) && Sum(acknowledged) == size
    ensures outcome.Finished? ==> outcome.savedName == LastName(network, TotalChunks(size, chunkSize))
    ensures outcome.Finished? && size > 0 ==> outcome.skipped == Decision(network, TotalChunks(size, chunkSize) - 1).skipped
    ensures outcome.Broken? ==> outcome.index == |acknowledged| < TotalChunks(size, chunkSize)
                                && outcome.response == Decision(network, outcome.index) && !outcome.response.Success?
  {
    var totalChunks := TotalChunks(size, chunkSize);
    CeilingBound(size, chunkSize, 0);
    acknowledged, log := [], [];
    var savedName, skipped := None, false;
    for index := 0 to totalChunks
      invariant |acknowledged| == index && AllSucceed(network, index)
      invariant forall i | 0 <= i < index :: acknowledged[i] == Needed(size, chunkSize, i)
      invariant Sum(acknowledged) == Min(size, index * chunkSize)
      invariant log == Attempts(network, index)
      invariant savedName == LastName(network, index)
      invariant index > 0 ==> skipped == Decision(network, index - 1).skipped
    {
      var needed := Min(chunkSize, size - index * chunkSize);
      ChunksPartition(size, chunkSize, index);
      var response, attempts := SendChunkWithRetry(network, index);
      AttemptsStep(network, index, attempts);
      log := log + attempts;
      if !response.Success? {
        BrokenLog(network, index, totalChunks);
        return Broken(index, response), acknowledged, log;
      }
      SumAppend(acknowledged, needed);
      SumStep(size, chunkSize, index);
      acknowledged := acknowledged + [needed];
      if response.filename.Some? {
        savedName := response.filename;
      }
      skipped := response.skipped;
    }
    CeilingBound(size, chunkSize, totalChunks);
    AttemptsAreOrdered(network, totalChunks);
    outcome := Finished(skipped, savedName);
  }

  lemma AttemptsStep(network: Network, index: nat, attempts: seq<Sent>)
    requires |attempts| == Deciding(network, index, 0) + 1
    requires forall k | 0 <= k < |attempts| :: attempts[k] == Sent(index, k)
    ensures Attempts(network, index) + attempts == Attempts(network, index + 1)
  {
    assert attempts == ChunkAttempts(network, index);
  }

  lemma BrokenLog(network: Network, index: nat, n: nat)
    requires index < n
    ensures LogInv(Attempts(network, index + 1), n)
  {
    AttemptsAreOrdered(network, index + 1);
  }

  lemma LogAppend(log: seq<Sent>, attempts: seq<Sent>, index: nat)
    requires LogInv(log, index) && |attempts| <= MAX_ATTEMPTS
    requires forall k | 0 <= k < |attempts| :: attempts[k] == Sent(index, k)
    ensures LogInv(log + attempts, index + 1)
  {
  }

  function Sum(s: seq<int>): int {
    if s == [] then 0 else s[0] + Sum(s[1..])
  }

  lemma {:induction false} SumAppend(s: seq<int>, x: int)
    ensures Sum(s + [x]) == Sum(s) + x
  {
    if s == [] {
      assert s + [x] == [x];
    } else {
      assert (s + [x])[1..] == s[1..] + [x];
      SumAppend(s[1..], x);
    }
  }

  lemma SumStep(size: nat, chunkSize: nat, index: nat)
    requires chunkSize > 0 && index < TotalChunks(size, chunkSize)
    ensures Min(size, index * chunkSize) + Needed(size, chunkSize, index) == Min(size, (index + 1) * chunkSize)
  {
    CeilingBound(size, chunkSize, index);
    assert (index + 1) * chunkSize == index * chunkSize + chunkSize;
  }
}
