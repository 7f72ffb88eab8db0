/**
 Result accounting of `NativeTransferClient.SendAsync`: the duplicate preflight, then the
 worker pool whose items each write one result and bump the shared `terminal` counter.
 The two writes and the return from the worker body are separate steps.
 */
module TransferSession {
  import opened Common
  import P = WorkerPool

  /** File ids are compared and nothing else. */
  datatype FileId = FileId(token: nat)

  datatype Source = Source(id: FileId, name: string)

  datatype FileState = Skipped | Completed | Failed | Cancelled

  datatype FileResult = FileResult(id: FileId, name: string, state: FileState)

  /** One entry of the `/upload/preflight/verify` reply. */
  datatype Verdict = Verdict(id: FileId, skip: bool)

  predicate DistinctIds(sources: seq<Source>) {
    forall i, j | 0 <= i < j < |sources| :: sources[i].id != sources[j].id
  }

  ghost function Ids(sources: seq<Source>): set<FileId> {
    set s | s in sources :: s.id
  }

  // ----- preflight -----

  ghost function SkipIds(reply: seq<Verdict>): seq<FileId> {
    if reply == [] then []
    else if reply[0].skip then [reply[0].id] + SkipIds(reply[1..])
    else SkipIds(reply[1..])
  }

  lemma {:induction false} SkipIdsConcat(a: seq<Verdict>, b: seq<Verdict>)
    ensures SkipIds(a + b) == SkipIds(a) + SkipIds(b)
  {
    if a == [] {
      assert a + b == b;
    } else {
      assert (a + b)[1..] == a[1..] + b;
      SkipIdsConcat(a[1..], b);
    }
  }

  /** The source a reply entry names, or None where the original lookup throws. */
  method FindSource(sources: seq<Source>, id: FileId) returns (found: Option<Source>)
    ensures found.Some? <==> id in Ids(sources)
    ensures found.Some? ==> found.value in sources && found.value.id == id
  {
    for i := 0 to |sources|
      invariant forall j | 0 <= j < i :: sources[j].id != id
    {
      if sources[i].id == id {
        return Some(sources[i]);
      }
    }
    return None;
  }

  /**
   The reply loop of `NativeDuplicatePreflight.RunAsync`. `terminal` counts the entries
   acted on, so it equals the number of skipped files exactly when no id is named twice.
   */
  method RecordSkips(sources: seq<Source>, reply: seq<Verdict>)
    returns (ok: bool, results: map<FileId, FileResult>, skipped: set<FileId>, terminal: nat)
    ensures ok <==> forall id <- SkipIds(reply) :: id in Ids(sources)
    ensures results.Keys == skipped
    ensures forall id <- results :: results[id].id == id && results[id].state == Skipped
    ensures ok ==> skipped == Members(SkipIds(reply)) && terminal == |SkipIds(reply)|
    ensures ok ==> (terminal == |skipped| <==> Distinct(SkipIds(reply)))
    ensures ok && DistinctIds(sources) ==> Prepared(sources, reply, results)
  {
    results, skipped, terminal := map[], {}, 0;
    for k := 0 to |reply|
      invariant results.Keys == skipped
      invariant forall id <- results :: results[id].id == id && results[id].state == Skipped
      invariant skipped == Members(SkipIds(reply[..k]))
      invariant terminal == |SkipIds(reply[..k])|
      invariant forall id <- SkipIds(reply[..k]) :: id in Ids(sources)
      invariant DistinctIds(sources) ==> Faithful(sources, results)
    {
      assert reply[..k + 1] == reply[..k] + [reply[k]];
      SkipIdsConcat(reply[..k], [reply[k]]);
      if reply[k].skip {
        var source := FindSource(sources, reply[k].id);
        if source.None? {
          assert reply == reply[..k] + reply[k..];
          SkipIdsConcat(reply[..k], reply[k..]);
          assert reply[k].id in SkipIds(reply);
          return false, results, skipped, terminal;
        }
        results := results[reply[k].id := FileResult(reply[k].id, source.value.name, Skipped)];
        skipped := skipped + {reply[k].id};
        terminal := terminal + 1;
      }
    }
    assert reply[..|reply|] == reply;
    DistinctMeansCountable(SkipIds(reply));
    ok := true;
  }

  ghost function Members(ids: seq<FileId>): set<FileId> { set id | id in ids }

  lemma DistinctTail(ids: seq<FileId>)
    requires ids != []
    ensures Members(ids) == Members(ids[1..]) + {ids[0]}
    ensures Distinct(ids) <==> Distinct(ids[1..]) && ids[0] !in Members(ids[1..])
  {
    var rest := ids[1..];
    assert forall i | 0 <= i < |rest| :: rest[i] == ids[i + 1];
    if ids[0] in Members(rest) {
      var j :| 0 <= j < |rest| && rest[j] == ids[0];
      assert ids[0] == ids[j + 1];
    }
    forall i, j | 0 <= i < j < |rest| && rest[i] == rest[j] ensures ids[i + 1] == ids[j + 1] {
    }
  }

  lemma {:induction false} DistinctMeansCountable(ids: seq<FileId>)
    ensures |Members(ids)| <= |ids|
    ensures |Members(ids)| == |ids| <==> Distinct(ids)
  {
    if ids != [] {
      DistinctMeansCountable(ids[1..]);
      DistinctTail(ids);
      if ids[0] in Members(ids[1..]) {
        assert Members(ids) == Members(ids[1..]);
      }
    }
  }

  function Pending(sources: seq<Source>, skipped: set<FileId>): seq<Source> {
    if sources == [] then []
    else if sources[0].id in skipped then Pending(sources[1..], skipped)
    else [sources[0]] + Pending(sources[1..], skipped)
  }

  lemma {:induction false} PendingMembers(sources: seq<Source>, skipped: set<FileId>)
    ensures forall s :: s in Pending(sources, skipped) <==> s in sources && s.id !in skipped
  {
    if sources != [] {
      PendingMembers(sources[1..], skipped);
      assert sources == [sources[0]] + sources[1..];
    }
  }

  lemma FirstIdIsNew(sources: seq<Source>)
    requires DistinctIds(sources) && sources != []
    ensures Ids(sources) == {sources[0].id} + Ids(sources[1..]) && sources[0].id !in Ids(sources[1..])
    ensures DistinctIds(sources[1..])
  {
    assert sources == [sources[0]] + sources[1..];
  }

  lemma {:induction false} PendingIsDistinct(sources: seq<Source>, skipped: set<FileId>)
    requires DistinctIds(sources)
    ensures DistinctIds(Pending(sources, skipped))
  {
    if sources != [] {
      FirstIdIsNew(sources);
      PendingIsDistinct(sources[1..], skipped);
      PendingMembers(sources[1..], skipped);
      var tail := Pending(sources[1..], skipped);
      forall s <- tail ensures s.id != sources[0].id {
        assert s in sources[1..] && s.id in Ids(sources[1..]);
      }
      DistinctCons(sources[0], tail);
    }
  }

  lemma DistinctCons(first: Source, rest: seq<Source>)
    requires DistinctIds(rest) && forall s <- rest :: s.id != first.id
    ensures DistinctIds([first] + rest)
  {
    var all := [first] + rest;
    forall i, j | 0 <= i < j < |all| ensures all[i].id != all[j].id {
      assert all[j] == rest[j - 1] && rest[j - 1] in rest;
    }
  }

  /** Every source is either skipped or pending, never both. */
  lemma {:induction false} PendingPartitions(sources: seq<Source>, skipped: set<FileId>)
    requires DistinctIds(sources) && skipped <= Ids(sources)
    ensures |sources| == |skipped| + |Pending(sources, skipped)|
    ensures forall s <- sources :: s.id in skipped <==> s !in Pending(sources, skipped)
  {
    PendingMembers(sources, skipped);
    if sources == [] {
      assert skipped == {};
    } else {
      FirstIdIsNew(sources);
      var rest, left := sources[1..], skipped - {sources[0].id};
      assert left <= Ids(rest);
      SamePending(rest, skipped, left);
      PendingPartitions(rest, left);
      CountWithout(skipped, sources[0].id);
    }
  }

  lemma CountWithout(ids: set<FileId>, id: FileId)
    ensures |ids| == |ids - {id}| + (if id in ids then 1 else 0)
  {
    assert id in ids ==> ids == (ids - {id}) + {id};
    assert id !in ids ==> ids == ids - {id};
  }

  lemma {:induction false} SamePending(sources: seq<Source>, a: set<FileId>, b: set<FileId>)
    requires forall id <- Ids(sources) :: id in a <==> id in b
    ensures Pending(sources, a) == Pending(sources, b)
  {
    if sources != [] {
      assert sources[0] in sources && forall s <- sources[1..] :: s in sources;
      SamePending(sources[1..], a, b);
    }
  }

  // ----- the upload phase -----

  /** How far a worker body has come with its file. */
  datatype Phase =
    | Uploading
    | Leaving(ending: P.Ending)
    | Recorded(ending: P.Ending)
    | Counted(ending: P.Ending)

  /**
   History: the indices whose result was written (`recorded`) or counted (`counted`), and
   the index that wrote the result of a file (`origin`).
   */
  datatype Session = Session(
    pending: seq<Source>,
    pool: P.Pool,
    phases: seq<Phase>,
    results: map<FileId, FileResult>,
    terminal: nat,
    recorded: set<nat>,
    counted: set<nat>,
    origin: map<FileId, nat>)

  /** What `UploadFileAsync` does to the worker body that awaits it. */
  datatype Upload =
    | Uploaded(skipped: bool)
    | NotFatal
    | Fatal
    | Aborted
    | Unexpected

  datatype Step =
    | PoolStep(step: P.Step)
    | Body(worker: nat, upload: Upload)

  function Initial(pending: seq<Source>, maxWorkers: nat, results: map<FileId, FileResult>, terminal: nat): Session
    requires maxWorkers > 0
  {
    var pool := P.Initial(|pending|, maxWorkers);
    Session(pending, pool, seq(|pool.workers|, _ => Uploading), results, terminal, {}, {}, map[])
  }

  function Record(s: Session, w: nat, i: nat, state: FileState, ending: P.Ending): Session
    requires w < |s.phases| && i < |s.pending|
  {
    var file := s.pending[i];
    s.(results := s.results[file.id := FileResult(file.id, file.name, state)],
       phases := s.phases[w := Recorded(ending)],
       recorded := s.recorded + {i},
       origin := s.origin[file.id := i])
  }

  function End(s: Session, w: nat, ending: P.Ending): Session
    requires w < |s.phases|
  {
    s.(pool := P.Next(s.pool, P.Finish(w, ending)), phases := s.phases[w := Uploading])
  }

  /** One step of the body of worker `w`, which is processing index `i`. */
  function BodyStep(s: Session, w: nat, i: nat, upload: Upload): Session
    requires w < |s.phases| && i < |s.pending|
  {
    match s.phases[w]
    case Uploading =>
      (match upload
       case Uploaded(skipped) => Record(s, w, i, if skipped then Skipped else Completed, P.Completes)
       case NotFatal => Record(s, w, i, Failed, P.Completes)
       case Aborted =>
         if s.pool.external then Record(s, w, i, Cancelled, P.Throws(true, false))
         else s.(phases := s.phases[w := Leaving(P.Throws(true, false))])
       case Fatal => s.(phases := s.phases[w := Leaving(P.Throws(false, true))])
       case Unexpected => s.(phases := s.phases[w := Leaving(P.Throws(false, false))]))
    case Leaving(ending) => End(s, w, ending)
    case Recorded(ending) =>
      s.(terminal := s.terminal + 1, phases := s.phases[w := Counted(ending)], counted := s.counted + {i})
    case Counted(ending) => End(s, w, ending)
  }

  predicate Running(s: Session, w: nat) {
    w < |s.phases| && w < |s.pool.workers| && s.pool.workers[w].Working? && s.pool.workers[w].index < |s.pending|
  }

  function Next(s: Session, step: Step): Session {
    match step
    case PoolStep(p) => if p.Finish? then s else s.(pool := P.Next(s.pool, p))
    case Body(w, upload) =>
      if Running(s, w) then BodyStep(s, w, s.pool.workers[w].index, upload) else s
  }

  function Run(s: Session, steps: seq<Step>): Session
    decreases |steps|
  {
    if steps == [] then s else Next(Run(s, steps[..|steps| - 1]), steps[|steps| - 1])
  }

  predicate Unrecorded(phase: Phase) { phase.Uploading? || phase.Leaving? }

  ghost predicate ShapeInv(s: Session) {
    && P.Inv(s.pool) && s.pool.count == |s.pending| && |s.phases| == |s.pool.workers|
    && (forall w | 0 <= w < |s.phases| :: !s.pool.workers[w].Working? ==> s.phases[w].Uploading?)
    && (forall w | 0 <= w < |s.phases| :: s.phases[w].Leaving? ==> s.phases[w].ending.Throws?)
  }

  /** A file's result is written once its worker is past the write, and counted once past the count. */
  ghost predicate PhaseInv(s: Session) {
    && s.counted <= s.recorded
    && (forall i <- s.recorded :: i in s.pool.status)
    && (forall i <- s.pool.status :: s.pool.status[i].Done? ==> i in s.counted)
    && (forall w | 0 <= w < |s.phases| && w < |s.pool.workers| :: s.pool.workers[w].Working? ==>
          && (s.pool.workers[w].index in s.recorded <==> !Unrecorded(s.phases[w]))
          && (s.pool.workers[w].index in s.counted <==> s.phases[w].Counted?))
  }

  /** `start` is the counter as the preflight left it. */
  ghost predicate LedgerInv(s: Session, skipped: set<FileId>, start: nat) {
    && (forall i <- s.recorded :: i < |s.pending| && s.pending[i].id in s.results)
    && (forall id <- s.results :: id in skipped || id in s.origin)
    && (forall id <- s.origin :: s.origin[id] in s.recorded && s.pending[s.origin[id]].id == id)
    && (forall id <- skipped :: id in s.results)
    && (forall id <- s.results :: s.results[id].id == id)
    && s.terminal == start + |s.counted|
  }

  // ----- every schedule -----

  /** The pool moves without touching any file that is being processed. */
  lemma PoolStepKeepsInv(s: Session, p: P.Step)
    requires ShapeInv(s) && PhaseInv(s) && !p.Finish?
    ensures var s' := Next(s, PoolStep(p)); ShapeInv(s') && PhaseInv(s')
  {
    P.StepKeepsInv(s.pool, p);
    P.NonFinishFrame(s.pool, p);
    var s' := Next(s, PoolStep(p));
    assert ShapeInv(s');
    forall w | 0 <= w < |s'.phases| && s'.pool.workers[w].Working?
      ensures s'.pool.workers[w].index in s'.recorded <==> !Unrecorded(s'.phases[w])
      ensures s'.pool.workers[w].index in s'.counted <==> s'.phases[w].Counted?
    {
      if !s.pool.workers[w].Working? {
        assert s'.pool.workers[w].index !in s.recorded;
      }
    }
  }

  lemma EndKeepsShape(s: Session, w: nat)
    requires ShapeInv(s) && w < |s.phases| && s.pool.workers[w].Working?
    requires s.phases[w].Leaving? || s.phases[w].Counted?
    ensures ShapeInv(End(s, w, s.phases[w].ending))
  {
    P.StepKeepsInv(s.pool, P.Finish(w, s.phases[w].ending));
  }

  lemma EndKeepsPhases(s: Session, w: nat)
    requires P.OwnerInv(s.pool) && |s.phases| == |s.pool.workers| && PhaseInv(s)
    requires w < |s.phases| && s.pool.workers[w].Working?
    requires (s.phases[w].Leaving? && s.phases[w].ending.Throws?) || s.phases[w].Counted?
    ensures PhaseInv(End(s, w, s.phases[w].ending))
  {
    var s' := End(s, w, s.phases[w].ending);
    var i := s.pool.workers[w].index;
    assert s'.pool.status.Keys == s.pool.status.Keys;
    assert forall v | 0 <= v < |s.phases| && v != w :: s'.pool.workers[v] == s.pool.workers[v];
  }

  lemma OthersWorkElsewhere(s: P.Pool, w: nat)
    requires P.OwnerInv(s) && w < |s.workers| && s.workers[w].Working?
    ensures forall v | 0 <= v < |s.workers| && v != w && s.workers[v].Working? :: s.workers[v].index != s.workers[w].index
  {
    forall v | 0 <= v < |s.workers| && v != w && s.workers[v].Working? ensures s.workers[v].index != s.workers[w].index {
      assert s.status[s.workers[v].index] == P.Handed(v);
    }
  }

  /** A body that has not ended yet only moves its own file's marks. */
  lemma ProgressKeepsInv(s: Session, w: nat, upload: Upload)
    requires ShapeInv(s) && PhaseInv(s) && Running(s, w)
    requires s.phases[w].Uploading? || s.phases[w].Recorded?
    ensures var s' := BodyStep(s, w, s.pool.workers[w].index, upload); ShapeInv(s') && PhaseInv(s')
  {
    OthersWorkElsewhere(s.pool, w);
    var s' := BodyStep(s, w, s.pool.workers[w].index, upload);
    assert s'.pool == s.pool && s.pool.workers[w].index in s.pool.status;
    assert s'.recorded <= s.recorded + {s.pool.workers[w].index};
    assert s'.counted <= s.counted + {s.pool.workers[w].index};
  }

  ghost predicate Inv(s: Session, skipped: set<FileId>, start: nat) {
    ShapeInv(s) && PhaseInv(s) && LedgerInv(s, skipped, start)
  }

  lemma RecordKeepsLedger(s: Session, w: nat, i: nat, state: FileState, ending: P.Ending, skipped: set<FileId>, start: nat)
    requires LedgerInv(s, skipped, start) && w < |s.phases| && i < |s.pending|
    ensures LedgerInv(Record(s, w, i, state, ending), skipped, start)
  {
  }

  lemma CountKeepsLedger(s: Session, w: nat, upload: Upload, skipped: set<FileId>, start: nat)
    requires PhaseInv(s) && LedgerInv(s, skipped, start) && Running(s, w) && s.phases[w].Recorded?
    ensures LedgerInv(Next(s, Body(w, upload)), skipped, start)
  {
    var i := s.pool.workers[w].index;
    assert i !in s.counted && |s.counted + {i}| == |s.counted| + 1;
  }

  lemma BodyKeepsLedger(s: Session, w: nat, upload: Upload, skipped: set<FileId>, start: nat)
    requires PhaseInv(s) && LedgerInv(s, skipped, start) && Running(s, w)
    ensures LedgerInv(Next(s, Body(w, upload)), skipped, start)
  {
    var i := s.pool.workers[w].index;
    if s.phases[w].Recorded? {
      CountKeepsLedger(s, w, upload, skipped, start);
    } else if s.phases[w].Uploading? && upload.Uploaded? {
      RecordKeepsLedger(s, w, i, if upload.skipped then Skipped else Completed, P.Completes, skipped, start);
    } else if s.phases[w].Uploading? && upload.NotFatal? {
      RecordKeepsLedger(s, w, i, Failed, P.Completes, skipped, start);
    } else if s.phases[w].Uploading? && upload.Aborted? && s.pool.external {
      RecordKeepsLedger(s, w, i, Cancelled, P.Throws(true, false), skipped, start);
    } else {
      var s' := Next(s, Body(w, upload));
      assert s'.(pool := s.pool, phases := s.phases) == s;
    }
  }

  lemma StepKeepsInv(s: Session, step: Step, skipped: set<FileId>, start: nat)
    requires Inv(s, skipped, start)
    ensures Inv(Next(s, step), skipped, start)
  {
    match step
    case PoolStep(p) =>
      if !p.Finish? {
        PoolStepKeepsInv(s, p);
      }
    case Body(w, upload) =>
      if Running(s, w) {
        BodyKeepsLedger(s, w, upload, skipped, start);
        if s.phases[w].Uploading? || s.phases[w].Recorded? {
          ProgressKeepsInv(s, w, upload);
        } else {
          EndKeepsShape(s, w);
          EndKeepsPhases(s, w);
        }
      }
  }

  lemma {:induction false} PendingNeverChanges(s: Session, steps: seq<Step>)
    ensures Run(s, steps).pending == s.pending
    decreases |steps|
  {
    if steps != [] {
      PendingNeverChanges(s, steps[..|steps| - 1]);
    }
  }

  lemma {:induction false} RunKeepsInv(s: Session, steps: seq<Step>, skipped: set<FileId>, start: nat)
    requires Inv(s, skipped, start)
    ensures Inv(Run(s, steps), skipped, start)
    decreases |steps|
  {
    if steps != [] {
      var before := steps[..|steps| - 1];
      RunKeepsInv(s, before, skipped, start);
      StepKeepsInv(Run(s, before), steps[|steps| - 1], skipped, start);
    }
  }

  /** What the preflight hands over for a reply, under distinct file ids. */
  ghost predicate Prepared(sources: seq<Source>, reply: seq<Verdict>, results: map<FileId, FileResult>) {
    && DistinctIds(sources) && Named(reply) <= Ids(sources)
    && results.Keys == Named(reply) && Faithful(sources, results)
    && forall id <- results :: results[id].id == id && results[id].state == Skipped
  }

  /** Every result carries the name of its source. */
  predicate Faithful(sources: seq<Source>, results: map<FileId, FileResult>) {
    forall s <- sources :: s.id in results ==> results[s.id].name == s.name
  }

  ghost function Named(reply: seq<Verdict>): set<FileId> { Members(SkipIds(reply)) }

  /**
   `s` occurs in some schedule of a transfer of `sources` after the preflight got `reply`; without
   a preflight the reply is empty.
   */
  ghost predicate Reached(s: Session, sources: seq<Source>, reply: seq<Verdict>) {
    exists results, maxWorkers: nat, steps ::
      && Prepared(sources, reply, results) && maxWorkers > 0
      && s == Run(Initial(Pending(sources, Named(reply)), maxWorkers, results, |SkipIds(reply)|), steps)
  }

  lemma InitialInv(pending: seq<Source>, maxWorkers: nat, skipped: set<FileId>, results: map<FileId, FileResult>, start: nat)
    requires maxWorkers > 0 && results.Keys == skipped && forall id <- results :: results[id].id == id
    ensures Inv(Initial(pending, maxWorkers, results, start), skipped, start)
  {
  }

  lemma ReachedInv(s: Session, sources: seq<Source>, reply: seq<Verdict>)
    requires Reached(s, sources, reply)
    ensures Inv(s, Named(reply), |SkipIds(reply)|) && s.pending == Pending(sources, Named(reply))
    ensures DistinctIds(sources) && Named(reply) <= Ids(sources)
  {
    var skipped, start := Named(reply), |SkipIds(reply)|;
    var results, maxWorkers: nat, steps :|
      && Prepared(sources, reply, results) && maxWorkers > 0
      && s == Run(Initial(Pending(sources, skipped), maxWorkers, results, start), steps);
    var initial := Initial(Pending(sources, skipped), maxWorkers, results, start);
    InitialInv(Pending(sources, skipped), maxWorkers, skipped, results, start);
    RunKeepsInv(initial, steps, skipped, start);
    PendingNeverChanges(initial, steps);
  }

  /** Results carry the names of their sources, and Cancelled is written only once the caller cancelled. */
  predicate ResultInv(s: Session, sources: seq<Source>) {
    && Faithful(sources, s.results)
    && (forall id <- s.results :: s.results[id].state == Cancelled ==> s.pool.external)
    && (forall p <- s.pending :: p in sources)
  }

  lemma CancellationStays(s: P.Pool, step: P.Step)
    ensures s.external ==> P.Next(s, step).external
  {
  }

  lemma StepKeepsResults(s: Session, step: Step, sources: seq<Source>)
    requires DistinctIds(sources) && ResultInv(s, sources)
    ensures ResultInv(Next(s, step), sources)
  {
    if step.PoolStep? {
      CancellationStays(s.pool, step.step);
    } else if Running(s, step.worker) {
      var file := s.pending[s.pool.workers[step.worker].index];
      assert file in sources;
      assert forall other <- sources :: other.id == file.id ==> other == file;
      if s.phases[step.worker].Leaving? || s.phases[step.worker].Counted? {
        CancellationStays(s.pool, P.Finish(step.worker, s.phases[step.worker].ending));
      }
    }
  }

  lemma {:induction false} RunKeepsResults(s: Session, steps: seq<Step>, sources: seq<Source>)
    requires DistinctIds(sources) && ResultInv(s, sources)
    ensures ResultInv(Run(s, steps), sources)
    decreases |steps|
  {
    if steps != [] {
      RunKeepsResults(s, steps[..|steps| - 1], sources);
      StepKeepsResults(Run(s, steps[..|steps| - 1]), steps[|steps| - 1], sources);
    }
  }

  lemma ReachedResults(s: Session, sources: seq<Source>, reply: seq<Verdict>)
    requires Reached(s, sources, reply)
    ensures ResultInv(s, sources)
  {
    var skipped, start := Named(reply), |SkipIds(reply)|;
    var results, maxWorkers: nat, steps :|
      && Prepared(sources, reply, results) && maxWorkers > 0
      && s == Run(Initial(Pending(sources, skipped), maxWorkers, results, start), steps);
    PendingMembers(sources, skipped);
    RunKeepsResults(Initial(Pending(sources, skipped), maxWorkers, results, start), steps, sources);
  }

  // ----- the guarantees -----

  lemma UnrecordedIsUnwritten(s: Session, i: nat, skipped: set<FileId>, start: nat)
    requires LedgerInv(s, skipped, start) && i < |s.pending| && i !in s.recorded && s.pending[i].id !in skipped
    requires DistinctIds(s.pending)
    ensures s.pending[i].id !in s.results
  {
    assert forall k <- s.recorded :: s.pending[k].id != s.pending[i].id;
  }

  lemma WriteIsFresh(s: Session, w: nat, upload: Upload, skipped: set<FileId>, start: nat)
    requires PhaseInv(s) && LedgerInv(s, skipped, start) && Running(s, w) && DistinctIds(s.pending)
    requires s.pending[s.pool.workers[w].index].id !in skipped
    ensures forall id <- s.results :: id in Next(s, Body(w, upload)).results
                                   && Next(s, Body(w, upload)).results[id] == s.results[id]
  {
    if s.phases[w].Uploading? {
      UnrecordedIsUnwritten(s, s.pool.workers[w].index, skipped, start);
    }
  }

  /** A result, once written, is never written again. */
  lemma ResultsAreWrittenOnce(s: Session, sources: seq<Source>, reply: seq<Verdict>, step: Step)
    requires Reached(s, sources, reply)
    ensures forall id <- s.results :: id in Next(s, step).results && Next(s, step).results[id] == s.results[id]
  {
    ReachedInv(s, sources, reply);
    PendingIsDistinct(sources, Named(reply));
    PendingMembers(sources, Named(reply));
    if step.Body? && Running(s, step.worker) {
      assert s.pending[s.pool.workers[step.worker].index] in s.pending;
      WriteIsFresh(s, step.worker, step.upload, Named(reply), |SkipIds(reply)|);
    }
  }

  lemma {:induction false} CountUpto(c: set<nat>, n: nat)
    requires forall i: nat :: i in c ==> i < n
    ensures |c| <= n
    ensures (forall i: nat | i < n :: i in c) ==> |c| == n
  {
    if n == 0 {
      assert c == {};
    } else {
      CountUpto(c - {n - 1}, n - 1);
    }
  }

  /** Entries of the reply beyond the first that name the same file. */
  ghost function Repeats(reply: seq<Verdict>): nat {
    DistinctMeansCountable(SkipIds(reply));
    |SkipIds(reply)| - |Named(reply)|
  }

  /** `terminal` overtakes the number of sources by no more than the repeats of the reply. */
  lemma TerminalIsBounded(s: Session, sources: seq<Source>, reply: seq<Verdict>)
    requires Reached(s, sources, reply)
    ensures s.terminal <= |sources| + Repeats(reply)
    ensures Distinct(SkipIds(reply)) ==> s.terminal <= |sources|
  {
    ReachedInv(s, sources, reply);
    PendingPartitions(sources, Named(reply));
    CountUpto(s.counted, |s.pending|);
    DistinctMeansCountable(SkipIds(reply));
  }

  lemma SucceededCountsAll(s: Session, skipped: set<FileId>, start: nat)
    requires Inv(s, skipped, start) && s.pool.outcome.Succeeded?
    ensures forall i: nat | i < |s.pending| :: i in s.counted && i in s.recorded && s.pending[i].id in s.results
    ensures |s.counted| == |s.pending|
  {
    forall i: nat | i < |s.pending| ensures i in s.counted && i in s.recorded && s.pending[i].id in s.results {
      assert s.pool.status[i].Done?;
    }
    CountUpto(s.counted, |s.pending|);
  }

  lemma ResultsAreSources(s: Session, sources: seq<Source>, skipped: set<FileId>, start: nat)
    requires Inv(s, skipped, start) && s.pool.outcome.Succeeded?
    requires s.pending == Pending(sources, skipped) && skipped <= Ids(sources)
    ensures s.results.Keys == Ids(sources)
  {
    PendingMembers(sources, skipped);
    SucceededCountsAll(s, skipped, start);
    forall source <- sources ensures source.id in s.results {
      if source.id !in skipped {
        assert source in s.pending;
      }
    }
    forall id <- s.results ensures id in Ids(sources) {
      if id !in skipped {
        assert s.pending[s.origin[id]] in sources;
      }
    }
  }

  /**
   On a normal return every source has a result, and `terminal` is the number of sources exactly
   when the reply named no file twice.
   */
  lemma NormalReturnIsFull(s: Session, sources: seq<Source>, reply: seq<Verdict>)
    requires Reached(s, sources, reply) && s.pool.outcome.Succeeded?
    ensures s.results.Keys == Ids(sources)
    ensures s.terminal == |sources| + Repeats(reply)
    ensures s.terminal == |sources| <==> Distinct(SkipIds(reply))
  {
    var skipped, start := Named(reply), |SkipIds(reply)|;
    ReachedInv(s, sources, reply);
    PendingPartitions(sources, skipped);
    SucceededCountsAll(s, skipped, start);
    ResultsAreSources(s, sources, skipped, start);
    DistinctMeansCountable(SkipIds(reply));
  }

  /** The summary returned to the caller: one entry per source, in source order. */
  function Summary(sources: seq<Source>, results: map<FileId, FileResult>, missing: FileState): (summary: seq<FileResult>)
    ensures |summary| == |sources|
  {
    seq(|sources|, i requires 0 <= i < |sources| =>
      if sources[i].id in results then results[sources[i].id]
      else FileResult(sources[i].id, sources[i].name, missing))
  }

  /**
   A cancelled transfer still reports every source in order: the result that was written,
   or Cancelled. A normal one never falls back to `missing`.
   */
  lemma SummaryIsPerSource(s: Session, sources: seq<Source>, reply: seq<Verdict>, missing: FileState, i: nat)
    requires Reached(s, sources, reply) && i < |sources|
    ensures Summary(sources, s.results, missing)[i].id == sources[i].id
    ensures Summary(sources, s.results, missing)[i].name == sources[i].name
    ensures missing != Cancelled && Summary(sources, s.results, missing)[i].state == Cancelled ==> s.pool.external
    ensures s.pool.outcome.Succeeded? || Summary(sources, s.results, missing)[i].state != missing ==>
              sources[i].id in s.results && Summary(sources, s.results, missing)[i] == s.results[sources[i].id]
  {
    ReachedInv(s, sources, reply);
    ReachedResults(s, sources, reply);
    assert sources[i] in sources;
    if s.pool.outcome.Succeeded? {
      NormalReturnIsFull(s, sources, reply);
    }
  }

  // ----- results tell how uploads ended -----

  /** How the upload of a file ended, and whether the caller had cancelled by then. */
  datatype Finish = Finish(upload: Upload, cancelled: bool)

  /** The step that takes worker `w` out of the upload of item `i`. */
  predicate EndsUpload(s: Session, step: Step, i: nat) {
    && step.Body? && Running(s, step.worker)
    && s.pool.workers[step.worker].index == i && s.phases[step.worker].Uploading?
  }

  /** How the upload of item `i` ended in the run `steps` from `start`, read off the steps. */
  function EndedBy(start: Session, steps: seq<Step>, i: nat): Option<Finish>
    decreases |steps|
  {
    if steps == [] then None
    else
      var before, last := steps[..|steps| - 1], steps[|steps| - 1];
      var s := Run(start, before);
      if EndsUpload(s, last, i) then Some(Finish(last.upload, s.pool.external)) else EndedBy(start, before, i)
  }

  /** The result an upload leaves, if any. */
  function StateOf(f: Finish): Option<FileState> {
    match f.upload
    case Uploaded(skipped) => Some(if skipped then Skipped else Completed)
    case NotFatal => Some(Failed)
    case Aborted => if f.cancelled then Some(Cancelled) else None
    case Fatal => None
    case Unexpected => None
  }

  predicate PastUpload(s: Session, i: nat) {
    && i in s.pool.status
    && forall w | 0 <= w < |s.phases| && w < |s.pool.workers| :: s.pool.workers[w] == P.Working(i) ==> !s.phases[w].Uploading?
  }

  /** Item `i` has a result exactly if its upload left one, and it is that one. */
  predicate ItemInv(s: Session, i: nat, ended: Option<Finish>) {
    && i < |s.pending|
    && (ended.None? ==> i !in s.recorded)
    && (ended.Some? ==> PastUpload(s, i) && (i in s.recorded <==> StateOf(ended.value).Some?))
    && (i in s.recorded ==> s.pending[i].id in s.results && Some(s.results[s.pending[i].id].state) == StateOf(ended.value))
  }

  lemma PoolStepKeepsItem(s: Session, p: P.Step, i: nat, ended: Option<Finish>)
    requires ShapeInv(s) && ItemInv(s, i, ended) && !p.Finish?
    ensures ItemInv(Next(s, PoolStep(p)), i, ended)
  {
    P.NonFinishFrame(s.pool, p);
  }

  lemma EndKeepsPast(s: Session, w: nat, ending: P.Ending, i: nat)
    requires P.OwnerInv(s.pool) && |s.phases| == |s.pool.workers| && w < |s.phases| && s.pool.workers[w].Working? && PastUpload(s, i)
    ensures PastUpload(End(s, w, ending), i)
  {
    var s' := End(s, w, ending);
    assert s'.pool.workers == s.pool.workers[w := s'.pool.workers[w]] && !s'.pool.workers[w].Working?;
    assert s'.pool.status.Keys == s.pool.status.Keys;
  }

  lemma EndKeepsItem(s: Session, w: nat, ending: P.Ending, i: nat, ended: Option<Finish>)
    requires ShapeInv(s) && ItemInv(s, i, ended) && w < |s.phases| && s.pool.workers[w].Working?
    ensures ItemInv(End(s, w, ending), i, ended)
  {
    if ended.Some? {
      EndKeepsPast(s, w, ending, i);
    }
  }

  /** A step of the body of another item leaves the result of `i` alone. */
  lemma OtherBodyKeepsItem(s: Session, w: nat, upload: Upload, i: nat, ended: Option<Finish>)
    requires ShapeInv(s) && ItemInv(s, i, ended) && Running(s, w) && DistinctIds(s.pending)
    requires s.pool.workers[w].index != i
    ensures ItemInv(Next(s, Body(w, upload)), i, ended)
  {
    if s.phases[w].Leaving? || s.phases[w].Counted? {
      EndKeepsItem(s, w, s.phases[w].ending, i, ended);
    } else {
      var s' := Next(s, Body(w, upload));
      assert s.pending[s.pool.workers[w].index].id != s.pending[i].id;
      assert s'.pool == s.pool && s'.pending == s.pending;
      assert s.pending[i].id in s.results ==> s'.results[s.pending[i].id] == s.results[s.pending[i].id];
    }
  }

  lemma OwnBodyKeepsItem(s: Session, w: nat, upload: Upload, i: nat, ended: Option<Finish>)
    requires ShapeInv(s) && PhaseInv(s) && ItemInv(s, i, ended) && Running(s, w) && s.pool.workers[w].index == i
    requires !s.phases[w].Uploading?
    ensures ItemInv(Next(s, Body(w, upload)), i, ended)
  {
    if s.phases[w].Leaving? || s.phases[w].Counted? {
      EndKeepsItem(s, w, s.phases[w].ending, i, ended);
    }
  }

  lemma UploadEndMakesItem(s: Session, w: nat, upload: Upload, i: nat, ended: Option<Finish>)
    requires ShapeInv(s) && PhaseInv(s) && ItemInv(s, i, ended) && EndsUpload(s, Body(w, upload), i)
    ensures ItemInv(Next(s, Body(w, upload)), i, Some(Finish(upload, s.pool.external)))
  {
    OthersWorkElsewhere(s.pool, w);
    assert i !in s.recorded;
    assert i in s.pool.status;
  }

  lemma {:induction false} RunKeepsItem(start: Session, steps: seq<Step>, i: nat, skipped: set<FileId>, counter: nat)
    requires Inv(start, skipped, counter) && DistinctIds(start.pending) && i < |start.pending| && start.recorded == {}
    ensures ItemInv(Run(start, steps), i, EndedBy(start, steps, i))
    decreases |steps|
  {
    if steps != [] {
      var before, last := steps[..|steps| - 1], steps[|steps| - 1];
      var s := Run(start, before);
      RunKeepsItem(start, before, i, skipped, counter);
      RunKeepsInv(start, before, skipped, counter);
      PendingNeverChanges(start, before);
      StepKeepsItem(s, last, i, EndedBy(start, before, i), skipped, counter);
    }
  }

  lemma StepKeepsItem(s: Session, step: Step, i: nat, ended: Option<Finish>, skipped: set<FileId>, counter: nat)
    requires Inv(s, skipped, counter) && DistinctIds(s.pending) && ItemInv(s, i, ended)
    ensures ItemInv(Next(s, step), i, if EndsUpload(s, step, i) then Some(Finish(step.upload, s.pool.external)) else ended)
  {
    match step
    case PoolStep(p) =>
      if !p.Finish? {
        PoolStepKeepsItem(s, p, i, ended);
      }
    case Body(w, upload) =>
      if EndsUpload(s, step, i) {
        UploadEndMakesItem(s, w, upload, i, ended);
      } else if Running(s, w) {
        if s.pool.workers[w].index == i {
          OwnBodyKeepsItem(s, w, upload, i, ended);
        } else {
          OtherBodyKeepsItem(s, w, upload, i, ended);
        }
      }
  }

  /** A transfer as the preflight hands it over. */
  ghost function Begun(sources: seq<Source>, reply: seq<Verdict>, results: map<FileId, FileResult>, maxWorkers: nat): Session
    requires maxWorkers > 0
  {
    Initial(Pending(sources, Named(reply)), maxWorkers, results, |SkipIds(reply)|)
  }

  predicate HasState(s: Session, id: FileId, state: FileState) { id in s.results && s.results[id].state == state }

  lemma WrittenMeansRecorded(s: Session, i: nat, skipped: set<FileId>, counter: nat)
    requires LedgerInv(s, skipped, counter) && DistinctIds(s.pending) && i < |s.pending| && s.pending[i].id !in skipped
    ensures s.pending[i].id in s.results <==> i in s.recorded
  {
    if s.pending[i].id in s.results && i !in s.recorded {
      UnrecordedIsUnwritten(s, i, skipped, counter);
    }
  }

  lemma PendingItem(sources: seq<Source>, skipped: set<FileId>, i: nat)
    requires i < |Pending(sources, skipped)|
    ensures Pending(sources, skipped)[i] in sources && Pending(sources, skipped)[i].id !in skipped
  {
    PendingMembers(sources, skipped);
    assert Pending(sources, skipped)[i] in Pending(sources, skipped);
  }

  predicate Tells(s: Session, id: FileId, ended: Option<Finish>) {
    && (HasState(s, id, Completed) <==> ended.Some? && ended.value.upload == Uploaded(false))
    && (HasState(s, id, Skipped) <==> ended.Some? && ended.value.upload == Uploaded(true))
    && (HasState(s, id, Failed) <==> ended.Some? && ended.value.upload == NotFatal)
    && (HasState(s, id, Cancelled) <==> ended.Some? && ended.value == Finish(Aborted, true))
  }

  lemma ItemTells(s: Session, i: nat, ended: Option<Finish>)
    requires ItemInv(s, i, ended) && (s.pending[i].id in s.results <==> i in s.recorded)
    ensures Tells(s, s.pending[i].id, ended)
  {
  }

  /**
   After every schedule the result of a pending file is Completed, Skipped, Failed or Cancelled
   exactly if its upload ended by completing, by the receiver skipping it, in an error that is
   not fatal to the session, or by being aborted after the caller cancelled.
   */
  lemma ResultTellsUpload(sources: seq<Source>, reply: seq<Verdict>, results: map<FileId, FileResult>, maxWorkers: nat,
                          steps: seq<Step>, i: nat)
    requires Prepared(sources, reply, results) && maxWorkers > 0 && i < |Pending(sources, Named(reply))|
    ensures var start := Begun(sources, reply, results, maxWorkers);
            Tells(Run(start, steps), start.pending[i].id, EndedBy(start, steps, i))
  {
    var start := Begun(sources, reply, results, maxWorkers);
    var skipped, counter := Named(reply), |SkipIds(reply)|;
    InitialInv(start.pending, maxWorkers, skipped, results, counter);
    PendingIsDistinct(sources, skipped);
    RunKeepsItem(start, steps, i, skipped, counter);
    RunKeepsInv(start, steps, skipped, counter);
    PendingNeverChanges(start, steps);
    PendingItem(sources, skipped, i);
    WrittenMeansRecorded(Run(start, steps), i, skipped, counter);
    ItemTells(Run(start, steps), i, EndedBy(start, steps, i));
  }

  lemma {:induction false} NamedStaySkipped(sources: seq<Source>, reply: seq<Verdict>, results: map<FileId, FileResult>,
                                            maxWorkers: nat, steps: seq<Step>, id: FileId)
    requires Prepared(sources, reply, results) && maxWorkers > 0 && id in Named(reply)
    ensures HasState(Run(Begun(sources, reply, results, maxWorkers), steps), id, Skipped)
    decreases |steps|
  {
    if steps != [] {
      var before := steps[..|steps| - 1];
      NamedStaySkipped(sources, reply, results, maxWorkers, before, id);
      ResultsAreWrittenOnce(Run(Begun(sources, reply, results, maxWorkers), before), sources, reply, steps[|steps| - 1]);
    }
  }

  /**
   The summary of every schedule: a file the preflight named is Skipped; every other one has the
   state its upload left, or `missing` if it left none.
   */
  lemma SummaryTellsUpload(sources: seq<Source>, reply: seq<Verdict>, results: map<FileId, FileResult>, maxWorkers: nat,
                           steps: seq<Step>, missing: FileState, k: nat, i: nat)
    requires Prepared(sources, reply, results) && maxWorkers > 0 && k < |sources|
    requires sources[k].id !in Named(reply) ==>
               i < |Pending(sources, Named(reply))| && Pending(sources, Named(reply))[i] == sources[k]
    ensures var start := Begun(sources, reply, results, maxWorkers);
            var state := Summary(sources, Run(start, steps).results, missing)[k].state;
            var ended := EndedBy(start, steps, i);
            if sources[k].id in Named(reply) then state == Skipped
            else if ended.None? then state == missing
            else match ended.value.upload
                 case Uploaded(skipped) => state == (if skipped then Skipped else Completed)
                 case NotFatal => state == Failed
                 case Aborted => state == (if ended.value.cancelled then Cancelled else missing)
                 case _ => state == missing
  {
    if sources[k].id in Named(reply) {
      NamedStaySkipped(sources, reply, results, maxWorkers, steps, sources[k].id);
    } else {
      ResultTellsUpload(sources, reply, results, maxWorkers, steps, i);
    }
  }

  /** The two steps in which worker `w` learns how its upload ended and leaves it. */
  function LeaveUpload(s: Session, w: nat, upload: Upload): Session {
    Next(Next(s, Body(w, upload)), Body(w, upload))
  }

  /**
   An upload that leaves no result throws out of the pool's worker: the pool cannot succeed any
   more, unless the upload was only aborted because the session was over already. A fatal one ends
   the session, so that the other workers begin at most one file each.
   */
  lemma ThrownUploadFailsPool(s: Session, w: nat, upload: Upload, steps: seq<P.Step>)
    requires Running(s, w) && s.phases[w].Uploading? && s.pool.outcome == P.Waiting
    requires upload == Fatal || upload == Unexpected || (upload == Aborted && !s.pool.external && !s.pool.session)
    ensures var t := P.Run(LeaveUpload(s, w, upload).pool, steps);
            && t.outcome != P.Succeeded
            && (upload == Fatal ==> t.session && |t.handed| <= |s.pool.handed| + P.AtClaim(s.pool.workers))
  {
    var left := Next(s, Body(w, upload));
    assert left.pool == s.pool && left.phases[w].Leaving?;
    P.ThrowFailsPool(s.pool, w, left.phases[w].ending, steps);
  }

  /** An upload aborted because another one ended the session lets its worker return quietly. */
  lemma AbortedUploadReturns(s: Session, w: nat)
    requires Running(s, w) && s.phases[w].Uploading? && s.pool.session && !s.pool.external
    ensures LeaveUpload(s, w, Aborted).pool.workers[w] == P.Returned && LeaveUpload(s, w, Aborted).results == s.results
  {
  }
}
