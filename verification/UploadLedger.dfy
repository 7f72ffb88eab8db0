/**
 Byte accounting of the iOS upload manager. A producer plans windows of files while two
 workers upload them; all of them share `planned` and `acknowledged`, and every stretch of
 code between two awaits is one step.
 */
module UploadLedger {
  import opened Common

  const COMPATIBILITY_CHUNK_BYTES := 4194304

  /** What the duplicate preflight decided about a file of the window. */
  datatype Action = Upload | SkipDuplicate | HashFailed

  datatype WindowFile = WindowFile(size: nat, action: Action)

  datatype Phase = Queued | Active | Closed | Failed | Abandoned

  /** A planned file. `chunk` is the next chunk of the compatibility loop. */
  datatype File = File(size: nat, acknowledged: int, chunk: nat, phase: Phase)

  datatype Ledger = Ledger(files: seq<File>, planned: int, acknowledged: int)

  /** A progress report from native code: any number at all, or none. */
  datatype Report = Finite(bytes: int) | NotFinite

  // ----- the steps -----

  function PlannedBytes(window: seq<WindowFile>): nat {
    if window == [] then 0
    else (if window[0].action.Upload? then window[0].size else 0) + PlannedBytes(window[1..])
  }

  function PlannedFiles(window: seq<WindowFile>): seq<File> {
    if window == [] then []
    else (if window[0].action.Upload? then [File(window[0].size, 0, 0, Queued)] else []) + PlannedFiles(window[1..])
  }

  function PlanWindow(l: Ledger, window: seq<WindowFile>): Ledger {
    l.(files := l.files + PlannedFiles(window), planned := l.planned + PlannedBytes(window))
  }

  /** The bytes a report adds: reports that are stale, repeated or too large add what is missing. */
  function Delta(f: File, report: Report): int {
    if report.NotFinite? then 0
    else Min(f.size, Max(f.acknowledged, report.bytes)) - f.acknowledged
  }

  function Credit(l: Ledger, i: nat, bytes: int): Ledger
    requires i < |l.files|
  {
    var f := l.files[i];
    l.(files := l.files[i := f.(acknowledged := f.acknowledged + bytes)], acknowledged := l.acknowledged + bytes)
  }

  function NativeReport(l: Ledger, i: nat, report: Report): Ledger
    requires i < |l.files| && l.files[i].phase.Active?
  {
    var delta := Delta(l.files[i], report);
    if delta <= 0 then l else Credit(l, i, delta)
  }

  function ChunkLength(f: File): int {
    Min(COMPATIBILITY_CHUNK_BYTES, f.size - f.chunk * COMPATIBILITY_CHUNK_BYTES)
  }

  /** One acknowledged chunk of the compatibility loop. */
  function ChunkAcknowledged(l: Ledger, i: nat): Ledger
    requires i < |l.files| && l.files[i].chunk < TotalChunks(l.files[i].size, COMPATIBILITY_CHUNK_BYTES)
  {
    var f := l.files[i];
    l.(files := l.files[i := f.(chunk := f.chunk + 1, acknowledged := f.acknowledged + ChunkLength(f))],
       acknowledged := l.acknowledged + ChunkLength(f))
  }

  /** The failure branch, with both of its clamps. */
  function FailFile(l: Ledger, i: nat): Ledger
    requires i < |l.files|
  {
    var f := l.files[i];
    l.(files := l.files[i := f.(phase := Failed)],
       planned := Max(l.acknowledged, l.planned - Max(0, f.size - f.acknowledged)))
  }

  function Move(l: Ledger, i: nat, phase: Phase): Ledger
    requires i < |l.files|
  {
    l.(files := l.files[i := l.files[i].(phase := phase)])
  }

  datatype Step =
    | Plan(window: seq<WindowFile>)
    | Take(file: nat)
    | ReportBytes(file: nat, report: Report)
    | Chunk(file: nat)
    | Fail(file: nat)
    | Close(file: nat)
    | Abandon(file: nat)

  /** A file is handed to one worker, which then runs one of the two upload paths. */
  predicate Enabled(l: Ledger, step: Step, native: bool) {
    match step
    case Plan(_) => true
    case Take(i) => i < |l.files| && l.files[i].phase.Queued?
    case ReportBytes(i, _) => native && i < |l.files| && l.files[i].phase.Active?
    case Chunk(i) =>
      !native && i < |l.files| && l.files[i].phase.Active? && l.files[i].chunk < TotalChunks(l.files[i].size, COMPATIBILITY_CHUNK_BYTES)
    case Fail(i) => i < |l.files| && l.files[i].phase.Active?
    case Close(i) => i < |l.files| && l.files[i].phase.Active?
                     && (native || l.files[i].chunk == TotalChunks(l.files[i].size, COMPATIBILITY_CHUNK_BYTES))
    case Abandon(i) => i < |l.files| && l.files[i].phase.Active?
  }

  function Next(l: Ledger, step: Step, native: bool): Ledger {
    if !Enabled(l, step, native) then l
    else
      match step
      case Plan(window) => PlanWindow(l, window)
      case Take(i) => Move(l, i, Active)
      case ReportBytes(i, report) => NativeReport(l, i, report)
      case Chunk(i) => ChunkAcknowledged(l, i)
      case Fail(i) => FailFile(l, i)
      case Close(i) => Move(l, i, Closed)
      case Abandon(i) => Move(l, i, Abandoned)
  }

  function Run(steps: seq<Step>, native: bool): Ledger
    decreases |steps|
  {
    if steps == [] then Ledger([], 0, 0)
    else Next(Run(steps[..|steps| - 1], native), steps[|steps| - 1], native)
  }

  // ----- the identity -----

  function Owed(f: File): int { if f.phase.Failed? then 0 else f.size - f.acknowledged }

  /** What the planned, not failed files still have to send. */
  function Outstanding(files: seq<File>): int {
    if files == [] then 0 else Owed(files[0]) + Outstanding(files[1..])
  }

  function AcknowledgedSum(files: seq<File>): int {
    if files == [] then 0 else files[0].acknowledged + AcknowledgedSum(files[1..])
  }

  /** A failed file counts with what was sent of it, every other one with its size. */
  function Committed(f: File): int { if f.phase.Failed? then f.acknowledged else f.size }

  function CommittedSum(files: seq<File>): int {
    if files == [] then 0 else Committed(files[0]) + CommittedSum(files[1..])
  }

  predicate FileInv(f: File, native: bool) {
    && 0 <= f.acknowledged <= f.size
    && (native ==> f.chunk == 0)
    && (!native ==> f.chunk <= TotalChunks(f.size, COMPATIBILITY_CHUNK_BYTES)
                    && f.acknowledged == Min(f.size, f.chunk * COMPATIBILITY_CHUNK_BYTES))
  }

  predicate Inv(l: Ledger, native: bool) {
    && l.planned - l.acknowledged == Outstanding(l.files)
    && l.acknowledged == AcknowledgedSum(l.files)
    && forall i | 0 <= i < |l.files| :: FileInv(l.files[i], native)
  }

  lemma {:induction false} OutstandingUpdate(files: seq<File>, i: nat, f: File)
    requires i < |files|
    ensures Outstanding(files[i := f]) == Outstanding(files) - Owed(files[i]) + Owed(f)
    ensures AcknowledgedSum(files[i := f]) == AcknowledgedSum(files) - files[i].acknowledged + f.acknowledged
  {
    if i == 0 {
      assert files[i := f][1..] == files[1..];
    } else {
      assert files[i := f][1..] == files[1..][i - 1 := f];
      OutstandingUpdate(files[1..], i - 1, f);
    }
  }

  lemma {:induction false} OutstandingConcat(a: seq<File>, b: seq<File>)
    ensures Outstanding(a + b) == Outstanding(a) + Outstanding(b)
    ensures AcknowledgedSum(a + b) == AcknowledgedSum(a) + AcknowledgedSum(b)
  {
    if a == [] {
      assert a + b == b;
    } else {
      assert (a + b)[1..] == a[1..] + b;
      OutstandingConcat(a[1..], b);
    }
  }

  lemma {:induction false} OutstandingCovers(files: seq<File>, i: nat, native: bool)
    requires i < |files| && forall k | 0 <= k < |files| :: FileInv(files[k], native)
    ensures 0 <= Owed(files[i]) <= Outstanding(files)
  {
    if i > 0 {
      OutstandingCovers(files[1..], i - 1, native);
    } else if |files| > 1 {
      OutstandingCovers(files[1..], 0, native);
    }
  }

  lemma {:induction false} PlanIsOutstanding(window: seq<WindowFile>, native: bool)
    ensures Outstanding(PlannedFiles(window)) == PlannedBytes(window)
    ensures AcknowledgedSum(PlannedFiles(window)) == 0
    ensures forall i | 0 <= i < |PlannedFiles(window)| :: FileInv(PlannedFiles(window)[i], native)
  {
    if window != [] {
      PlanIsOutstanding(window[1..], native);
      if window[0].action.Upload? {
        assert PlannedFiles(window)[1..] == PlannedFiles(window[1..]);
      } else {
        assert PlannedFiles(window) == PlannedFiles(window[1..]);
      }
    }
  }

  lemma ChunkArithmetic(f: File)
    requires FileInv(f, false) && f.chunk < TotalChunks(f.size, COMPATIBILITY_CHUNK_BYTES)
    ensures f.acknowledged == f.chunk * COMPATIBILITY_CHUNK_BYTES < f.size
    ensures 0 < ChunkLength(f) <= COMPATIBILITY_CHUNK_BYTES
    ensures FileInv(f.(chunk := f.chunk + 1, acknowledged := f.acknowledged + ChunkLength(f)), false)
  {
  }

  /** The floor of the failure branch never binds, so failing removes exactly the unsent bytes. */
  lemma FailureFloorNeverBinds(l: Ledger, i: nat, native: bool)
    requires Inv(l, native) && i < |l.files| && l.files[i].phase.Active?
    ensures FailFile(l, i).planned == l.planned - (l.files[i].size - l.files[i].acknowledged)
    ensures FailFile(l, i).planned >= l.acknowledged
  {
    OutstandingCovers(l.files, i, native);
  }

  lemma PlanKeepsInv(l: Ledger, window: seq<WindowFile>, native: bool)
    requires Inv(l, native)
    ensures Inv(PlanWindow(l, window), native)
  {
    PlanIsOutstanding(window, native);
    OutstandingConcat(l.files, PlannedFiles(window));
  }

  lemma MoveKeepsInv(l: Ledger, i: nat, phase: Phase, native: bool)
    requires Inv(l, native) && i < |l.files| && !l.files[i].phase.Failed? && !phase.Failed?
    ensures Inv(Move(l, i, phase), native)
  {
    OutstandingUpdate(l.files, i, l.files[i].(phase := phase));
  }

  lemma ReportKeepsInv(l: Ledger, i: nat, report: Report)
    requires Inv(l, true) && i < |l.files| && l.files[i].phase.Active?
    ensures Inv(NativeReport(l, i, report), true)
  {
    var f := l.files[i];
    if Delta(f, report) > 0 {
      OutstandingUpdate(l.files, i, f.(acknowledged := f.acknowledged + Delta(f, report)));
    }
  }

  lemma ChunkKeepsInv(l: Ledger, i: nat)
    requires Inv(l, false) && i < |l.files| && l.files[i].phase.Active? && l.files[i].chunk < TotalChunks(l.files[i].size, COMPATIBILITY_CHUNK_BYTES)
    ensures Inv(ChunkAcknowledged(l, i), false)
  {
    var f := l.files[i];
    ChunkArithmetic(f);
    OutstandingUpdate(l.files, i, f.(chunk := f.chunk + 1, acknowledged := f.acknowledged + ChunkLength(f)));
  }

  lemma FailKeepsInv(l: Ledger, i: nat, native: bool)
    requires Inv(l, native) && i < |l.files| && l.files[i].phase.Active?
    ensures Inv(FailFile(l, i), native)
  {
    FailureFloorNeverBinds(l, i, native);
    OutstandingUpdate(l.files, i, l.files[i].(phase := Failed));
  }

  lemma StepKeepsInv(l: Ledger, step: Step, native: bool)
    requires Inv(l, native)
    ensures Inv(Next(l, step, native), native)
  {
    if Enabled(l, step, native) {
      match step
      case Plan(window) => PlanKeepsInv(l, window, native);
      case Take(i) => MoveKeepsInv(l, i, Active, native);
      case ReportBytes(i, report) => ReportKeepsInv(l, i, report);
      case Chunk(i) => ChunkKeepsInv(l, i);
      case Fail(i) => FailKeepsInv(l, i, native);
      case Close(i) => MoveKeepsInv(l, i, Closed, native);
      case Abandon(i) => MoveKeepsInv(l, i, Abandoned, native);
    }
  }

  /** At every await point of every interleaving, for any reports whatever. */
  lemma {:induction false} AccountingIdentity(steps: seq<Step>, native: bool)
    ensures Inv(Run(steps, native), native)
    decreases |steps|
  {
    if steps != [] {
      AccountingIdentity(steps[..|steps| - 1], native);
      StepKeepsInv(Run(steps[..|steps| - 1], native), steps[|steps| - 1], native);
    }
  }

  lemma {:induction false} CommittedIsOwedAndSent(files: seq<File>)
    ensures CommittedSum(files) == Outstanding(files) + AcknowledgedSum(files)
  {
    if files != [] {
      CommittedIsOwedAndSent(files[1..]);
    }
  }

  /**
   Both counters are sums of per-file values: `acknowledged` of what was sent of every file,
   `planned` of the sizes of files that have not failed and of what was sent of those that have.
   */
  lemma CountersAreSums(steps: seq<Step>, native: bool)
    ensures var l := Run(steps, native);
            l.acknowledged == AcknowledgedSum(l.files) && l.planned == CommittedSum(l.files)
  {
    AccountingIdentity(steps, native);
    CommittedIsOwedAndSent(Run(steps, native).files);
  }

  /** Progress never exceeds the plan. */
  lemma AcknowledgedNeverExceedsPlanned(steps: seq<Step>, native: bool)
    ensures var l := Run(steps, native);
            l.acknowledged <= l.planned
  {
    AccountingIdentity(steps, native);
    var l := Run(steps, native);
    if l.files != [] {
      OutstandingCovers(l.files, 0, native);
    }
  }

  lemma {:induction false} NothingOwed(files: seq<File>)
    requires forall i | 0 <= i < |files| :: Owed(files[i]) == 0
    ensures Outstanding(files) == 0
  {
    if files != [] {
      NothingOwed(files[1..]);
    }
  }

  /**
   When every file has either failed or been acknowledged in full, progress is exactly 100 %.
   On the compatibility path every file that closes has been acknowledged in full.
   */
  lemma FinishedTransferIsComplete(steps: seq<Step>, native: bool)
    requires forall f <- Run(steps, native).files :: f.phase.Failed? || f.acknowledged == f.size
    ensures Run(steps, native).acknowledged == Run(steps, native).planned
  {
    AccountingIdentity(steps, native);
    NothingOwed(Run(steps, native).files);
  }

  lemma CompatibilityCloseIsFull(steps: seq<Step>, i: nat)
    requires i < |Run(steps, false).files| && Enabled(Run(steps, false), Close(i), false)
    ensures Run(steps, false).files[i].acknowledged == Run(steps, false).files[i].size
  {
    AccountingIdentity(steps, false);
  }

  // ----- what the steps achieve -----

  /** A window plans the files to upload, in order, and their bytes; skipped and unhashed ones add nothing. */
  lemma PlanOfOne(f: WindowFile)
    ensures f.action == Upload ==> PlannedBytes([f]) == f.size && PlannedFiles([f]) == [File(f.size, 0, 0, Queued)]
    ensures f.action == SkipDuplicate || f.action == HashFailed ==> PlannedBytes([f]) == 0 && PlannedFiles([f]) == []
  {
    assert [f][1..] == [];
  }

  lemma {:induction false} PlanOfWindows(a: seq<WindowFile>, b: seq<WindowFile>)
    ensures PlannedBytes(a + b) == PlannedBytes(a) + PlannedBytes(b)
    ensures PlannedFiles(a + b) == PlannedFiles(a) + PlannedFiles(b)
  {
    if a == [] {
      assert a + b == b;
    } else {
      assert (a + b)[1..] == a[1..] + b && (a + b)[0] == a[0];
      PlanOfWindows(a[1..], b);
    }
  }

  /** A planned window adds its files, waiting, and their bytes. */
  lemma PlanAdds(l: Ledger, window: seq<WindowFile>, native: bool)
    ensures var t := Next(l, Plan(window), native);
            && t.files == l.files + PlannedFiles(window) && t.acknowledged == l.acknowledged
            && t.planned == l.planned + PlannedBytes(window)
  {
  }

  /** An upload that is abandoned on cancellation stays in the plan as far as it came. */
  lemma AbandonKeepsCounters(l: Ledger, i: nat, native: bool)
    requires i < |l.files| && l.files[i].phase == Active
    ensures var t := Next(l, Abandon(i), native);
            t.planned == l.planned && t.acknowledged == l.acknowledged && t.files[i] == l.files[i].(phase := Abandoned)
  {
  }

  /** A report brings an active file to what it reports, within what it had and its size; no number changes nothing. */
  lemma ReportBringsTo(l: Ledger, i: nat, bytes: int)
    requires Inv(l, true) && i < |l.files| && l.files[i].phase == Active
    ensures var f, f' := l.files[i], Next(l, ReportBytes(i, Finite(bytes)), true).files[i];
            && (bytes <= f.acknowledged ==> f' == f)
            && (f.acknowledged <= bytes <= f.size ==> f'.acknowledged == bytes)
            && (bytes >= f.size ==> f'.acknowledged == f.size)
    ensures Next(l, ReportBytes(i, NotFinite), true) == l
  {
  }

  /** A native upload whose last report is its size closes with all of it acknowledged. */
  lemma NativeUploadCompletes(l: Ledger, i: nat)
    requires Inv(l, true) && i < |l.files| && l.files[i].phase == Queued
    ensures var t := Next(Next(Next(l, Take(i), true), ReportBytes(i, Finite(l.files[i].size)), true), Close(i), true);
            t.files[i].phase == Closed && t.files[i].acknowledged == t.files[i].size == l.files[i].size
  {
    var taken := Next(l, Take(i), true);
    StepKeepsInv(l, Take(i), true);
    ReportBringsTo(taken, i, l.files[i].size);
  }

  function SendChunks(l: Ledger, i: nat, n: nat): Ledger
    decreases n
  {
    if n == 0 then l else Next(SendChunks(l, i, n - 1), Chunk(i), false)
  }

  lemma {:induction false} ChunksAddUp(l: Ledger, i: nat, n: nat)
    requires i < |l.files| && l.files[i] == File(l.files[i].size, 0, 0, Active)
    requires n <= TotalChunks(l.files[i].size, COMPATIBILITY_CHUNK_BYTES)
    ensures var t := SendChunks(l, i, n);
            && |t.files| == |l.files|
            && t.files[i] == File(l.files[i].size, Min(l.files[i].size, n * 4194304), n, Active)
  {
    if n > 0 {
      ChunksAddUp(l, i, n - 1);
      ChunkArithmetic(SendChunks(l, i, n - 1).files[i]);
    }
  }

  /**
   A compatibility upload is one chunk of 4 MiB after the other, the last one shorter: it may close
   after exactly as many as cover the file, and then all of it is acknowledged.
   */
  lemma CompatibilityUploadCompletes(l: Ledger, i: nat, n: nat)
    requires Inv(l, false) && i < |l.files| && l.files[i] == File(l.files[i].size, 0, 0, Queued)
    requires (n == 0 && l.files[i].size == 0) || (n > 0 && (n - 1) * 4194304 < l.files[i].size <= n * 4194304)
    ensures var t := Next(SendChunks(Next(l, Take(i), false), i, n), Close(i), false);
            i < |t.files| && t.files[i].phase == Closed && t.files[i].acknowledged == l.files[i].size
  {
    assert n == TotalChunks(l.files[i].size, COMPATIBILITY_CHUNK_BYTES);
    ChunksAddUp(Next(l, Take(i), false), i, n);
  }

  /** A failing file keeps what was sent of it, and its unsent bytes leave the plan. */
  lemma FailureUnplansRest(l: Ledger, i: nat, native: bool)
    requires Inv(l, native) && i < |l.files| && l.files[i].phase == Active
    ensures var t := Next(l, Fail(i), native);
            && t.files[i] == l.files[i].(phase := Failed) && t.acknowledged == l.acknowledged
            && l.planned - t.planned == l.files[i].size - l.files[i].acknowledged
  {
    FailureFloorNeverBinds(l, i, native);
  }

  // ----- the counters in place -----

  class UploadAccounting {
    var files: seq<File>
    var planned: int
    var acknowledged: int

    ghost function View(): Ledger
      reads this
    {
      Ledger(files, planned, acknowledged)
    }

    constructor ()
      ensures View() == Ledger([], 0, 0)
    {
      files, planned, acknowledged := [], 0, 0;
    }

    /** The loop over a prepared window; `planned` moves once, after the loop. */
    method AddWindow(window: seq<WindowFile>)
      modifies this
      ensures View() == PlanWindow(old(View()), window)
    {
      var windowPlannedBytes := 0;
      var ready := [];
      for k := 0 to |window|
        invariant windowPlannedBytes + PlannedBytes(window[k..]) == PlannedBytes(window)
        invariant ready + PlannedFiles(window[k..]) == PlannedFiles(window)
        invariant View() == old(View())
      {
        assert window[k..][1..] == window[k + 1..];
        if window[k].action.Upload? {
          windowPlannedBytes := windowPlannedBytes + window[k].size;
          ready := ready + [File(window[k].size, 0, 0, Queued)];
        }
      }
      files := files + ready;
      planned := planned + windowPlannedBytes;
    }

    /** `recordNativeAcknowledgement` of the worker that uploads file `i`. */
    method RecordNativeAcknowledgement(i: nat, report: Report)
      requires i < |files| && files[i].phase.Active? && files[i].acknowledged <= files[i].size
      modifies this
      ensures View() == NativeReport(old(View()), i, report)
      ensures old(files[i].acknowledged) <= files[i].acknowledged <= files[i].size
      ensures report.Finite? && report.bytes >= old(files[i].acknowledged) ==>
                files[i].acknowledged == if report.bytes <= files[i].size then report.bytes else files[i].size
    {
      if report.NotFinite? {
        return;
      }
      var f := files[i];
      var bounded := Min(f.size, Max(f.acknowledged, report.bytes));
      var delta := bounded - f.acknowledged;
      if delta <= 0 {
        return;
      }
      files := files[i := f.(acknowledged := bounded)];
      acknowledged := acknowledged + delta;
    }

    /** The catch branch of the worker that uploads file `i`. */
    method RecordFailure(i: nat, ghost native: bool)
      requires Inv(View(), native) && i < |files| && files[i].phase.Active?
      modifies this
      ensures View() == FailFile(old(View()), i) && Inv(View(), native)
      ensures planned == old(planned) - (old(files)[i].size - old(files)[i].acknowledged)
    {
      FailureFloorNeverBinds(View(), i, native);
      FailKeepsInv(View(), i, native);
      var f := files[i];
      files := files[i := f.(phase := Failed)];
      planned := Max(acknowledged, planned - Max(0, f.size - f.acknowledged));
    }
  }
}
