/** A file operation and its progress record (internal/fileops/operations.go): the operation
    kinds and statuses, the errors a run can end with, and the `Operation` object whose fields
    the running operation and the user interface update. Times are readings of a clock passed in
    by the caller; the cancellation context is the flag `Done`. */
module Operations {

  import opened Wrappers
  import GoStrings
  import FileSystem

  const OpCopy: int := 0
  const OpMove: int := 1
  const OpDelete: int := 2
  const OpRename: int := 3

  const StatusPending: int := 0
  const StatusRunning: int := 1
  const StatusCompleted: int := 2
  const StatusFailed: int := 3
  const StatusCancelled: int := 4

  /** `OperationType.String`. */
  function TypeName(t: int): (r: string)
    ensures r == "Unknown" <==> !(OpCopy <= t <= OpRename)
  {
    if t == OpCopy then "Copy"
    else if t == OpMove then "Move"
    else if t == OpDelete then "Delete"
    else if t == OpRename then "Rename"
    else "Unknown"
  }

  /** `OperationStatus.String`. */
  function StatusName(s: int): (r: string)
    ensures r == "Unknown" <==> !(StatusPending <= s <= StatusCancelled)
  {
    if s == StatusPending then "Pending"
    else if s == StatusRunning then "Running"
    else if s == StatusCompleted then "Completed"
    else if s == StatusFailed then "Failed"
    else if s == StatusCancelled then "Cancelled"
    else "Unknown"
  }

  /** Distinct named statuses have distinct names, and so do the named kinds. */
  lemma NamesDistinct(a: int, b: int)
    requires a != b
    ensures StatusPending <= a <= StatusCancelled && StatusPending <= b <= StatusCancelled
      ==> StatusName(a) != StatusName(b)
    ensures OpCopy <= a <= OpRename && OpCopy <= b <= OpRename ==> TypeName(a) != TypeName(b)
  {
  }

  predicate IsTerminal(s: int) {
    s == StatusCompleted || s == StatusFailed || s == StatusCancelled
  }

  // ---------------------------------------------------------------- errors

  /** The step of `copyRecursive`, `copyDir` or `copyFile` whose wrapped error is returned. */
  datatype CopyStep =
    | StatSource        // "failed to stat source"
    | ReadSymlink       // "failed to read symlink"
    | StatSourceDir     // "failed to stat source directory"
    | CreateDir         // "failed to create directory"
    | ReadDirectory     // "failed to read directory"
    | OpenSource        // "failed to open source file"
    | StatSourceFile    // "failed to stat source file"
    | CreateDest        // "failed to create destination file"
    | SetPermissions    // "failed to set permissions"
    | WriteDest         // "failed to write to destination"
    | ReadSource        // "failed to read from source"

  /** An error returned by the recursive copy. */
  datatype CopyFailure =
    | OperationCancelled                        // "operation cancelled"
    | StepFailed(step: CopyStep, cause: FileSystem.FsError)
    | LinkFailed(cause: FileSystem.FsError)     // the error of `os.Symlink`, returned as it is
    | SameFile                                  // the refusal of `Copying.CopyChecked`; the source has none

  /** The error an operation records, one constructor per message format of the runners. */
  datatype OpError =
    | SizeFailed(cause: FileSystem.FsError)                         // "failed to calculate size: %w"
    | SizeFailedFor(path: string, cause: FileSystem.FsError)        // "failed to calculate size for %s: %w"
    | CopyErr(failure: CopyFailure)                                 // the copy error as it is
    | CopyFailedFor(path: string, failure: CopyFailure)             // "failed to copy %s: %w"
    | MoveCopyFailed(failure: CopyFailure)                          // "failed to copy: %w"
    | RemoveSourceFailed(cause: FileSystem.FsError)                 // "failed to remove source after copy: %w"
    | MoveFailedFor(path: string, failure: CopyFailure)             // "failed to move %s: %w"
    | RemoveSourceFailedFor(path: string, cause: FileSystem.FsError) // "failed to remove source %s: %w"
    | DeleteFailed(cause: FileSystem.FsError)                       // "failed to delete: %w"
    | DeleteFailedFor(path: string, cause: FileSystem.FsError)      // "failed to delete %s: %w"
    | RenameFailed(cause: FileSystem.FsError)                       // "failed to rename: %w"

  // ---------------------------------------------------------------- the record

  /** Everything an `Operation` holds. `Progress` is the fraction `ProgressNum / ProgressDen`. */
  datatype OpRecord = OpRecord(
    ID: string,
    Type: int,
    Source: seq<string>,
    Destination: string,
    Status: int,
    ProgressNum: int,
    ProgressDen: int,
    BytesProcessed: int,
    BytesTotal: int,
    CurrentFile: string,
    Error: Option<OpError>,
    StartTime: Option<nat>,
    EndTime: Option<nat>,
    Done: bool)

  /** `generateOperationID`: "op-" and the clock reading in nanoseconds. */
  function OperationId(nanos: int): string {
    "op-" + GoStrings.IntToString(nanos)
  }

  /** Readings of the clock that differ give identifiers that differ. */
  lemma OperationIdInjective(a: int, b: int)
    requires GoStrings.MinInt64 <= a <= GoStrings.MaxInt64 && GoStrings.MinInt64 <= b <= GoStrings.MaxInt64
    requires a != b
    ensures OperationId(a) != OperationId(b)
  {
    assert GoStrings.IntToString(a) == OperationId(a)[3..];
    assert GoStrings.IntToString(b) == OperationId(b)[3..];
    if OperationId(a) == OperationId(b) {
      GoStrings.IntToStringInjective(a, b);
    }
  }

  /** The record `NewOperation` makes. */
  function Fresh(nanos: int, kind: int, sources: seq<string>, destination: string): OpRecord {
    OpRecord(OperationId(nanos), kind, sources, destination, StatusPending, 0, 1, 0, 0, "", None,
      None, None, false)
  }

  /** `Cancel`: only a pending or running operation turns cancelled, and its context is done. */
  function CancelRec(r: OpRecord): OpRecord {
    if r.Status == StatusRunning || r.Status == StatusPending then r.(Status := StatusCancelled, Done := true)
    else r
  }

  /** `UpdateProgress`: the fraction changes only when the total is positive. */
  function ProgressRec(r: OpRecord, processed: int, total: int, file: string): OpRecord {
    var r1 := r.(BytesProcessed := processed, BytesTotal := total, CurrentFile := file);
    if total > 0 then r1.(ProgressNum := processed, ProgressDen := total) else r1
  }

  /** `SetStatus`: the first start time is kept; every terminal status stamps the end time. */
  function StatusRec(r: OpRecord, status: int, now: nat): OpRecord {
    var start := if status == StatusRunning && r.StartTime.None? then Some(now) else r.StartTime;
    var end := if IsTerminal(status) then Some(now) else r.EndTime;
    r.(Status := status, StartTime := start, EndTime := end)
  }

  /** `SetError`. */
  function ErrorRec(r: OpRecord, err: OpError, now: nat): OpRecord {
    r.(Error := Some(err), Status := StatusFailed, EndTime := Some(now))
  }

  /** The progress fraction always has a positive denominator. */
  ghost predicate WellFormed(r: OpRecord) {
    r.ProgressDen > 0
  }

  lemma FreshState(nanos: int, kind: int, sources: seq<string>, destination: string)
    ensures var r := Fresh(nanos, kind, sources, destination);
      WellFormed(r) && r.Status == StatusPending && r.ProgressNum == 0 && r.Type == kind
      && r.Source == sources && r.Destination == destination && !r.Done && r.Error.None?
  {
  }

  /** Cancelling succeeds exactly on a pending or running operation, finishes it as cancelled
      with its context done, and cancelling again changes nothing. */
  lemma CancelEffect(r: OpRecord)
    ensures var c := CancelRec(r);
      (c.Status == StatusCancelled && c.Done) <==> (r.Status == StatusPending || r.Status == StatusRunning || (r.Status == StatusCancelled && r.Done))
    ensures IsTerminal(r.Status) ==> CancelRec(r) == r
    ensures CancelRec(CancelRec(r)) == CancelRec(r)
    ensures CancelRec(r).Done == (r.Done || r.Status == StatusPending || r.Status == StatusRunning)
    ensures CancelRec(r).(Status := r.Status, Done := r.Done) == r
  {
  }

  /** With a positive total the fraction is processed over total, so 50 of 100 is one half; a
      zero total leaves the fraction as it was. Every update keeps the record well formed. */
  lemma ProgressEffect(r: OpRecord, processed: int, total: int, file: string)
    requires WellFormed(r)
    ensures var u := ProgressRec(r, processed, total, file);
      WellFormed(u) && u.BytesProcessed == processed && u.BytesTotal == total && u.CurrentFile == file
      && (total > 0 ==> u.ProgressNum * total == processed * u.ProgressDen)
      && (total <= 0 ==> u.ProgressNum == r.ProgressNum && u.ProgressDen == r.ProgressDen)
      && u.Status == r.Status && u.Done == r.Done && u.Error == r.Error
    ensures processed == 50 && total == 100 ==> 2 * ProgressRec(r, processed, total, file).ProgressNum == ProgressRec(r, processed, total, file).ProgressDen
  {
  }

  /** The start time is stamped by the first change to running and never moved afterwards;
      the end time is stamped by every terminal status. */
  lemma StatusTimes(r: OpRecord, s1: int, t1: nat, s2: int, t2: nat)
    ensures var a := StatusRec(r, s1, t1);
      a.Status == s1 && (s1 == StatusRunning && r.StartTime.None? ==> a.StartTime == Some(t1))
      && (IsTerminal(s1) ==> a.EndTime == Some(t1))
    ensures var a := StatusRec(StatusRec(r, s1, t1), s2, t2);
      StatusRec(r, s1, t1).StartTime.Some? ==> a.StartTime == StatusRec(r, s1, t1).StartTime
    ensures StatusRec(r, s1, t1).Done == r.Done && StatusRec(r, s1, t1).Error == r.Error
  {
  }

  /** Recording an error leaves the operation failed with that error and an end time. */
  lemma ErrorEffect(r: OpRecord, err: OpError, now: nat)
    ensures var e := ErrorRec(r, err, now);
      e.Status == StatusFailed && e.Error == Some(err) && e.EndTime == Some(now) && e.Done == r.Done
      && e.StartTime == r.StartTime && e.BytesProcessed == r.BytesProcessed
  {
  }

  // ---------------------------------------------------------------- the object

  /** `Operation`: the fields the runner and the interface share (the mutex is not modelled). */
  class Operation {
    var ID: string
    var Type: int
    var Source: seq<string>
    var Destination: string
    var Status: int
    var ProgressNum: int
    var ProgressDen: int
    var BytesProcessed: int
    var BytesTotal: int
    var CurrentFile: string
    var Error: Option<OpError>
    var StartTime: Option<nat>
    var EndTime: Option<nat>
    var Done: bool

    function Record(): OpRecord
      reads this
    {
      OpRecord(ID, Type, Source, Destination, Status, ProgressNum, ProgressDen, BytesProcessed,
        BytesTotal, CurrentFile, Error, StartTime, EndTime, Done)
    }

    /** `NewOperation`, with the clock reading the identifier is made from. */
    constructor (nanos: int, kind: int, sources: seq<string>, destination: string)
      ensures Record() == Fresh(nanos, kind, sources, destination)
    {
      ID, Type, Source, Destination := OperationId(nanos), kind, sources, destination;
      Status, ProgressNum, ProgressDen := StatusPending, 0, 1;
      BytesProcessed, BytesTotal, CurrentFile := 0, 0, "";
      Error, StartTime, EndTime, Done := None, None, None, false;
    }

    method Cancel()
      modifies this
      ensures Record() == CancelRec(old(Record()))
    {
      if Status == StatusRunning || Status == StatusPending {
        Status := StatusCancelled;
        Done := true;
      }
    }

    /** `IsCancelled`: whether the context is done. */
    function IsCancelled(): bool
      reads this
    {
      Done
    }

    method UpdateProgress(processed: int, total: int, file: string)
      modifies this
      ensures Record() == ProgressRec(old(Record()), processed, total, file)
    {
      BytesProcessed, BytesTotal, CurrentFile := processed, total, file;
      if total > 0 {
        ProgressNum, ProgressDen := processed, total;
      }
    }

    method SetStatus(status: int, now: nat)
      modifies this
      ensures Record() == StatusRec(old(Record()), status, now)
    {
      Status := status;
      if status == StatusRunning && StartTime.None? {
        StartTime := Some(now);
      }
      if IsTerminal(status) {
        EndTime := Some(now);
      }
    }

    method SetError(err: OpError, now: nat)
      modifies this
      ensures Record() == ErrorRec(old(Record()), err, now)
    {
      Error, Status, EndTime := Some(err), StatusFailed, Some(now);
    }

    /** `GetProgress`: the fraction as numerator and denominator, the byte counts and the file. */
    method GetProgress() returns (num: int, den: int, processed: int, total: int, file: string)
      ensures (num, den, processed, total, file)
        == (Record().ProgressNum, Record().ProgressDen, Record().BytesProcessed, Record().BytesTotal, Record().CurrentFile)
    {
      return ProgressNum, ProgressDen, BytesProcessed, BytesTotal, CurrentFile;
    }
  }

  // ---------------------------------------------------------------- cancellation by the user

  /** The user's `Cancel` is delivered, if ever, just before the `IsCancelled` check with number
      `at` of a run (checks are counted from zero over the whole run). */
  function PollRec(r: OpRecord, at: Option<nat>, checks: nat): OpRecord {
    if at == Some(checks) then CancelRec(r) else r
  }

  /** One `IsCancelled` check of a run, with the user's cancel delivered first if it is due. */
  method Poll(op: Operation, at: Option<nat>, checks: nat) returns (cancelled: bool)
    modifies op
    ensures op.Record() == PollRec(old(op.Record()), at, checks)
    ensures cancelled == op.Record().Done
  {
    if at == Some(checks) {
      op.Cancel();
    }
    cancelled := op.IsCancelled();
  }
}
