/** The operation runners of internal/fileops/operations.go (performCopy, performCopyMultiple,
    performMove, performMoveMultiple, performDelete, performDeleteMultiple, performRename) and
    the constructors that start them (Copy, CopyMultiple, Move, MoveMultiple, Delete,
    DeleteMultiple, Rename). Each runner is a function from the filesystem and the record it
    starts from to the filesystem and record it leaves, and a method that does the same work
    on an `Operation` object. `at` places the user's cancel (see `Operations.PollRec`), `t0` is
    the clock when the run starts and `t1` when it ends. The progress callback is not modelled. */
module Runners {

  import opened Wrappers
  import opened FileSystem
  import opened Operations
  import opened Copying
  import GoPaths

  datatype Finish = Finish(fs: Fs, op: OpRecord)

  /** Where the loop of a multi-source runner stands: still going, left by `break` (the final
      check still follows), or left by `return` with its result. */
  datatype Step = Continue(run: Run) | Break(run: Run) | Stopped(fin: Finish)

  /** The end of a multi-source runner: the last check, and completion unless cancelled. */
  function Final(run: Run, at: Option<nat>, t1: nat): Finish {
    var r := Check(run, at);
    if r.op.Done then Finish(r.fs, r.op) else Finish(r.fs, StatusRec(r.op, StatusCompleted, t1))
  }

  function Conclude(s: Step, at: Option<nat>, t1: nat): Finish {
    match s
    case Continue(r) => Final(r, at, t1)
    case Break(r) => Final(r, at, t1)
    case Stopped(f) => f
  }

  /** Where a multi-source destination puts `src`. */
  function Target(destination: string, src: string): string {
    GoPaths.Join(destination, GoPaths.Base(src))
  }

  // ---------------------------------------------------------------- copy

  /** `performCopy`. */
  function CopySpec(fs: Fs, r: OpRecord, at: Option<nat>, source: string, destination: string, t0: nat, t1: nat): Finish {
    var r0 := StatusRec(r, StatusRunning, t0);
    match SizeOf(fs, source)
    case Err(e) => Finish(fs, ErrorRec(r0, SizeFailed(e), t1))
    case Ok(total) =>
      var o := CopyRec(Run(fs, ProgressRec(r0, 0, total, source), 0, 0), at, source, destination, total);
      if o.err.None? then Finish(o.run.fs, StatusRec(o.run.op, StatusCompleted, t1))
      else
        var r2 := Check(o.run, at);
        if r2.op.Done then Finish(r2.fs, r2.op)
        else Finish(r2.fs, ErrorRec(r2.op, CopyErr(o.err.value), t1))
  }

  /** The `performCopy` evidently intended for an operation cancelled while it was pending: it
      is left Cancelled instead of being set running again. */
  function CopyStartChecked(fs: Fs, r: OpRecord, at: Option<nat>, source: string, destination: string, t0: nat, t1: nat): Finish {
    if r.Done then Finish(fs, r) else CopySpec(fs, r, at, source, destination, t0, t1)
  }

  /** The size loop of `performCopyMultiple`: the sum, or the first source that failed. */
  function Totals(fs: Fs, sources: seq<string>): Result<int, (string, FsError)>
    decreases |sources|
  {
    if sources == [] then Ok(0)
    else match SizeOf(fs, sources[0])
      case Err(e) => Err((sources[0], e))
      case Ok(n) =>
        match Totals(fs, sources[1..])
        case Err(f) => Err(f)
        case Ok(m) => Ok(n + m)
  }

  /** One pass of the copy loop of `performCopyMultiple`. */
  function CopyOne(run: Run, at: Option<nat>, src: string, destination: string, total: int, t1: nat): Step {
    var r1 := Check(run, at);
    if r1.op.Done then Break(r1)
    else
      var o := CopyRec(r1, at, src, Target(destination, src), total);
      if o.err.None? then Continue(o.run)
      else
        var r2 := Check(o.run, at);
        if r2.op.Done then Stopped(Finish(r2.fs, r2.op))
        else Stopped(Finish(r2.fs, ErrorRec(r2.op, CopyFailedFor(src, o.err.value), t1)))
  }

  function CopyLoop(run: Run, at: Option<nat>, sources: seq<string>, destination: string, total: int, t1: nat): Step
    decreases |sources|
  {
    if sources == [] then Continue(run)
    else match CopyOne(run, at, sources[0], destination, total, t1)
      case Continue(r) => CopyLoop(r, at, sources[1..], destination, total, t1)
      case s => s
  }

  /** `performCopyMultiple`. */
  function CopyManySpec(fs: Fs, r: OpRecord, at: Option<nat>, sources: seq<string>, destination: string, t0: nat, t1: nat): Finish {
    var r0 := StatusRec(r, StatusRunning, t0);
    match Totals(fs, sources)
    case Err((src, e)) => Finish(fs, ErrorRec(r0, SizeFailedFor(src, e), t1))
    case Ok(total) => Conclude(CopyLoop(Run(fs, r0, 0, 0), at, sources, destination, total, t1), at, t1)
  }

  // ---------------------------------------------------------------- move

  /** `performMove`: a rename, or else a copy followed by removing the source. */
  function MoveSpec(fs: Fs, r: OpRecord, at: Option<nat>, source: string, destination: string, t0: nat, t1: nat): Finish {
    var r0 := StatusRec(r, StatusRunning, t0);
    match Rename(fs, source, destination)
    case Ok(fs1) => Finish(fs1, StatusRec(ProgressRec(r0, 1, 1, source), StatusCompleted, t1))
    case Err(_) =>
      match SizeOf(fs, source)
      case Err(e) => Finish(fs, ErrorRec(r0, SizeFailed(e), t1))
      case Ok(total) =>
        var o := CopyRec(Run(fs, r0, 0, 0), at, source, destination, total);
        if o.err.Some? then Finish(o.run.fs, ErrorRec(o.run.op, MoveCopyFailed(o.err.value), t1))
        else
          var rm := RemoveAll(o.run.fs, source);
          if rm.err.Some? then Finish(rm.fs, ErrorRec(o.run.op, RemoveSourceFailed(rm.err.value), t1))
          else Finish(rm.fs, StatusRec(o.run.op, StatusCompleted, t1))
  }

  /** One pass of the loop of `performMoveMultiple`; the byte count starts again at zero. */
  function MoveOne(run: Run, at: Option<nat>, src: string, destination: string, t1: nat): Step {
    var r1 := Check(run.(bytes := 0), at);
    if r1.op.Done then Break(r1)
    else
      var dp := Target(destination, src);
      match Rename(r1.fs, src, dp)
      case Ok(fs1) => Continue(r1.(fs := fs1))
      case Err(_) => MoveByCopy(r1, at, src, dp, t1)
  }

  /** The rest of a pass of `performMoveMultiple` once the rename has failed. */
  function MoveByCopy(r1: Run, at: Option<nat>, src: string, dp: string, t1: nat): Step {
    match SizeOf(r1.fs, src)
    case Err(e) => Stopped(Finish(r1.fs, ErrorRec(r1.op, SizeFailedFor(src, e), t1)))
    case Ok(total) =>
      var o := CopyRec(r1.(bytes := 0), at, src, dp, total);
      if o.err.Some? then Stopped(Finish(o.run.fs, ErrorRec(o.run.op, MoveFailedFor(src, o.err.value), t1)))
      else
        var rm := RemoveAll(o.run.fs, src);
        if rm.err.Some? then Stopped(Finish(rm.fs, ErrorRec(o.run.op, RemoveSourceFailedFor(src, rm.err.value), t1)))
        else Continue(o.run.(fs := rm.fs, bytes := 0))
  }

  function MoveLoop(run: Run, at: Option<nat>, sources: seq<string>, destination: string, t1: nat): Step
    decreases |sources|
  {
    if sources == [] then Continue(run)
    else match MoveOne(run, at, sources[0], destination, t1)
      case Continue(r) => MoveLoop(r, at, sources[1..], destination, t1)
      case s => s
  }

  /** `performMoveMultiple`. */
  function MoveManySpec(fs: Fs, r: OpRecord, at: Option<nat>, sources: seq<string>, destination: string, t0: nat, t1: nat): Finish {
    Conclude(MoveLoop(Run(fs, StatusRec(r, StatusRunning, t0), 0, 0), at, sources, destination, t1), at, t1)
  }

  // ---------------------------------------------------------------- delete and rename

  /** `performDelete`. */
  function DeleteSpec(fs: Fs, r: OpRecord, path: string, t0: nat, t1: nat): Finish {
    var r0 := StatusRec(r, StatusRunning, t0);
    match SizeOf(fs, path)
    case Err(e) => Finish(fs, ErrorRec(r0, SizeFailed(e), t1))
    case Ok(total) =>
      var r1 := ProgressRec(r0, 0, total, path);
      var rm := RemoveAll(fs, path);
      if rm.err.Some? then Finish(rm.fs, ErrorRec(r1, DeleteFailed(rm.err.value), t1))
      else Finish(rm.fs, StatusRec(ProgressRec(r1, total, total, path), StatusCompleted, t1))
  }

  /** One pass of the loop of `performDeleteMultiple`. */
  function DeleteOne(run: Run, at: Option<nat>, path: string, t1: nat): Step {
    var r1 := Check(run, at);
    if r1.op.Done then Break(r1)
    else
      var rm := RemoveAll(r1.fs, path);
      if rm.err.Some? then Stopped(Finish(rm.fs, ErrorRec(r1.op, DeleteFailedFor(path, rm.err.value), t1)))
      else Continue(r1.(fs := rm.fs))
  }

  function DeleteLoop(run: Run, at: Option<nat>, paths: seq<string>, t1: nat): Step
    decreases |paths|
  {
    if paths == [] then Continue(run)
    else match DeleteOne(run, at, paths[0], t1)
      case Continue(r) => DeleteLoop(r, at, paths[1..], t1)
      case s => s
  }

  /** `performDeleteMultiple`. */
  function DeleteManySpec(fs: Fs, r: OpRecord, at: Option<nat>, paths: seq<string>, t0: nat, t1: nat): Finish {
    Conclude(DeleteLoop(Run(fs, StatusRec(r, StatusRunning, t0), 0, 0), at, paths, t1), at, t1)
  }

  /** `performRename`. */
  function RenameSpec(fs: Fs, r: OpRecord, oldPath: string, newPath: string, t0: nat, t1: nat): Finish {
    var r0 := StatusRec(r, StatusRunning, t0);
    match Rename(fs, oldPath, newPath)
    case Err(e) => Finish(fs, ErrorRec(r0, RenameFailed(e), t1))
    case Ok(fs1) => Finish(fs1, StatusRec(ProgressRec(r0, 1, 1, newPath), StatusCompleted, t1))
  }

  // ---------------------------------------------------------------- the methods

  /** The state a method leaves, as the function describes it. */
  ghost predicate Leaves(f: Finish, fs: Fs, op: Operation)
    reads op
  {
    f == Finish(fs, op.Record())
  }

  ghost predicate AtStep(s: Step, fs: Fs, op: OpRecord, bytes: int, checks: nat, kind: int) {
    match s
    case Continue(r) => kind == 0 && r == Run(fs, op, bytes, checks)
    case Break(r) => kind == 1 && r == Run(fs, op, bytes, checks)
    case Stopped(f) => kind == 2 && f == Finish(fs, op)
  }

  /** The last check and completion of a multi-source runner. */
  method Complete(op: Operation, at: Option<nat>, checks: nat, t1: nat)
    modifies op
    ensures op.Record() == Final(Run(Fs(map[], {}), old(op.Record()), 0, checks), at, t1).op
  {
    var cancelled := Poll(op, at, checks);
    if !cancelled {
      op.SetStatus(StatusCompleted, t1);
    }
  }

  method PerformCopy(op: Operation, fs: Fs, at: Option<nat>, source: string, destination: string, t0: nat, t1: nat)
    returns (fs': Fs)
    modifies op
    ensures Leaves(CopySpec(fs, old(op.Record()), at, source, destination, t0, t1), fs', op)
  {
    op.SetStatus(StatusRunning, t0);
    var total, e := CalculateSize(fs, source);
    if e.Some? {
      op.SetError(SizeFailed(e.value), t1);
      return fs;
    }
    op.UpdateProgress(0, total, source);
    var bytes, checks, err;
    fs', bytes, checks, err := CopyRecursive(op, fs, at, source, destination, 0, total, 0);
    if err.Some? {
      var cancelled := Poll(op, at, checks);
      if !cancelled {
        op.SetError(CopyErr(err.value), t1);
      }
    } else {
      op.SetStatus(StatusCompleted, t1);
    }
  }

  /** A size sum shifted by what was added before. */
  function Offset(t: Result<int, (string, FsError)>, n: int): Result<int, (string, FsError)> {
    match t
    case Err(f) => Err(f)
    case Ok(m) => Ok(n + m)
  }

  lemma TotalsUnfold(fs: Fs, sources: seq<string>, i: nat)
    requires i < |sources|
    ensures Totals(fs, sources[i..])
      == match SizeOf(fs, sources[i])
         case Err(e) => Err((sources[i], e))
         case Ok(n) => Offset(Totals(fs, sources[i + 1..]), n)
  {
    assert sources[i..][0] == sources[i] && sources[i..][1..] == sources[i + 1..];
  }

  /** The size loop of `performCopyMultiple`. */
  method SumSizes(fs: Fs, sources: seq<string>) returns (r: Result<int, (string, FsError)>)
    ensures r == Totals(fs, sources)
  {
    var total := 0;
    var i := 0;
    while i < |sources|
      invariant 0 <= i <= |sources|
      invariant Totals(fs, sources) == Offset(Totals(fs, sources[i..]), total)
      decreases |sources| - i
    {
      var size, e := CalculateSize(fs, sources[i]);
      TotalsUnfold(fs, sources, i);
      if e.Some? {
        return Err((sources[i], e.value));
      }
      total := total + size;
      i := i + 1;
    }
    return Ok(total);
  }

  /** One pass of the copy loop of `performCopyMultiple`. */
  method CopySource(op: Operation, fs: Fs, at: Option<nat>, src: string, destination: string, bytes: int, total: int, checks: nat, t1: nat)
    returns (fs': Fs, bytes': int, checks': nat, kind: int)
    modifies op
    ensures AtStep(CopyOne(Run(fs, old(op.Record()), bytes, checks), at, src, destination, total, t1), fs', op.Record(), bytes', checks', kind)
  {
    var cancelled := Poll(op, at, checks);
    checks' := checks + 1;
    if cancelled {
      return fs, bytes, checks', 1;
    }
    var err;
    fs', bytes', checks', err := CopyRecursive(op, fs, at, src, Target(destination, src), bytes, total, checks');
    if err.None? {
      return fs', bytes', checks', 0;
    }
    cancelled := Poll(op, at, checks');
    checks' := checks' + 1;
    if !cancelled {
      op.SetError(CopyFailedFor(src, err.value), t1);
    }
    kind := 2;
  }

  method PerformCopyMultiple(op: Operation, fs: Fs, at: Option<nat>, sources: seq<string>, destination: string, t0: nat, t1: nat)
    returns (fs': Fs)
    modifies op
    ensures Leaves(CopyManySpec(fs, old(op.Record()), at, sources, destination, t0, t1), fs', op)
  {
    op.SetStatus(StatusRunning, t0);
    var totals := SumSizes(fs, sources);
    if totals.Err? {
      op.SetError(SizeFailedFor(totals.error.0, totals.error.1), t1);
      return fs;
    }
    var total := totals.value;
    ghost var goal := CopyLoop(Run(fs, op.Record(), 0, 0), at, sources, destination, total, t1);
    var bytes, checks := 0, 0;
    fs' := fs;
    var i := 0;
    while i < |sources|
      invariant 0 <= i <= |sources|
      invariant CopyLoop(Run(fs', op.Record(), bytes, checks), at, sources[i..], destination, total, t1) == goal
      decreases |sources| - i
    {
      assert sources[i..][1..] == sources[i + 1..];
      ghost var run := Run(fs', op.Record(), bytes, checks);
      assert CopyLoop(run, at, sources[i..], destination, total, t1) ==
        match CopyOne(run, at, sources[i], destination, total, t1)
        case Continue(r) => CopyLoop(r, at, sources[i + 1..], destination, total, t1)
        case s => s;
      var kind;
      fs', bytes, checks, kind := CopySource(op, fs', at, sources[i], destination, bytes, total, checks, t1);
      if kind == 1 {
        break;
      }
      if kind == 2 {
        return;
      }
      i := i + 1;
    }
    Complete(op, at, checks, t1);
  }

  method PerformMove(op: Operation, fs: Fs, at: Option<nat>, source: string, destination: string, t0: nat, t1: nat)
    returns (fs': Fs)
    modifies op
    ensures Leaves(MoveSpec(fs, old(op.Record()), at, source, destination, t0, t1), fs', op)
  {
    op.SetStatus(StatusRunning, t0);
    var renamed := Rename(fs, source, destination);
    if renamed.Ok? {
      op.UpdateProgress(1, 1, source);
      op.SetStatus(StatusCompleted, t1);
      return renamed.value;
    }
    var total, e := CalculateSize(fs, source);
    if e.Some? {
      op.SetError(SizeFailed(e.value), t1);
      return fs;
    }
    var bytes, checks, err;
    fs', bytes, checks, err := CopyRecursive(op, fs, at, source, destination, 0, total, 0);
    if err.Some? {
      op.SetError(MoveCopyFailed(err.value), t1);
      return;
    }
    var removed := RemoveAll(fs', source);
    if removed.err.Some? {
      op.SetError(RemoveSourceFailed(removed.err.value), t1);
      return removed.fs;
    }
    op.SetStatus(StatusCompleted, t1);
    return removed.fs;
  }

  /** One pass of the loop of `performMoveMultiple`. */
  method MoveSource(op: Operation, fs: Fs, at: Option<nat>, src: string, destination: string, checks: nat, t1: nat)
    returns (fs': Fs, checks': nat, kind: int)
    modifies op
    ensures AtStep(MoveOne(Run(fs, old(op.Record()), 0, checks), at, src, destination, t1), fs', op.Record(), 0, checks', kind)
  {
    ghost var step := MoveOne(Run(fs, op.Record(), 0, checks), at, src, destination, t1);
    ghost var r1 := Check(Run(fs, op.Record(), 0, checks), at);
    var cancelled := Poll(op, at, checks);
    checks' := checks + 1;
    assert r1 == Run(fs, op.Record(), 0, checks');
    if cancelled {
      assert step == Break(r1);
      return fs, checks', 1;
    }
    var dp := Target(destination, src);
    var renamed := Rename(fs, src, dp);
    if renamed.Ok? {
      assert step == Continue(r1.(fs := renamed.value));
      return renamed.value, checks', 0;
    }
    assert step == MoveByCopy(r1, at, src, dp, t1);
    fs', checks', kind := MoveSourceByCopy(op, fs, at, src, dp, checks', t1);
  }

  method MoveSourceByCopy(op: Operation, fs: Fs, at: Option<nat>, src: string, dp: string, checks: nat, t1: nat)
    returns (fs': Fs, checks': nat, kind: int)
    modifies op
    ensures AtStep(MoveByCopy(Run(fs, old(op.Record()), 0, checks), at, src, dp, t1), fs', op.Record(), 0, checks', kind)
  {
    var total, e := CalculateSize(fs, src);
    if e.Some? {
      op.SetError(SizeFailedFor(src, e.value), t1);
      return fs, checks, 2;
    }
    var bytes, err;
    fs', bytes, checks', err := CopyRecursive(op, fs, at, src, dp, 0, total, checks);
    if err.Some? {
      op.SetError(MoveFailedFor(src, err.value), t1);
      return fs', checks', 2;
    }
    var removed := RemoveAll(fs', src);
    if removed.err.Some? {
      op.SetError(RemoveSourceFailedFor(src, removed.err.value), t1);
      return removed.fs, checks', 2;
    }
    return removed.fs, checks', 0;
  }

  method PerformMoveMultiple(op: Operation, fs: Fs, at: Option<nat>, sources: seq<string>, destination: string, t0: nat, t1: nat)
    returns (fs': Fs)
    modifies op
    ensures Leaves(MoveManySpec(fs, old(op.Record()), at, sources, destination, t0, t1), fs', op)
  {
    op.SetStatus(StatusRunning, t0);
    ghost var goal := Conclude(MoveLoop(Run(fs, op.Record(), 0, 0), at, sources, destination, t1), at, t1);
    var checks := 0;
    fs' := fs;
    var i := 0;
    while i < |sources|
      invariant 0 <= i <= |sources|
      invariant Conclude(MoveLoop(Run(fs', op.Record(), 0, checks), at, sources[i..], destination, t1), at, t1) == goal
      decreases |sources| - i
    {
      assert sources[i..][1..] == sources[i + 1..];
      var kind;
      fs', checks, kind := MoveSource(op, fs', at, sources[i], destination, checks, t1);
      if kind == 1 {
        break;
      }
      if kind == 2 {
        return;
      }
      i := i + 1;
    }
    Complete(op, at, checks, t1);
  }

  method PerformDelete(op: Operation, fs: Fs, path: string, t0: nat, t1: nat) returns (fs': Fs)
    modifies op
    ensures Leaves(DeleteSpec(fs, old(op.Record()), path, t0, t1), fs', op)
  {
    op.SetStatus(StatusRunning, t0);
    var total, e := CalculateSize(fs, path);
    if e.Some? {
      op.SetError(SizeFailed(e.value), t1);
      return fs;
    }
    op.UpdateProgress(0, total, path);
    var removed := RemoveAll(fs, path);
    if removed.err.Some? {
      op.SetError(DeleteFailed(removed.err.value), t1);
      return removed.fs;
    }
    op.UpdateProgress(total, total, path);
    op.SetStatus(StatusCompleted, t1);
    return removed.fs;
  }

  method PerformDeleteMultiple(op: Operation, fs: Fs, at: Option<nat>, paths: seq<string>, t0: nat, t1: nat)
    returns (fs': Fs)
    modifies op
    ensures Leaves(DeleteManySpec(fs, old(op.Record()), at, paths, t0, t1), fs', op)
  {
    op.SetStatus(StatusRunning, t0);
    ghost var goal := DeleteLoop(Run(fs, op.Record(), 0, 0), at, paths, t1);
    var checks := 0;
    fs' := fs;
    var i := 0;
    while i < |paths|
      invariant 0 <= i <= |paths|
      invariant DeleteLoop(Run(fs', op.Record(), 0, checks), at, paths[i..], t1) == goal
      decreases |paths| - i
    {
      assert paths[i..][1..] == paths[i + 1..];
      var cancelled := Poll(op, at, checks);
      checks := checks + 1;
      if cancelled {
        break;
      }
      var removed := RemoveAll(fs', paths[i]);
      fs' := removed.fs;
      if removed.err.Some? {
        op.SetError(DeleteFailedFor(paths[i], removed.err.value), t1);
        return;
      }
      i := i + 1;
    }
    Complete(op, at, checks, t1);
  }

  method PerformRename(op: Operation, fs: Fs, oldPath: string, newPath: string, t0: nat, t1: nat) returns (fs': Fs)
    modifies op
    ensures Leaves(RenameSpec(fs, old(op.Record()), oldPath, newPath, t0, t1), fs', op)
  {
    op.SetStatus(StatusRunning, t0);
    var renamed := Rename(fs, oldPath, newPath);
    if renamed.Err? {
      op.SetError(RenameFailed(renamed.error), t1);
      return fs;
    }
    op.UpdateProgress(1, 1, newPath);
    op.SetStatus(StatusCompleted, t1);
    return renamed.value;
  }

  // ---------------------------------------------------------------- starting an operation

  /* The constructors create the operation and run it. The source starts the runner on its own
     goroutine and returns at once; here the run is carried out before the operation is handed
     back, and a cancel placed by `at` stands for one the user issues meanwhile. */

  /** `Copy(source, destination, _)`. */
  method StartCopy(nanos: int, fs: Fs, at: Option<nat>, source: string, destination: string, t0: nat, t1: nat)
    returns (op: Operation, fs': Fs)
    ensures fresh(op)
    ensures Leaves(CopySpec(fs, Fresh(nanos, OpCopy, [source], destination), at, source, destination, t0, t1), fs', op)
  {
    op := new Operation(nanos, OpCopy, [source], destination);
    fs' := PerformCopy(op, fs, at, source, destination, t0, t1);
  }

  /** `CopyMultiple(sources, destination, _)`. */
  method StartCopyMultiple(nanos: int, fs: Fs, at: Option<nat>, sources: seq<string>, destination: string, t0: nat, t1: nat)
    returns (op: Operation, fs': Fs)
    ensures fresh(op)
    ensures Leaves(CopyManySpec(fs, Fresh(nanos, OpCopy, sources, destination), at, sources, destination, t0, t1), fs', op)
  {
    op := new Operation(nanos, OpCopy, sources, destination);
    fs' := PerformCopyMultiple(op, fs, at, sources, destination, t0, t1);
  }

  /** `Move(source, destination, _)`. */
  method StartMove(nanos: int, fs: Fs, at: Option<nat>, source: string, destination: string, t0: nat, t1: nat)
    returns (op: Operation, fs': Fs)
    ensures fresh(op)
    ensures Leaves(MoveSpec(fs, Fresh(nanos, OpMove, [source], destination), at, source, destination, t0, t1), fs', op)
  {
    op := new Operation(nanos, OpMove, [source], destination);
    fs' := PerformMove(op, fs, at, source, destination, t0, t1);
  }

  /** `MoveMultiple(sources, destination, _)`. */
  method StartMoveMultiple(nanos: int, fs: Fs, at: Option<nat>, sources: seq<string>, destination: string, t0: nat, t1: nat)
    returns (op: Operation, fs': Fs)
    ensures fresh(op)
    ensures Leaves(MoveManySpec(fs, Fresh(nanos, OpMove, sources, destination), at, sources, destination, t0, t1), fs', op)
  {
    op := new Operation(nanos, OpMove, sources, destination);
    fs' := PerformMoveMultiple(op, fs, at, sources, destination, t0, t1);
  }

  /** `Delete(path, _)`: the destination is empty. */
  method StartDelete(nanos: int, fs: Fs, path: string, t0: nat, t1: nat) returns (op: Operation, fs': Fs)
    ensures fresh(op)
    ensures Leaves(DeleteSpec(fs, Fresh(nanos, OpDelete, [path], ""), path, t0, t1), fs', op)
  {
    op := new Operation(nanos, OpDelete, [path], "");
    fs' := PerformDelete(op, fs, path, t0, t1);
  }

  /** `DeleteMultiple(paths, _)`. */
  method StartDeleteMultiple(nanos: int, fs: Fs, at: Option<nat>, paths: seq<string>, t0: nat, t1: nat)
    returns (op: Operation, fs': Fs)
    ensures fresh(op)
    ensures Leaves(DeleteManySpec(fs, Fresh(nanos, OpDelete, paths, ""), at, paths, t0, t1), fs', op)
  {
    op := new Operation(nanos, OpDelete, paths, "");
    fs' := PerformDeleteMultiple(op, fs, at, paths, t0, t1);
  }

  /** `Rename(oldPath, newPath, _)`: the new path is recorded as the destination. */
  method StartRename(nanos: int, fs: Fs, oldPath: string, newPath: string, t0: nat, t1: nat)
    returns (op: Operation, fs': Fs)
    ensures fresh(op)
    ensures Leaves(RenameSpec(fs, Fresh(nanos, OpRename, [oldPath], newPath), oldPath, newPath, t0, t1), fs', op)
  {
    op := new Operation(nanos, OpRename, [oldPath], newPath);
    fs' := PerformRename(op, fs, oldPath, newPath, t0, t1);
  }
}
