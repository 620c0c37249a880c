/** What the runners of internal/fileops/operations.go guarantee, proved on the functions of
    `Runners`: how an operation ends (and how a cancel shows in its status), what each runner
    does to the filesystem, and how the multi-source loops compose. */
module RunnerProofs {

  import opened Wrappers
  import opened FileSystem
  import opened Operations
  import opened Copying
  import opened CopyProofs
  import opened Runners
  import GoStrings
  import GoPaths

  /** How a copy or delete run should end: in a terminal status, cancelled exactly when its
      context is done, and a cancel does not overwrite the error slot. */
  ghost predicate Settled(r: OpRecord, e0: Option<OpError>) {
    IsTerminal(r.Status) && (r.Done <==> r.Status == StatusCancelled)
    && (r.Status == StatusCancelled ==> r.Error == e0)
  }

  /** A record in the middle of a run: running, or cancelled by the user, with no error yet. */
  ghost predicate Live(r: OpRecord, e0: Option<OpError>) {
    r.Error == e0
    && ((r.Status == StatusRunning && !r.Done) || (r.Status == StatusCancelled && r.Done))
  }

  ghost predicate StepLive(s: Step, e0: Option<OpError>) {
    match s
    case Continue(r) => Live(r.op, e0) && !r.op.Done
    case Break(r) => Live(r.op, e0)
    case Stopped(f) => Settled(f.op, e0)
  }

  lemma CheckLive(run: Run, at: Option<nat>, e0: Option<OpError>)
    requires Live(run.op, e0)
    ensures Live(Check(run, at).op, e0) && Check(run, at).fs == run.fs
    ensures run.op.Done ==> Check(run, at).op.Done
  {
  }

  /** A copy keeps a live record live, and it ends without error only while not cancelled. */
  lemma CopyLive(run: Run, at: Option<nat>, src: string, dst: string, total: int, e0: Option<OpError>)
    requires Live(run.op, e0)
    ensures var o := CopyRec(run, at, src, dst, total);
      Live(o.run.op, e0) && (o.err.None? ==> !o.run.op.Done)
  {
    RecFacts(run, at, src, dst, total);
  }

  lemma FinalSettled(run: Run, at: Option<nat>, t1: nat, e0: Option<OpError>)
    requires Live(run.op, e0)
    ensures Settled(Final(run, at, t1).op, e0) && Final(run, at, t1).fs == run.fs
  {
  }

  lemma ConcludeSettled(s: Step, at: Option<nat>, t1: nat, e0: Option<OpError>)
    requires StepLive(s, e0)
    ensures Settled(Conclude(s, at, t1).op, e0)
  {
    match s
    case Continue(r) => FinalSettled(r, at, t1, e0);
    case Break(r) => FinalSettled(r, at, t1, e0);
    case Stopped(f) =>
  }

  // ---------------------------------------------------------------- performCopy

  /** A copy that was not already cancelled ends Completed, Failed or Cancelled; Cancelled
      exactly when the cancel reached it, and then with no error recorded, because the runner
      checks for cancellation before it records a copy error. */
  lemma CopySettles(fs: Fs, r: OpRecord, at: Option<nat>, source: string, destination: string, t0: nat, t1: nat)
    requires !r.Done
    ensures Settled(CopySpec(fs, r, at, source, destination, t0, t1).op, r.Error)
  {
    var r0 := StatusRec(r, StatusRunning, t0);
    if SizeOf(fs, source).Ok? {
      var total := SizeOf(fs, source).value;
      var run := Run(fs, ProgressRec(r0, 0, total, source), 0, 0);
      CopyLive(run, at, source, destination, total, r.Error);
    }
  }

  /** An operation cancelled while still pending is set running again by `performCopy`, and
      the copy, seeing the cancelled context, stops without recording anything: the operation
      is left Running, its end time as it was, and the filesystem untouched. */
  lemma CopyCancelledBeforeStart(fs: Fs, r: OpRecord, source: string, destination: string, t0: nat, t1: nat)
    requires r.Done && r.Status == StatusCancelled && SizeOf(fs, source).Ok?
    ensures var f := CopySpec(fs, r, None, source, destination, t0, t1);
      f.op.Status == StatusRunning && f.op.EndTime == r.EndTime && f.op.Error == r.Error && f.fs == fs
  {
  }

  /** A completed copy of a tree that does not overlap its destination has processed the bytes
      of every regular file, which is the total `calculateSize` reported minus the lengths of
      the link targets. Its progress fraction is the processed bytes over that total, or, when
      the total is zero, the fraction the operation had before. */
  lemma CopyCountsBytes(fs: Fs, r: OpRecord, at: Option<nat>, source: string, destination: string, t0: nat, t1: nat)
    requires Resolve(source).Some? && Resolve(destination).Some?
    requires Disjoint(Resolve(source).value, Resolve(destination).value)
    ensures var f := CopySpec(fs, r, at, source, destination, t0, t1);
      f.op.Status == StatusCompleted ==>
        Walk(fs, source).Ok? && f.op.BytesTotal == SizeOf(fs, source).value
        && f.op.BytesProcessed + Walk(fs, source).value.links == f.op.BytesTotal
        && (f.op.BytesTotal > 0 ==> f.op.ProgressNum == f.op.BytesProcessed && f.op.ProgressDen == f.op.BytesTotal)
        && (f.op.BytesTotal == 0 ==> f.op.ProgressNum == r.ProgressNum && f.op.ProgressDen == r.ProgressDen)
  {
    CopyBytes(fs, r, at, source, destination, t0, t1);
    CopyFraction(fs, r, at, source, destination, t0, t1);
  }

  lemma CopyBytes(fs: Fs, r: OpRecord, at: Option<nat>, source: string, destination: string, t0: nat, t1: nat)
    requires Resolve(source).Some? && Resolve(destination).Some?
    requires Disjoint(Resolve(source).value, Resolve(destination).value)
    ensures var f := CopySpec(fs, r, at, source, destination, t0, t1);
      f.op.Status == StatusCompleted ==>
        Walk(fs, source).Ok? && 0 <= f.op.BytesTotal == SizeOf(fs, source).value
        && f.op.BytesProcessed + Walk(fs, source).value.links == f.op.BytesTotal
  {
    var r0 := StatusRec(r, StatusRunning, t0);
    if SizeOf(fs, source).Ok? {
      var total := SizeOf(fs, source).value;
      var run := Run(fs, ProgressRec(r0, 0, total, source), 0, 0);
      RecFacts(run, at, source, destination, total);
      if CopyRec(run, at, source, destination, total).err.None? {
        RecBytes(run, at, source, destination, total);
      }
    }
  }

  /** The fraction a completed copy shows: processed over total, or the old one for a zero total. */
  lemma CopyFraction(fs: Fs, r: OpRecord, at: Option<nat>, source: string, destination: string, t0: nat, t1: nat)
    ensures var f := CopySpec(fs, r, at, source, destination, t0, t1);
      f.op.Status == StatusCompleted ==>
        (f.op.BytesTotal > 0 ==> f.op.ProgressNum == f.op.BytesProcessed && f.op.ProgressDen == f.op.BytesTotal)
        && (f.op.BytesTotal <= 0 ==> f.op.ProgressNum == r.ProgressNum && f.op.ProgressDen == r.ProgressDen)
  {
    var r0 := StatusRec(r, StatusRunning, t0);
    if SizeOf(fs, source).Ok? {
      var total := SizeOf(fs, source).value;
      var run := Run(fs, ProgressRec(r0, 0, total, source), 0, 0);
      RecFacts(run, at, source, destination, total);
    }
  }

  /** `performCopy` writes only at the destination and the directories above it, so a source
      tree that does not overlap the destination is left as it was, whatever the outcome. */
  lemma CopyConfined(fs: Fs, r: OpRecord, at: Option<nat>, source: string, destination: string, t0: nat, t1: nat)
    ensures Confined(fs, CopySpec(fs, r, at, source, destination, t0, t1).fs, destination)
    ensures Resolve(source).Some? && Resolve(destination).Some? && Disjoint(Resolve(source).value, Resolve(destination).value) ==>
      AgreeUnder(fs, CopySpec(fs, r, at, source, destination, t0, t1).fs, Resolve(source).value)
  {
    var f := CopySpec(fs, r, at, source, destination, t0, t1);
    var r0 := StatusRec(r, StatusRunning, t0);
    if SizeOf(fs, source).Ok? {
      var total := SizeOf(fs, source).value;
      var run := Run(fs, ProgressRec(r0, 0, total, source), 0, 0);
      RecFacts(run, at, source, destination, total);
    }
    if Resolve(source).Some? && Resolve(destination).Some? && Disjoint(Resolve(source).value, Resolve(destination).value) {
      SameOutsideAgree(fs, f.fs, Resolve(destination).value, Resolve(source).value);
    }
  }

  // ---------------------------------------------------------------- performCopyMultiple

  /** The sizes are summed in order and the first failure is the one reported. */
  lemma {:induction false} TotalsFirstFailure(fs: Fs, sources: seq<string>)
    ensures Totals(fs, sources).Ok? <==> forall i :: 0 <= i < |sources| ==> SizeOf(fs, sources[i]).Ok?
    ensures Totals(fs, sources).Err? ==>
      exists k :: 0 <= k < |sources| && SizeOf(fs, sources[k]).Err?
        && (forall j :: 0 <= j < k ==> SizeOf(fs, sources[j]).Ok?)
        && Totals(fs, sources).error == (sources[k], SizeOf(fs, sources[k]).error)
    decreases |sources|
  {
    if sources != [] {
      TotalsFirstFailure(fs, sources[1..]);
      assert forall i :: 1 <= i < |sources| ==> sources[i] == sources[1..][i - 1];
      if SizeOf(fs, sources[0]).Ok? && Totals(fs, sources[1..]).Err? {
        var k :| 0 <= k < |sources[1..]| && SizeOf(fs, sources[1..][k]).Err? && (forall j :: 0 <= j < k ==> SizeOf(fs, sources[1..][j]).Ok?)
          && Totals(fs, sources[1..]).error == (sources[1..][k], SizeOf(fs, sources[1..][k]).error);
        assert forall j :: 0 <= j < k + 1 ==> SizeOf(fs, sources[j]).Ok? by {
          forall j | 0 <= j < k + 1 ensures SizeOf(fs, sources[j]).Ok? {
            if j > 0 { assert sources[j] == sources[1..][j - 1]; }
          }
        }
      }
    }
  }

  /** Every size is computed before anything is copied: if one fails, nothing is written and
      the operation fails naming that source. */
  lemma CopyManySizesFirst(fs: Fs, r: OpRecord, at: Option<nat>, sources: seq<string>, destination: string, t0: nat, t1: nat)
    requires Totals(fs, sources).Err?
    ensures var f := CopyManySpec(fs, r, at, sources, destination, t0, t1);
      f.fs == fs && f.op.Status == StatusFailed
      && f.op.Error == Some(SizeFailedFor(Totals(fs, sources).error.0, Totals(fs, sources).error.1))
      && Totals(fs, sources).error.0 in sources
  {
    TotalsFirstFailure(fs, sources);
  }

  lemma {:induction false} CopyLoopLive(run: Run, at: Option<nat>, sources: seq<string>, destination: string, total: int, t1: nat, e0: Option<OpError>)
    requires Live(run.op, e0) && !run.op.Done
    ensures StepLive(CopyLoop(run, at, sources, destination, total, t1), e0)
    decreases |sources|
  {
    if sources != [] {
      var src := sources[0];
      var r1 := Check(run, at);
      if !r1.op.Done {
        CopyLive(r1, at, src, Target(destination, src), total, e0);
        var o := CopyRec(r1, at, src, Target(destination, src), total);
        if o.err.None? {
          CopyLoopLive(o.run, at, sources[1..], destination, total, t1, e0);
        }
      }
    }
  }

  /** `performCopyMultiple` ends like `performCopy`. */
  lemma CopyManySettles(fs: Fs, r: OpRecord, at: Option<nat>, sources: seq<string>, destination: string, t0: nat, t1: nat)
    requires !r.Done
    ensures Settled(CopyManySpec(fs, r, at, sources, destination, t0, t1).op, r.Error)
  {
    var r0 := StatusRec(r, StatusRunning, t0);
    if Totals(fs, sources).Ok? {
      var total := Totals(fs, sources).value;
      CopyLoopLive(Run(fs, r0, 0, 0), at, sources, destination, total, t1, r.Error);
      ConcludeSettled(CopyLoop(Run(fs, r0, 0, 0), at, sources, destination, total, t1), at, t1, r.Error);
    }
  }

  /** The sources are copied in order: the loop over `s1 + s2` is the loop over `s1`, continued
      over `s2` only if it neither broke off nor returned. */
  lemma {:induction false} CopyLoopAppend(run: Run, at: Option<nat>, s1: seq<string>, s2: seq<string>, destination: string, total: int, t1: nat)
    ensures CopyLoop(run, at, s1 + s2, destination, total, t1)
      == match CopyLoop(run, at, s1, destination, total, t1)
         case Continue(r) => CopyLoop(r, at, s2, destination, total, t1)
         case s => s
    decreases |s1|
  {
    if s1 != [] {
      assert (s1 + s2)[0] == s1[0] && (s1 + s2)[1..] == s1[1..] + s2;
      match CopyOne(run, at, s1[0], destination, total, t1)
      case Continue(r) => CopyLoopAppend(r, at, s1[1..], s2, destination, total, t1);
      case _ =>
    } else {
      assert s1 + s2 == s2;
    }
  }

  /** Copying into a directory writes nothing outside it, when every source's base name is a
      plain name. */
  lemma {:induction false} CopyLoopConfined(run: Run, at: Option<nat>, sources: seq<string>, destination: string, total: int, t1: nat)
    requires Resolve(destination).Some?
    requires forall i :: 0 <= i < |sources| ==> IsName(GoPaths.Base(sources[i]))
    ensures var s := CopyLoop(run, at, sources, destination, total, t1);
      SameOutside(run.fs, if s.Stopped? then s.fin.fs else s.run.fs, Resolve(destination).value)
    decreases |sources|
  {
    var d := Resolve(destination).value;
    if sources == [] {
    } else {
      var src := sources[0];
      var n: Name := GoPaths.Base(src);
      var r1 := Check(run, at);
      if !r1.op.Done {
        RecFacts(r1, at, src, Target(destination, src), total);
        var o := CopyRec(r1, at, src, Target(destination, src), total);
        JoinResolves(destination, n);
        if Resolve(Target(destination, src)).Some? {
          ConfinedChild(r1.fs, o.run.fs, destination, n);
        }
        assert SameOutside(run.fs, o.run.fs, d);
        if o.err.None? {
          assert forall i :: 0 <= i < |sources[1..]| ==> sources[1..][i] == sources[i + 1];
          CopyLoopConfined(o.run, at, sources[1..], destination, total, t1);
          var s := CopyLoop(o.run, at, sources[1..], destination, total, t1);
          SameOutsideTrans(run.fs, o.run.fs, if s.Stopped? then s.fin.fs else s.run.fs, d);
        }
      }
    }
  }

  lemma CopyManyConfined(fs: Fs, r: OpRecord, at: Option<nat>, sources: seq<string>, destination: string, t0: nat, t1: nat)
    requires Resolve(destination).Some?
    requires forall i :: 0 <= i < |sources| ==> IsName(GoPaths.Base(sources[i]))
    ensures SameOutside(fs, CopyManySpec(fs, r, at, sources, destination, t0, t1).fs, Resolve(destination).value)
  {
    var r0 := StatusRec(r, StatusRunning, t0);
    if Totals(fs, sources).Ok? {
      CopyLoopConfined(Run(fs, r0, 0, 0), at, sources, destination, Totals(fs, sources).value, t1);
    }
  }

  // ---------------------------------------------------------------- performMove

  /** A move tries the rename first; when it succeeds that is all the move does, and nothing is
      left at the source unless the two paths are the same. */
  lemma MoveRenamesFirst(fs: Fs, r: OpRecord, at: Option<nat>, source: string, destination: string, t0: nat, t1: nat)
    requires Rename(fs, source, destination).Ok?
    ensures var f := MoveSpec(fs, r, at, source, destination, t0, t1);
      f.fs == Rename(fs, source, destination).value && f.op.Status == StatusCompleted
      && f.op.ProgressNum == 1 && f.op.ProgressDen == 1 && f.op.CurrentFile == source
      && f.op.Error == r.Error && f.op.Done == r.Done
      && (Resolve(source) != Resolve(destination) ==> forall k :: Resolve(source).value <= k ==> k !in f.fs.nodes)
  {
    if Resolve(source) != Resolve(destination) {
      RenameEffect(fs, source, destination);
    }
  }

  /** A move never ends Cancelled: its only cancellation checks are inside the fallback copy,
      whose "operation cancelled" error the runner records as a failed move. */
  lemma MoveCancelFails(fs: Fs, r: OpRecord, at: Option<nat>, source: string, destination: string, t0: nat, t1: nat)
    requires !r.Done
    ensures var f := MoveSpec(fs, r, at, source, destination, t0, t1);
      (f.op.Status == StatusCompleted || f.op.Status == StatusFailed)
      && (f.op.Done ==> f.op.Status == StatusFailed && f.op.Error == Some(MoveCopyFailed(OperationCancelled)))
  {
    var r0 := StatusRec(r, StatusRunning, t0);
    if Rename(fs, source, destination).Err? && SizeOf(fs, source).Ok? {
      RecFacts(Run(fs, r0, 0, 0), at, source, destination, SizeOf(fs, source).value);
    }
  }

  /** The run failed while removing the source of a move. */
  ghost predicate RemovalFailed(r: OpRecord) {
    r.Status == StatusFailed && r.Error.Some? && r.Error.value.RemoveSourceFailed?
  }

  /** A move between trees that do not overlap leaves the source as it was unless it completes
      or fails to remove the source. A failed removal has taken only nodes of the source's
      tree, and the source path is still there; a move completed by copying leaves nothing
      under the source. */
  lemma MoveKeepsSourceUntilDone(fs: Fs, r: OpRecord, at: Option<nat>, source: string, destination: string, t0: nat, t1: nat)
    requires Resolve(source).Some? && Resolve(destination).Some?
    requires Disjoint(Resolve(source).value, Resolve(destination).value)
    ensures var f, s := MoveSpec(fs, r, at, source, destination, t0, t1), Resolve(source).value;
      (f.op.Status != StatusCompleted && !RemovalFailed(f.op) ==> AgreeUnder(fs, f.fs, s))
      && (RemovalFailed(f.op) ==>
            s in f.fs.nodes
            && forall k :: s <= k && k in f.fs.nodes ==> k in fs.nodes && (!fs.nodes[k].Dir? ==> f.fs.nodes[k] == fs.nodes[k]))
      && (f.op.Status == StatusCompleted && Rename(fs, source, destination).Err? ==>
            forall k :: s <= k ==> k !in f.fs.nodes)
  {
    var s, d := Resolve(source).value, Resolve(destination).value;
    var r0 := StatusRec(r, StatusRunning, t0);
    if Rename(fs, source, destination).Err? && SizeOf(fs, source).Ok? {
      var total := SizeOf(fs, source).value;
      RecFacts(Run(fs, r0, 0, 0), at, source, destination, total);
      var o := CopyRec(Run(fs, r0, 0, 0), at, source, destination, total);
      SameOutsideAgree(fs, o.run.fs, d, s);
      if o.err.None? {
        assert s in fs.nodes;
        if RemoveAll(o.run.fs, source).err.None? {
          RemoveAllEffect(o.run.fs, source);
        } else {
          RemoveAllPartial(o.run.fs, source);
        }
      }
    }
  }

  // ---------------------------------------------------------------- performMoveMultiple

  /** How a move run ends: in a terminal status, and Cancelled only by the user's cancel with
      no error recorded. A cancel inside a fallback copy ends the run Failed instead. */
  ghost predicate Ended(r: OpRecord, e0: Option<OpError>) {
    IsTerminal(r.Status) && (r.Status == StatusCancelled ==> r.Done && r.Error == e0)
  }

  ghost predicate MoveStepLive(s: Step, e0: Option<OpError>) {
    match s
    case Continue(r) => Live(r.op, e0) && !r.op.Done
    case Break(r) => Live(r.op, e0)
    case Stopped(f) => Ended(f.op, e0)
  }

  lemma {:induction false} MoveLoopLive(run: Run, at: Option<nat>, sources: seq<string>, destination: string, t1: nat, e0: Option<OpError>)
    requires Live(run.op, e0) && !run.op.Done
    ensures MoveStepLive(MoveLoop(run, at, sources, destination, t1), e0)
    decreases |sources|
  {
    if sources != [] {
      var src := sources[0];
      var r1 := Check(run.(bytes := 0), at);
      var dp := Target(destination, src);
      if !r1.op.Done {
        if Rename(r1.fs, src, dp).Ok? {
          MoveLoopLive(r1.(fs := Rename(r1.fs, src, dp).value), at, sources[1..], destination, t1, e0);
        } else if SizeOf(r1.fs, src).Ok? {
          var total := SizeOf(r1.fs, src).value;
          CopyLive(r1.(bytes := 0), at, src, dp, total, e0);
          var o := CopyRec(r1.(bytes := 0), at, src, dp, total);
          if o.err.None? && RemoveAll(o.run.fs, src).err.None? {
            MoveLoopLive(o.run.(fs := RemoveAll(o.run.fs, src).fs, bytes := 0), at, sources[1..], destination, t1, e0);
          }
        }
      }
    }
  }

  lemma MoveManyEnds(fs: Fs, r: OpRecord, at: Option<nat>, sources: seq<string>, destination: string, t0: nat, t1: nat)
    requires !r.Done
    ensures Ended(MoveManySpec(fs, r, at, sources, destination, t0, t1).op, r.Error)
  {
    var run := Run(fs, StatusRec(r, StatusRunning, t0), 0, 0);
    MoveLoopLive(run, at, sources, destination, t1, r.Error);
    var s := MoveLoop(run, at, sources, destination, t1);
    match s
    case Continue(r') => FinalSettled(r', at, t1, r.Error);
    case Break(r') => FinalSettled(r', at, t1, r.Error);
    case Stopped(_) =>
  }

  /** The sources are moved in order, and a source that stops the loop stops it for the rest. */
  lemma {:induction false} MoveLoopAppend(run: Run, at: Option<nat>, s1: seq<string>, s2: seq<string>, destination: string, t1: nat)
    ensures MoveLoop(run, at, s1 + s2, destination, t1)
      == match MoveLoop(run, at, s1, destination, t1)
         case Continue(r) => MoveLoop(r, at, s2, destination, t1)
         case s => s
    decreases |s1|
  {
    if s1 != [] {
      assert (s1 + s2)[0] == s1[0] && (s1 + s2)[1..] == s1[1..] + s2;
      match MoveOne(run, at, s1[0], destination, t1)
      case Continue(r) => MoveLoopAppend(r, at, s1[1..], s2, destination, t1);
      case _ =>
    } else {
      assert s1 + s2 == s2;
    }
  }

  // ---------------------------------------------------------------- performDelete

  /** `performDelete` never looks at the cancellation, so it ends Completed or Failed. On
      failure either nothing was removed, or part of the path's tree was and the path itself is
      still there; on completion the path and everything under it are gone and the progress
      reads total of total. */
  lemma DeleteOutcome(fs: Fs, r: OpRecord, path: string, t0: nat, t1: nat)
    ensures var f := DeleteSpec(fs, r, path, t0, t1);
      (f.op.Status == StatusCompleted || f.op.Status == StatusFailed) && f.op.Done == r.Done
      && (f.op.Status == StatusFailed ==>
            f.fs == fs
            || (Resolve(path).Some? && Resolve(path).value in f.fs.nodes && PartlyRemoved(fs, f.fs, Resolve(path).value)))
      && (f.op.Status == StatusCompleted ==>
            Resolve(path).Some? && (forall k :: Resolve(path).value <= k ==> k !in f.fs.nodes)
            && f.op.BytesProcessed == f.op.BytesTotal == SizeOf(fs, path).value
            && f.op.CurrentFile == path)
  {
    if SizeOf(fs, path).Ok? {
      if RemoveAll(fs, path).err.None? {
        RemoveAllEffect(fs, path);
        assert Resolve(path).value in fs.nodes;
      } else {
        RemoveAllPartial(fs, path);
      }
    }
  }

  // ---------------------------------------------------------------- performDeleteMultiple

  /** None of `paths` exists in `fs`. */
  ghost predicate Gone(fs: Fs, paths: seq<string>) {
    forall i :: 0 <= i < |paths| ==> Resolve(paths[i]).Some? && Resolve(paths[i]).value !in fs.nodes
  }

  lemma GoneRemove(fs: Fs, paths: seq<string>, p: string)
    requires Gone(fs, paths) && RemoveAll(fs, p).err.None?
    ensures Gone(RemoveAll(fs, p).fs, paths + [p])
  {
    RemoveAllEffect(fs, p);
  }

  lemma {:induction false} DeleteLoopGone(run: Run, at: Option<nat>, paths: seq<string>, t1: nat, done: seq<string>)
    requires Gone(run.fs, done) && run.op.Status != StatusCompleted
    ensures var s := DeleteLoop(run, at, paths, t1);
      (s.Continue? ==> Gone(s.run.fs, done + paths) && s.run.op.Status != StatusCompleted)
      && (s.Stopped? ==> s.fin.op.Status == StatusFailed)
      && (s.Break? ==> s.run.op.Done && s.run.op.Status != StatusCompleted)
    decreases |paths|
  {
    if paths == [] {
      assert done + paths == done;
    } else {
      var r1 := Check(run, at);
      if !r1.op.Done && RemoveAll(r1.fs, paths[0]).err.None? {
        GoneRemove(r1.fs, done, paths[0]);
        DeleteLoopGone(r1.(fs := RemoveAll(r1.fs, paths[0]).fs), at, paths[1..], t1, done + [paths[0]]);
        assert done + [paths[0]] + paths[1..] == done + paths;
      }
    }
  }

  /** An operation whose delete loop ran to completion has removed every path it was given. */
  lemma DeleteManyRemovesAll(fs: Fs, r: OpRecord, at: Option<nat>, paths: seq<string>, t0: nat, t1: nat)
    ensures var f := DeleteManySpec(fs, r, at, paths, t0, t1);
      f.op.Status == StatusCompleted ==> Gone(f.fs, paths)
  {
    var run := Run(fs, StatusRec(r, StatusRunning, t0), 0, 0);
    DeleteLoopGone(run, at, paths, t1, []);
    assert [] + paths == paths;
  }

  lemma {:induction false} DeleteLoopLive(run: Run, at: Option<nat>, paths: seq<string>, t1: nat, e0: Option<OpError>)
    requires Live(run.op, e0) && !run.op.Done
    ensures StepLive(DeleteLoop(run, at, paths, t1), e0)
    decreases |paths|
  {
    if paths != [] {
      var r1 := Check(run, at);
      if !r1.op.Done && RemoveAll(r1.fs, paths[0]).err.None? {
        DeleteLoopLive(r1.(fs := RemoveAll(r1.fs, paths[0]).fs), at, paths[1..], t1, e0);
      }
    }
  }

  lemma DeleteManySettles(fs: Fs, r: OpRecord, at: Option<nat>, paths: seq<string>, t0: nat, t1: nat)
    requires !r.Done
    ensures Settled(DeleteManySpec(fs, r, at, paths, t0, t1).op, r.Error)
  {
    var run := Run(fs, StatusRec(r, StatusRunning, t0), 0, 0);
    DeleteLoopLive(run, at, paths, t1, r.Error);
    ConcludeSettled(DeleteLoop(run, at, paths, t1), at, t1, r.Error);
  }

  // ---------------------------------------------------------------- performRename

  /** A rename completes exactly when `os.Rename` succeeds; then the progress reads one of one
      on the new path, and the tree is at the new path with nothing left at the old one (or,
      renamed to itself, nothing changed). Otherwise it fails and nothing changed. */
  lemma RenameOutcome(fs: Fs, r: OpRecord, oldPath: string, newPath: string, t0: nat, t1: nat)
    ensures var f := RenameSpec(fs, r, oldPath, newPath, t0, t1);
      (f.op.Status == StatusCompleted <==> Rename(fs, oldPath, newPath).Ok?)
      && (f.op.Status == StatusCompleted ==>
            f.op.ProgressNum == f.op.ProgressDen == 1 && f.op.CurrentFile == newPath
            && (Resolve(oldPath) != Resolve(newPath) ==>
                  var o, n := Resolve(oldPath).value, Resolve(newPath).value;
                  (forall k :: o <= k && k in fs.nodes ==> n + k[|o|..] in f.fs.nodes && f.fs.nodes[n + k[|o|..]] == fs.nodes[k])
                  && (forall k :: o <= k ==> k !in f.fs.nodes))
            && (Resolve(oldPath) == Resolve(newPath) ==> f.fs == fs))
      && (f.op.Status != StatusCompleted ==>
            f.op.Status == StatusFailed && f.fs == fs
            && f.op.Error == Some(RenameFailed(Rename(fs, oldPath, newPath).error)))
  {
    if Rename(fs, oldPath, newPath).Ok? && Resolve(oldPath) != Resolve(newPath) {
      RenameEffect(fs, oldPath, newPath);
    }
  }

  /** The start `performCopy` evidently intends keeps a cancel that came while the operation
      was pending: every copy then settles, the pending-cancelled one as Cancelled, untouched. */
  lemma CheckedStartSettles(fs: Fs, r: OpRecord, at: Option<nat>, source: string, destination: string, t0: nat, t1: nat)
    requires r.Done ==> r.Status == StatusCancelled
    ensures var f := CopyStartChecked(fs, r, at, source, destination, t0, t1);
      Settled(f.op, r.Error) && (r.Done ==> f.op == r && f.fs == fs)
  {
    if !r.Done {
      CopySettles(fs, r, at, source, destination, t0, t1);
    }
  }

  // ---------------------------------------------------------------- a paste onto itself

  /** Pasting the file "/a" into "/", the directory it is in, hands `copyFile` the file itself
      as its destination: the operation completes, and the file's one byte is gone. */
  lemma SelfPasteEmptiesFile(r: OpRecord, t0: nat, t1: nat)
    requires !r.Done
    ensures var fs := Fs(map[[] := Dir(0x1ed, ["a"]), ["a"] := File([7], 0x1a4)], {});
      var f := CopyManySpec(fs, r, None, ["/a"], "/", t0, t1);
      f.op.Status == StatusCompleted && ["a"] in f.fs.nodes && f.fs.nodes[["a"]] == File([], 0x1a4)
  {
    var fs := Fs(map[[] := Dir(0x1ed, ["a"]), ["a"] := File([7], 0x1a4)], {});
    SelfPastePaths(fs);
    var run := Run(fs, StatusRec(r, StatusRunning, t0), 0, 0);
    var fs2 := Fs(fs.nodes[["a"] := File([], 0x1a4)], {});
    SelfPasteCopy(run, fs2);
    var o := CopyRec(Check(run, None), None, "/a", "/a", 1);
    assert CopyOne(run, None, "/a", "/", 1, t1) == Continue(o.run);
    assert CopyLoop(run, None, ["/a"], "/", 1, t1) == Continue(o.run);
  }

  lemma SelfPastePaths(fs: Fs)
    requires fs == Fs(map[[] := Dir(0x1ed, ["a"]), ["a"] := File([7], 0x1a4)], {})
    ensures Resolve("/a") == Some(["a"]) && Target("/", "/a") == "/a" && Totals(fs, ["/a"]) == Ok(1)
  {
    ResolveTopLevel();
    BaseOfTopLevel();
    var p := "/a";
    assert Lstat(fs, p) == Ok(File([7], 0x1a4));
    assert Walk(fs, p) == Ok(Tally(1, 0));
    assert SizeOf(fs, p) == Ok(1);
    assert [p][1..] == [];
  }

  lemma ResolveTopLevel()
    ensures Resolve("/a") == Some(["a"])
  {
    var p := "/a";
    assert p[1..] == "a";
    assert GoStrings.Split("a", '/') == ["a"];
  }

  /** The copy of "/a" onto itself: the file is created anew, empty, the chunk loop reads EOF at
      once, and the copy returns without error after three checks. */
  lemma SelfPasteCopy(run: Run, fs2: Fs)
    requires run.fs == Fs(map[[] := Dir(0x1ed, ["a"]), ["a"] := File([7], 0x1a4)], {}) && !run.op.Done && run.checks == 0
    requires Resolve("/a") == Some(["a"]) && fs2 == Fs(run.fs.nodes[["a"] := File([], 0x1a4)], {})
    ensures CopyRec(Check(run, None), None, "/a", "/a", 1) == Outcome(run.(fs := fs2, checks := 3), None)
  {
    var p := "/a";
    var r1 := Check(run, None);
    var r2 := Check(r1, None);
    assert r2 == run.(checks := 2);
    assert Create(run.fs, p).value == fs2;
    assert Chmod(fs2, p, 0x1a4).value == fs2;
    assert Contents(fs2, p) == [];
    assert CopyChunks(r2.(fs := fs2), None, p, p, [], 0, 1) == Outcome(r2.(fs := fs2, checks := 3), None);
    assert CopyFile(r2, None, p, p, 1) == Outcome(r2.(fs := fs2, checks := 3), None);
  }

  lemma BaseOfTopLevel()
    ensures GoPaths.Base("/a") == "a"
  {
  }
}
