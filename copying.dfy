/** The recursive copy and the size walk of the file-operation engine
    (internal/fileops/operations.go: copyRecursive, copyDir, copyFile, calculateSize).

    A run threads the filesystem, the operation's record, the running byte count that Go passes
    by reference, and the number of `IsCancelled` checks made so far, which fixes where the
    user's cancel lands (see `Operations.PollRec`). The functions say what a copy does; the
    methods do it step by step on an `Operation` object and are proved to agree with them. */
module Copying {

  import opened Wrappers
  import opened FileSystem
  import opened Operations
  import GoStrings
  import GoPaths

  /** The size of the buffer `copyFile` reads into. */
  const BufferSize: nat := 32 * 1024

  datatype Run = Run(fs: Fs, op: OpRecord, bytes: int, checks: nat)

  datatype Outcome = Outcome(run: Run, err: Option<CopyFailure>)

  /** An `IsCancelled` check within a run. */
  function Check(run: Run, at: Option<nat>): Run {
    run.(op := PollRec(run.op, at, run.checks), checks := run.checks + 1)
  }

  /** The mode a `Stat` reports for a node. */
  function ModeOf(n: Node): nat {
    match n
    case File(_, m) => m
    case Dir(m, _) => m
    case Symlink(_) => 0x1ff
  }

  function Min(a: int, b: int): int {
    if a <= b then a else b
  }

  // ---------------------------------------------------------------- what a copy does

  /** `copyRecursive(op, src, dst, &bytes, total, _)`. */
  function CopyRec(run: Run, at: Option<nat>, src: string, dst: string, total: int): Outcome
    decreases Depth(src), 2
  {
    var r1 := Check(run, at);
    if r1.op.Done then Outcome(r1, Some(OperationCancelled))
    else match Lstat(r1.fs, src)
      case Err(e) => Outcome(r1, Some(StepFailed(StatSource, e)))
      case Ok(Symlink(_)) =>
        (match Readlink(r1.fs, src)
         case Err(e) => Outcome(r1, Some(StepFailed(ReadSymlink, e)))
         case Ok(t) =>
           match MakeSymlink(r1.fs, t, dst)
           case Err(e) => Outcome(r1, Some(LinkFailed(e)))
           case Ok(fs1) => Outcome(r1.(fs := fs1), None))
      case Ok(Dir(_, _)) => CopyDir(r1, at, src, dst, total)
      case Ok(File(_, _)) => CopyFile(r1, at, src, dst, total)
  }

  /** `copyDir`: make the directory, then copy its entries in order. */
  function CopyDir(run: Run, at: Option<nat>, src: string, dst: string, total: int): Outcome
    requires Resolve(src).Some?
    decreases Depth(src), 1
  {
    match Stat(run.fs, src)
    case Err(e) => Outcome(run, Some(StepFailed(StatSourceDir, e)))
    case Ok(info) =>
      match MkdirAll(run.fs, dst, ModeOf(info))
      case Err(e) => Outcome(run, Some(StepFailed(CreateDir, e)))
      case Ok(fs1) =>
        match ReadDir(fs1, src)
        case Err(e) => Outcome(run.(fs := fs1), Some(StepFailed(ReadDirectory, e)))
        case Ok(names) => CopyEntries(run.(fs := fs1), at, src, dst, names, 0, total)
  }

  /** The loop of `copyDir` from entry `i` on: a check, then the entry, stopping at the first error. */
  function CopyEntries(run: Run, at: Option<nat>, src: string, dst: string, names: seq<Name>, i: nat, total: int): Outcome
    requires Resolve(src).Some? && i <= |names|
    decreases Depth(src), 0, |names| - i
  {
    if i == |names| then Outcome(run, None)
    else
      var r1 := Check(run, at);
      if r1.op.Done then Outcome(r1, Some(OperationCancelled))
      else
        JoinResolves(src, names[i]);
        var o := CopyRec(r1, at, GoPaths.Join(src, names[i]), GoPaths.Join(dst, names[i]), total);
        if o.err.Some? then o else CopyEntries(o.run, at, src, dst, names, i + 1, total)
  }

  /** What reads through a handle open on `p` see: the file as it is in `fs`. */
  function Contents(fs: Fs, p: string): seq<byte> {
    var c := Resolve(p);
    if c.Some? && c.value in fs.nodes && fs.nodes[c.value].File? then fs.nodes[c.value].data else []
  }

  /** `copyFile`: open, stat, create, chmod, then the chunk loop. */
  function CopyFile(run: Run, at: Option<nat>, src: string, dst: string, total: int): Outcome {
    match Open(run.fs, src)
    case Err(e) => Outcome(run, Some(StepFailed(OpenSource, e)))
    case Ok(_) =>
      match Stat(run.fs, src)
      case Err(e) => Outcome(run, Some(StepFailed(StatSourceFile, e)))
      case Ok(info) =>
        match Create(run.fs, dst)
        case Err(e) => Outcome(run, Some(StepFailed(CreateDest, e)))
        case Ok(fs1) =>
          match Chmod(fs1, dst, ModeOf(info))
          case Err(e) => Outcome(run.(fs := fs1), Some(StepFailed(SetPermissions, e)))
          case Ok(fs2) => CopyChunks(run.(fs := fs2), at, src, dst, Contents(fs2, src), 0, total)
  }

  /** The read/write loop of `copyFile` from offset `pos` of the data the handle reads: a check, a read of
      up to `BufferSize` bytes, the write, the byte count and the progress update, until the
      read at the end of the data reports EOF. A read fault fails the first read. */
  function CopyChunks(run: Run, at: Option<nat>, src: string, dst: string, data: seq<byte>, pos: nat, total: int): Outcome
    requires pos <= |data|
    decreases |data| - pos
  {
    var r1 := Check(run, at);
    if r1.op.Done then Outcome(r1, Some(OperationCancelled))
    else if Failing(r1.fs, PRead, src) then Outcome(r1, Some(StepFailed(ReadSource, FsError(PRead, src))))
    else if pos == |data| then Outcome(r1, None)
    else
      var n := Min(BufferSize, |data| - pos);
      match Write(r1.fs, dst, data[pos..pos + n])
      case Err(e) => Outcome(r1, Some(StepFailed(WriteDest, e)))
      case Ok(fs1) =>
        var b := r1.bytes + n;
        CopyChunks(r1.(fs := fs1, bytes := b, op := ProgressRec(r1.op, b, total, src)), at, src, dst, data, pos + n, total)
  }

  /** The copy `copyRecursive` evidently intends when it is handed a destination that is its
      source, as a paste into the source's own directory does: it is refused before anything
      is created. */
  function CopyChecked(run: Run, at: Option<nat>, src: string, dst: string, total: int): Outcome {
    if Resolve(src).Some? && Resolve(src) == Resolve(dst) then Outcome(run, Some(SameFile))
    else CopyRec(run, at, src, dst, total)
  }

  // ---------------------------------------------------------------- what calculateSize adds up

  /** Bytes of regular files and bytes of link targets (the `Lstat` size of a link) in a tree. */
  datatype Tally = Tally(files: nat, links: nat)

  function Plus(a: Tally, b: Tally): Tally {
    Tally(a.files + b.files, a.links + b.links)
  }

  function TallySize(t: Tally): nat {
    t.files + t.links
  }

  /** `filepath.Walk` with the closure of `calculateSize`: the first error met is the result. */
  function Walk(fs: Fs, p: string): (r: Result<Tally, FsError>)
    ensures r.Ok? ==> Resolve(p).Some?
    decreases Depth(p), 1
  {
    match Lstat(fs, p)
    case Err(e) => Err(e)
    case Ok(File(d, _)) => Ok(Tally(|d|, 0))
    case Ok(Symlink(t)) => Ok(Tally(0, GoStrings.ByteLen(t)))
    case Ok(Dir(_, _)) =>
      match ReadDir(fs, p)
      case Err(e) => Err(e)
      case Ok(names) => WalkEntries(fs, p, names, 0)
  }

  function WalkEntries(fs: Fs, p: string, names: seq<Name>, i: nat): Result<Tally, FsError>
    requires Resolve(p).Some? && i <= |names|
    decreases Depth(p), 0, |names| - i
  {
    if i == |names| then Ok(Tally(0, 0))
    else
      JoinResolves(p, names[i]);
      match Walk(fs, GoPaths.Join(p, names[i]))
      case Err(e) => Err(e)
      case Ok(t) =>
        match WalkEntries(fs, p, names, i + 1)
        case Err(e) => Err(e)
        case Ok(t2) => Ok(Plus(t, t2))
  }

  /** What `calculateSize` reports. */
  function SizeOf(fs: Fs, p: string): Result<int, FsError> {
    match Walk(fs, p)
    case Err(e) => Err(e)
    case Ok(t) => Ok(TallySize(t))
  }

  // ---------------------------------------------------------------- the methods

  /** `calculateSize(path)`: the walk, adding the size of every entry that is not a directory. */
  method CalculateSize(fs: Fs, path: string) returns (size: int, err: Option<FsError>)
    ensures err.None? <==> SizeOf(fs, path).Ok?
    ensures err.None? ==> size == SizeOf(fs, path).value
    ensures err.Some? ==> err.value == SizeOf(fs, path).error
  {
    size, err := WalkTree(fs, path, 0);
  }

  /** `WalkEntries` from `i` on, after `acc` has been tallied for the entries before `i`. */
  function After(acc: Tally, rest: Result<Tally, FsError>): Result<Tally, FsError> {
    match rest
    case Err(e) => Err(e)
    case Ok(t) => Ok(Plus(acc, t))
  }

  lemma WalkEntriesStep(fs: Fs, p: string, names: seq<Name>, i: nat, t: Tally)
    requires Resolve(p).Some? && i < |names|
    requires Walk(fs, GoPaths.Join(p, names[i])) == Ok(t)
    ensures WalkEntries(fs, p, names, i) == After(t, WalkEntries(fs, p, names, i + 1))
  {
  }

  lemma AfterAfter(a: Tally, b: Tally, rest: Result<Tally, FsError>)
    ensures After(a, After(b, rest)) == After(Plus(a, b), rest)
  {
  }

  /** One call of the walk on `p`, adding to the closure's running `size`. */
  method WalkTree(fs: Fs, p: string, size: int) returns (size': int, err: Option<FsError>)
    ensures err.None? <==> Walk(fs, p).Ok?
    ensures err.None? ==> size' == size + TallySize(Walk(fs, p).value)
    ensures err.Some? ==> err.value == Walk(fs, p).error
    decreases Depth(p), 1
  {
    var info := Lstat(fs, p);
    if info.Err? {
      return size, Some(info.error);
    }
    match info.value
    case File(d, _) =>
      return size + |d|, None;
    case Symlink(t) =>
      return size + GoStrings.ByteLen(t), None;
    case Dir(_, _) =>
      var names := ReadDir(fs, p);
      if names.Err? {
        return size, Some(names.error);
      }
      size', err := WalkNames(fs, p, names.value, size);
  }

  /** The loop of the walk over the names of directory `p`. */
  method WalkNames(fs: Fs, p: string, names: seq<Name>, size: int) returns (size': int, err: Option<FsError>)
    requires Resolve(p).Some?
    ensures err.None? <==> WalkEntries(fs, p, names, 0).Ok?
    ensures err.None? ==> size' == size + TallySize(WalkEntries(fs, p, names, 0).value)
    ensures err.Some? ==> err.value == WalkEntries(fs, p, names, 0).error
    decreases Depth(p), 0
  {
    ghost var acc := Tally(0, 0);
    var i := 0;
    size' := size;
    while i < |names|
      invariant 0 <= i <= |names|
      invariant size' == size + TallySize(acc)
      invariant WalkEntries(fs, p, names, 0) == After(acc, WalkEntries(fs, p, names, i))
      decreases |names| - i
    {
      JoinResolves(p, names[i]);
      var child := GoPaths.Join(p, names[i]);
      var e;
      ghost var before := size';
      size', e := WalkTree(fs, child, size');
      if e.Some? {
        return size', e;
      }
      ghost var t := Walk(fs, child).value;
      WalkEntriesStep(fs, p, names, i, t);
      AfterAfter(acc, t, WalkEntries(fs, p, names, i + 1));
      acc := Plus(acc, t);
      i := i + 1;
    }
    return size', None;
  }

  /** The predicate every method below keeps: its results are the run a function computes. */
  ghost predicate Agrees(o: Outcome, fs: Fs, op: OpRecord, bytes: int, checks: nat, err: Option<CopyFailure>) {
    o.run == Run(fs, op, bytes, checks) && o.err == err
  }

  /** `copyRecursive`. */
  method CopyRecursive(op: Operation, fs: Fs, at: Option<nat>, src: string, dst: string, bytes: int, total: int, checks: nat)
    returns (fs': Fs, bytes': int, checks': nat, err: Option<CopyFailure>)
    modifies op
    ensures Agrees(CopyRec(Run(fs, old(op.Record()), bytes, checks), at, src, dst, total), fs', op.Record(), bytes', checks', err)
    decreases Depth(src), 3
  {
    ghost var r1 := Check(Run(fs, op.Record(), bytes, checks), at);
    var cancelled := Poll(op, at, checks);
    checks' := checks + 1;
    assert r1 == Run(fs, op.Record(), bytes, checks');
    if cancelled {
      return fs, bytes, checks', Some(OperationCancelled);
    }
    var info := Lstat(fs, src);
    if info.Err? {
      return fs, bytes, checks', Some(StepFailed(StatSource, info.error));
    }
    match info.value
    case Symlink(_) =>
      var target := Readlink(fs, src);
      if target.Err? {
        return fs, bytes, checks', Some(StepFailed(ReadSymlink, target.error));
      }
      var made := MakeSymlink(fs, target.value, dst);
      if made.Err? {
        return fs, bytes, checks', Some(LinkFailed(made.error));
      }
      return made.value, bytes, checks', None;
    case Dir(_, _) =>
      fs', bytes', checks', err := CopyDirectory(op, fs, at, src, dst, bytes, total, checks');
    case File(_, _) =>
      fs', bytes', checks', err := CopyRegular(op, fs, at, src, dst, bytes, total, checks');
  }

  /** `copyDir` up to its loop. */
  method CopyDirectory(op: Operation, fs: Fs, at: Option<nat>, src: string, dst: string, bytes: int, total: int, checks: nat)
    returns (fs': Fs, bytes': int, checks': nat, err: Option<CopyFailure>)
    requires Resolve(src).Some?
    modifies op
    ensures Agrees(CopyDir(Run(fs, old(op.Record()), bytes, checks), at, src, dst, total), fs', op.Record(), bytes', checks', err)
    decreases Depth(src), 2
  {
    var info := Stat(fs, src);
    if info.Err? {
      return fs, bytes, checks, Some(StepFailed(StatSourceDir, info.error));
    }
    var made := MkdirAll(fs, dst, ModeOf(info.value));
    if made.Err? {
      return fs, bytes, checks, Some(StepFailed(CreateDir, made.error));
    }
    var entries := ReadDir(made.value, src);
    if entries.Err? {
      return made.value, bytes, checks, Some(StepFailed(ReadDirectory, entries.error));
    }
    fs', bytes', checks', err := CopyEach(op, made.value, at, src, dst, entries.value, bytes, total, checks);
  }

  /** The loop of `copyDir` over the directory's entries. */
  method CopyEach(op: Operation, fs: Fs, at: Option<nat>, src: string, dst: string, names: seq<Name>, bytes: int, total: int, checks: nat)
    returns (fs': Fs, bytes': int, checks': nat, err: Option<CopyFailure>)
    requires Resolve(src).Some?
    modifies op
    ensures Agrees(CopyEntries(Run(fs, old(op.Record()), bytes, checks), at, src, dst, names, 0, total), fs', op.Record(), bytes', checks', err)
    decreases Depth(src), 1
  {
    ghost var goal := CopyEntries(Run(fs, op.Record(), bytes, checks), at, src, dst, names, 0, total);
    fs', bytes', checks' := fs, bytes, checks;
    var i := 0;
    while i < |names|
      invariant 0 <= i <= |names|
      invariant CopyEntries(Run(fs', op.Record(), bytes', checks'), at, src, dst, names, i, total) == goal
      decreases |names| - i
    {
      ghost var r1 := Check(Run(fs', op.Record(), bytes', checks'), at);
      var cancelled := Poll(op, at, checks');
      checks' := checks' + 1;
      assert r1 == Run(fs', op.Record(), bytes', checks');
      if cancelled {
        return fs', bytes', checks', Some(OperationCancelled);
      }
      JoinResolves(src, names[i]);
      fs', bytes', checks', err := CopyRecursive(op, fs', at, GoPaths.Join(src, names[i]), GoPaths.Join(dst, names[i]), bytes', total, checks');
      if err.Some? {
        return;
      }
      i := i + 1;
    }
    err := None;
  }

  /** `copyFile` up to its loop. */
  method CopyRegular(op: Operation, fs: Fs, at: Option<nat>, src: string, dst: string, bytes: int, total: int, checks: nat)
    returns (fs': Fs, bytes': int, checks': nat, err: Option<CopyFailure>)
    modifies op
    ensures Agrees(CopyFile(Run(fs, old(op.Record()), bytes, checks), at, src, dst, total), fs', op.Record(), bytes', checks', err)
  {
    var handle := Open(fs, src);
    if handle.Err? {
      return fs, bytes, checks, Some(StepFailed(OpenSource, handle.error));
    }
    var info := Stat(fs, src);
    if info.Err? {
      return fs, bytes, checks, Some(StepFailed(StatSourceFile, info.error));
    }
    var created := Create(fs, dst);
    if created.Err? {
      return fs, bytes, checks, Some(StepFailed(CreateDest, created.error));
    }
    var moded := Chmod(created.value, dst, ModeOf(info.value));
    if moded.Err? {
      return created.value, bytes, checks, Some(StepFailed(SetPermissions, moded.error));
    }
    fs', bytes', checks', err := CopyData(op, moded.value, at, src, dst, Contents(moded.value, src), bytes, total, checks);
  }

  /** The read/write loop of `copyFile`. */
  method CopyData(op: Operation, fs: Fs, at: Option<nat>, src: string, dst: string, data: seq<byte>, bytes: int, total: int, checks: nat)
    returns (fs': Fs, bytes': int, checks': nat, err: Option<CopyFailure>)
    modifies op
    ensures Agrees(CopyChunks(Run(fs, old(op.Record()), bytes, checks), at, src, dst, data, 0, total), fs', op.Record(), bytes', checks', err)
  {
    ghost var goal := CopyChunks(Run(fs, op.Record(), bytes, checks), at, src, dst, data, 0, total);
    fs', bytes', checks' := fs, bytes, checks;
    var pos := 0;
    while true
      invariant 0 <= pos <= |data|
      invariant CopyChunks(Run(fs', op.Record(), bytes', checks'), at, src, dst, data, pos, total) == goal
      decreases |data| - pos
    {
      var done, pos';
      fs', bytes', checks', pos', done, err := CopyChunk(op, fs', at, src, dst, data, pos, bytes', total, checks');
      if done {
        return;
      }
      pos := pos';
    }
  }

  /** One pass of that loop: the check, the read and the write of one chunk. `done` is set when
      the loop ends here, with the outcome `err`; otherwise the loop goes on at `pos'`. */
  method CopyChunk(op: Operation, fs: Fs, at: Option<nat>, src: string, dst: string, data: seq<byte>, pos: nat,
                   bytes: int, total: int, checks: nat)
    returns (fs': Fs, bytes': int, checks': nat, pos': nat, done: bool, err: Option<CopyFailure>)
    requires pos <= |data|
    modifies op
    ensures done ==> Agrees(CopyChunks(Run(fs, old(op.Record()), bytes, checks), at, src, dst, data, pos, total), fs', op.Record(), bytes', checks', err)
    ensures !done ==> pos < pos' <= |data|
    ensures !done ==> CopyChunks(Run(fs', op.Record(), bytes', checks'), at, src, dst, data, pos', total)
                      == CopyChunks(Run(fs, old(op.Record()), bytes, checks), at, src, dst, data, pos, total)
  {
    ghost var r1 := Check(Run(fs, op.Record(), bytes, checks), at);
    var cancelled := Poll(op, at, checks);
    checks' := checks + 1;
    assert r1 == Run(fs, op.Record(), bytes, checks');
    if cancelled {
      return fs, bytes, checks', pos, true, Some(OperationCancelled);
    }
    if Failing(fs, PRead, src) {
      return fs, bytes, checks', pos, true, Some(StepFailed(ReadSource, FsError(PRead, src)));
    }
    var n := Min(BufferSize, |data| - pos);
    if n == 0 {
      return fs, bytes, checks', pos, true, None;
    }
    var written := Write(fs, dst, data[pos..pos + n]);
    if written.Err? {
      return fs, bytes, checks', pos, true, Some(StepFailed(WriteDest, written.error));
    }
    fs' := written.value;
    bytes' := bytes + n;
    op.UpdateProgress(bytes', total, src);
    pos' := pos + n;
    done, err := false, None;
  }
}
