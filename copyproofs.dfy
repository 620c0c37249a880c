/** What the recursive copy guarantees, proved on the functions of `Copying`:
    - it changes the operation only through progress updates and a delivered cancel, and keeps
      `BytesProcessed` equal to the running byte count;
    - an error reading "operation cancelled" comes back exactly when the context is done;
    - it writes only at the destination path and the directories above it;
    - a successful copy of a tree that does not overlap its destination adds to the byte count
      exactly the bytes of the regular files `calculateSize` counted, and none for links;
    - a copied regular file ends up with the source's bytes and mode, a copied link with its target. */
module CopyProofs {

  import opened Wrappers
  import opened FileSystem
  import opened Operations
  import opened Copying
  import GoPaths

  /** The part of a record other than its progress fields. */
  function Core(r: OpRecord): OpRecord {
    r.(ProgressNum := 0, ProgressDen := 1, BytesProcessed := 0, BytesTotal := 0, CurrentFile := "")
  }

  /** `b` is where a copy from `a` can have got to. */
  ghost predicate Advances(a: Run, b: Run, total: int) {
    a.checks <= b.checks && a.bytes <= b.bytes
    && (Core(b.op) == Core(a.op) || Core(b.op) == CancelRec(Core(a.op)))
    && (a.op.BytesProcessed == a.bytes ==> b.op.BytesProcessed == b.bytes)
    && (a.op.ProgressDen > 0 ==> b.op.ProgressDen > 0)
    && (a.op.BytesTotal == total ==> b.op.BytesTotal == total)
    && (total > 0 && a.op.ProgressNum == a.op.BytesProcessed && a.op.ProgressDen == total ==>
          b.op.ProgressNum == b.op.BytesProcessed && b.op.ProgressDen == total)
    && (total <= 0 ==> b.op.ProgressNum == a.op.ProgressNum && b.op.ProgressDen == a.op.ProgressDen)
  }

  /** A change of the filesystem confined to the path `dst`. */
  ghost predicate Confined(a: Fs, b: Fs, dst: string) {
    if Resolve(dst).Some? then SameOutside(a, b, Resolve(dst).value) else a == b
  }

  /** Everything the copy functions promise about one call. */
  ghost predicate CopyFacts(run: Run, o: Outcome, dst: string, total: int) {
    Advances(run, o.run, total) && Confined(run.fs, o.run.fs, dst)
    && (o.run.op.Done <==> o.err == Some(OperationCancelled))
    && (o.err.None? ==> Resolve(dst).Some?)
  }

  lemma AdvancesTrans(a: Run, b: Run, c: Run, total: int)
    requires Advances(a, b, total) && Advances(b, c, total)
    ensures Advances(a, c, total)
  {
  }

  lemma CheckAdvances(run: Run, at: Option<nat>, total: int)
    ensures Advances(run, Check(run, at), total) && Check(run, at).fs == run.fs
  {
  }

  lemma ConfinedTrans(a: Fs, b: Fs, c: Fs, dst: string)
    requires Confined(a, b, dst) && Confined(b, c, dst)
    ensures Confined(a, c, dst)
  {
    if Resolve(dst).Some? { SameOutsideTrans(a, b, c, Resolve(dst).value); }
  }

  /** A change confined to a child of `dst` is confined to `dst`. */
  lemma ConfinedChild(a: Fs, b: Fs, dst: string, n: Name)
    requires Resolve(dst).Some? && Confined(a, b, GoPaths.Join(dst, n))
    ensures SameOutside(a, b, Resolve(dst).value)
  {
    JoinResolves(dst, n);
    if Resolve(GoPaths.Join(dst, n)).Some? {
      SameOutsideWiden(a, b, Resolve(dst).value, n);
    }
  }

  // ---------------------------------------------------------------- the step facts

  lemma {:induction false} RecFacts(run: Run, at: Option<nat>, src: string, dst: string, total: int)
    ensures CopyFacts(run, CopyRec(run, at, src, dst, total), dst, total)
    decreases Depth(src), 2
  {
    var r1 := Check(run, at);
    CheckAdvances(run, at, total);
    var o := CopyRec(run, at, src, dst, total);
    if !r1.op.Done {
      match Lstat(r1.fs, src)
      case Err(_) =>
      case Ok(Symlink(_)) =>
        if Readlink(r1.fs, src).Ok? {
          var t := Readlink(r1.fs, src).value;
          if MakeSymlink(r1.fs, t, dst).Ok? { SymlinkFrame(r1.fs, t, dst); }
        }
      case Ok(Dir(_, _)) =>
        DirFacts(r1, at, src, dst, total);
        AdvancesTrans(run, r1, o.run, total);
      case Ok(File(_, _)) =>
        FileFacts(r1, at, src, dst, total);
        AdvancesTrans(run, r1, o.run, total);
    }
  }

  lemma {:induction false} DirFacts(run: Run, at: Option<nat>, src: string, dst: string, total: int)
    requires Resolve(src).Some? && !run.op.Done
    ensures CopyFacts(run, CopyDir(run, at, src, dst, total), dst, total)
    decreases Depth(src), 1
  {
    match Stat(run.fs, src)
    case Err(_) =>
    case Ok(info) =>
      match MkdirAll(run.fs, dst, ModeOf(info))
      case Err(_) =>
      case Ok(fs1) =>
        MkdirAllFrame(run.fs, dst, ModeOf(info));
        match ReadDir(fs1, src)
        case Err(_) =>
        case Ok(names) =>
          var o := CopyEntries(run.(fs := fs1), at, src, dst, names, 0, total);
          EntriesFacts(run.(fs := fs1), at, src, dst, names, 0, total);
          SameOutsideTrans(run.fs, fs1, o.run.fs, Resolve(dst).value);
  }

  lemma {:induction false} EntriesFacts(run: Run, at: Option<nat>, src: string, dst: string, names: seq<Name>, i: nat, total: int)
    requires Resolve(src).Some? && Resolve(dst).Some? && i <= |names| && !run.op.Done
    ensures CopyFacts(run, CopyEntries(run, at, src, dst, names, i, total), dst, total)
    decreases Depth(src), 0, |names| - i, 1
  {
    if i < |names| {
      var r1 := Check(run, at);
      CheckAdvances(run, at, total);
      if !r1.op.Done {
        EntryStep(run, r1, at, src, dst, names, i, total);
      }
    }
  }

  /** Entry `i` once the cancellation check before it has passed. */
  lemma {:induction false} EntryStep(run: Run, r1: Run, at: Option<nat>, src: string, dst: string, names: seq<Name>, i: nat, total: int)
    requires Resolve(src).Some? && Resolve(dst).Some? && i < |names| && !r1.op.Done
    requires Advances(run, r1, total) && SameOutside(run.fs, r1.fs, Resolve(dst).value)
    requires r1 == Check(run, at)
    ensures CopyFacts(run, CopyEntries(run, at, src, dst, names, i, total), dst, total)
    decreases Depth(src), 0, |names| - i, 0
  {
    JoinResolves(src, names[i]);
    var cd := GoPaths.Join(dst, names[i]);
    var o := CopyRec(r1, at, GoPaths.Join(src, names[i]), cd, total);
    RecFacts(r1, at, GoPaths.Join(src, names[i]), cd, total);
    ConfinedChild(r1.fs, o.run.fs, dst, names[i]);
    AdvancesTrans(run, r1, o.run, total);
    if o.err.None? {
      EntriesAfter(run, o.run, at, src, dst, names, i + 1, total);
    }
  }

  lemma {:induction false} EntriesAfter(run: Run, mid: Run, at: Option<nat>, src: string, dst: string, names: seq<Name>, i: nat, total: int)
    requires Resolve(src).Some? && Resolve(dst).Some? && i <= |names| && !mid.op.Done
    requires Advances(run, mid, total) && SameOutside(run.fs, mid.fs, Resolve(dst).value)
    ensures CopyFacts(run, CopyEntries(mid, at, src, dst, names, i, total), dst, total)
    decreases Depth(src), 0, |names| - i, 2
  {
    var o := CopyEntries(mid, at, src, dst, names, i, total);
    EntriesFacts(mid, at, src, dst, names, i, total);
    AdvancesTrans(run, mid, o.run, total);
    SameOutsideTrans(run.fs, mid.fs, o.run.fs, Resolve(dst).value);
  }

  lemma FileFacts(run: Run, at: Option<nat>, src: string, dst: string, total: int)
    requires !run.op.Done
    ensures CopyFacts(run, CopyFile(run, at, src, dst, total), dst, total)
  {
    match Open(run.fs, src)
    case Err(_) =>
    case Ok(_) =>
      match Stat(run.fs, src)
      case Err(_) =>
      case Ok(info) =>
        match Create(run.fs, dst)
        case Err(_) =>
        case Ok(fs1) =>
          CreateFrame(run.fs, dst);
          match Chmod(fs1, dst, ModeOf(info))
          case Err(_) =>
          case Ok(fs2) =>
            ChmodFrame(fs1, dst, ModeOf(info));
            var o := CopyChunks(run.(fs := fs2), at, src, dst, Contents(fs2, src), 0, total);
            ChunksFacts(run.(fs := fs2), at, src, dst, Contents(fs2, src), 0, total);
            SameOutsideTrans(run.fs, fs1, fs2, Resolve(dst).value);
            SameOutsideTrans(run.fs, fs2, o.run.fs, Resolve(dst).value);
  }

  /** One chunk written and counted. */
  function Counted(r1: Run, fs1: Fs, n: nat, total: int, src: string): Run {
    var b := r1.bytes + n;
    r1.(fs := fs1, bytes := b, op := ProgressRec(r1.op, b, total, src))
  }

  lemma CountedAdvances(r1: Run, fs1: Fs, n: nat, total: int, src: string)
    ensures Advances(r1, Counted(r1, fs1, n, total, src), total)
    ensures Counted(r1, fs1, n, total, src).op.Done == r1.op.Done
  {
    var r2 := Counted(r1, fs1, n, total, src);
    assert Core(r2.op) == Core(r1.op);
  }

  lemma ChunksUnfold(run: Run, at: Option<nat>, src: string, dst: string, data: seq<byte>, pos: nat, total: int, fs1: Fs)
    requires pos < |data|
    requires !Check(run, at).op.Done && !Failing(run.fs, PRead, src)
    requires Write(run.fs, dst, data[pos..pos + Min(BufferSize, |data| - pos)]) == Ok(fs1)
    ensures CopyChunks(run, at, src, dst, data, pos, total)
      == CopyChunks(Counted(Check(run, at), fs1, Min(BufferSize, |data| - pos), total, src), at, src, dst, data, pos + Min(BufferSize, |data| - pos), total)
  {
  }

  lemma {:induction false} ChunksFacts(run: Run, at: Option<nat>, src: string, dst: string, data: seq<byte>, pos: nat, total: int)
    requires pos <= |data| && Resolve(dst).Some?
    ensures CopyFacts(run, CopyChunks(run, at, src, dst, data, pos, total), dst, total)
    decreases |data| - pos, 2
  {
    var r1 := Check(run, at);
    CheckAdvances(run, at, total);
    if !r1.op.Done && !Failing(r1.fs, PRead, src) && pos < |data| {
      var n := Min(BufferSize, |data| - pos);
      if Write(r1.fs, dst, data[pos..pos + n]).Ok? {
        ChunkStep(run, r1, at, src, dst, data, pos, total);
      }
    }
  }

  /** One chunk written after the check before it has passed. */
  lemma {:induction false} ChunkStep(run: Run, r1: Run, at: Option<nat>, src: string, dst: string, data: seq<byte>, pos: nat, total: int)
    requires pos < |data| && Resolve(dst).Some? && r1 == Check(run, at) && Advances(run, r1, total) && r1.fs == run.fs
    requires !r1.op.Done && !Failing(r1.fs, PRead, src)
    requires Write(r1.fs, dst, data[pos..pos + Min(BufferSize, |data| - pos)]).Ok?
    ensures CopyFacts(run, CopyChunks(run, at, src, dst, data, pos, total), dst, total)
    decreases |data| - pos, 1
  {
    var n := Min(BufferSize, |data| - pos);
    var fs1 := Write(r1.fs, dst, data[pos..pos + n]).value;
    WriteFrame(r1.fs, dst, data[pos..pos + n]);
    var r2 := Counted(r1, fs1, n, total, src);
    CountedAdvances(r1, fs1, n, total, src);
    ChunksUnfold(run, at, src, dst, data, pos, total, fs1);
    AdvancesTrans(run, r1, r2, total);
    ChunksAfter(run, r2, at, src, dst, data, pos + n, total);
  }

  /** The chunks from `pos` on, once the run has got from `run` to `mid`. */
  lemma {:induction false} ChunksAfter(run: Run, mid: Run, at: Option<nat>, src: string, dst: string, data: seq<byte>, pos: nat, total: int)
    requires pos <= |data| && Resolve(dst).Some? && !mid.op.Done
    requires Advances(run, mid, total) && SameOutside(run.fs, mid.fs, Resolve(dst).value)
    ensures CopyFacts(run, CopyChunks(mid, at, src, dst, data, pos, total), dst, total)
    decreases |data| - pos, 3
  {
    var o := CopyChunks(mid, at, src, dst, data, pos, total);
    ChunksFacts(mid, at, src, dst, data, pos, total);
    AdvancesTrans(run, mid, o.run, total);
    SameOutsideTrans(run.fs, mid.fs, o.run.fs, Resolve(dst).value);
  }

  // ---------------------------------------------------------------- the walk reads only its tree

  lemma {:induction false} WalkLocal(fs1: Fs, fs2: Fs, p: string)
    requires fs1.faults == fs2.faults
    requires Resolve(p).Some? ==> AgreeUnder(fs1, fs2, Resolve(p).value)
    ensures Walk(fs1, p) == Walk(fs2, p)
    decreases Depth(p), 1
  {
    if Resolve(p).Some? {
      assert Lstat(fs1, p) == Lstat(fs2, p);
      assert ReadDir(fs1, p) == ReadDir(fs2, p);
      match Lstat(fs1, p)
      case Err(_) =>
      case Ok(node) =>
        if node.Dir? && ReadDir(fs1, p).Ok? {
          WalkEntriesLocal(fs1, fs2, p, ReadDir(fs1, p).value, 0);
        }
    }
  }

  lemma WalkEntriesLocal(fs1: Fs, fs2: Fs, p: string, names: seq<Name>, i: nat)
    requires Resolve(p).Some? && AgreeUnder(fs1, fs2, Resolve(p).value) && i <= |names|
    ensures WalkEntries(fs1, p, names, i) == WalkEntries(fs2, p, names, i)
    decreases Depth(p), 0
  {
    forall j | 0 <= j < |names|
      ensures Walk(fs1, GoPaths.Join(p, names[j])) == Walk(fs2, GoPaths.Join(p, names[j]))
    {
      JoinResolves(p, names[j]);
      AgreeUnderChild(fs1, fs2, Resolve(p).value, names[j]);
      WalkLocal(fs1, fs2, GoPaths.Join(p, names[j]));
    }
    assert Children(fs1, p, names) == Children(fs2, p, names);
    WalkEntriesFold(fs1, p, names, i);
    WalkEntriesFold(fs2, p, names, i);
  }

  /** The walks of the entries of a directory, in order. */
  function Children(fs: Fs, p: string, names: seq<Name>): seq<Result<Tally, FsError>> {
    seq(|names|, j requires 0 <= j < |names| => Walk(fs, GoPaths.Join(p, names[j])))
  }

  /** The first error among the walks from index `i` on, or the sum of their tallies. */
  function Fold(ws: seq<Result<Tally, FsError>>, i: nat): Result<Tally, FsError>
    requires i <= |ws|
    decreases |ws| - i
  {
    if i == |ws| then Ok(Tally(0, 0))
    else
      match ws[i]
      case Err(e) => Err(e)
      case Ok(t) =>
        match Fold(ws, i + 1)
        case Err(e) => Err(e)
        case Ok(t2) => Ok(Plus(t, t2))
  }

  /** The walk of the entries is the fold of the walks of the children. */
  lemma {:induction false} WalkEntriesFold(fs: Fs, p: string, names: seq<Name>, i: nat)
    requires Resolve(p).Some? && i <= |names|
    ensures WalkEntries(fs, p, names, i) == Fold(Children(fs, p, names), i)
    decreases |names| - i
  {
    if i < |names| {
      WalkEntriesFold(fs, p, names, i + 1);
      assert Children(fs, p, names)[i] == Walk(fs, GoPaths.Join(p, names[i]));
    }
  }

  lemma DisjointChild(s: Path, d: Path, n: Name)
    requires Disjoint(s, d)
    ensures Disjoint(s + [n], d + [n])
  {
    if s + [n] <= d + [n] { PrefixOfAppend(s, d, n); }
    if d + [n] <= s + [n] { PrefixOfAppend(d, s, n); }
  }

  lemma PrefixOfAppend(a: Path, b: Path, n: Name)
    requires a + [n] <= b + [n]
    ensures a <= b
  {
    assert a == (b + [n])[..|a|] == b[..|a|];
  }

  // ---------------------------------------------------------------- bytes copied

  /** A successful copy of `src` to a destination outside it adds the bytes of the regular
      files of `src`, as `calculateSize` found them, to the running count; links add nothing. */
  lemma {:induction false} RecBytes(run: Run, at: Option<nat>, src: string, dst: string, total: int)
    requires Resolve(src).Some? && Resolve(dst).Some? && Disjoint(Resolve(src).value, Resolve(dst).value)
    requires Walk(run.fs, src).Ok? && CopyRec(run, at, src, dst, total).err.None?
    ensures CopyRec(run, at, src, dst, total).run.bytes == run.bytes + Walk(run.fs, src).value.files
    decreases Depth(src), 2
  {
    var r1 := Check(run, at);
    match Lstat(r1.fs, src)
    case Ok(Symlink(_)) =>
    case Ok(Dir(_, _)) =>
      DirBytes(r1, at, src, dst, total);
    case Ok(File(d, m)) =>
      FileBytes(r1, at, src, dst, total, d, m);
  }

  lemma {:induction false} DirBytes(run: Run, at: Option<nat>, src: string, dst: string, total: int)
    requires Resolve(src).Some? && Resolve(dst).Some? && Disjoint(Resolve(src).value, Resolve(dst).value)
    requires Lstat(run.fs, src).Ok? && Lstat(run.fs, src).value.Dir? && !run.op.Done
    requires Walk(run.fs, src).Ok? && CopyDir(run, at, src, dst, total).err.None?
    ensures CopyDir(run, at, src, dst, total).run.bytes == run.bytes + Walk(run.fs, src).value.files
    decreases Depth(src), 1
  {
    var info := Stat(run.fs, src).value;
    var fs1 := MkdirAll(run.fs, dst, ModeOf(info)).value;
    MkdirAllFrame(run.fs, dst, ModeOf(info));
    SameOutsideAgree(run.fs, fs1, Resolve(dst).value, Resolve(src).value);
    assert ReadDir(fs1, src) == ReadDir(run.fs, src);
    var names := ReadDir(run.fs, src).value;
    WalkEntriesLocal(run.fs, fs1, src, names, 0);
    EntriesBytes(run.(fs := fs1), at, src, dst, names, 0, total);
  }

  lemma {:induction false} EntriesBytes(run: Run, at: Option<nat>, src: string, dst: string, names: seq<Name>, i: nat, total: int)
    requires Resolve(src).Some? && Resolve(dst).Some? && Disjoint(Resolve(src).value, Resolve(dst).value)
    requires i <= |names| && !run.op.Done
    requires WalkEntries(run.fs, src, names, i).Ok? && CopyEntries(run, at, src, dst, names, i, total).err.None?
    ensures CopyEntries(run, at, src, dst, names, i, total).run.bytes == run.bytes + WalkEntries(run.fs, src, names, i).value.files
    decreases Depth(src), 0, |names| - i
  {
    if i < |names| {
      var r1 := Check(run, at);
      var n := names[i];
      JoinResolves(src, n);
      JoinResolves(dst, n);
      var cs, cd := GoPaths.Join(src, n), GoPaths.Join(dst, n);
      var o := CopyRec(r1, at, cs, cd, total);
      RecFacts(r1, at, cs, cd, total);
      DisjointChild(Resolve(src).value, Resolve(dst).value, n);
      RecBytes(r1, at, cs, cd, total);
      ConfinedChild(r1.fs, o.run.fs, dst, n);
      SameOutsideAgree(r1.fs, o.run.fs, Resolve(dst).value, Resolve(src).value);
      WalkEntriesLocal(r1.fs, o.run.fs, src, names, i + 1);
      EntriesBytes(o.run, at, src, dst, names, i + 1, total);
    }
  }

  lemma FileBytes(run: Run, at: Option<nat>, src: string, dst: string, total: int, data: seq<byte>, mode: nat)
    requires Lstat(run.fs, src) == Ok(File(data, mode)) && Resolve(src) != Resolve(dst)
    requires CopyFile(run, at, src, dst, total).err.None?
    ensures CopyFile(run, at, src, dst, total).run.bytes == run.bytes + |data|
  {
    var info := Stat(run.fs, src).value;
    CreateKeepsFile(run.fs, src, dst, ModeOf(info));
    var fs2 := Chmod(Create(run.fs, dst).value, dst, ModeOf(info)).value;
    ChunksBytes(run.(fs := fs2), at, src, dst, data, 0, total);
  }

  /** Creating another path and setting its mode leaves a regular file as it was, so the handle
      open on it reads its bytes. */
  lemma CreateKeepsFile(fs: Fs, src: string, dst: string, mode: nat)
    requires Lstat(fs, src).Ok? && Lstat(fs, src).value.File? && Resolve(src) != Resolve(dst)
    requires Create(fs, dst).Ok? && Chmod(Create(fs, dst).value, dst, mode).Ok?
    ensures Contents(Chmod(Create(fs, dst).value, dst, mode).value, src) == Lstat(fs, src).value.data
  {
    var s, d := Resolve(src).value, Resolve(dst).value;
    if d !in fs.nodes {
      assert s != Parent(d);
    }
  }

  lemma {:induction false} ChunksBytes(run: Run, at: Option<nat>, src: string, dst: string, data: seq<byte>, pos: nat, total: int)
    requires pos <= |data| && CopyChunks(run, at, src, dst, data, pos, total).err.None?
    ensures CopyChunks(run, at, src, dst, data, pos, total).run.bytes == run.bytes + |data| - pos
    decreases |data| - pos
  {
    var r1 := Check(run, at);
    if pos < |data| {
      var n := Min(BufferSize, |data| - pos);
      var fs1 := Write(r1.fs, dst, data[pos..pos + n]).value;
      var b := r1.bytes + n;
      ChunksBytes(r1.(fs := fs1, bytes := b, op := ProgressRec(r1.op, b, total, src)), at, src, dst, data, pos + n, total);
    }
  }

  // ---------------------------------------------------------------- what lands at the destination

  /** A regular file copied successfully to another path arrives with the source's bytes and
      mode. */
  lemma RecFileContent(run: Run, at: Option<nat>, src: string, dst: string, total: int, data: seq<byte>, mode: nat)
    requires Lstat(run.fs, src) == Ok(File(data, mode)) && Resolve(src) != Resolve(dst)
    requires CopyRec(run, at, src, dst, total).err.None?
    ensures Resolve(dst).Some? && Resolve(dst).value in CopyRec(run, at, src, dst, total).run.fs.nodes
    ensures CopyRec(run, at, src, dst, total).run.fs.nodes[Resolve(dst).value] == File(data, mode)
  {
    var r1 := Check(run, at);
    var d := Resolve(dst).value;
    var fs1 := Create(r1.fs, dst).value;
    var fs2 := Chmod(fs1, dst, mode).value;
    assert Stat(r1.fs, src).value == File(data, mode);
    assert fs2.nodes[d] == File([], mode);
    CreateKeepsFile(r1.fs, src, dst, mode);
    ChunksContent(r1.(fs := fs2), at, src, dst, data, 0, total, mode);
  }

  /** A regular file copied onto itself: `os.Create` truncates it under the open handle, the
      first read reports EOF, and the copy succeeds with the file empty and no bytes counted.
      `CopyFile` takes the bytes the handle reads once, right after the create: that is sound
      because the chunk loop writes only to the destination, so for any other destination the
      source stays as `Lstat` saw it (`CreateKeepsFile`), and for this one stays empty. */
  lemma CopyOntoItselfEmpties(run: Run, at: Option<nat>, src: string, total: int, data: seq<byte>, mode: nat)
    requires Lstat(run.fs, src) == Ok(File(data, mode)) && CopyRec(run, at, src, src, total).err.None?
    ensures var o := CopyRec(run, at, src, src, total);
      Resolve(src).value in o.run.fs.nodes && o.run.fs.nodes[Resolve(src).value] == File([], mode)
      && o.run.bytes == run.bytes
  {
    var r1 := Check(run, at);
    var fs1 := Create(r1.fs, src).value;
    var fs2 := Chmod(fs1, src, mode).value;
    assert Stat(r1.fs, src).value == File(data, mode);
    assert Contents(fs2, src) == [];
  }

  /** The checked copy refuses a destination that is its source and leaves everything as it
      was; a regular file copied to a destination outside it keeps its bytes either way. */
  lemma CheckedCopyKeepsSource(run: Run, at: Option<nat>, src: string, dst: string, total: int, data: seq<byte>, mode: nat)
    requires Lstat(run.fs, src) == Ok(File(data, mode)) && Resolve(dst).Some?
    requires Resolve(src) == Resolve(dst) || Disjoint(Resolve(src).value, Resolve(dst).value)
    ensures var o := CopyChecked(run, at, src, dst, total);
      Resolve(src).value in o.run.fs.nodes && o.run.fs.nodes[Resolve(src).value] == File(data, mode)
      && (Resolve(src) == Resolve(dst) ==> o == Outcome(run, Some(SameFile)))
  {
    if Resolve(src) != Resolve(dst) {
      var s, d := Resolve(src).value, Resolve(dst).value;
      RecFacts(run, at, src, dst, total);
      SameOutsideAgree(run.fs, CopyRec(run, at, src, dst, total).run.fs, d, s);
    }
  }

  lemma {:induction false} ChunksContent(run: Run, at: Option<nat>, src: string, dst: string, data: seq<byte>, pos: nat, total: int, mode: nat)
    requires pos <= |data| && Resolve(dst).Some? && Resolve(dst).value in run.fs.nodes
    requires run.fs.nodes[Resolve(dst).value] == File(data[..pos], mode)
    requires CopyChunks(run, at, src, dst, data, pos, total).err.None?
    ensures Resolve(dst).value in CopyChunks(run, at, src, dst, data, pos, total).run.fs.nodes
    ensures CopyChunks(run, at, src, dst, data, pos, total).run.fs.nodes[Resolve(dst).value] == File(data, mode)
    decreases |data| - pos
  {
    var r1 := Check(run, at);
    if pos < |data| {
      var n := Min(BufferSize, |data| - pos);
      var fs1 := Write(r1.fs, dst, data[pos..pos + n]).value;
      assert data[..pos] + data[pos..pos + n] == data[..pos + n];
      var b := r1.bytes + n;
      ChunksContent(r1.(fs := fs1, bytes := b, op := ProgressRec(r1.op, b, total, src)), at, src, dst, data, pos + n, total, mode);
    } else {
      assert data[..pos] == data;
    }
  }

  /** A link copied successfully is a new link with the same target. */
  lemma RecLinkContent(run: Run, at: Option<nat>, src: string, dst: string, total: int, target: string)
    requires Lstat(run.fs, src) == Ok(Symlink(target)) && CopyRec(run, at, src, dst, total).err.None?
    ensures Resolve(dst).Some? && Resolve(dst).value in CopyRec(run, at, src, dst, total).run.fs.nodes
    ensures CopyRec(run, at, src, dst, total).run.fs.nodes[Resolve(dst).value] == Symlink(target)
    ensures Resolve(dst).value !in run.fs.nodes
  {
  }
}
