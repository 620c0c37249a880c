/** The filesystem the file operations run against, replacing the `os` package. A path string is
    resolved to its components; nodes are files (bytes and mode), directories (mode and the
    names of their entries, kept in name order as `os.ReadDir` returns them) and symbolic links.
    Every primitive can be made to fail on a given path through `faults`, the failure oracle, and
    fails by itself on a missing path, the wrong kind of node, a missing parent, or a path whose
    encoding takes `PathMax` bytes or more (ENAMETOOLONG). Resolution works on the text of a path
    and never follows a symbolic link: a path through a linked directory does not resolve, and
    `Create`, `MkdirAll`, `Chmod` and `Write` refuse a link where the operating system would
    write through it (`CreateRefusesLink`, `MkdirAllRefusesLink`). */
module FileSystem {

  import opened Wrappers
  import GoStrings
  import GoPaths

  predicate IsName(s: string) {
    s != "" && '/' !in s && s != "." && s != ".."
  }

  /** One path component, as `os.ReadDir` can report it. */
  type Name = s: string | IsName(s) witness "a"

  /** A resolved absolute path: the components below the root. */
  type Path = seq<Name>

  newtype byte = b: int | 0 <= b < 256

  datatype Node =
    | File(data: seq<byte>, mode: nat)
    | Dir(mode: nat, children: seq<Name>)
    | Symlink(target: string)

  /** The primitives a fault can be attached to. */
  datatype Prim =
    PLstat | PStat | PReadlink | PSymlink | PMkdir | PReadDir | POpen | PCreate | PChmod
    | PRead | PWrite | PRename | PRemove

  datatype Fault = Fault(prim: Prim, path: string)

  datatype Fs = Fs(nodes: map<Path, Node>, faults: set<Fault>)

  /** The `*PathError` a primitive returns: which call failed and on which path. */
  datatype FsError = FsError(prim: Prim, path: string)

  const PathMax: nat := 4096

  /** Mode of a file made by `os.Create`. */
  const CreateMode: nat := 0x1b6

  // ---------------------------------------------------------------- paths

  /** The components of an absolute path in simple form ("/" or "/a/b"); anything else
      (relative, a trailing or doubled '/', "." or "..") does not resolve. */
  function Parse(p: string): Option<Path> {
    if p == "/" then Some([])
    else if |p| < 2 || p[0] != '/' then None
    else
      var parts := GoStrings.Split(p[1..], '/');
      if forall i :: 0 <= i < |parts| ==> IsName(parts[i]) then Some(parts) else None
  }

  /** A path whose UTF-8 encoding takes `PathMax` bytes or more does not resolve. Every
      character takes at least one byte, so the test on characters adds nothing; it gives the
      recursions over paths their bound. */
  function Resolve(p: string): Option<Path> {
    if |p| >= PathMax || GoStrings.ByteLen(p) >= PathMax then None else Parse(p)
  }

  /** The measure that bounds every recursion over path strings. */
  function Depth(p: string): nat {
    if |p| >= PathMax then 0 else PathMax - |p|
  }

  lemma {:induction false} SplitAppend(s: string, n: string)
    requires '/' !in n
    ensures GoStrings.Split(s + "/" + n, '/') == GoStrings.Split(s, '/') + [n]
    decreases |s|
  {
    var t := s + "/" + n;
    assert t[..|s|] == s;
    if '/' !in s {
      IndexOfAt(t, '/', |s|);
      assert t[|s| + 1..] == n;
    } else {
      var i := GoStrings.IndexOf(s, '/');
      assert t[..i] == s[..i];
      IndexOfAt(t, '/', i);
      assert t[i + 1..] == s[i + 1..] + "/" + n;
      SplitAppend(s[i + 1..], n);
    }
  }

  lemma {:induction false} IndexOfAt(s: string, c: char, k: nat)
    requires k < |s| && s[k] == c && c !in s[..k]
    ensures GoStrings.IndexOf(s, c) == k
    decreases k
  {
    if k > 0 {
      assert s[0] == s[..k][0];
      assert s[1..][..k - 1] == s[1..k];
      IndexOfAt(s[1..], c, k - 1);
    }
  }

  lemma {:induction false} SplitTrailingSlash(s: string)
    requires |s| > 0 && s[|s| - 1] == '/'
    ensures GoStrings.Split(s, '/')[|GoStrings.Split(s, '/')| - 1] == ""
    decreases |s|
  {
    var i := GoStrings.IndexOf(s, '/');
    if i < |s| - 1 {
      SplitTrailingSlash(s[i + 1..]);
    }
  }

  /** Joining a name under a resolvable directory resolves to one more component, unless the
      joined path is too long. */
  lemma JoinResolves(d: string, n: Name)
    requires Resolve(d).Some?
    ensures |GoPaths.Join(d, n)| > |d|
    ensures Resolve(GoPaths.Join(d, n)).Some? || GoStrings.ByteLen(GoPaths.Join(d, n)) >= PathMax
    ensures Resolve(GoPaths.Join(d, n)).Some? ==> Resolve(GoPaths.Join(d, n)).value == Resolve(d).value + [n]
  {
    var j := GoPaths.Join(d, n);
    GoStrings.ByteLenBounds(j);
    if d == "/" {
      assert j == "/" + n;
      assert j[1..] == n;
      assert GoStrings.Split(n, '/') == [n];
    } else {
      assert d[|d| - 1] != '/' by {
        if d[|d| - 1] == '/' { SplitTrailingSlash(d[1..]); }
      }
      assert j == d + "/" + n;
      assert j[1..] == d[1..] + "/" + n;
      SplitAppend(d[1..], n);
    }
  }

  // ---------------------------------------------------------------- reading

  predicate Failing(fs: Fs, prim: Prim, p: string) {
    Fault(prim, p) in fs.faults
  }

  /** The node a primitive finds at `p`, or its error. */
  function Find(fs: Fs, prim: Prim, p: string): (r: Result<Node, FsError>)
    ensures r.Ok? <==> !Failing(fs, prim, p) && Resolve(p).Some? && Resolve(p).value in fs.nodes
    ensures r.Ok? ==> r.value == fs.nodes[Resolve(p).value]
  {
    var c := Resolve(p);
    if Failing(fs, prim, p) || c.None? || c.value !in fs.nodes then Err(FsError(prim, p))
    else Ok(fs.nodes[c.value])
  }

  /** `os.Lstat`. */
  function Lstat(fs: Fs, p: string): Result<Node, FsError> {
    Find(fs, PLstat, p)
  }

  /** `os.Stat` and `File.Stat`; used only on nodes already known not to be links. */
  function Stat(fs: Fs, p: string): Result<Node, FsError> {
    Find(fs, PStat, p)
  }

  /** `os.Readlink`. */
  function Readlink(fs: Fs, p: string): Result<string, FsError> {
    match Find(fs, PReadlink, p)
    case Ok(Symlink(t)) => Ok(t)
    case _ => Err(FsError(PReadlink, p))
  }

  /** `os.ReadDir` (and the directory read of `filepath.Walk`): the entry names in order. */
  function ReadDir(fs: Fs, p: string): Result<seq<Name>, FsError> {
    match Find(fs, PReadDir, p)
    case Ok(Dir(_, ch)) => Ok(ch)
    case _ => Err(FsError(PReadDir, p))
  }

  /** `os.Open` of a regular file: its contents and mode at the time of opening. */
  datatype Opened = Opened(data: seq<byte>, mode: nat)

  function Open(fs: Fs, p: string): Result<Opened, FsError> {
    match Find(fs, POpen, p)
    case Ok(File(d, m)) => Ok(Opened(d, m))
    case _ => Err(FsError(POpen, p))
  }

  // ---------------------------------------------------------------- changing

  function Parent(c: Path): Path
    requires c != []
  {
    c[..|c| - 1]
  }

  predicate IsDirAt(fs: Fs, c: Path) {
    c in fs.nodes && fs.nodes[c].Dir?
  }

  /** Adds a name to a sorted list of names, once. */
  function InsertName(names: seq<Name>, n: Name): seq<Name> {
    if names == [] then [n]
    else if names[0] == n then names
    else if GoStrings.Less(n, names[0]) then [n] + names
    else [names[0]] + InsertName(names[1..], n)
  }

  function RemoveName(names: seq<Name>, n: Name): seq<Name> {
    if names == [] then []
    else if names[0] == n then RemoveName(names[1..], n)
    else [names[0]] + RemoveName(names[1..], n)
  }

  /** Puts `node` at `c` and lists it in its parent directory. */
  function AddEntry(fs: Fs, c: Path, node: Node): (r: Fs)
    requires c != [] && IsDirAt(fs, Parent(c))
    ensures r.faults == fs.faults && c in r.nodes && r.nodes[c] == node
  {
    var par := fs.nodes[Parent(c)];
    var nodes1 := fs.nodes[c := node];
    Fs(nodes1[Parent(c) := Dir(par.mode, InsertName(par.children, c[|c| - 1]))], fs.faults)
  }

  /** `os.Symlink(target, p)`: makes a new link; an existing `p` is an error. */
  function MakeSymlink(fs: Fs, target: string, p: string): Result<Fs, FsError> {
    var c := Resolve(p);
    if Failing(fs, PSymlink, p) || c.None? || c.value == [] || c.value in fs.nodes
      || !IsDirAt(fs, Parent(c.value))
    then Err(FsError(PSymlink, p))
    else Ok(AddEntry(fs, c.value, Symlink(target)))
  }

  /** `os.MkdirAll(p, mode)`: nothing to do for an existing directory, otherwise the missing
      directories from the top down. */
  function MkdirAll(fs: Fs, p: string, mode: nat): Result<Fs, FsError> {
    var c := Resolve(p);
    if Failing(fs, PMkdir, p) || c.None? then Err(FsError(PMkdir, p))
    else MkdirPath(fs, c.value, mode, p)
  }

  function MkdirPath(fs: Fs, c: Path, mode: nat, p: string): (r: Result<Fs, FsError>)
    ensures r.Ok? ==> IsDirAt(r.value, c) && r.value.faults == fs.faults
    decreases |c|
  {
    if c in fs.nodes then (if fs.nodes[c].Dir? then Ok(fs) else Err(FsError(PMkdir, p)))
    else if c == [] then Err(FsError(PMkdir, p))
    else match MkdirPath(fs, Parent(c), mode, p)
      case Err(e) => Err(e)
      case Ok(fs1) =>
        assert c !in fs1.nodes || c in fs.nodes || true;
        Ok(AddEntry(fs1, c, Dir(mode, [])))
  }

  /** `os.Create(p)`: truncates an existing file, or makes an empty one in an existing directory. */
  function Create(fs: Fs, p: string): Result<Fs, FsError> {
    var c := Resolve(p);
    if Failing(fs, PCreate, p) || c.None? then Err(FsError(PCreate, p))
    else if c.value in fs.nodes then
      match fs.nodes[c.value]
      case File(_, m) => Ok(Fs(fs.nodes[c.value := File([], m)], fs.faults))
      case _ => Err(FsError(PCreate, p))
    else if c.value == [] || !IsDirAt(fs, Parent(c.value)) then Err(FsError(PCreate, p))
    else Ok(AddEntry(fs, c.value, File([], CreateMode)))
  }

  /** The model does not follow a link at `p`, where `os.Create` would truncate its target. */
  lemma CreateRefusesLink(fs: Fs, p: string)
    requires Resolve(p).Some? && Resolve(p).value in fs.nodes && fs.nodes[Resolve(p).value].Symlink?
    ensures Create(fs, p) == Err(FsError(PCreate, p))
  {
  }

  /** The model does not follow a link at `p`, where `os.MkdirAll` accepts a link to a directory. */
  lemma MkdirAllRefusesLink(fs: Fs, p: string, mode: nat)
    requires Resolve(p).Some? && Resolve(p).value in fs.nodes && fs.nodes[Resolve(p).value].Symlink?
    ensures MkdirAll(fs, p, mode) == Err(FsError(PMkdir, p))
  {
  }

  /** `File.Chmod(mode)` on the file just created at `p`. */
  function Chmod(fs: Fs, p: string, mode: nat): Result<Fs, FsError> {
    match Find(fs, PChmod, p)
    case Ok(File(d, _)) => Ok(Fs(fs.nodes[Resolve(p).value := File(d, mode)], fs.faults))
    case _ => Err(FsError(PChmod, p))
  }

  /** `File.Write(chunk)` on the file open at `p`: appends. */
  function Write(fs: Fs, p: string, chunk: seq<byte>): Result<Fs, FsError> {
    match Find(fs, PWrite, p)
    case Ok(File(d, m)) => Ok(Fs(fs.nodes[Resolve(p).value := File(d + chunk, m)], fs.faults))
    case _ => Err(FsError(PWrite, p))
  }

  /** Every node of the tree rooted at `c` removed. */
  function RemoveUnder(nodes: map<Path, Node>, c: Path): (r: map<Path, Node>)
    ensures forall k :: k in r <==> k in nodes && !(c <= k)
    ensures forall k :: k in r ==> r[k] == nodes[k]
  {
    map k | k in nodes && !(c <= k) :: nodes[k]
  }

  /** Drops the name of `c` from its parent's list, if that parent is a directory. */
  function Unlist(nodes: map<Path, Node>, c: Path): (r: map<Path, Node>)
    requires c != []
    ensures forall k :: k in r <==> k in nodes
    ensures forall k :: k in nodes && k != Parent(c) ==> r[k] == nodes[k]
  {
    var par := Parent(c);
    if par in nodes && nodes[par].Dir? then
      nodes[par := Dir(nodes[par].mode, RemoveName(nodes[par].children, c[|c| - 1]))]
    else nodes
  }

  /** What `os.RemoveAll` leaves: the filesystem after it, and its error if it returned one. */
  datatype Removal = Removal(fs: Fs, err: Option<FsError>)

  /** `k`, a node of the tree at `c`, lies on the way to a node that has a removal fault: the
      node itself cannot be unlinked, and every directory above it stays non-empty. */
  predicate Pinned(fs: Fs, c: Path, k: Path) {
    k in fs.nodes && c <= k
    && exists f :: f in fs.faults && f.prim == PRemove && Resolve(f.path).Some?
         && k <= Resolve(f.path).value && Resolve(f.path).value in fs.nodes
  }

  /** The names of `names` whose entries under `d` are in `keep`, in their order. */
  function KeepNames(names: seq<Name>, d: Path, keep: set<Path>): (r: seq<Name>)
    ensures forall n :: n in r <==> n in names && d + [n] in keep
  {
    if names == [] then []
    else (if d + [names[0]] in keep then [names[0]] else []) + KeepNames(names[1..], d, keep)
  }

  /** The tree at `c` cut down to the nodes in `keep`; a kept directory lists only the
      entries that were kept. */
  function Prune(nodes: map<Path, Node>, c: Path, keep: set<Path>): map<Path, Node> {
    map k | k in nodes && (!(c <= k) || k in keep) ::
      if c <= k && nodes[k].Dir? then Dir(nodes[k].mode, KeepNames(nodes[k].children, k, keep))
      else nodes[k]
  }

  /** `os.RemoveAll(p)`: a missing path is not an error and the root cannot be removed.
      Otherwise it removes every node of the tree that it can, depth first, and fails when a
      node with a removal fault, and so the directories above it, are left. */
  function RemoveAll(fs: Fs, p: string): Removal {
    var c := Resolve(p);
    if c.None? then Removal(fs, Some(FsError(PRemove, p)))
    else if c.value !in fs.nodes then Removal(fs, if Failing(fs, PRemove, p) then Some(FsError(PRemove, p)) else None)
    else if c.value == [] then Removal(fs, Some(FsError(PRemove, p)))
    else if !Pinned(fs, c.value, c.value) then Removal(Fs(Unlist(RemoveUnder(fs.nodes, c.value), c.value), fs.faults), None)
    else
      var keep := set k | k in fs.nodes && Pinned(fs, c.value, k);
      Removal(Fs(Prune(fs.nodes, c.value, keep), fs.faults), Some(FsError(PRemove, p)))
  }

  /** What `rename` may replace: a non-directory by a non-directory. An existing directory is
      never replaced (EEXIST), and a directory does not replace a file (ENOTDIR). */
  predicate CanReplace(moving: Node, existing: Node) {
    !moving.Dir? && !existing.Dir?
  }

  /** The tree at `o` re-rooted at `n`. */
  function Moved(nodes: map<Path, Node>, o: Path, n: Path): map<Path, Node> {
    RebaseInjective(o, n);
    map k | k in nodes && o <= k :: n + k[|o|..] := nodes[k]
  }

  lemma RebaseInjective(o: Path, n: Path)
    ensures forall k1: Path, k2: Path :: o <= k1 && o <= k2 && n + k1[|o|..] == n + k2[|o|..] ==> k1 == k2
  {
    forall k1: Path, k2: Path | o <= k1 && o <= k2 && n + k1[|o|..] == n + k2[|o|..]
      ensures k1 == k2
    {
      assert k1[|o|..] == (n + k1[|o|..])[|n|..];
      assert k2[|o|..] == (n + k2[|o|..])[|n|..];
      assert k1 == o + k1[|o|..];
      assert k2 == o + k2[|o|..];
    }
  }

  /** `os.Rename(from, to)`. An existing directory at `to` is refused before anything else,
      even when it is `from` itself; a non-directory renamed to itself is left as it is. A fault
      on `from` stands for every failure the model does not otherwise produce, such as a move
      across devices. */
  function Rename(fs: Fs, from: string, to: string): Result<Fs, FsError> {
    var oc, nc := Resolve(from), Resolve(to);
    if Failing(fs, PRename, from) || oc.None? || nc.None? then Err(FsError(PRename, from))
    else
      var o, n := oc.value, nc.value;
      if o !in fs.nodes || o == [] then Err(FsError(PRename, from))
      else if n in fs.nodes && fs.nodes[n].Dir? then Err(FsError(PRename, from))
      else if n == o then Ok(fs)
      else if o <= n || n <= o || n == [] || !IsDirAt(fs, Parent(n)) then Err(FsError(PRename, from))
      else if n in fs.nodes && !CanReplace(fs.nodes[o], fs.nodes[n]) then Err(FsError(PRename, from))
      else Ok(Fs(Relocate(fs.nodes, o, n), fs.faults))
  }

  /** The nodes after moving the tree at `o` to `n`: whatever was under `n` or `o` goes, the
      tree is rebased at `n`, and the name moves from the old parent's list to the new one's. */
  function Relocate(nodes: map<Path, Node>, o: Path, n: Path): map<Path, Node>
    requires o != [] && n != []
  {
    var kept := Unlist(RemoveUnder(RemoveUnder(nodes, n), o), o);
    var placed := kept + Moved(nodes, o, n);
    var par := Parent(n);
    if par in placed && placed[par].Dir? then
      placed[par := Dir(placed[par].mode, InsertName(placed[par].children, n[|n| - 1]))]
    else placed
  }

  // ---------------------------------------------------------------- locality

  /** `k` lies on the way to `d` or inside it. */
  predicate Related(k: Path, d: Path) {
    k <= d || d <= k
  }

  /** `fs2` differs from `fs1` only at paths related to `d`. */
  ghost predicate SameOutside(fs1: Fs, fs2: Fs, d: Path) {
    fs1.faults == fs2.faults
    && (forall k :: !Related(k, d) ==> (k in fs1.nodes <==> k in fs2.nodes))
    && (forall k :: !Related(k, d) && k in fs1.nodes ==> fs2.nodes[k] == fs1.nodes[k])
  }

  /** `fs1` and `fs2` agree on the tree under `s`. */
  ghost predicate AgreeUnder(fs1: Fs, fs2: Fs, s: Path) {
    fs1.faults == fs2.faults
    && (forall k :: s <= k ==> (k in fs1.nodes <==> k in fs2.nodes))
    && (forall k :: s <= k && k in fs1.nodes ==> fs2.nodes[k] == fs1.nodes[k])
  }

  /** Neither path lies inside the other. */
  predicate Disjoint(s: Path, d: Path) {
    !(s <= d) && !(d <= s)
  }

  lemma SameOutsideTrans(fs1: Fs, fs2: Fs, fs3: Fs, d: Path)
    requires SameOutside(fs1, fs2, d) && SameOutside(fs2, fs3, d)
    ensures SameOutside(fs1, fs3, d)
  {
  }

  lemma SameOutsideWiden(fs1: Fs, fs2: Fs, d: Path, n: Name)
    requires SameOutside(fs1, fs2, d + [n])
    ensures SameOutside(fs1, fs2, d)
  {
    forall k | !Related(k, d)
      ensures !Related(k, d + [n])
    {
    }
  }

  lemma PrefixComparable(a: Path, b: Path, k: Path)
    requires a <= k && b <= k
    ensures a <= b || b <= a
  {
    if |a| <= |b| { assert a == k[..|a|] == b[..|a|]; }
    else { assert b == k[..|b|] == a[..|b|]; }
  }

  /** A change confined to `d` leaves any tree disjoint from `d` as it was. */
  lemma SameOutsideAgree(fs1: Fs, fs2: Fs, d: Path, s: Path)
    requires SameOutside(fs1, fs2, d) && Disjoint(s, d)
    ensures AgreeUnder(fs1, fs2, s)
  {
    forall k | s <= k
      ensures !Related(k, d)
    {
      assert !(d <= k) by {
        if d <= k { PrefixComparable(s, d, k); }
      }
    }
  }

  lemma AgreeUnderChild(fs1: Fs, fs2: Fs, s: Path, n: Name)
    requires AgreeUnder(fs1, fs2, s)
    ensures AgreeUnder(fs1, fs2, s + [n])
  {
    forall k: Path | s + [n] <= k
      ensures k in fs1.nodes <==> k in fs2.nodes
      ensures k in fs1.nodes ==> fs2.nodes[k] == fs1.nodes[k]
    {
      assert s == (s + [n])[..|s|];
    }
  }

  lemma AgreeUnderSym(fs1: Fs, fs2: Fs, s: Path)
    requires AgreeUnder(fs1, fs2, s)
    ensures AgreeUnder(fs2, fs1, s)
  {
  }

  lemma AgreeUnderTrans(fs1: Fs, fs2: Fs, fs3: Fs, s: Path)
    requires AgreeUnder(fs1, fs2, s) && AgreeUnder(fs2, fs3, s)
    ensures AgreeUnder(fs1, fs3, s)
  {
  }

  // ---------------------------------------------------------------- what the primitives change

  /** `fs2` differs from `fs1` only at `c` and the directories above it. */
  ghost predicate SameOffPath(fs1: Fs, fs2: Fs, c: Path) {
    fs1.faults == fs2.faults
    && (forall k :: !(k <= c) ==> (k in fs1.nodes <==> k in fs2.nodes))
    && (forall k :: !(k <= c) && k in fs1.nodes ==> fs2.nodes[k] == fs1.nodes[k])
  }

  lemma OffPathOutside(fs1: Fs, fs2: Fs, c: Path)
    requires SameOffPath(fs1, fs2, c)
    ensures SameOutside(fs1, fs2, c)
  {
  }

  lemma AddEntryFrame(fs: Fs, c: Path, node: Node)
    requires c != [] && IsDirAt(fs, Parent(c))
    ensures SameOffPath(fs, AddEntry(fs, c, node), c)
  {
    assert Parent(c) <= c;
  }

  lemma {:induction false} MkdirPathFrame(fs: Fs, c: Path, mode: nat, p: string)
    requires MkdirPath(fs, c, mode, p).Ok?
    ensures SameOffPath(fs, MkdirPath(fs, c, mode, p).value, c)
    decreases |c|
  {
    if c !in fs.nodes {
      var fs1 := MkdirPath(fs, Parent(c), mode, p).value;
      MkdirPathFrame(fs, Parent(c), mode, p);
      AddEntryFrame(fs1, c, Dir(mode, []));
      assert Parent(c) <= c;
    }
  }

  lemma MkdirAllFrame(fs: Fs, p: string, mode: nat)
    requires MkdirAll(fs, p, mode).Ok?
    ensures Resolve(p).Some? && SameOutside(fs, MkdirAll(fs, p, mode).value, Resolve(p).value)
  {
    MkdirPathFrame(fs, Resolve(p).value, mode, p);
    OffPathOutside(fs, MkdirAll(fs, p, mode).value, Resolve(p).value);
  }

  lemma SymlinkFrame(fs: Fs, target: string, p: string)
    requires MakeSymlink(fs, target, p).Ok?
    ensures Resolve(p).Some? && SameOutside(fs, MakeSymlink(fs, target, p).value, Resolve(p).value)
  {
    AddEntryFrame(fs, Resolve(p).value, Symlink(target));
    OffPathOutside(fs, MakeSymlink(fs, target, p).value, Resolve(p).value);
  }

  lemma CreateFrame(fs: Fs, p: string)
    requires Create(fs, p).Ok?
    ensures Resolve(p).Some? && SameOutside(fs, Create(fs, p).value, Resolve(p).value)
  {
    var c := Resolve(p).value;
    if c !in fs.nodes {
      AddEntryFrame(fs, c, File([], CreateMode));
      OffPathOutside(fs, Create(fs, p).value, c);
    }
  }

  lemma ChmodFrame(fs: Fs, p: string, mode: nat)
    requires Chmod(fs, p, mode).Ok?
    ensures Resolve(p).Some? && SameOutside(fs, Chmod(fs, p, mode).value, Resolve(p).value)
  {
  }

  lemma WriteFrame(fs: Fs, p: string, chunk: seq<byte>)
    requires Write(fs, p, chunk).Ok?
    ensures Resolve(p).Some? && SameOutside(fs, Write(fs, p, chunk).value, Resolve(p).value)
  {
  }

  /** After a successful `RemoveAll(p)` nothing is left under `p`, and only `p`'s tree and the
      list of its parent have changed. */
  lemma RemoveAllEffect(fs: Fs, p: string)
    requires RemoveAll(fs, p).err.None?
    ensures Resolve(p).Some?
    ensures var c, r := Resolve(p).value, RemoveAll(fs, p).fs;
      r.faults == fs.faults
      && c !in r.nodes
      && (c in fs.nodes ==> forall k :: c <= k ==> k !in r.nodes)
      && (forall k :: !(c <= k) && k in fs.nodes && (c == [] || k != Parent(c)) ==> k in r.nodes && r.nodes[k] == fs.nodes[k])
      && (forall k :: k in r.nodes ==> k in fs.nodes)
  {
  }

  /** `fs2` is `fs1` with some nodes of the tree at `c` removed: nothing else changed, and what
      is left of the tree is as it was but for the lists of its directories. */
  ghost predicate PartlyRemoved(fs1: Fs, fs2: Fs, c: Path) {
    fs1.faults == fs2.faults
    && (forall k :: k in fs2.nodes ==> k in fs1.nodes)
    && (forall k :: !(c <= k) && k in fs1.nodes ==> k in fs2.nodes && fs2.nodes[k] == fs1.nodes[k])
    && (forall k :: k in fs2.nodes && !fs1.nodes[k].Dir? ==> fs2.nodes[k] == fs1.nodes[k])
  }

  /** A failed `RemoveAll(p)` has removed, of the tree at `p`, exactly the nodes that are not on
      the way to a node with a removal fault; those are left, `p` among them, and nothing
      outside the tree has changed. */
  lemma RemoveAllPartial(fs: Fs, p: string)
    requires RemoveAll(fs, p).err.Some?
    ensures var r := RemoveAll(fs, p).fs;
      r == fs
      || (Resolve(p).Some? && Resolve(p).value in r.nodes && PartlyRemoved(fs, r, Resolve(p).value)
          && forall k :: Resolve(p).value <= k && k in fs.nodes ==> (k in r.nodes <==> Pinned(fs, Resolve(p).value, k)))
  {
  }

  /** `RemoveAll` of an existing path other than the root fails exactly when a node of its tree
      has a removal fault. */
  lemma RemoveAllFails(fs: Fs, p: string)
    requires Resolve(p).Some? && Resolve(p).value in fs.nodes && Resolve(p).value != []
    ensures RemoveAll(fs, p).err.Some? <==>
      exists f :: f in fs.faults && f.prim == PRemove && Resolve(f.path).Some?
        && Resolve(p).value <= Resolve(f.path).value && Resolve(f.path).value in fs.nodes
  {
    var c := Resolve(p).value;
    if exists f :: f in fs.faults && f.prim == PRemove && Resolve(f.path).Some? && c <= Resolve(f.path).value && Resolve(f.path).value in fs.nodes {
      assert Pinned(fs, c, c);
    }
  }

  /** The keys of `Moved(nodes, o, n)`: exactly the rebased keys under `o`. */
  lemma MovedKeys(nodes: map<Path, Node>, o: Path, n: Path)
    ensures forall k :: o <= k && k in nodes ==> n + k[|o|..] in Moved(nodes, o, n) && Moved(nodes, o, n)[n + k[|o|..]] == nodes[k]
    ensures forall k :: k in Moved(nodes, o, n) ==> n <= k
  {
    RebaseInjective(o, n);
  }

  lemma RelocateEffect(nodes: map<Path, Node>, o: Path, n: Path)
    requires o != [] && n != []
    ensures forall k :: o <= k && k in nodes ==> n + k[|o|..] in Relocate(nodes, o, n) && Relocate(nodes, o, n)[n + k[|o|..]] == nodes[k]
    ensures forall k :: !(o <= k) && !(n <= k) && k != Parent(o) && k != Parent(n) && k in nodes ==>
      k in Relocate(nodes, o, n) && Relocate(nodes, o, n)[k] == nodes[k]
  {
    MovedKeys(nodes, o, n);
    forall k | o <= k && k in nodes
      ensures n + k[|o|..] != Parent(n)
    {
      assert |n + k[|o|..]| >= |n| > |Parent(n)|;
    }
  }

  /** After a successful `Rename(from, to)` between different paths, the tree that was at `from`
      is at `to` and nothing is left at `from`; nothing changed away from the two trees and the
      two parent lists. */
  lemma RenameEffect(fs: Fs, from: string, to: string)
    requires Rename(fs, from, to).Ok? && Resolve(from) != Resolve(to)
    ensures Resolve(from).Some? && Resolve(to).Some? && Resolve(from).value != [] && Resolve(to).value != []
    ensures Disjoint(Resolve(from).value, Resolve(to).value)
    ensures var o, n, r := Resolve(from).value, Resolve(to).value, Rename(fs, from, to).value;
      r.faults == fs.faults
      && (forall k :: o <= k && k in fs.nodes ==> n + k[|o|..] in r.nodes && r.nodes[n + k[|o|..]] == fs.nodes[k])
      && (forall k :: o <= k ==> k !in r.nodes)
      && (forall k :: n <= k && k in r.nodes ==> o + k[|n|..] in fs.nodes)
      && (forall k :: !(o <= k) && !(n <= k) && k != Parent(o) && k != Parent(n) && k in fs.nodes ==>
            k in r.nodes && r.nodes[k] == fs.nodes[k])
  {
    var o, n := Resolve(from).value, Resolve(to).value;
    RelocateEffect(fs.nodes, o, n);
    RelocateKeys(fs.nodes, o, n);
  }

  /** The keys `Relocate` leaves: the old keys outside both trees, and the rebased ones. */
  lemma RelocateDomain(nodes: map<Path, Node>, o: Path, n: Path)
    requires o != [] && n != []
    ensures forall k :: k in Relocate(nodes, o, n) <==> (k in nodes && !(o <= k) && !(n <= k)) || k in Moved(nodes, o, n)
  {
  }

  /** What `Relocate` leaves under the two paths: nothing under `o`, and under `n` only the
      rebased nodes of `o`'s tree. */
  lemma RelocateKeys(nodes: map<Path, Node>, o: Path, n: Path)
    requires o != [] && n != [] && Disjoint(o, n)
    ensures forall k :: o <= k ==> k !in Relocate(nodes, o, n)
    ensures forall k :: n <= k && k in Relocate(nodes, o, n) ==> o + k[|n|..] in nodes
  {
    RelocateDomain(nodes, o, n);
    MovedKeys(nodes, o, n);
    forall k | o <= k
      ensures k !in Moved(nodes, o, n)
    {
      if k in Moved(nodes, o, n) {
        PrefixComparable(o, n, k);
      }
    }
    forall k | n <= k && k in Moved(nodes, o, n)
      ensures o + k[|n|..] in nodes
    {
      MovedOrigin(nodes, o, n, k);
    }
  }

  lemma MovedOrigin(nodes: map<Path, Node>, o: Path, n: Path, k: Path)
    requires k in Moved(nodes, o, n)
    ensures o + k[|n|..] in nodes
  {
    var k0 :| k0 in nodes && o <= k0 && k == n + k0[|o|..];
    assert k[|n|..] == k0[|o|..];
    assert o + k0[|o|..] == k0;
  }
}
