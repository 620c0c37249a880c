/** Directory listing and the sort order of the file list (internal/fileops/list.go). The operating
    system is replaced by the values it would have returned: the absolute form of the path, the
    entries `ReadDir` produced, and for each entry its `Info()` and `Readlink` outcomes. */
module Listing {

  import opened Wrappers
  import opened Models
  import GoStrings
  import GoPaths

  /** A Unix hidden name: non-empty and starting with a dot. */
  predicate IsHidden(name: string) {
    |name| > 0 && name[0] == '.'
  }

  // ---------------------------------------------------------------- listing

  /** What `Lstat`/`DirEntry.Info` reports about one entry. */
  datatype Stat = Stat(size: int, mode: nat, modTime: int)

  /** One entry of `os.ReadDir`: its name, its `Info()` (None when that failed) and the result
      of reading it as a link (None when `Readlink` failed). */
  datatype DirEntry = DirEntry(name: string, info: Option<Stat>, linkTarget: Option<string>)

  /** The outcome of `os.ReadDir` on the absolute path. */
  datatype ReadDirResult = Entries(entries: seq<DirEntry>) | PermissionError | NotExistError | OtherError

  /** The errors of list.go, one per message: "path cannot be empty", "invalid path",
      "permission denied", "directory does not exist", "cannot read directory", and for
      `GetFileInfo` "file does not exist" and "cannot access file". */
  datatype ListError =
    EmptyPath | InvalidPath | PermissionDenied | DirectoryMissing | CannotRead | FileMissing | CannotAccess

  /** The `FileInfo` built for an entry whose `Info()` succeeded. */
  function EntryInfo(path: string, name: string, st: Stat, linkTarget: Option<string>): (f: FileInfo)
    ensures f.Name == name && f.Size == st.size && f.Permissions == st.mode && f.ModTime == st.modTime
    ensures f.IsDir <==> HasModeBit(st.mode, ModeDirBit)
    ensures f.IsSymlink <==> HasModeBit(st.mode, ModeSymlinkBit)
    ensures f.SymlinkTarget != "" ==> f.IsSymlink && linkTarget == Some(f.SymlinkTarget)
  {
    var link := HasModeBit(st.mode, ModeSymlinkBit);
    FileInfo(
      Name := name,
      Path := path,
      Size := st.size,
      IsDir := HasModeBit(st.mode, ModeDirBit),
      IsSymlink := link,
      SymlinkTarget := if link && linkTarget.Some? then linkTarget.value else "",
      Permissions := st.mode,
      ModTime := st.modTime,
      IsHidden := IsHidden(name),
      MimeType := "")
  }

  /** Whether an entry survives the loop of `ListDirectory`: it can be stat'ed and is shown. */
  predicate Kept(e: DirEntry, showHidden: bool) {
    e.info.Some? && (showHidden || !IsHidden(e.name))
  }

  function Convert(absPath: string, e: DirEntry): FileInfo
    requires e.info.Some?
  {
    EntryInfo(GoPaths.Join(absPath, e.name), e.name, e.info.value, e.linkTarget)
  }

  /** The list the loop of `ListDirectory` builds from a prefix of the entries. */
  function Listed(entries: seq<DirEntry>, absPath: string, showHidden: bool): seq<FileInfo>
    decreases |entries|
  {
    if entries == [] then []
    else
      var rest := Listed(entries[..|entries| - 1], absPath, showHidden);
      var e := entries[|entries| - 1];
      if Kept(e, showHidden) then rest + [Convert(absPath, e)] else rest
  }

  /** A file is listed exactly when it comes from a kept entry, and then it carries the hidden
      flag of its name and the path `Join(absPath, name)`; with hidden files off, none is hidden. */
  lemma {:induction false} ListedExactly(entries: seq<DirEntry>, absPath: string, showHidden: bool, f: FileInfo)
    ensures f in Listed(entries, absPath, showHidden) <==>
      exists e :: e in entries && Kept(e, showHidden) && f == Convert(absPath, e)
    ensures f in Listed(entries, absPath, showHidden) ==>
      f.IsHidden == IsHidden(f.Name) && f.Path == GoPaths.Join(absPath, f.Name) && (showHidden || !f.IsHidden)
    decreases |entries|
  {
    if entries != [] {
      var init := entries[..|entries| - 1];
      var e := entries[|entries| - 1];
      assert entries == init + [e];
      ListedExactly(init, absPath, showHidden, f);
      if ex :| ex in entries && Kept(ex, showHidden) && f == Convert(absPath, ex) {
        if ex != e { assert ex in init; }
      }
    }
  }

  /** Never more files than entries, and one file per entry when every entry is kept. */
  lemma {:induction false} ListedLength(entries: seq<DirEntry>, absPath: string, showHidden: bool)
    ensures |Listed(entries, absPath, showHidden)| <= |entries|
    ensures (forall i :: 0 <= i < |entries| ==> Kept(entries[i], showHidden)) ==>
      |Listed(entries, absPath, showHidden)| == |entries|
    decreases |entries|
  {
    if entries != [] {
      ListedLength(entries[..|entries| - 1], absPath, showHidden);
    }
  }

  /** `ListDirectory(path, showHidden)`, given `filepath.Abs(path)` and `os.ReadDir` of it. */
  method ListDirectory(path: string, showHidden: bool, absPath: Option<string>, dir: ReadDirResult)
    returns (r: Result<seq<FileInfo>, ListError>)
    ensures path == "" <==> r == Err(EmptyPath)
    ensures path != "" && absPath.None? ==> r == Err(InvalidPath)
    ensures path != "" && absPath.Some? ==>
      match dir
      case PermissionError => r == Err(PermissionDenied)
      case NotExistError => r == Err(DirectoryMissing)
      case OtherError => r == Err(CannotRead)
      case Entries(es) => r == Ok(Listed(es, absPath.value, showHidden))
  {
    if path == "" {
      return Err(EmptyPath);
    }
    if absPath.None? {
      return Err(InvalidPath);
    }
    var abs := absPath.value;
    match dir {
      case PermissionError => return Err(PermissionDenied);
      case NotExistError => return Err(DirectoryMissing);
      case OtherError => return Err(CannotRead);
      case Entries(entries) =>
        var files: seq<FileInfo> := [];
        var i := 0;
        while i < |entries|
          invariant 0 <= i <= |entries|
          invariant files == Listed(entries[..i], abs, showHidden)
        {
          var e := entries[i];
          assert entries[..i + 1][..i] == entries[..i];
          if e.info.Some? {
            var hidden := IsHidden(e.name);
            if !(hidden && !showHidden) {
              files := files + [EntryInfo(GoPaths.Join(abs, e.name), e.name, e.info.value, e.linkTarget)];
            }
          }
          i := i + 1;
        }
        assert entries[..i] == entries;
        return Ok(files);
    }
  }

  /** The outcome of `os.Lstat` on the path given to `GetFileInfo`. */
  datatype LstatResult = Found(st: Stat) | LstatNotExist | LstatPermission | LstatOther

  /** `GetFileInfo(path)`: the name and hidden flag come from `filepath.Base(path)`, and the path
      is its absolute form, or the path itself when `filepath.Abs` fails. */
  function GetFileInfo(path: string, lstat: LstatResult, absPath: Option<string>, linkTarget: Option<string>)
    : (r: Result<FileInfo, ListError>)
    ensures path == "" ==> r == Err(EmptyPath)
    ensures path != "" ==> (r.Ok? <==> lstat.Found?)
    ensures path != "" && lstat == LstatNotExist ==> r == Err(FileMissing)
    ensures path != "" && lstat == LstatPermission ==> r == Err(PermissionDenied)
    ensures path != "" && lstat == LstatOther ==> r == Err(CannotAccess)
    ensures r.Ok? ==> r.value.Name == GoPaths.Base(path) && r.value.IsHidden == IsHidden(GoPaths.Base(path))
    ensures r.Ok? ==> r.value.Path == (if absPath.Some? then absPath.value else path)
    ensures r.Ok? ==> r.value.Size == lstat.st.size && r.value.IsDir == HasModeBit(lstat.st.mode, ModeDirBit)
  {
    if path == "" then Err(EmptyPath)
    else match lstat
      case LstatNotExist => Err(FileMissing)
      case LstatPermission => Err(PermissionDenied)
      case LstatOther => Err(CannotAccess)
      case Found(st) =>
        var p := if absPath.Some? then absPath.value else path;
        Ok(EntryInfo(p, GoPaths.Base(path), st, linkTarget))
  }

  // ---------------------------------------------------------------- sorting

  function NameKey(f: FileInfo): string {
    GoStrings.ToLower(f.Name)
  }

  /** The comparison the sort closure makes between two entries of the same kind, before the
      descending flip. Name mode and every mode outside the four constants compare lower-cased
      names; extension mode compares `filepath.Ext` and breaks ties by lower-cased name. */
  predicate KeyLess(x: FileInfo, y: FileInfo, mode: int) {
    if mode == SortBySize then x.Size < y.Size
    else if mode == SortByModTime then x.ModTime < y.ModTime
    else if mode == SortByExtension then
      var ex, ey := GoPaths.Ext(x.Name), GoPaths.Ext(y.Name);
      if ex == ey then GoStrings.Less(NameKey(x), NameKey(y)) else GoStrings.Less(ex, ey)
    else GoStrings.Less(NameKey(x), NameKey(y))
  }

  /** The closure `SortFiles` hands to `sort.Slice`: directories first, then the key comparison,
      negated as a whole for descending order. */
  predicate SortLess(x: FileInfo, y: FileInfo, mode: int, order: int) {
    if x.IsDir != y.IsDir then x.IsDir
    else if order == SortDescending then !KeyLess(x, y, mode)
    else KeyLess(x, y, mode)
  }

  /** `x` may stand before `y` in the result: directories before files, and within one kind
      non-decreasing keys, or non-increasing ones in descending order. */
  predicate InOrder(x: FileInfo, y: FileInfo, mode: int, order: int) {
    if x.IsDir != y.IsDir then x.IsDir
    else if order == SortDescending then !KeyLess(x, y, mode)
    else !KeyLess(y, x, mode)
  }

  predicate Sorted(s: seq<FileInfo>, mode: int, order: int) {
    forall i, j :: 0 <= i < j < |s| ==> InOrder(s[i], s[j], mode, order)
  }

  lemma StringNotLessTransitive(a: string, b: string, c: string)
    requires !GoStrings.Less(b, a) && !GoStrings.Less(c, b)
    ensures !GoStrings.Less(c, a)
  {
    if a != b && b != c {
      GoStrings.LessTotal(a, b);
      GoStrings.LessTotal(b, c);
      GoStrings.LessTransitive(a, b, c);
      GoStrings.LessAsymmetric(a, c);
    }
  }

  lemma KeyLessAsymmetric(x: FileInfo, y: FileInfo, mode: int)
    requires KeyLess(x, y, mode)
    ensures !KeyLess(y, x, mode)
  {
    if mode != SortBySize && mode != SortByModTime {
      if mode == SortByExtension && GoPaths.Ext(x.Name) != GoPaths.Ext(y.Name) {
        GoStrings.LessAsymmetric(GoPaths.Ext(x.Name), GoPaths.Ext(y.Name));
      } else {
        GoStrings.LessAsymmetric(NameKey(x), NameKey(y));
      }
    }
  }

  /** "Not less" is transitive: the keys form a total preorder. */
  lemma KeyNotLessTransitive(x: FileInfo, y: FileInfo, z: FileInfo, mode: int)
    requires !KeyLess(y, x, mode) && !KeyLess(z, y, mode)
    ensures !KeyLess(z, x, mode)
  {
    var nx, ny, nz := NameKey(x), NameKey(y), NameKey(z);
    if mode == SortByExtension {
      var ex, ey, ez := GoPaths.Ext(x.Name), GoPaths.Ext(y.Name), GoPaths.Ext(z.Name);
      if ex == ey && ey == ez {
        StringNotLessTransitive(nx, ny, nz);
      } else if ex == ey {
        GoStrings.LessTotal(ey, ez);
        GoStrings.LessAsymmetric(ex, ez);
      } else if ey == ez {
        GoStrings.LessTotal(ex, ey);
        GoStrings.LessAsymmetric(ex, ez);
      } else {
        GoStrings.LessTotal(ex, ey);
        GoStrings.LessTotal(ey, ez);
        GoStrings.LessTransitive(ex, ey, ez);
        GoStrings.LessAsymmetric(ex, ez);
      }
    } else if mode != SortBySize && mode != SortByModTime {
      StringNotLessTransitive(nx, ny, nz);
    }
  }

  lemma InOrderTransitive(x: FileInfo, y: FileInfo, z: FileInfo, mode: int, order: int)
    requires InOrder(x, y, mode, order) && InOrder(y, z, mode, order)
    ensures InOrder(x, z, mode, order)
  {
    if x.IsDir == y.IsDir && y.IsDir == z.IsDir {
      if order == SortDescending {
        KeyNotLessTransitive(z, y, x, mode);
      } else {
        KeyNotLessTransitive(x, y, z, mode);
      }
    }
  }

  /** The closure's answer fixes an admissible order both ways: when it says `x` first, `x` may
      precede `y`; when it does not, `y` may precede `x`. */
  lemma SortLessInOrder(x: FileInfo, y: FileInfo, mode: int, order: int)
    ensures SortLess(x, y, mode, order) ==> InOrder(x, y, mode, order)
    ensures !SortLess(x, y, mode, order) ==> InOrder(y, x, mode, order)
  {
    if x.IsDir == y.IsDir {
      if KeyLess(x, y, mode) { KeyLessAsymmetric(x, y, mode); }
    }
  }

  /** In a sorted list every directory comes before every file, in both orders. */
  lemma {:induction false} SortedDirsFirst(s: seq<FileInfo>, mode: int, order: int, i: int, j: int)
    requires Sorted(s, mode, order) && 0 <= i < j < |s| && s[j].IsDir
    ensures s[i].IsDir
  {
    assert InOrder(s[i], s[j], mode, order);
  }

  /** `SortFiles(files, sortBy, order)`: sorts the slice in place with the closure `SortLess`. */
  method SortFiles(a: array<FileInfo>, mode: int, order: int)
    modifies a
    ensures multiset(a[..]) == multiset(old(a[..]))
    ensures Sorted(a[..], mode, order)
  {
    forall x, y
      ensures SortLess(x, y, mode, order) ==> InOrder(x, y, mode, order)
      ensures !SortLess(x, y, mode, order) ==> InOrder(y, x, mode, order)
    {
      SortLessInOrder(x, y, mode, order);
    }
    forall x, y, z | InOrder(x, y, mode, order) && InOrder(y, z, mode, order)
      ensures InOrder(x, z, mode, order)
    {
      InOrderTransitive(x, y, z, mode, order);
    }
    SortSlice(a, (x, y) => SortLess(x, y, mode, order), (x, y) => InOrder(x, y, mode, order));
  }

  /** Go's `sort.Slice(a, less)`. The library is not stable and its algorithm is not part of
      its contract; this is an insertion sort driven by the same closure. What is proved is what
      any correct sort guarantees when `less` decides a total preorder `ord` (saying "first" only
      where `ord` allows it, and "not first" only where `ord` allows the other way round): the
      result is a permutation of the input that is ordered by `ord`. */
  method SortSlice<T(!new)>(a: array<T>, less: (T, T) -> bool, ord: (T, T) -> bool)
    requires forall x, y {:trigger less(x, y)} :: less(x, y) ==> ord(x, y)
    requires forall x, y {:trigger less(x, y)} :: !less(x, y) ==> ord(y, x)
    requires forall x, y, z :: ord(x, y) && ord(y, z) ==> ord(x, z)
    modifies a
    ensures multiset(a[..]) == multiset(old(a[..]))
    ensures forall p, q :: 0 <= p < q < a.Length ==> ord(a[p], a[q])
  {
    if a.Length == 0 { return; }
    var i := 1;
    while i < a.Length
      invariant 1 <= i <= a.Length
      invariant multiset(a[..]) == multiset(old(a[..]))
      invariant forall p, q :: 0 <= p < q < i ==> ord(a[p], a[q])
    {
      var j := InsertNext(a, i, less, ord);
      InsertedInOrder(a[..], j, i, ord);
      i := i + 1;
    }
  }

  /** One pass of the insertion sort: moves `a[i]` left past the elements of the ordered prefix
      `a[..i]` that `less` puts after it, and returns where it stopped. */
  method InsertNext<T(!new)>(a: array<T>, i: nat, less: (T, T) -> bool, ord: (T, T) -> bool)
    returns (j: nat)
    requires i < a.Length
    requires forall x, y {:trigger less(x, y)} :: less(x, y) ==> ord(x, y)
    requires forall x, y {:trigger less(x, y)} :: !less(x, y) ==> ord(y, x)
    requires forall p, q :: 0 <= p < q < i ==> ord(a[p], a[q])
    modifies a
    ensures j <= i
    ensures multiset(a[..]) == multiset(old(a[..]))
    ensures Passing(a[..], j, i, ord)
    ensures j > 0 ==> ord(a[j - 1], a[j])
  {
    j := i;
    while j > 0 && less(a[j], a[j - 1])
      invariant 0 <= j <= i
      invariant multiset(a[..]) == multiset(old(a[..]))
      invariant Passing(a[..], j, i, ord)
    {
      ghost var s := a[..];
      a[j - 1], a[j] := a[j], a[j - 1];
      assert a[..] == s[j - 1 := s[j]][j := s[j - 1]];
      PassingStep(s, j, i, ord);
      j := j - 1;
    }
  }

  /** The state of a pass: `s[..i + 1]` is ordered once its element at `j` is left out, and that
      element may stand before everything after it. */
  ghost predicate Passing<T(!new)>(s: seq<T>, j: nat, i: nat, ord: (T, T) -> bool)
    requires j <= i < |s|
  {
    (forall p, q :: 0 <= p < q <= i && q != j && p != j ==> ord(s[p], s[q]))
    && (forall q :: j < q <= i ==> ord(s[j], s[q]))
  }

  lemma PassingStep<T(!new)>(s: seq<T>, j: nat, i: nat, ord: (T, T) -> bool)
    requires 0 < j <= i < |s| && Passing(s, j, i, ord) && ord(s[j], s[j - 1])
    ensures Passing(s[j - 1 := s[j]][j := s[j - 1]], j - 1, i, ord)
  {
  }

  /** After a pass, the prefix up to `i` is ordered: the moved element fits between its
      neighbours, and `ord` is transitive. */
  lemma InsertedInOrder<T(!new)>(s: seq<T>, j: nat, i: nat, ord: (T, T) -> bool)
    requires j <= i < |s|
    requires forall x, y, z :: ord(x, y) && ord(y, z) ==> ord(x, z)
    requires Passing(s, j, i, ord)
    requires j > 0 ==> ord(s[j - 1], s[j])
    ensures forall p, q :: 0 <= p < q <= i ==> ord(s[p], s[q])
  {
    if j > 0 {
      assert forall p :: 0 <= p < j - 1 ==> ord(s[p], s[j - 1]);
    }
  }
}
