/** The state of the file list widget (internal/ui/fileview.go): the listed files, the directory
    they come from, the selected row and the listing options. The GTK list store, column view
    and selection model are not modelled; the disk is a parameter that answers, for each path,
    what `filepath.Abs` and `os.ReadDir` give. */
module UI {

  import opened Wrappers
  import opened Models
  import Listing
  import FileUtils

  /** What the disk gives for one directory path. */
  datatype DirState = DirState(absPath: Option<string>, read: Listing.ReadDirResult)

  type Disk = string -> DirState

  datatype ViewError = LoadFailed(cause: Listing.ListError) | NoFileSelected | NotADirectory

  /** Whether `ListDirectory` succeeds on `path`. */
  predicate Listable(path: string, d: DirState) {
    path != "" && d.absPath.Some? && d.read.Entries?
  }

  /** The unsorted listing `ListDirectory` returns when it succeeds. */
  function ListingOf(d: DirState, showHidden: bool): seq<FileInfo>
    requires d.absPath.Some? && d.read.Entries?
  {
    Listing.Listed(d.read.entries, d.absPath.value, showHidden)
  }

  /** The named sort modes, in the order `CycleSortMode` visits them. */
  predicate IsSortMode(m: int) {
    m == SortByName || m == SortBySize || m == SortByModTime || m == SortByExtension
  }

  /** The mode after `m` in `CycleSortMode`; an unknown mode goes back to Name. */
  function NextSortMode(m: int): (r: int)
    ensures IsSortMode(r)
    ensures !IsSortMode(m) ==> r == SortByName
  {
    if m == SortByName then SortBySize
    else if m == SortBySize then SortByModTime
    else if m == SortByModTime then SortByExtension
    else SortByName
  }

  /** Cycling from any named mode visits the four modes, each once, and comes back. */
  lemma SortModeCycle(m: int)
    requires IsSortMode(m)
    ensures var m1 := NextSortMode(m); var m2 := NextSortMode(m1); var m3 := NextSortMode(m2);
      && NextSortMode(m3) == m
      && m != m1 && m != m2 && m != m3 && m1 != m2 && m1 != m3 && m2 != m3
  {
  }

  /** The order after `ToggleSortOrder`: Descending after Ascending, Ascending otherwise. */
  function FlipOrder(o: int): (r: int)
    ensures r == SortAscending || r == SortDescending
    ensures r == SortDescending <==> o == SortAscending
  {
    if o == SortAscending then SortDescending else SortAscending
  }

  /** Toggling twice restores a named order. */
  lemma FlipOrderTwice(o: int)
    requires o == SortAscending || o == SortDescending
    ensures FlipOrder(FlipOrder(o)) == o
  {
  }

  class FileView {
    var currentPath: string
    var selectedIndex: int
    var files: seq<FileInfo>
    var showHidden: bool
    var sortMode: int
    var sortOrder: int

    /** The selection is a row of the list, or -1 for none. */
    ghost predicate Valid()
      reads this
    {
      -1 <= selectedIndex < |files|
    }

    /** `NewFileView`. */
    constructor ()
      ensures Valid()
      ensures selectedIndex == -1 && !showHidden && files == [] && currentPath == ""
      ensures sortMode == SortByName && sortOrder == SortAscending
    {
      currentPath := "";
      selectedIndex := -1;
      files := [];
      showHidden := false;
      sortMode := SortByName;
      sortOrder := SortAscending;
    }

    /** `GetSelected`: the selected file, or nothing when the index is not a row. */
    function Selected(): (r: Option<FileInfo>)
      reads this
      ensures r.None? <==> selectedIndex < 0 || selectedIndex >= |files|
      ensures r.Some? ==> r.value == files[selectedIndex]
    {
      if selectedIndex < 0 || selectedIndex >= |files| then None else Some(files[selectedIndex])
    }

    /** `GetSelectedPath`: the selected file's path, or "". */
    function SelectedPath(): (r: string)
      reads this
      ensures Selected().None? ==> r == ""
      ensures Selected().Some? ==> r == Selected().value.Path
    {
      if selectedIndex < 0 || selectedIndex >= |files| then "" else files[selectedIndex].Path
    }

    /** Every field as it was. */
    twostate predicate Untouched()
      reads this
    {
      && files == old(files) && currentPath == old(currentPath) && selectedIndex == old(selectedIndex)
      && showHidden == old(showHidden) && sortMode == old(sortMode) && sortOrder == old(sortOrder)
    }

    /** What a `LoadDirectory(path)` that ends in the current state did, with the options it
        found: on success the sorted listing, the new path and the first row selected (none when
        the list is empty); on failure the error, and files, path and selection as before. */
    twostate predicate LoadedFrom(path: string, disk: Disk, new err: Option<ViewError>)
      reads this
    {
      if Listable(path, disk(path)) then
        && err.None?
        && currentPath == path
        && multiset(files) == multiset(ListingOf(disk(path), showHidden))
        && Listing.Sorted(files, sortMode, sortOrder)
        && selectedIndex == (if |files| > 0 then 0 else -1)
      else
        && err.Some? && err.value.LoadFailed?
        && files == old(files) && currentPath == old(currentPath)
        && selectedIndex == old(selectedIndex)
    }

    /** `LoadDirectory(path)`. */
    method LoadDirectory(path: string, disk: Disk) returns (err: Option<ViewError>)
      requires Valid()
      modifies this
      ensures Valid()
      ensures LoadedFrom(path, disk, err)
      ensures showHidden == old(showHidden) && sortMode == old(sortMode) && sortOrder == old(sortOrder)
    {
      var d := disk(path);
      var listed := Listing.ListDirectory(path, showHidden, d.absPath, d.read);
      if listed.Err? {
        return Some(LoadFailed(listed.error));
      }
      var a := new FileInfo[|listed.value|](i requires 0 <= i < |listed.value| => listed.value[i]);
      assert a[..] == listed.value;
      Listing.SortFiles(a, sortMode, sortOrder);
      files := a[..];
      currentPath := path;
      selectedIndex := -1;
      if |files| > 0 {
        SelectIndex(0);
      }
      return None;
    }

    /** `SelectIndex`: an index outside the list is ignored. */
    method SelectIndex(index: int)
      requires Valid()
      modifies this
      ensures Valid()
      ensures selectedIndex == if 0 <= index < |files| then index else old(selectedIndex)
      ensures files == old(files) && currentPath == old(currentPath) && showHidden == old(showHidden)
      ensures sortMode == old(sortMode) && sortOrder == old(sortOrder)
    {
      if index < 0 || index >= |files| {
        return;
      }
      selectedIndex := index;
    }

    /** `SelectNext`: one row down, staying on the last row. */
    method SelectNext()
      requires Valid()
      modifies this
      ensures Valid()
      ensures selectedIndex == if old(selectedIndex) < |files| - 1 then old(selectedIndex) + 1 else old(selectedIndex)
      ensures files == old(files) && currentPath == old(currentPath) && showHidden == old(showHidden)
      ensures sortMode == old(sortMode) && sortOrder == old(sortOrder)
    {
      if selectedIndex < |files| - 1 {
        SelectIndex(selectedIndex + 1);
      }
    }

    /** `SelectPrevious`: one row up, staying on the first row (and on no row). */
    method SelectPrevious()
      requires Valid()
      modifies this
      ensures Valid()
      ensures selectedIndex == if old(selectedIndex) > 0 then old(selectedIndex) - 1 else old(selectedIndex)
      ensures old(selectedIndex) >= 0 ==> selectedIndex >= 0
      ensures files == old(files) && currentPath == old(currentPath) && showHidden == old(showHidden)
      ensures sortMode == old(sortMode) && sortOrder == old(sortOrder)
    {
      if selectedIndex > 0 {
        SelectIndex(selectedIndex - 1);
      }
    }

    /** `NavigateUp`: load the parent directory, unless the parent is the directory itself. */
    method NavigateUp(disk: Disk) returns (err: Option<ViewError>)
      requires Valid()
      modifies this
      ensures Valid()
      ensures showHidden == old(showHidden) && sortMode == old(sortMode) && sortOrder == old(sortOrder)
      ensures var parent := FileUtils.ParentDir(old(currentPath));
        if parent == old(currentPath) then
          err.None? && files == old(files) && currentPath == old(currentPath)
          && selectedIndex == old(selectedIndex)
        else LoadedFrom(parent, disk, err)
    {
      var parent := FileUtils.GetParentDir(currentPath);
      if parent == currentPath {
        return None;
      }
      err := LoadDirectory(parent, disk);
    }

    /** `NavigateInto`: load the selected directory; an error when nothing is selected or the
        selection is not a directory, and then nothing changes. */
    method NavigateInto(disk: Disk) returns (err: Option<ViewError>)
      requires Valid()
      modifies this
      ensures Valid()
      ensures showHidden == old(showHidden) && sortMode == old(sortMode) && sortOrder == old(sortOrder)
      ensures var sel := old(Selected());
        if sel.None? || !sel.value.IsDir then
          err == Some(if sel.None? then NoFileSelected else NotADirectory)
          && files == old(files) && currentPath == old(currentPath)
          && selectedIndex == old(selectedIndex)
        else LoadedFrom(sel.value.Path, disk, err)
    {
      var selected := Selected();
      if selected.None? {
        return Some(NoFileSelected);
      }
      if !selected.value.IsDir {
        return Some(NotADirectory);
      }
      err := LoadDirectory(selected.value.Path, disk);
    }

    /** `ToggleHidden`: the option flips whether or not the reload succeeds. */
    method ToggleHidden(disk: Disk) returns (err: Option<ViewError>)
      requires Valid()
      modifies this
      ensures Valid()
      ensures showHidden == !old(showHidden) && sortMode == old(sortMode) && sortOrder == old(sortOrder)
      ensures LoadedFrom(old(currentPath), disk, err)
    {
      showHidden := !showHidden;
      err := LoadDirectory(currentPath, disk);
    }

    /** `CycleSortMode`: the next mode, then a reload. */
    method CycleSortMode(disk: Disk) returns (err: Option<ViewError>)
      requires Valid()
      modifies this
      ensures Valid()
      ensures sortMode == NextSortMode(old(sortMode))
      ensures showHidden == old(showHidden) && sortOrder == old(sortOrder)
      ensures LoadedFrom(old(currentPath), disk, err)
    {
      sortMode := NextSortMode(sortMode);
      err := LoadDirectory(currentPath, disk);
    }

    /** `ToggleSortOrder`: the other order, then a reload. */
    method ToggleSortOrder(disk: Disk) returns (err: Option<ViewError>)
      requires Valid()
      modifies this
      ensures Valid()
      ensures sortOrder == FlipOrder(old(sortOrder))
      ensures showHidden == old(showHidden) && sortMode == old(sortMode)
      ensures LoadedFrom(old(currentPath), disk, err)
    {
      sortOrder := FlipOrder(sortOrder);
      err := LoadDirectory(currentPath, disk);
    }

    /** `SetSortMode`: both options are stored; nothing is reloaded. */
    method SetSortMode(mode: int, order: int)
      modifies this
      ensures sortMode == mode && sortOrder == order
      ensures files == old(files) && currentPath == old(currentPath)
      ensures selectedIndex == old(selectedIndex) && showHidden == old(showHidden)
    {
      sortMode := mode;
      sortOrder := order;
    }
  }
}
