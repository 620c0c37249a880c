/** The shared value types of the file manager: one entry of a directory listing and the two
    sort settings. Go's `SortBy` and `SortOrder` are plain integers, so values outside the named
    constants can reach the code that switches on them; they stay integers here. */
module Models {

  /** One file or directory as the rest of the program sees it. `ModTime` is a logical
      timestamp and `Permissions` the raw Go file-mode word. */
  datatype FileInfo = FileInfo(
    Name: string,
    Path: string,
    Size: int,
    IsDir: bool,
    IsSymlink: bool,
    SymlinkTarget: string,
    Permissions: nat,
    ModTime: int,
    IsHidden: bool,
    MimeType: string)

  const SortByName: int := 0
  const SortBySize: int := 1
  const SortByModTime: int := 2
  const SortByExtension: int := 3

  const SortAscending: int := 0
  const SortDescending: int := 1

  /** Go's `os.ModeDir` and `os.ModeSymlink` bits of a file-mode word. */
  const ModeDirBit: nat := 0x8000_0000
  const ModeSymlinkBit: nat := 0x800_0000

  predicate HasModeBit(mode: nat, bit: nat)
    requires bit > 0
  {
    (mode / bit) % 2 == 1
  }
}
