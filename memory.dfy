/** `WorkspaceMemory` (internal/hyprland/memory.go): the directory last visited on each Hyprland
    workspace, and the file it is kept in. The JSON bytes are not modelled: the outcome of
    reading and decoding the file is given to `Load` as a value. The read-write mutex is not
    modelled. */
module Workspace {

  import opened Wrappers
  import GoPaths

  /** What reading and decoding the memory file gives: the read fails, the bytes are not valid
      JSON for the record, or the record's map, which JSON `null` (or a missing key) leaves nil. */
  datatype Stored = ReadFailed | Malformed | Decoded(dirs: Option<map<int, string>>)

  datatype LoadError = CannotRead | CannotDecode

  datatype MemoryError = NoHome | CannotCreateDir

  /** Go's map index: the remembered directory, or the zero value "" when there is none. */
  function Lookup(dirs: map<int, string>, id: int): (r: string)
    ensures r != "" ==> id in dirs && dirs[id] == r
    ensures id in dirs ==> r == dirs[id]
  {
    if id in dirs then dirs[id] else ""
  }

  const MemoryFile: string := "hyprland-memory.json"

  /** The directory `NewWorkspaceMemory` keeps its file in: the given one, or
      `home/.config/warren` when none is given and the home directory is known. */
  function MemoryDir(configDir: string, home: Option<string>): (r: Option<string>)
    ensures configDir != "" ==> r == Some(configDir)
    ensures configDir == "" ==> (r.None? <==> home.None?)
  {
    if configDir != "" then Some(configDir)
    else if home.None? then None
    else Some(GoPaths.Join(GoPaths.Join(home.value, ".config"), "warren"))
  }

  /** The default directory ends in `.config/warren` below the home directory. */
  lemma DefaultMemoryDir(home: string)
    requires home != "" && home[|home| - 1] != '/'
    ensures MemoryDir("", Some(home)) == Some(home + "/.config/warren")
  {
    var c := GoPaths.Join(home, ".config");
    assert c == home + "/.config";
    assert c[|c| - 1] == 'g';
    assert GoPaths.Join(c, "warren") == c + "/warren";
    assert c + "/warren" == home + "/.config/warren";
  }

  /** The memory file is always called `hyprland-memory.json`, inside the chosen directory. */
  lemma MemoryPathInDir(dir: string)
    requires dir != ""
    ensures var p := GoPaths.Join(dir, MemoryFile);
      GoPaths.Base(p) == MemoryFile && p[..|dir|] == dir
  {
    GoPaths.JoinBase(dir, MemoryFile);
  }

  class WorkspaceMemory {
    var workspaceDirs: map<int, string>
    var configPath: string

    constructor (configPath: string)
      ensures workspaceDirs == map[] && this.configPath == configPath
    {
      workspaceDirs := map[];
      this.configPath := configPath;
    }

    /** `Set`: remember `directory` for the workspace; no other workspace changes. */
    method Set(workspaceID: int, directory: string)
      modifies this
      ensures workspaceDirs == old(workspaceDirs)[workspaceID := directory]
      ensures Lookup(workspaceDirs, workspaceID) == directory
      ensures forall id :: id != workspaceID ==> Lookup(workspaceDirs, id) == Lookup(old(workspaceDirs), id)
      ensures configPath == old(configPath)
    {
      workspaceDirs := workspaceDirs[workspaceID := directory];
    }

    /** `Get`: the remembered directory, "" for a workspace never set. */
    method Get(workspaceID: int) returns (directory: string)
      ensures directory == Lookup(workspaceDirs, workspaceID)
      ensures workspaceID !in workspaceDirs ==> directory == ""
    {
      if workspaceID in workspaceDirs {
        directory := workspaceDirs[workspaceID];
      } else {
        directory := "";
      }
    }

    /** `Clear`: forget one workspace and no other. */
    method Clear(workspaceID: int)
      modifies this
      ensures workspaceDirs == old(workspaceDirs) - {workspaceID}
      ensures Lookup(workspaceDirs, workspaceID) == ""
      ensures forall id :: id != workspaceID ==> Lookup(workspaceDirs, id) == Lookup(old(workspaceDirs), id)
      ensures configPath == old(configPath)
    {
      workspaceDirs := workspaceDirs - {workspaceID};
    }

    /** `ClearAll`: a new empty map. */
    method ClearAll()
      modifies this
      ensures workspaceDirs == map[]
      ensures configPath == old(configPath)
    {
      workspaceDirs := map[];
    }

    /** `Load`: the decoded map replaces the current one, a nil map becoming an empty one; when
        the file cannot be read or decoded the error is returned and the map is kept. */
    method Load(stored: Stored) returns (err: Option<LoadError>)
      modifies this
      ensures stored == ReadFailed ==> err == Some(CannotRead) && workspaceDirs == old(workspaceDirs)
      ensures stored == Malformed ==> err == Some(CannotDecode) && workspaceDirs == old(workspaceDirs)
      ensures stored.Decoded? ==>
        err.None? && workspaceDirs == (if stored.dirs.Some? then stored.dirs.value else map[])
      ensures configPath == old(configPath)
    {
      match stored {
        case ReadFailed => return Some(CannotRead);
        case Malformed => return Some(CannotDecode);
        case Decoded(dirs) =>
          if dirs.Some? {
            workspaceDirs := dirs.value;
          } else {
            workspaceDirs := map[];
          }
          return None;
      }
    }

    /** `GetAll`: a map built entry by entry with the same contents. A Dafny map is a value,
        so changing the memory afterwards cannot change what was returned. */
    method GetAll() returns (r: map<int, string>)
      ensures r == workspaceDirs
    {
      var dirs := workspaceDirs;
      r := map[];
      var left := dirs.Keys;
      while exists id :: id in left
        invariant left <= dirs.Keys
        invariant r == map id | id in dirs && id !in left :: dirs[id]
        decreases |left|
      {
        var id :| id in left;
        r := r[id := dirs[id]];
        left := left - {id};
      }
    }
  }

  /** `NewWorkspaceMemory(configDir)`, given the home directory lookup, whether `MkdirAll` of the
      chosen directory fails, and what loading the memory file gives. A failed load is not an
      error: the memory then starts empty. */
  method NewWorkspaceMemory(configDir: string, home: Option<string>, mkdirFails: bool, stored: Stored)
    returns (r: Result<WorkspaceMemory, MemoryError>)
    ensures MemoryDir(configDir, home).None? ==> r == Err(NoHome)
    ensures MemoryDir(configDir, home).Some? && mkdirFails ==> r == Err(CannotCreateDir)
    ensures MemoryDir(configDir, home).Some? && !mkdirFails ==>
      && r.Ok? && fresh(r.value)
      && r.value.configPath == GoPaths.Join(MemoryDir(configDir, home).value, MemoryFile)
      && r.value.workspaceDirs == (if stored.Decoded? && stored.dirs.Some? then stored.dirs.value else map[])
  {
    var dir := MemoryDir(configDir, home);
    if dir.None? {
      return Err(NoHome);
    }
    if mkdirFails {
      return Err(CannotCreateDir);
    }
    var wm := new WorkspaceMemory(GoPaths.Join(dir.value, MemoryFile));
    var _ := wm.Load(stored);
    return Ok(wm);
  }
}
