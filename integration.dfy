/** The glue between the main window and Hyprland (cmd/warren/hyprland.go): setting the
    integration up, turning workspace events into a switch of the listed directory, and
    remembering the directory of the active workspace. Log lines are not modelled; the
    environment, `os.Stat` and the active workspace query are parameters; the GTK idle callback
    is taken to run at once. */
module Integration {

  import opened Wrappers
  import GoStrings
  import GoPaths
  import Hyprland
  import Workspace
  import Config
  import UI

  /** The `Hyprland` section of the configuration that the setup reads. */
  datatype HyprlandSettings = HyprlandSettings(Enabled: bool, AutoSwitch: bool, WorkspaceMemory: bool)

  /** `hyprlandState`: the client, and the workspace memory when there is one. */
  datatype HyprlandState = HyprlandState(client: Hyprland.Client, memory: Workspace.WorkspaceMemory?)

  /** What the process environment answers during the setup. */
  datatype Environment = Environment(
    signature: string,
    xdgRuntimeDir: string,
    uid: int,
    sockets: set<string>,
    xdgConfigHome: string,
    home: Option<string>)

  /** The directory given to `NewWorkspaceMemory`: the configuration directory, or "" when it
      cannot be found. */
  function ConfigDirOrEmpty(env: Environment): (r: string)
    ensures r == "" <==> Config.Dir(env.xdgConfigHome, env.home).Err?
    ensures r != "" ==> r == Config.Dir(env.xdgConfigHome, env.home).value
  {
    match Config.Dir(env.xdgConfigHome, env.home)
    case Ok(dir) => dir
    case Err(_) => ""
  }

  /** When the configuration directory is unknown so is home, and the memory has nowhere to go;
      otherwise the memory file sits in the configuration directory, beside `config.toml`. */
  lemma MemoryBesideConfig(env: Environment)
    ensures var dir := Workspace.MemoryDir(ConfigDirOrEmpty(env), env.home);
      && (dir.None? <==> env.xdgConfigHome == "" && env.home.None?)
      && (dir.Some? ==>
            && dir == Some(Config.Dir(env.xdgConfigHome, env.home).value)
            && Config.Path(env.xdgConfigHome, env.home) == Ok(GoPaths.Join(dir.value, "config.toml")))
  {
  }

  /** `setupHyprland(cfg)`: nothing when the integration is disabled, when not running under
      Hyprland, or when the client cannot be made; the memory only when it is enabled, and
      null when it cannot be made (`mkdirFails` and `stored` are what `NewWorkspaceMemory`
      meets on disk). */
  method SetupHyprland(settings: HyprlandSettings, env: Environment, mkdirFails: bool, stored: Workspace.Stored)
    returns (hs: Option<HyprlandState>)
    ensures var client := Hyprland.New(env.signature, env.xdgRuntimeDir, env.uid, env.sockets);
      && (hs.Some? <==> settings.Enabled && client.Ok?)
      && (hs.Some? ==> hs.value.client == client.value)
    ensures hs.Some? && !settings.WorkspaceMemory ==> hs.value.memory == null
    ensures hs.Some? && settings.WorkspaceMemory ==>
      var dir := Workspace.MemoryDir(ConfigDirOrEmpty(env), env.home);
      && (hs.value.memory == null <==> dir.None? || mkdirFails)
      && (hs.value.memory != null ==>
            && fresh(hs.value.memory)
            && hs.value.memory.configPath == GoPaths.Join(dir.value, Workspace.MemoryFile)
            && hs.value.memory.workspaceDirs
               == (if stored.Decoded? && stored.dirs.Some? then stored.dirs.value else map[]))
  {
    if !settings.Enabled {
      return None;
    }
    if !Hyprland.IsHyprland(env.signature) {
      return None;
    }
    var client := Hyprland.New(env.signature, env.xdgRuntimeDir, env.uid, env.sockets);
    if client.Err? {
      return None;
    }
    var memory: Workspace.WorkspaceMemory? := null;
    if settings.WorkspaceMemory {
      var configDir := ConfigDirOrEmpty(env);
      var made := Workspace.NewWorkspaceMemory(configDir, env.home, mkdirFails, stored);
      if made.Ok? {
        memory := made.value;
      }
    }
    return Some(HyprlandState(client.value, memory));
  }

  /** The workspace an event names: the data of a `workspace` event, and the second
      comma-separated field of a `movewindow` event, each trimmed and read as an int. */
  function WorkspaceIdOf(e: Hyprland.Event): (r: Option<int>)
    ensures r.Some? ==> e.Type == "workspace" || e.Type == "movewindow"
    ensures r.Some? ==> GoStrings.MinInt64 <= r.value <= GoStrings.MaxInt64
    ensures e.Type == "movewindow" && |GoStrings.Split(e.Data, ',')| < 2 ==> r.None?
  {
    if e.Type == "workspace" then GoStrings.Atoi(GoStrings.TrimSpace(e.Data))
    else if e.Type == "movewindow" then
      var parts := GoStrings.Split(e.Data, ',');
      if |parts| < 2 then None else GoStrings.Atoi(GoStrings.TrimSpace(parts[1]))
    else None
  }

  /** Decimal text has no surrounding white space. */
  lemma TrimSpaceIntToString(n: int)
    ensures GoStrings.TrimSpace(GoStrings.IntToString(n)) == GoStrings.IntToString(n)
    ensures ',' !in GoStrings.IntToString(n)
  {
    var s := GoStrings.IntToString(n);
    var t := GoStrings.NatToString(if n < 0 then -n else n);
    assert t[0] == '0' || !GoStrings.IsSpace(t[0]);
    assert s[0] == '-' || s[0] == t[0];
    assert GoStrings.TrimLeft(s) == s;
    assert s[|s| - 1] == t[|t| - 1];
    assert GoStrings.TrimRight(s) == s;
  }

  /** A `workspace` event for any int64 workspace names that workspace. */
  lemma WorkspaceEventReadsBack(id: int)
    requires GoStrings.MinInt64 <= id <= GoStrings.MaxInt64
    ensures WorkspaceIdOf(Hyprland.Event("workspace", GoStrings.IntToString(id))) == Some(id)
  {
    TrimSpaceIntToString(id);
    GoStrings.AtoiIntToString(id);
  }

  /** `Split` at the first comma when only one field precedes it. */
  lemma SplitAfterField(field: string, rest: string)
    requires ',' !in field && ',' !in rest
    ensures GoStrings.Split(field + "," + rest, ',') == [field, rest]
  {
    var s := field + "," + rest;
    assert s[|field|] == ',';
    var i := GoStrings.IndexOf(s, ',');
    assert s[..i] == field;
    assert s[i + 1..] == rest;
  }

  /** A `movewindow` event `<address>,<workspace>` names the workspace, whatever the address. */
  lemma MoveWindowEventReadsBack(address: string, id: int)
    requires ',' !in address
    requires GoStrings.MinInt64 <= id <= GoStrings.MaxInt64
    ensures WorkspaceIdOf(Hyprland.Event("movewindow", address + "," + GoStrings.IntToString(id))) == Some(id)
  {
    TrimSpaceIntToString(id);
    SplitAfterField(address, GoStrings.IntToString(id));
    GoStrings.AtoiIntToString(id);
  }

  /** The line Hyprland writes for a workspace switch parses to that workspace. */
  lemma WorkspaceLineReadsBack(id: int)
    requires GoStrings.MinInt64 <= id <= GoStrings.MaxInt64
    ensures var e := Hyprland.ParseEvent("workspace>>" + GoStrings.IntToString(id));
      e.Some? && WorkspaceIdOf(e.value) == Some(id)
  {
    var line := "workspace>>" + GoStrings.IntToString(id);
    var e := Hyprland.Event("workspace", GoStrings.IntToString(id));
    assert e.Type + ">>" + e.Data == line;
    forall j | 0 <= j < |e.Type|
      ensures !Hyprland.ArrowsAt(line, j)
    {
      assert line[j] == e.Type[j];
    }
    Hyprland.ParseEventUnique(line, e);
    WorkspaceEventReadsBack(id);
  }

  /** The directory an event switches the view to, if any: only for workspace events, with
      auto-switching on and a memory present, when the workspace is remembered and its
      directory is still a directory (`isDir` is what `os.Stat` reports as one). */
  function SwitchTarget(e: Hyprland.Event, autoSwitch: bool, memory: Option<map<int, string>>, isDir: set<string>)
    : Option<string>
  {
    if (e.Type == "workspace" || e.Type == "movewindow") && autoSwitch && memory.Some? then
      match WorkspaceIdOf(e)
      case None => None
      case Some(id) =>
        var dir := Workspace.Lookup(memory.value, id);
        if dir == "" || dir !in isDir then None else Some(dir)
    else None
  }

  /** No switch when auto-switching is off, when there is no memory, when the event names no
      workspace, or when the workspace's remembered directory is empty or no longer a directory;
      otherwise the switch goes to the remembered directory. */
  lemma SwitchTargetCases(e: Hyprland.Event, autoSwitch: bool, memory: Option<map<int, string>>, isDir: set<string>)
    ensures SwitchTarget(e, autoSwitch, memory, isDir).None? <==>
      || !autoSwitch || memory.None? || WorkspaceIdOf(e).None?
      || Workspace.Lookup(memory.value, WorkspaceIdOf(e).value) == ""
      || Workspace.Lookup(memory.value, WorkspaceIdOf(e).value) !in isDir
    ensures var r := SwitchTarget(e, autoSwitch, memory, isDir);
      r.Some? ==>
        && WorkspaceIdOf(e).Some? && memory.Some?
        && WorkspaceIdOf(e).value in memory.value
        && memory.value[WorkspaceIdOf(e).value] == r.value
        && r.value != "" && r.value in isDir
  {
  }

  /** The remembered directories, when there is a memory. */
  function MemoryOf(hs: HyprlandState): Option<map<int, string>>
    reads hs.memory
  {
    if hs.memory == null then None else Some(hs.memory.workspaceDirs)
  }

  /** The event handler of `startHyprlandListener`: loads the remembered directory when the
      event calls for a switch, and otherwise leaves the view alone. */
  method HandleEvent(hs: HyprlandState, autoSwitch: bool, view: UI.FileView, e: Hyprland.Event,
                     isDir: set<string>, disk: UI.Disk)
    returns (switched: Option<string>, err: Option<UI.ViewError>)
    requires view.Valid()
    modifies view
    ensures view.Valid()
    ensures switched == SwitchTarget(e, autoSwitch, MemoryOf(hs), isDir)
    ensures switched.None? ==> err.None? && view.Untouched()
    ensures switched.Some? ==> view.LoadedFrom(switched.value, disk, err)
    ensures view.showHidden == old(view.showHidden)
    ensures view.sortMode == old(view.sortMode) && view.sortOrder == old(view.sortOrder)
  {
    switched, err := None, None;
    if !((e.Type == "workspace" || e.Type == "movewindow") && autoSwitch && hs.memory != null) {
      return;
    }
    var workspaceID := WorkspaceIdOf(e);
    if workspaceID.None? {
      return;
    }
    var rememberedDir := hs.memory.Get(workspaceID.value);
    if rememberedDir == "" {
      return;
    }
    if rememberedDir !in isDir {
      return;
    }
    switched := Some(rememberedDir);
    err := view.LoadDirectory(rememberedDir, disk);
  }

  /** One pass of the listener: the event's target, and a view that kept its directory or moved
      to that target. */
  method ListenStep(hs: HyprlandState, autoSwitch: bool, view: UI.FileView, e: Hyprland.Event,
                    isDir: set<string>, disk: UI.Disk)
    returns (switched: Option<string>)
    requires view.Valid()
    modifies view
    ensures view.Valid()
    ensures switched == SwitchTarget(e, autoSwitch, MemoryOf(hs), isDir)
    ensures MemoryOf(hs) == old(MemoryOf(hs))
    ensures switched.None? ==> view.Untouched()
    ensures view.currentPath == old(view.currentPath) || Some(view.currentPath) == switched
    ensures view.showHidden == old(view.showHidden)
    ensures view.sortMode == old(view.sortMode) && view.sortOrder == old(view.sortOrder)
  {
    var err;
    switched, err := HandleEvent(hs, autoSwitch, view, e, isDir, disk);
  }

  /** `startHyprlandListener`, given the lines the event socket yields: every event goes through
      the handler in order. The view's directory is always the one it had or one an event
      switched to, and it is left as it was when no event calls for a switch. */
  method StartHyprlandListener(hs: Option<HyprlandState>, autoSwitch: bool, view: UI.FileView,
                               lines: seq<string>, isDir: set<string>, disk: UI.Disk)
    requires view.Valid()
    modifies view
    ensures view.Valid()
    ensures hs.None? ==> view.Untouched()
    ensures hs.Some? ==>
      var events := Hyprland.EventsOf(lines);
      && ((forall k :: 0 <= k < |events| ==> SwitchTarget(events[k], autoSwitch, MemoryOf(hs.value), isDir).None?)
          ==> view.Untouched())
      && (view.currentPath == old(view.currentPath)
          || exists k :: 0 <= k < |events| && SwitchTarget(events[k], autoSwitch, MemoryOf(hs.value), isDir)
                                              == Some(view.currentPath))
  {
    if hs.None? {
      return;
    }
    var events := Hyprland.ListenEvents(lines);
    ghost var memory := MemoryOf(hs.value);
    ghost var targets := seq(|events|, k requires 0 <= k < |events| => SwitchTarget(events[k], autoSwitch, memory, isDir));
    var i := 0;
    while i < |events|
      invariant 0 <= i <= |events|
      invariant view.Valid()
      invariant MemoryOf(hs.value) == memory
      invariant view.showHidden == old(view.showHidden)
      invariant view.sortMode == old(view.sortMode) && view.sortOrder == old(view.sortOrder)
      invariant (forall k :: 0 <= k < i ==> targets[k].None?) ==> view.Untouched()
      invariant view.currentPath == old(view.currentPath)
                || exists k :: 0 <= k < i && targets[k] == Some(view.currentPath)
    {
      var switched := ListenStep(hs.value, autoSwitch, view, events[i], isDir, disk);
      assert targets[i] == switched;
      i := i + 1;
    }
  }

  /** The memory `saveCurrentDirectoryToWorkspace` writes to, if any. */
  function SaveTarget(hs: Option<HyprlandState>): set<Workspace.WorkspaceMemory> {
    if hs.Some? && hs.value.memory != null then {hs.value.memory} else {}
  }

  /** `saveCurrentDirectoryToWorkspace(hs, currentPath)`, given what `GetActiveWorkspace`
      answers (`None` for its error): the active workspace now remembers the directory, and no
      other workspace changes. */
  method SaveCurrentDirectory(hs: Option<HyprlandState>, activeWorkspace: Option<int>, currentPath: string)
    modifies SaveTarget(hs)
    ensures hs.Some? && hs.value.memory != null ==>
      var m := hs.value.memory;
      && m.configPath == old(m.configPath)
      && m.workspaceDirs
         == if activeWorkspace.Some? then old(m.workspaceDirs)[activeWorkspace.value := currentPath]
            else old(m.workspaceDirs)
  {
    if hs.None? || hs.value.memory == null {
      return;
    }
    if activeWorkspace.None? {
      return;
    }
    hs.value.memory.Set(activeWorkspace.value, currentPath);
  }
}
