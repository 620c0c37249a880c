/** The key handler of the main window (cmd/warren/keyboard.go): how a pressed key is matched
    against a configured binding, the fixed order in which the bindings are tried, what each
    binding does to the file view, and the guards in front of the yank, paste and rename
    dialogs. `gdk.KeyvalName` is a parameter; dialogs, labels and the opening of files are
    returned as requests rather than performed. */
module Keyboard {

  import opened Wrappers
  import opened Models
  import GoStrings
  import GoPaths
  import FileUtils
  import UI
  import Integration

  /** GDK key values of the arrow, Return and BackSpace keys. */
  const KeyLeft: nat := 0xff51
  const KeyUp: nat := 0xff52
  const KeyRight: nat := 0xff53
  const KeyDown: nat := 0xff54
  const KeyReturn: nat := 0xff0d
  const KeyBackSpace: nat := 0xff08

  /** `gdk.KeyvalName`. */
  type KeyNames = nat -> string

  /** The bindings the handler reads from the configuration. */
  datatype Bindings = Bindings(
    NavigateDown: string,
    NavigateUp: string,
    ParentDir: string,
    EnterDir: string,
    ToggleHidden: string,
    CycleSortMode: string,
    ToggleSortOrder: string,
    Yank: string,
    Delete: string,
    Paste: string,
    Rename: string,
    ShowHelp: string,
    Quit: string)

  /** `keyMatchesConfig(keyval, configKey)`. */
  function KeyMatchesConfig(keyval: nat, configKey: string, keyName: KeyNames): bool {
    GoStrings.ByteLenOne(configKey);
    if configKey == "" then false
    else if keyName(keyval) == configKey then true
    else if GoStrings.ByteLen(configKey) == 1 then keyval == configKey[0] as int
    else false
  }

  /** An empty binding matches no key; a binding matches the key GDK gives that name; and
      otherwise only a one-byte binding can match, namely the key whose value is that byte. */
  lemma KeyMatchesConfigCases(keyval: nat, configKey: string, keyName: KeyNames)
    ensures var r := KeyMatchesConfig(keyval, configKey, keyName);
      && (configKey == "" ==> !r)
      && (configKey != "" && keyName(keyval) == configKey ==> r)
      && (GoStrings.ByteLen(configKey) != 1 ==> (r <==> configKey != "" && keyName(keyval) == configKey))
      && (|configKey| == 1 && configKey[0] as int < 0x80 && keyName(keyval) != configKey ==>
            (r <==> keyval == configKey[0] as int))
  {
    GoStrings.ByteLenOne(configKey);
  }

  /** A one-letter binding names one byte: "J" is not the key 'j' unless GDK calls that key "J". */
  lemma LetterBindingIsCaseSensitive(keyName: KeyNames)
    requires keyName(0x6a) == "j"
    ensures !KeyMatchesConfig(0x6a, "J", keyName)
    ensures KeyMatchesConfig(0x6a, "j", keyName)
  {
    GoStrings.ByteLenOne("J");
  }

  datatype Action =
    | NavigateDown | NavigateUp | ParentDir | EnterDir | ToggleHidden | CycleSortMode
    | ToggleSortOrder | Yank | Delete | Paste | Rename | ShowHelp | Quit

  /** The order in which the handler tries the bindings. */
  const Precedence: seq<Action> := [
    NavigateDown, NavigateUp, ParentDir, EnterDir, ToggleHidden, CycleSortMode,
    ToggleSortOrder, Yank, Delete, Paste, Rename, ShowHelp, Quit]

  function BindingOf(kb: Bindings, a: Action): string {
    match a
    case NavigateDown => kb.NavigateDown
    case NavigateUp => kb.NavigateUp
    case ParentDir => kb.ParentDir
    case EnterDir => kb.EnterDir
    case ToggleHidden => kb.ToggleHidden
    case CycleSortMode => kb.CycleSortMode
    case ToggleSortOrder => kb.ToggleSortOrder
    case Yank => kb.Yank
    case Delete => kb.Delete
    case Paste => kb.Paste
    case Rename => kb.Rename
    case ShowHelp => kb.ShowHelp
    case Quit => kb.Quit
  }

  /** Keys that trigger an action whatever the configuration says. */
  function FixedKeys(a: Action): set<nat> {
    match a
    case NavigateDown => {KeyDown}
    case NavigateUp => {KeyUp}
    case ParentDir => {KeyLeft, KeyBackSpace}
    case EnterDir => {KeyRight, KeyReturn}
    case _ => {}
  }

  /** Whether the key, on its own, would trigger `a`. */
  predicate Triggers(a: Action, keyval: nat, kb: Bindings, keyName: KeyNames) {
    KeyMatchesConfig(keyval, BindingOf(kb, a), keyName) || keyval in FixedKeys(a)
  }

  /** The first action of `actions`, from index `k` on, that the key triggers. */
  function FirstTriggered(actions: seq<Action>, k: nat, keyval: nat, kb: Bindings, keyName: KeyNames)
    : Option<Action>
    requires k <= |actions|
    decreases |actions| - k
  {
    if k == |actions| then None
    else if Triggers(actions[k], keyval, kb, keyName) then Some(actions[k])
    else FirstTriggered(actions, k + 1, keyval, kb, keyName)
  }

  /** `FirstTriggered` finds nothing exactly when no action from `k` on is triggered, and
      otherwise an action that is triggered with none triggered before it. */
  lemma {:induction false} FirstTriggeredIsFirst(actions: seq<Action>, k: nat, keyval: nat, kb: Bindings,
                                                 keyName: KeyNames)
    requires k <= |actions|
    ensures var r := FirstTriggered(actions, k, keyval, kb, keyName);
      && (r.None? <==> forall i :: k <= i < |actions| ==> !Triggers(actions[i], keyval, kb, keyName))
      && (r.Some? ==>
            exists i :: k <= i < |actions| && actions[i] == r.value
              && Triggers(actions[i], keyval, kb, keyName)
              && forall j :: k <= j < i ==> !Triggers(actions[j], keyval, kb, keyName))
    decreases |actions| - k
  {
    if k == |actions| {
    } else if Triggers(actions[k], keyval, kb, keyName) {
      assert FirstTriggered(actions, k, keyval, kb, keyName) == Some(actions[k]);
    } else {
      FirstTriggeredIsFirst(actions, k + 1, keyval, kb, keyName);
      var r := FirstTriggered(actions, k + 1, keyval, kb, keyName);
      assert FirstTriggered(actions, k, keyval, kb, keyName) == r;
      if r.Some? {
        var i :| k + 1 <= i < |actions| && actions[i] == r.value
          && Triggers(actions[i], keyval, kb, keyName)
          && forall j :: k + 1 <= j < i ==> !Triggers(actions[j], keyval, kb, keyName);
        assert forall j :: k <= j < i ==> !Triggers(actions[j], keyval, kb, keyName);
      }
    }
  }

  /** The chain of `if`s of the handler: which branch handles the key, if any. */
  function Dispatch(keyval: nat, kb: Bindings, keyName: KeyNames): Option<Action> {
    if KeyMatchesConfig(keyval, kb.NavigateDown, keyName) || keyval == KeyDown then Some(NavigateDown)
    else if KeyMatchesConfig(keyval, kb.NavigateUp, keyName) || keyval == KeyUp then Some(NavigateUp)
    else if KeyMatchesConfig(keyval, kb.ParentDir, keyName) || keyval == KeyLeft || keyval == KeyBackSpace
    then Some(ParentDir)
    else if KeyMatchesConfig(keyval, kb.EnterDir, keyName) || keyval == KeyRight || keyval == KeyReturn
    then Some(EnterDir)
    else if KeyMatchesConfig(keyval, kb.ToggleHidden, keyName) then Some(ToggleHidden)
    else if KeyMatchesConfig(keyval, kb.CycleSortMode, keyName) then Some(CycleSortMode)
    else if KeyMatchesConfig(keyval, kb.ToggleSortOrder, keyName) then Some(ToggleSortOrder)
    else if KeyMatchesConfig(keyval, kb.Yank, keyName) then Some(Yank)
    else if KeyMatchesConfig(keyval, kb.Delete, keyName) then Some(Delete)
    else if KeyMatchesConfig(keyval, kb.Paste, keyName) then Some(Paste)
    else if KeyMatchesConfig(keyval, kb.Rename, keyName) then Some(Rename)
    else if KeyMatchesConfig(keyval, kb.ShowHelp, keyName) then Some(ShowHelp)
    else if KeyMatchesConfig(keyval, kb.Quit, keyName) then Some(Quit)
    else None
  }

  /** One step of `FirstTriggered`. */
  lemma FirstTriggeredStep(actions: seq<Action>, k: nat, keyval: nat, kb: Bindings, keyName: KeyNames)
    requires k < |actions|
    ensures FirstTriggered(actions, k, keyval, kb, keyName)
      == if Triggers(actions[k], keyval, kb, keyName) then Some(actions[k])
         else FirstTriggered(actions, k + 1, keyval, kb, keyName)
  {
  }

  /** The last three branches of the handler. */
  lemma DispatchFromRename(keyval: nat, kb: Bindings, keyName: KeyNames)
    ensures FirstTriggered(Precedence, 10, keyval, kb, keyName) ==
      if KeyMatchesConfig(keyval, kb.Rename, keyName) then Some(Rename)
      else if KeyMatchesConfig(keyval, kb.ShowHelp, keyName) then Some(ShowHelp)
      else if KeyMatchesConfig(keyval, kb.Quit, keyName) then Some(Quit)
      else None
  {
    assert FirstTriggered(Precedence, 13, keyval, kb, keyName) == None;
    var p := Precedence;
    FirstTriggeredStep(p, 12, keyval, kb, keyName);
    assert p[12] == Quit;
    FirstTriggeredStep(p, 11, keyval, kb, keyName);
    assert p[11] == ShowHelp;
    FirstTriggeredStep(p, 10, keyval, kb, keyName);
    assert p[10] == Rename;
  }

  /** The last five branches of the handler. */
  lemma DispatchFromDelete(keyval: nat, kb: Bindings, keyName: KeyNames)
    ensures FirstTriggered(Precedence, 8, keyval, kb, keyName) ==
      if KeyMatchesConfig(keyval, kb.Delete, keyName) then Some(Delete)
      else if KeyMatchesConfig(keyval, kb.Paste, keyName) then Some(Paste)
      else FirstTriggered(Precedence, 10, keyval, kb, keyName)
  {
    var p := Precedence;
    FirstTriggeredStep(p, 9, keyval, kb, keyName);
    assert p[9] == Paste;
    FirstTriggeredStep(p, 8, keyval, kb, keyName);
    assert p[8] == Delete;
  }

  /** The two branches before them. */
  lemma DispatchFromToggleSortOrder(keyval: nat, kb: Bindings, keyName: KeyNames)
    ensures FirstTriggered(Precedence, 6, keyval, kb, keyName) ==
      if KeyMatchesConfig(keyval, kb.ToggleSortOrder, keyName) then Some(ToggleSortOrder)
      else if KeyMatchesConfig(keyval, kb.Yank, keyName) then Some(Yank)
      else FirstTriggered(Precedence, 8, keyval, kb, keyName)
  {
    var p := Precedence;
    FirstTriggeredStep(p, 7, keyval, kb, keyName);
    assert p[7] == Yank;
    FirstTriggeredStep(p, 6, keyval, kb, keyName);
    assert p[6] == ToggleSortOrder;
  }

  /** The two branches before them. */
  lemma DispatchFromToggleHidden(keyval: nat, kb: Bindings, keyName: KeyNames)
    ensures FirstTriggered(Precedence, 4, keyval, kb, keyName) ==
      if KeyMatchesConfig(keyval, kb.ToggleHidden, keyName) then Some(ToggleHidden)
      else if KeyMatchesConfig(keyval, kb.CycleSortMode, keyName) then Some(CycleSortMode)
      else FirstTriggered(Precedence, 6, keyval, kb, keyName)
  {
    var p := Precedence;
    FirstTriggeredStep(p, 5, keyval, kb, keyName);
    assert p[5] == CycleSortMode;
    FirstTriggeredStep(p, 4, keyval, kb, keyName);
    assert p[4] == ToggleHidden;
  }

  /** The two branches before them, which also take the fixed keys. */
  lemma DispatchFromParentDir(keyval: nat, kb: Bindings, keyName: KeyNames)
    ensures FirstTriggered(Precedence, 2, keyval, kb, keyName) ==
      if KeyMatchesConfig(keyval, kb.ParentDir, keyName) || keyval == KeyLeft || keyval == KeyBackSpace
      then Some(ParentDir)
      else if KeyMatchesConfig(keyval, kb.EnterDir, keyName) || keyval == KeyRight || keyval == KeyReturn
      then Some(EnterDir)
      else FirstTriggered(Precedence, 4, keyval, kb, keyName)
  {
    var p := Precedence;
    FirstTriggeredStep(p, 3, keyval, kb, keyName);
    assert p[3] == EnterDir;
    FirstTriggeredStep(p, 2, keyval, kb, keyName);
    assert p[2] == ParentDir;
  }

  /** The handler's branches are tried in `Precedence`: the first binding the key triggers
      handles it, and a key that triggers none is not handled. */
  lemma DispatchIsFirstMatch(keyval: nat, kb: Bindings, keyName: KeyNames)
    ensures Dispatch(keyval, kb, keyName) == FirstTriggered(Precedence, 0, keyval, kb, keyName)
  {
    DispatchFromRename(keyval, kb, keyName);
    DispatchFromDelete(keyval, kb, keyName);
    DispatchFromToggleSortOrder(keyval, kb, keyName);
    DispatchFromToggleHidden(keyval, kb, keyName);
    DispatchFromParentDir(keyval, kb, keyName);
    var p := Precedence;
    FirstTriggeredStep(p, 1, keyval, kb, keyName);
    assert p[1] == NavigateUp;
    FirstTriggeredStep(p, 0, keyval, kb, keyName);
    assert p[0] == NavigateDown;
  }

  /** What the handler asks of the window for the bindings that do not change the view. */
  datatype Request =
    | NoRequest
    | OpenFile(path: string)
    | ToggleYank(unyank: bool, file: FileInfo)
    | AskDelete(file: FileInfo)
    | AskPaste(yanked: seq<string>)
    | NothingYanked
    | AskRename(file: FileInfo)
    | ShowShortcuts
    | CloseWindow

  /** The branches for Yank, Delete, Paste, Rename, ShowHelp and Quit, given the selection and
      the yanked paths (`IsYanked` is membership in them). */
  function Respond(a: Action, selected: Option<FileInfo>, yanked: seq<string>): (r: Request)
    requires a in {Yank, Delete, Paste, Rename, ShowHelp, Quit}
    ensures r.ToggleYank? <==> a == Yank && selected.Some?
    ensures r.ToggleYank? ==> r.file == selected.value && (r.unyank <==> selected.value.Path in yanked)
    ensures r.AskPaste? <==> a == Paste && |yanked| > 0
    ensures r == NothingYanked <==> a == Paste && yanked == []
    ensures r.AskDelete? || r.AskRename? ==> selected.Some? && r.file == selected.value
    ensures r.AskDelete? <==> a == Delete && selected.Some?
    ensures r.AskRename? <==> a == Rename && selected.Some?
  {
    match a
    case Yank => if selected.None? then NoRequest else ToggleYank(selected.value.Path in yanked, selected.value)
    case Delete => if selected.None? then NoRequest else AskDelete(selected.value)
    case Paste => if |yanked| > 0 then AskPaste(yanked) else NothingYanked
    case Rename => if selected.None? then NoRequest else AskRename(selected.value)
    case ShowHelp => ShowShortcuts
    case Quit => CloseWindow
  }

  /** The rename dialog's response: the new path, only for OK with a new, non-empty name. */
  function RenameTarget(ok: bool, newName: string, file: FileInfo, currentPath: string): (r: Option<string>)
    ensures r.Some? <==> ok && newName != "" && newName != file.Name
    ensures r.Some? ==> r.value == GoPaths.Join(currentPath, newName)
  {
    if ok && newName != "" && newName != file.Name then Some(GoPaths.Join(currentPath, newName)) else None
  }

  /** The renamed file stays in the current directory under the new name. */
  lemma RenameTargetInPlace(newName: string, file: FileInfo, currentPath: string)
    requires newName != "" && newName != file.Name && '/' !in newName && currentPath != ""
    ensures var r := RenameTarget(true, newName, file, currentPath);
      r.Some? && GoPaths.Base(r.value) == newName && r.value[..|currentPath|] == currentPath
  {
    GoPaths.JoinBase(currentPath, newName);
  }

  /** The key handler, given the file view, the bindings, the yanked paths, the disk the view
      lists, the Hyprland state and what `GetActiveWorkspace` answers. `navigation` is the error
      of the view method called, when one was; whenever `NavigateUp` or `NavigateInto` returns
      no error (at the root too) the current directory is remembered for the active workspace. */
  method HandleKey(view: UI.FileView, keyval: nat, kb: Bindings, keyName: KeyNames, yanked: seq<string>,
                   disk: UI.Disk, hs: Option<Integration.HyprlandState>, activeWorkspace: Option<int>)
    returns (handled: bool, navigation: Option<UI.ViewError>, request: Request)
    requires view.Valid()
    modifies view, Integration.SaveTarget(hs)
    ensures view.Valid()
    ensures hs.Some? && hs.value.memory != null ==>
      var m := hs.value.memory;
      var a := Dispatch(keyval, kb, keyName);
      var sel := old(view.Selected());
      var saved := navigation.None?
        && (a == Some(ParentDir) || (a == Some(EnterDir) && sel.Some? && sel.value.IsDir));
      && m.configPath == old(m.configPath)
      && m.workspaceDirs
         == if saved && activeWorkspace.Some? then old(m.workspaceDirs)[activeWorkspace.value := view.currentPath]
            else old(m.workspaceDirs)
    ensures handled <==> Dispatch(keyval, kb, keyName).Some?
    ensures var a := Dispatch(keyval, kb, keyName);
      a.None? || a.value in {Yank, Delete, Paste, Rename, ShowHelp, Quit} ==> view.Untouched()
    ensures var a := Dispatch(keyval, kb, keyName);
      a.Some? && a.value in {Yank, Delete, Paste, Rename, ShowHelp, Quit} ==>
        request == Respond(a.value, old(view.Selected()), yanked)
    ensures Dispatch(keyval, kb, keyName) == Some(NavigateDown) ==>
      && view.selectedIndex == (if old(view.selectedIndex) < |view.files| - 1 then old(view.selectedIndex) + 1 else old(view.selectedIndex))
      && view.files == old(view.files) && view.currentPath == old(view.currentPath)
    ensures Dispatch(keyval, kb, keyName) == Some(NavigateUp) ==>
      && view.selectedIndex == (if old(view.selectedIndex) > 0 then old(view.selectedIndex) - 1 else old(view.selectedIndex))
      && view.files == old(view.files) && view.currentPath == old(view.currentPath)
    ensures Dispatch(keyval, kb, keyName) == Some(ParentDir) ==>
      var parent := FileUtils.ParentDir(old(view.currentPath));
      if parent == old(view.currentPath) then navigation.None? && view.Untouched()
      else view.LoadedFrom(parent, disk, navigation)
    ensures Dispatch(keyval, kb, keyName) == Some(EnterDir) ==>
      var sel := old(view.Selected());
      && (sel.None? ==> view.Untouched() && request == NoRequest)
      && (sel.Some? && !sel.value.IsDir ==> view.Untouched() && request == OpenFile(sel.value.Path))
      && (sel.Some? && sel.value.IsDir ==> view.LoadedFrom(sel.value.Path, disk, navigation))
    ensures Dispatch(keyval, kb, keyName) == Some(ToggleHidden) ==>
      view.showHidden == !old(view.showHidden) && view.LoadedFrom(old(view.currentPath), disk, navigation)
    ensures Dispatch(keyval, kb, keyName) == Some(CycleSortMode) ==>
      view.sortMode == UI.NextSortMode(old(view.sortMode)) && view.LoadedFrom(old(view.currentPath), disk, navigation)
    ensures Dispatch(keyval, kb, keyName) == Some(ToggleSortOrder) ==>
      view.sortOrder == UI.FlipOrder(old(view.sortOrder)) && view.LoadedFrom(old(view.currentPath), disk, navigation)
  {
    navigation, request := None, NoRequest;
    var action := Dispatch(keyval, kb, keyName);
    if action.None? {
      return false, navigation, request;
    }
    match action.value {
      case NavigateDown => view.SelectNext();
      case NavigateUp => view.SelectPrevious();
      case ParentDir =>
        navigation := view.NavigateUp(disk);
        if navigation.None? {
          Integration.SaveCurrentDirectory(hs, activeWorkspace, view.currentPath);
        }
      case EnterDir =>
        var selected := view.Selected();
        if selected.Some? {
          if selected.value.IsDir {
            navigation := view.NavigateInto(disk);
            if navigation.None? {
              Integration.SaveCurrentDirectory(hs, activeWorkspace, view.currentPath);
            }
          } else {
            request := OpenFile(selected.value.Path);
          }
        }
      case ToggleHidden => navigation := view.ToggleHidden(disk);
      case CycleSortMode => navigation := view.CycleSortMode(disk);
      case ToggleSortOrder => navigation := view.ToggleSortOrder(disk);
      case _ => request := Respond(action.value, view.Selected(), yanked);
    }
    return true, navigation, request;
  }
}
