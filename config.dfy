/** Warren's configuration (internal/config/config.go and internal/config/helpers.go): the
    defaults, where the file lives, how a parsed file is laid over the defaults, and the parsing
    of the sort options and of the start directory. TOML itself is not modelled: a decoded file
    is the set of keys it gives values to. Environment, home directory and `os.Stat` lookups
    are parameters. */
module Config {

  import opened Wrappers
  import opened Models
  import GoPaths

  datatype AppearanceConfig = AppearanceConfig(
    ShowHidden: bool,
    WindowWidth: int,
    WindowHeight: int,
    DefaultSortMode: string,
    DefaultSortOrder: string)

  /** The bindings `KeybindingsConfig` declares. */
  datatype KeybindingsConfig = KeybindingsConfig(
    Quit: string,
    NavigateUp: string,
    NavigateDown: string,
    ParentDir: string,
    EnterDir: string,
    ToggleHidden: string,
    CycleSortMode: string)

  datatype GeneralConfig = GeneralConfig(StartDirectory: string)

  datatype Config = Config(
    Appearance: AppearanceConfig,
    Keybindings: KeybindingsConfig,
    General: GeneralConfig)

  /** `Default()`. */
  function Default(): Config {
    Config(
      AppearanceConfig(false, 1000, 700, "name", "ascending"),
      KeybindingsConfig("q", "k", "j", "h", "l", "period", "s"),
      GeneralConfig("~"))
  }

  datatype ConfigError = NoHome | CannotRead | CannotParse

  /** `Dir()`, given $XDG_CONFIG_HOME and the home directory lookup. */
  function Dir(xdgConfigHome: string, home: Option<string>): (r: Result<string, ConfigError>)
    ensures r.Err? <==> xdgConfigHome == "" && home.None?
    ensures r.Err? ==> r.error == NoHome
    ensures r.Ok? ==> r.value != ""
    ensures xdgConfigHome != "" ==> r == Ok(GoPaths.Join(xdgConfigHome, "warren"))
    ensures xdgConfigHome == "" && home.Some? ==>
      r == Ok(GoPaths.Join(GoPaths.Join(home.value, ".config"), "warren"))
  {
    var configHome :=
      if xdgConfigHome != "" then Some(xdgConfigHome)
      else if home.None? then None
      else Some(GoPaths.Join(home.value, ".config"));
    if configHome.None? then Err(NoHome) else Ok(GoPaths.Join(configHome.value, "warren"))
  }

  /** `Path()`: the file `config.toml` in `Dir()`. */
  function Path(xdgConfigHome: string, home: Option<string>): (r: Result<string, ConfigError>)
    ensures r.Err? <==> Dir(xdgConfigHome, home).Err?
    ensures r.Ok? ==>
      && GoPaths.Base(r.value) == "config.toml"
      && |r.value| > |Dir(xdgConfigHome, home).value|
      && r.value[..|Dir(xdgConfigHome, home).value|] == Dir(xdgConfigHome, home).value
  {
    match Dir(xdgConfigHome, home)
    case Err(e) => Err(e)
    case Ok(dir) =>
      GoPaths.JoinBase(dir, "config.toml");
      Ok(GoPaths.Join(dir, "config.toml"))
  }

  /** The keys a decoded file gives values to; `None` is a key the file does not mention. */
  datatype ConfigFile = ConfigFile(
    showHidden: Option<bool>,
    windowWidth: Option<int>,
    windowHeight: Option<int>,
    defaultSortMode: Option<string>,
    defaultSortOrder: Option<string>,
    quit: Option<string>,
    navigateUp: Option<string>,
    navigateDown: Option<string>,
    parentDir: Option<string>,
    enterDir: Option<string>,
    toggleHidden: Option<string>,
    cycleSortMode: Option<string>,
    startDirectory: Option<string>)

  function Pick<T>(given: Option<T>, base: T): T {
    if given.Some? then given.value else base
  }

  /** `toml.Unmarshal(data, config)` into a config that already holds values: keys the file
      gives replace those values, and the others stay. */
  function Overlay(base: Config, f: ConfigFile): Config {
    var a := base.Appearance;
    var k := base.Keybindings;
    Config(
      AppearanceConfig(
        Pick(f.showHidden, a.ShowHidden),
        Pick(f.windowWidth, a.WindowWidth),
        Pick(f.windowHeight, a.WindowHeight),
        Pick(f.defaultSortMode, a.DefaultSortMode),
        Pick(f.defaultSortOrder, a.DefaultSortOrder)),
      KeybindingsConfig(
        Pick(f.quit, k.Quit),
        Pick(f.navigateUp, k.NavigateUp),
        Pick(f.navigateDown, k.NavigateDown),
        Pick(f.parentDir, k.ParentDir),
        Pick(f.enterDir, k.EnterDir),
        Pick(f.toggleHidden, k.ToggleHidden),
        Pick(f.cycleSortMode, k.CycleSortMode)),
      GeneralConfig(Pick(f.startDirectory, base.General.StartDirectory)))
  }

  /** A file that mentions no key. */
  const EmptyFile: ConfigFile :=
    ConfigFile(None, None, None, None, None, None, None, None, None, None, None, None, None)

  /** The file `Save` writes for `c`: every key with its value. */
  function Saved(c: Config): ConfigFile {
    var a := c.Appearance;
    var k := c.Keybindings;
    ConfigFile(
      Some(a.ShowHidden), Some(a.WindowWidth), Some(a.WindowHeight),
      Some(a.DefaultSortMode), Some(a.DefaultSortOrder),
      Some(k.Quit), Some(k.NavigateUp), Some(k.NavigateDown), Some(k.ParentDir),
      Some(k.EnterDir), Some(k.ToggleHidden), Some(k.CycleSortMode),
      Some(c.General.StartDirectory))
  }

  /** An empty file leaves the defaults as they are, and each of the thirteen keys keeps the
      base value when the file does not mention it and takes the file's value when it does. */
  lemma OverlayKeepsAbsentKeys(base: Config, f: ConfigFile)
    ensures Overlay(base, EmptyFile) == base
    ensures f.showHidden.None? ==> Overlay(base, f).Appearance.ShowHidden == base.Appearance.ShowHidden
    ensures f.showHidden.Some? ==> Overlay(base, f).Appearance.ShowHidden == f.showHidden.value
    ensures f.windowWidth.None? ==> Overlay(base, f).Appearance.WindowWidth == base.Appearance.WindowWidth
    ensures f.windowWidth.Some? ==> Overlay(base, f).Appearance.WindowWidth == f.windowWidth.value
    ensures f.windowHeight.None? ==> Overlay(base, f).Appearance.WindowHeight == base.Appearance.WindowHeight
    ensures f.windowHeight.Some? ==> Overlay(base, f).Appearance.WindowHeight == f.windowHeight.value
    ensures f.defaultSortMode.None? ==> Overlay(base, f).Appearance.DefaultSortMode == base.Appearance.DefaultSortMode
    ensures f.defaultSortMode.Some? ==> Overlay(base, f).Appearance.DefaultSortMode == f.defaultSortMode.value
    ensures f.defaultSortOrder.None? ==> Overlay(base, f).Appearance.DefaultSortOrder == base.Appearance.DefaultSortOrder
    ensures f.defaultSortOrder.Some? ==> Overlay(base, f).Appearance.DefaultSortOrder == f.defaultSortOrder.value
    ensures f.quit.None? ==> Overlay(base, f).Keybindings.Quit == base.Keybindings.Quit
    ensures f.quit.Some? ==> Overlay(base, f).Keybindings.Quit == f.quit.value
    ensures f.navigateUp.None? ==> Overlay(base, f).Keybindings.NavigateUp == base.Keybindings.NavigateUp
    ensures f.navigateUp.Some? ==> Overlay(base, f).Keybindings.NavigateUp == f.navigateUp.value
    ensures f.navigateDown.None? ==> Overlay(base, f).Keybindings.NavigateDown == base.Keybindings.NavigateDown
    ensures f.navigateDown.Some? ==> Overlay(base, f).Keybindings.NavigateDown == f.navigateDown.value
    ensures f.parentDir.None? ==> Overlay(base, f).Keybindings.ParentDir == base.Keybindings.ParentDir
    ensures f.parentDir.Some? ==> Overlay(base, f).Keybindings.ParentDir == f.parentDir.value
    ensures f.enterDir.None? ==> Overlay(base, f).Keybindings.EnterDir == base.Keybindings.EnterDir
    ensures f.enterDir.Some? ==> Overlay(base, f).Keybindings.EnterDir == f.enterDir.value
    ensures f.toggleHidden.None? ==> Overlay(base, f).Keybindings.ToggleHidden == base.Keybindings.ToggleHidden
    ensures f.toggleHidden.Some? ==> Overlay(base, f).Keybindings.ToggleHidden == f.toggleHidden.value
    ensures f.cycleSortMode.None? ==> Overlay(base, f).Keybindings.CycleSortMode == base.Keybindings.CycleSortMode
    ensures f.cycleSortMode.Some? ==> Overlay(base, f).Keybindings.CycleSortMode == f.cycleSortMode.value
    ensures f.startDirectory.None? ==> Overlay(base, f).General.StartDirectory == base.General.StartDirectory
    ensures f.startDirectory.Some? ==> Overlay(base, f).General.StartDirectory == f.startDirectory.value
  {
  }

  /** Laying the same file over twice changes nothing more, and a file holding every key
      (what `Save` writes) replaces the base entirely. */
  lemma OverlayLaws(base: Config, f: ConfigFile, c: Config)
    ensures Overlay(Overlay(base, f), f) == Overlay(base, f)
    ensures Overlay(base, Saved(c)) == c
  {
  }

  /** What is at the configuration path: nothing, a file that cannot be read, or a file whose
      contents decode to `Some` set of keys or fail to parse (`None`). */
  datatype FileState = Missing | Unreadable | Present(decoded: Option<ConfigFile>)

  /** `Load()`. */
  function Load(xdgConfigHome: string, home: Option<string>, file: FileState): (r: Result<Config, ConfigError>)
    ensures Path(xdgConfigHome, home).Err? ==> r == Err(NoHome)
    ensures Path(xdgConfigHome, home).Ok? && file == Missing ==> r == Ok(Default())
    ensures Path(xdgConfigHome, home).Ok? ==> (r.Err? <==> file == Unreadable || file == Present(None))
    ensures r.Ok? && file.Present? ==> r.value == Overlay(Default(), file.decoded.value)
  {
    if Path(xdgConfigHome, home).Err? then Err(NoHome)
    else match file
      case Missing => Ok(Default())
      case Unreadable => Err(CannotRead)
      case Present(decoded) =>
        if decoded.None? then Err(CannotParse) else Ok(Overlay(Default(), decoded.value))
  }

  /** A configuration that was saved loads back unchanged, and a file that mentions no key
      loads as the defaults. */
  lemma LoadSaved(xdgConfigHome: string, home: Option<string>, c: Config)
    requires Path(xdgConfigHome, home).Ok?
    ensures Load(xdgConfigHome, home, Present(Some(Saved(c)))) == Ok(c)
    ensures Load(xdgConfigHome, home, Present(Some(EmptyFile))) == Ok(Default())
  {
    OverlayLaws(Default(), Saved(c), c);
    OverlayKeepsAbsentKeys(Default(), EmptyFile);
  }

  /** `LoadOrDefault()`: the loaded configuration, or the defaults whenever `Load` fails. */
  function LoadOrDefault(xdgConfigHome: string, home: Option<string>, file: FileState): (r: Config)
    ensures Load(xdgConfigHome, home, file).Err? ==> r == Default()
    ensures Load(xdgConfigHome, home, file).Ok? ==> r == Load(xdgConfigHome, home, file).value
  {
    match Load(xdgConfigHome, home, file)
    case Err(_) => Default()
    case Ok(c) => c
  }

  /** `ParseSortMode`: exactly the listed spellings choose a mode; anything else is Name. */
  function ParseSortMode(mode: string): (r: int)
    ensures r == SortBySize <==> mode == "size" || mode == "Size"
    ensures r == SortByModTime <==> mode == "modified" || mode == "Modified" || mode == "modtime"
    ensures r == SortByExtension <==> mode == "extension" || mode == "Extension" || mode == "ext"
    ensures r == SortByName || r == SortBySize || r == SortByModTime || r == SortByExtension
  {
    match mode
    case "name" => SortByName
    case "Name" => SortByName
    case "size" => SortBySize
    case "Size" => SortBySize
    case "modified" => SortByModTime
    case "Modified" => SortByModTime
    case "modtime" => SortByModTime
    case "extension" => SortByExtension
    case "Extension" => SortByExtension
    case "ext" => SortByExtension
    case _ => SortByName
  }

  /** `ParseSortOrder`: exactly the three descending spellings give Descending. */
  function ParseSortOrder(order: string): (r: int)
    ensures r == SortDescending <==> order == "descending" || order == "Descending" || order == "desc"
    ensures r == SortAscending || r == SortDescending
  {
    match order
    case "ascending" => SortAscending
    case "Ascending" => SortAscending
    case "asc" => SortAscending
    case "descending" => SortDescending
    case "Descending" => SortDescending
    case "desc" => SortDescending
    case _ => SortAscending
  }

  /** The sort options the default configuration selects. */
  lemma DefaultSortOptions()
    ensures ParseSortMode(Default().Appearance.DefaultSortMode) == SortByName
    ensures ParseSortOrder(Default().Appearance.DefaultSortOrder) == SortAscending
  {
  }

  /** The home directory, or "/" when it cannot be found. */
  function HomeOrRoot(home: Option<string>): string {
    if home.Some? then home.value else "/"
  }

  /** `GetStartDirectory(configDir)`, given the home directory lookup and the paths `os.Stat`
      reports as directories: "~" and "" mean home; an absolute path to a directory is kept;
      anything else falls back to home; and home falls back to "/". */
  function GetStartDirectory(configDir: string, home: Option<string>, dirs: set<string>): (r: string)
    ensures r == configDir || r == HomeOrRoot(home)
    ensures r != HomeOrRoot(home) ==> GoPaths.IsAbs(r) && r in dirs
    ensures configDir == "~" || configDir == "" ==> r == HomeOrRoot(home)
    ensures configDir != "~" && GoPaths.IsAbs(configDir) && configDir in dirs ==> r == configDir
  {
    if configDir == "~" || configDir == "" then HomeOrRoot(home)
    else if GoPaths.IsAbs(configDir) && configDir in dirs then configDir
    else HomeOrRoot(home)
  }

  /** A relative path, a path that is not a directory, and a path that does not exist all give
      home (or "/"). */
  lemma StartDirectoryFallsBack(configDir: string, home: Option<string>, dirs: set<string>)
    requires !GoPaths.IsAbs(configDir) || configDir !in dirs
    ensures GetStartDirectory(configDir, home, dirs) == HomeOrRoot(home)
  {
  }
}
