/** The string side of the Hyprland IPC client (internal/hyprland/client.go): where the sockets
    are, how an event line is split, and the command text sent for a dispatch. The socket
    connections and the JSON queries are not modelled; environment lookups are parameters. */
module Hyprland {

  import opened Wrappers
  import GoStrings

  /** `Client`: the two socket paths it talks to. */
  datatype Client = Client(commandSocket: string, eventSocket: string)

  datatype ClientError = NotUnderHyprland | CommandSocketMissing

  /** `Event`: the part of a line before the first `>>`, and the rest. */
  datatype Event = Event(Type: string, Data: string)

  /** `IsHyprland`, given $HYPRLAND_INSTANCE_SIGNATURE. */
  predicate IsHyprland(signature: string) {
    signature != ""
  }

  /** `getRuntimeDir`, given $XDG_RUNTIME_DIR and the user id: `<xdg>/hypr` when the variable is
      set, else `/run/user/<uid>/hypr`. */
  function RuntimeDir(xdgRuntimeDir: string, uid: int): (r: string)
    ensures |r| >= 5 && r[|r| - 5..] == "/hypr"
    ensures xdgRuntimeDir != "" ==> |r| == |xdgRuntimeDir| + 5 && r[..|xdgRuntimeDir|] == xdgRuntimeDir
    ensures xdgRuntimeDir == "" ==>
      |r| > 15 && r[..10] == "/run/user/" && r[10..|r| - 5] == GoStrings.IntToString(uid)
  {
    if xdgRuntimeDir != "" then xdgRuntimeDir + "/hypr"
    else "/run/user/" + GoStrings.IntToString(uid) + "/hypr"
  }

  /** The directory of one Hyprland instance's sockets. */
  function InstanceDir(runtimeDir: string, signature: string): string {
    runtimeDir + "/" + signature + "/"
  }

  /** `New`, given the environment and the set of paths `os.Stat` finds. */
  function New(signature: string, xdgRuntimeDir: string, uid: int, existing: set<string>)
    : (r: Result<Client, ClientError>)
    ensures !IsHyprland(signature) <==> r == Err(NotUnderHyprland)
    ensures r.Ok? ==> r.value.commandSocket in existing
    ensures r.Ok? || r == Err(NotUnderHyprland) || r == Err(CommandSocketMissing)
  {
    if signature == "" then Err(NotUnderHyprland)
    else
      var dir := InstanceDir(RuntimeDir(xdgRuntimeDir, uid), signature);
      var commandSocket := dir + ".socket.sock";
      var eventSocket := dir + ".socket2.sock";
      if commandSocket !in existing then Err(CommandSocketMissing)
      else Ok(Client(commandSocket, eventSocket))
  }

  /** Both sockets sit in `<runtime>/<signature>/`: commands on `.socket.sock`, events on
      `.socket2.sock`, so the two are never the same path; a client is made exactly when the
      command socket exists. */
  lemma NewSockets(signature: string, xdgRuntimeDir: string, uid: int, existing: set<string>)
    requires IsHyprland(signature)
    ensures var dir := InstanceDir(RuntimeDir(xdgRuntimeDir, uid), signature);
      var r := New(signature, xdgRuntimeDir, uid, existing);
      && (r.Ok? <==> dir + ".socket.sock" in existing)
      && (r.Ok? ==>
            && r.value.commandSocket == dir + ".socket.sock"
            && r.value.eventSocket == dir + ".socket2.sock"
            && r.value.commandSocket != r.value.eventSocket)
  {
    var dir := InstanceDir(RuntimeDir(xdgRuntimeDir, uid), signature);
    assert (dir + ".socket.sock")[|dir| + 7] == '.';
    assert (dir + ".socket2.sock")[|dir| + 7] == '2';
  }

  /** Whether `>>` starts at index `j` of `s`. */
  predicate ArrowsAt(s: string, j: int) {
    0 <= j && j + 1 < |s| && s[j] == '>' && s[j + 1] == '>'
  }

  /** The body of the `ListenEvents` loop for one line: `strings.SplitN(line, ">>", 2)`, and an
      event only when that gives two parts. */
  function ParseEvent(line: string): (r: Option<Event>)
    ensures r.None? <==> forall j :: 0 <= j < |line| ==> !ArrowsAt(line, j)
    ensures r.Some? ==> r.value.Type + ">>" + r.value.Data == line
    ensures r.Some? ==> forall j :: 0 <= j < |r.value.Type| ==> !ArrowsAt(line, j)
  {
    match GoStrings.IndexOfArrows(line)
    case None => None
    case Some(i) =>
      assert ArrowsAt(line, i);
      assert line[..i] + ">>" + line[i + 2..] == line;
      Some(Event(line[..i], line[i + 2..]))
  }

  /** The split is unique: an event whose parts join back to the line, with no `>>` before the
      data other than the separator, is the one `ParseEvent` finds. */
  lemma ParseEventUnique(line: string, e: Event)
    requires e.Type + ">>" + e.Data == line
    requires forall j :: 0 <= j < |e.Type| ==> !ArrowsAt(line, j)
    ensures ParseEvent(line) == Some(e)
  {
    assert ArrowsAt(line, |e.Type|);
    var r := ParseEvent(line);
    assert r.Some?;
    var t := r.value.Type;
    assert ArrowsAt(line, |t|);
    assert |t| == |e.Type|;
    assert t == line[..|t|] == e.Type;
    assert r.value.Data == line[|t| + 2..] == e.Data;
  }

  /** The events the handler receives, in order, for the lines the scanner yields. */
  function EventsOf(lines: seq<string>): (r: seq<Event>)
    ensures |r| <= |lines|
    ensures forall i :: 0 <= i < |r| ==> exists j :: 0 <= j < |lines| && ParseEvent(lines[j]) == Some(r[i])
  {
    if lines == [] then []
    else
      var rest := EventsOf(lines[..|lines| - 1]);
      match ParseEvent(lines[|lines| - 1])
      case None => rest
      case Some(e) => rest + [e]
  }

  /** `ListenEvents`, given the lines its scanner reads: the handler invocations, in order. */
  method ListenEvents(lines: seq<string>) returns (handled: seq<Event>)
    ensures handled == EventsOf(lines)
  {
    handled := [];
    var i := 0;
    while i < |lines|
      invariant 0 <= i <= |lines|
      invariant handled == EventsOf(lines[..i])
    {
      assert lines[..i + 1][..i] == lines[..i];
      var event := ParseEvent(lines[i]);
      if event.Some? {
        handled := handled + [event.value];
      }
      i := i + 1;
    }
    assert lines[..i] == lines;
  }

  /** A line without `>>` gives no event: the events of a listening session with such lines
      added are the events without them. */
  lemma {:induction false} EventsOfSkips(lines: seq<string>, noise: string)
    requires forall j :: 0 <= j < |noise| ==> !ArrowsAt(noise, j)
    ensures EventsOf(lines + [noise]) == EventsOf(lines)
  {
    assert (lines + [noise])[..|lines|] == lines;
  }

  /** Each line's events follow those of the lines before it. */
  lemma {:induction false} EventsOfAppend(a: seq<string>, b: seq<string>)
    ensures EventsOf(a + b) == EventsOf(a) + EventsOf(b)
    decreases |b|
  {
    if b == [] {
      assert a + b == a;
    } else {
      var b' := b[..|b| - 1];
      assert (a + b)[..|a + b| - 1] == a + b';
      assert (a + b)[|a + b| - 1] == b[|b| - 1];
      EventsOfAppend(a, b');
    }
  }

  /** `Dispatch(command)`: the text sent on the command socket. */
  function DispatchCommand(command: string): (r: string)
    ensures |r| == 9 + |command| && r[..9] == "dispatch " && r[9..] == command
  {
    "dispatch " + command
  }

  /** `SwitchWorkspace(id)`: a `workspace <id>` dispatch. */
  function SwitchWorkspaceCommand(id: int): string {
    DispatchCommand("workspace " + GoStrings.IntToString(id))
  }

  /** The workspace number reads back from the command text. */
  lemma SwitchWorkspaceReadsBack(id: int)
    requires GoStrings.MinInt64 <= id <= GoStrings.MaxInt64
    ensures var c := SwitchWorkspaceCommand(id);
      |c| > 19 && c[..19] == "dispatch workspace " && GoStrings.Atoi(c[19..]) == Some(id)
  {
    var c := SwitchWorkspaceCommand(id);
    assert c == "dispatch workspace " + GoStrings.IntToString(id);
    assert c[19..] == GoStrings.IntToString(id);
    GoStrings.AtoiIntToString(id);
  }
}
