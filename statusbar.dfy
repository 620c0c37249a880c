/** The text of the status and sort labels (cmd/warren/helpers.go). The labels themselves are
    not modelled: each function gives the string the label is set to. */
module StatusBar {

  import opened Wrappers
  import opened Models
  import GoStrings
  import GoPaths

  /** What the status shows before any yank indicator: the selected path, or "Ready". */
  function Base(selected: Option<FileInfo>): string {
    if selected.Some? then selected.value.Path else "Ready"
  }

  /** The yank indicator: nothing, the one yanked file's base name, or the number of files. */
  function YankIndicator(yanked: seq<string>): string {
    if |yanked| == 0 then ""
    else if |yanked| == 1 then "  [Yanked: " + GoPaths.Base(yanked[0]) + "]"
    else "  [Yanked: " + GoStrings.NatToString(|yanked|) + " files]"
  }

  /** `updateStatusBar`: the text the status label is set to, for the selection and the yanked
      paths the view reports. */
  function StatusText(selected: Option<FileInfo>, yanked: seq<string>): (r: string)
    ensures |r| >= |Base(selected)| && r[..|Base(selected)|] == Base(selected)
    ensures r[|Base(selected)|..] == YankIndicator(yanked)
    ensures yanked == [] <==> r == Base(selected)
  {
    var status := Base(selected);
    var indicator := YankIndicator(yanked);
    assert yanked != [] ==> indicator[0] == ' ';
    assert (status + indicator)[..|status|] == status;
    assert (status + indicator)[|status|..] == indicator;
    status + indicator
  }

  /** The indicator for several files reads back as their number, and one for a single file
      names no count: it ends in "]" right after the base name. */
  lemma YankCountReadsBack(yanked: seq<string>)
    requires 1 < |yanked| <= GoStrings.MaxInt64
    ensures var s := YankIndicator(yanked);
      && |s| > 18 && s[..11] == "  [Yanked: " && s[|s| - 7..] == " files]"
      && GoStrings.Atoi(s[11..|s| - 7]) == Some(|yanked|)
  {
    var n := GoStrings.NatToString(|yanked|);
    var s := YankIndicator(yanked);
    assert s == "  [Yanked: " + n + " files]";
    assert s[11..|s| - 7] == n;
    assert GoStrings.IntToString(|yanked|) == n;
    GoStrings.AtoiIntToString(|yanked|);
  }

  /** A single yanked file is shown by its base name. */
  lemma SingleYankShowsBaseName(selected: Option<FileInfo>, path: string)
    ensures var r := StatusText(selected, [path]);
      r == Base(selected) + "  [Yanked: " + GoPaths.Base(path) + "]"
  {
    var r := StatusText(selected, [path]);
    assert r[..|Base(selected)|] + r[|Base(selected)|..] == r;
  }

  /** `formatSortMode`, given the text of the mode: "Sort: ", the mode, a space and an arrow. */
  function FormatSortMode(modeText: string, order: int): (r: string)
    ensures |r| == |modeText| + 8
    ensures r[..6] == "Sort: " && r[6..6 + |modeText|] == modeText && r[6 + |modeText|] == ' '
    ensures r[|r| - 1] == '↓' <==> order == SortDescending
    ensures r[|r| - 1] == '↓' || r[|r| - 1] == '↑'
  {
    var arrow := if order == 1 then "↓" else "↑";
    "Sort: " + modeText + " " + arrow
  }

  /** The two orders give two different labels for the same mode. */
  lemma SortLabelsDiffer(modeText: string)
    ensures FormatSortMode(modeText, SortAscending) != FormatSortMode(modeText, SortDescending)
  {
    var a := FormatSortMode(modeText, SortAscending);
    assert a[|a| - 1] == '↑';
  }
}
