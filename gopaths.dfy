/** The slash-separated path helpers of Go's `path/filepath` on Unix that the file manager calls.
    `Join` is stated for one directory and one entry name, the only way it is used here, and
    without the lexical clean-up (`..`, `.`, repeated slashes) that Go's `Join` also performs. */
module GoPaths {

  /** `filepath.IsAbs` on Unix. */
  predicate IsAbs(p: string) {
    |p| > 0 && p[0] == '/'
  }

  /** `filepath.Join(dir, name)`: empty parts are dropped, otherwise one '/' separates them. */
  function Join(dir: string, name: string): (r: string)
    ensures name == "" ==> r == dir
    ensures dir == "" ==> r == name
    ensures dir != "" && name != "" ==> |r| > |dir| && r[..|dir|] == dir
  {
    if name == "" then dir
    else if dir == "" then name
    else if dir[|dir| - 1] == '/' then dir + name
    else dir + "/" + name
  }

  /** A name with no '/' joined under a directory is found again as the last path element. */
  lemma JoinBase(dir: string, name: string)
    requires name != "" && '/' !in name && dir != ""
    ensures Base(Join(dir, name)) == name
  {
    var r := Join(dir, name);
    assert r == (if dir[|dir| - 1] == '/' then dir else dir + "/") + name;
    var pre := if dir[|dir| - 1] == '/' then dir else dir + "/";
    assert pre[|pre| - 1] == '/';
    StripSlashesNoop(r);
    LastSlashAfter(pre, name);
  }

  /** Drops every trailing '/'. */
  function StripTrailing(p: string): (r: string)
    ensures |r| <= |p| && r == p[..|r|]
    ensures |r| > 0 ==> r[|r| - 1] != '/'
    ensures forall i :: |r| <= i < |p| ==> p[i] == '/'
  {
    if |p| > 0 && p[|p| - 1] == '/' then StripTrailing(p[..|p| - 1]) else p
  }

  lemma StripSlashesNoop(p: string)
    requires |p| > 0 && p[|p| - 1] != '/'
    ensures StripTrailing(p) == p
  {
  }

  /** Index just after the last '/' of `p` (0 when there is none). */
  function AfterLastSlash(p: string): (k: nat)
    ensures k <= |p|
    ensures k > 0 ==> p[k - 1] == '/'
    ensures forall i :: k <= i < |p| ==> p[i] != '/'
  {
    if |p| == 0 then 0
    else if p[|p| - 1] == '/' then |p|
    else AfterLastSlash(p[..|p| - 1])
  }

  lemma LastSlashAfter(pre: string, name: string)
    requires |pre| > 0 && pre[|pre| - 1] == '/' && '/' !in name
    ensures AfterLastSlash(pre + name) == |pre|
  {
    var p := pre + name;
    assert p[|pre| - 1] == '/';
    assert forall i :: |pre| <= i < |p| ==> p[i] == name[i - |pre|];
  }

  /** `filepath.Base`: the last element; "." for the empty path and "/" for a path of slashes. */
  function Base(p: string): (r: string)
    ensures p == "" ==> r == "."
    ensures p != "" ==> r != "" && (r == "/" || '/' !in r)
  {
    if p == "" then "."
    else
      var q := StripTrailing(p);
      if q == "" then "/"
      else q[AfterLastSlash(q)..]
  }

  /** `filepath.Ext`: the suffix from the last '.' of the final element, or "". */
  function Ext(p: string): (r: string)
    ensures |r| <= |p| && (r == "" || (r[0] == '.' && '/' !in r && r == p[|p| - |r|..]))
    ensures r != "" ==> '.' !in r[1..]
    decreases |p|
  {
    if |p| == 0 || p[|p| - 1] == '/' then ""
    else if p[|p| - 1] == '.' then "."
    else
      var e := Ext(p[..|p| - 1]);
      if e == "" then "" else e + [p[|p| - 1]]
  }
}
