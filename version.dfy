/** Warren's version strings (internal/version/version.go). `runtime.GOOS` and `runtime.GOARCH`
    are parameters. */
module Version {

  import opened Wrappers
  import GoStrings

  const Major: nat := 0
  const Minor: nat := 3
  const Patch: nat := 0
  /** Empty for a stable release. */
  const PreRelease: string := ""

  /** The version text for the given parts: `major.minor.patch`, and `-pre` when `pre` is set. */
  function VersionOf(major: nat, minor: nat, patch: nat, pre: string): (r: string)
    ensures pre == "" ==> '.' in r && '-' !in r
    ensures pre != "" ==> |r| > |pre| + 1 && r[|r| - |pre| - 1..] == "-" + pre
  {
    var a := GoStrings.NatToString(major);
    var b := GoStrings.NatToString(minor);
    var c := GoStrings.NatToString(patch);
    var v := a + "." + b + "." + c;
    assert v[|a|] == '.';
    assert forall i :: 0 <= i < |v| ==> v[i] == '.' || GoStrings.IsDigit(v[i]);
    if pre != "" then v + "-" + pre else v
  }

  /** A stable version splits at its dots into the three numbers. */
  lemma StableVersionReadsBack(major: nat, minor: nat, patch: nat)
    requires major <= GoStrings.MaxInt64 && minor <= GoStrings.MaxInt64 && patch <= GoStrings.MaxInt64
    ensures var parts := GoStrings.Split(VersionOf(major, minor, patch, ""), '.');
      && |parts| == 3
      && GoStrings.Atoi(parts[0]) == Some(major)
      && GoStrings.Atoi(parts[1]) == Some(minor)
      && GoStrings.Atoi(parts[2]) == Some(patch)
  {
    var a := GoStrings.NatToString(major);
    var b := GoStrings.NatToString(minor);
    var c := GoStrings.NatToString(patch);
    NoDot(a);
    NoDot(b);
    NoDot(c);
    SplitThree(a, b, c);
    AtoiNat(major);
    AtoiNat(minor);
    AtoiNat(patch);
  }

  /** `Split` of three dot-free fields joined by dots. */
  lemma SplitThree(a: string, b: string, c: string)
    requires '.' !in a && '.' !in b && '.' !in c
    ensures GoStrings.Split(a + "." + b + "." + c, '.') == [a, b, c]
  {
    assert a + "." + b + "." + c == a + "." + (b + "." + c);
    SplitAtFirstDot(a, b + "." + c);
    SplitAtFirstDot(b, c);
  }

  lemma AtoiNat(n: nat)
    requires n <= GoStrings.MaxInt64
    ensures GoStrings.Atoi(GoStrings.NatToString(n)) == Some(n)
  {
    GoStrings.AtoiIntToString(n);
  }

  lemma NoDot(s: string)
    requires forall i :: 0 <= i < |s| ==> GoStrings.IsDigit(s[i])
    ensures '.' !in s
  {
  }

  /** `Split` of `field.rest` when `field` has no dot. */
  lemma SplitAtFirstDot(field: string, rest: string)
    requires '.' !in field
    ensures GoStrings.Split(field + "." + rest, '.') == [field] + GoStrings.Split(rest, '.')
  {
    var s := field + "." + rest;
    assert s[|field|] == '.';
    var i := GoStrings.IndexOf(s, '.');
    assert s[..i] == field;
    assert s[i + 1..] == rest;
  }

  /** `Version()`. */
  function Version(): (r: string)
    ensures r == "0.3.0"
  {
    assert GoStrings.NatToString(0) == "0" && GoStrings.NatToString(3) == "3";
    VersionOf(Major, Minor, Patch, PreRelease)
  }

  /** `Short()`: the version with a leading "v". */
  function Short(): (r: string)
    ensures r == "v" + Version() && r == "v0.3.0"
  {
    "v" + Version()
  }

  /** `FullVersion()`, given the operating system and architecture names. */
  function FullVersion(os: string, arch: string): (r: string)
    ensures r == "Warren " + Short() + " (" + os + "/" + arch + ")"
    ensures r[..14] == "Warren v0.3.0 " && r[|r| - 1] == ')'
  {
    "Warren v" + Version() + " (" + os + "/" + arch + ")"
  }

  /** The released version is stable: it has dots and no pre-release dash. */
  lemma ReleasedVersionIsStable()
    ensures '.' in Version() && '-' !in Version()
  {
  }
}
