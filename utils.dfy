/** Path and size helpers of the file-operation package (internal/fileops/utils.go). */
module FileUtils {

  import GoStrings
  import GoPaths

  // ---------------------------------------------------------------- parent directory

  /** `path` with trailing slashes removed, keeping a lone leading one. */
  function TrimTrailingSlashes(path: string): (r: string)
    ensures |r| <= |path| && r == path[..|r|]
    ensures |path| > 0 ==> |r| > 0
    ensures |r| > 1 ==> r[|r| - 1] != '/'
    ensures forall i :: |r| <= i < |path| ==> path[i] == '/'
  {
    if |path| > 1 && path[|path| - 1] == '/' then TrimTrailingSlashes(path[..|path| - 1]) else path
  }

  /** What `GetParentDir` returns: "/" for the root; otherwise, after trailing slashes are
      dropped, everything before the last '/', "/" when that slash is the first character, and
      "." when there is no slash at all. */
  function ParentDir(path: string): string {
    if path == "/" then "/"
    else
      var q := TrimTrailingSlashes(path);
      var k := GoPaths.AfterLastSlash(q);
      if k == 0 then "." else if k == 1 then "/" else q[..k - 1]
  }

  /** `GetParentDir(path)`: trims in one loop and scans backwards in another. */
  method GetParentDir(path: string) returns (r: string)
    ensures r == ParentDir(path)
  {
    if path == "/" {
      return "/";
    }
    var p := path;
    while |p| > 1 && p[|p| - 1] == '/'
      invariant TrimTrailingSlashes(p) == TrimTrailingSlashes(path)
      decreases |p|
    {
      p := p[..|p| - 1];
    }
    var i := |p| - 1;
    while i >= 0
      invariant -1 <= i < |p|
      invariant forall k :: i < k < |p| ==> p[k] != '/'
      invariant GoPaths.AfterLastSlash(p) == GoPaths.AfterLastSlash(p[..i + 1])
      decreases i
    {
      if p[i] == '/' {
        assert GoPaths.AfterLastSlash(p[..i + 1]) == i + 1;
        if i == 0 {
          return "/";
        }
        return p[..i];
      }
      assert p[..i + 1][..i] == p[..i];
      i := i - 1;
    }
    return ".";
  }

  /** A path without any '/' has "." as its parent. */
  lemma ParentOfRelativeName(path: string)
    requires '/' !in path
    ensures ParentDir(path) == "."
  {
  }

  /** A path whose only '/' left after trimming is its first character has the root as parent. */
  lemma ParentOfTopLevel(path: string)
    requires |path| > 0 && path[0] == '/'
    requires forall i :: 0 < i < |TrimTrailingSlashes(path)| ==> TrimTrailingSlashes(path)[i] != '/'
    ensures ParentDir(path) == "/"
  {
    var q := TrimTrailingSlashes(path);
    assert q[0] == '/';
  }

  /** When a '/' is left after trimming (and the path is not the root), the parent is what comes
      before the last such '/': a proper prefix of the path, followed in it by that '/'. */
  lemma ParentIsProperPrefix(path: string)
    requires path != "/" && '/' in TrimTrailingSlashes(path)
    ensures var r := ParentDir(path); |r| < |path| && r == path[..|r|]
    ensures var r := ParentDir(path); r == "/" || path[|r|] == '/'
  {
    var q := TrimTrailingSlashes(path);
    var j :| 0 <= j < |q| && q[j] == '/';
    var k := GoPaths.AfterLastSlash(q);
    assert k > j;
    assert q == path[..|q|];
    assert q[k - 1] == path[k - 1];
    if k > 1 {
      var r := q[..k - 1];
      assert ParentDir(path) == r;
      assert r == path[..k - 1];
    }
  }

  /** No two slashes in a row anywhere in the path. */
  predicate NoDoubleSlash(p: string) {
    forall i :: 0 < i < |p| ==> !(p[i - 1] == '/' && p[i] == '/')
  }

  /** For an absolute path in simple form, the parent joined with the base name gives the path
      back: `GetParentDir` and `filepath.Base` split a path into its two halves. */
  lemma ParentJoinBase(p: string)
    requires GoPaths.IsAbs(p) && p != "/" && p[|p| - 1] != '/' && NoDoubleSlash(p)
    ensures GoPaths.Join(ParentDir(p), GoPaths.Base(p)) == p
  {
    var k := GoPaths.AfterLastSlash(p);
    assert TrimTrailingSlashes(p) == p;
    GoPaths.StripSlashesNoop(p);
    assert GoPaths.Base(p) == p[k..];
    if k == 1 {
      assert p == "/" + p[1..];
    } else {
      assert p[k - 2] != '/';
      assert p == p[..k - 1] + "/" + p[k..];
    }
  }

  // ---------------------------------------------------------------- sizes

  const Units: seq<string> := ["KB", "MB", "GB", "TB", "PB"]

  /** The parts of `FormatSize`'s text that are not floating point: either the whole "%d B"
      text, or the divisor and unit label of the "%.1f %s" text. */
  datatype SizeText = Plain(text: string) | Scaled(div: int, unit: string)

  function Pow1024(e: nat): (r: nat)
    ensures r >= 1
  {
    if e == 0 then 1 else 1024 * Pow1024(e - 1)
  }

  /** The number of bytes one unit label stands for. */
  function UnitValue(i: nat): nat
    requires i < |Units|
  {
    Pow1024(i + 1)
  }

  /** How many times the loop of `FormatSize` divides `n` by 1024 before it drops below 1024. */
  function LoopCount(n: nat): nat
    decreases n
  {
    if n < 1024 then 0 else 1 + LoopCount(n / 1024)
  }

  lemma DivUnique(b: int, m: int, q: int, r: int)
    requires m > 0 && 0 <= r < m && b == m * q + r
    ensures b / m == q
  {
    var q0, r0 := b / m, b % m;
    assert b == m * q0 + r0;
    if q0 < q {
      MulMonotone(m, q0 + 1, q);
    } else if q0 > q {
      MulMonotone(m, q + 1, q0);
    }
  }

  lemma DivDiv(b: nat, d: nat, k: nat)
    requires d > 0 && k > 0
    ensures b / d / k == b / (d * k)
  {
    var q := b / d;
    var q2 := q / k;
    var s := q % k;
    assert b == d * q + b % d;
    assert q == k * q2 + s;
    MulSplit(d, k, q2, s);
    MulMonotone(d, s, k - 1);
    MulPredecessor(d, k);
    DivUnique(b, d * k, q2, d * s + b % d);
  }

  lemma MulSplit(d: int, k: int, q: int, s: int)
    ensures d * (k * q + s) == (d * k) * q + d * s
  {
  }

  lemma MulPredecessor(d: int, k: int)
    ensures d * (k - 1) == d * k - d
  {
  }

  lemma DivBound(b: nat, d: nat)
    requires d > 0 && b / d >= 1
    ensures d <= b
  {
    assert b == d * (b / d) + b % d;
    assert d * (b / d) >= d;
  }

  lemma MulMonotone(d: nat, x: int, y: int)
    requires x <= y
    ensures d * x <= d * y
  {
  }

  /** A quotient between 1 and 1023 puts the dividend between the divisor and 1024 times it. */
  lemma QuotientBounds(b: nat, d: nat)
    requires d > 0 && 1 <= b / d < 1024
    ensures d <= b < 1024 * d
  {
    var n := b / d;
    DivBound(b, d);
    assert b == d * n + b % d;
    assert d * (n + 1) == d * n + d;
    assert d * (n + 1) <= d * 1024 by { MulMonotone(d, n + 1, 1024); }
  }

  /** `FormatSize(bytes)` as written. */
  method FormatSizeAsWritten(bytes: int) returns (r: SizeText)
    requires GoStrings.MinInt64 <= bytes <= GoStrings.MaxInt64
    ensures bytes < 1024 <==> r.Plain?
    ensures r.Plain? ==> r.text == GoStrings.IntToString(bytes) + " B"
    ensures r.Scaled? ==> r.div <= bytes < 1024 * r.div
    ensures r.Scaled? ==> var e := LoopCount(bytes / 1024);
      r.div == Pow1024(e + 1) && r.unit == Units[if e < 4 then e else 4]
  {
    if bytes < 1024 {
      return Plain(GoStrings.IntToString(bytes) + " B");
    }
    var div, exp := 1024, 0;
    var n := bytes / 1024;
    while n >= 1024
      invariant div == Pow1024(exp + 1) && 1 <= n && n == bytes / div
      invariant LoopCount(bytes / 1024) == exp + LoopCount(n)
      decreases n
    {
      DivDiv(bytes, div, 1024);
      div := div * 1024;
      exp := exp + 1;
      n := n / 1024;
    }
    QuotientBounds(bytes, div);
    if exp >= |Units| {
      exp := |Units| - 1;
    }
    return Scaled(div, Units[exp]);
  }

  /** What `FormatSizeAsWritten` returns for 2^60 bytes (one EiB): the loop has run five times,
      the label is clipped to "PB" but the divisor is 1024^6, so the text reads "1.0 PB" for
      what is 1024 PB. */
  lemma FormatSizeMislabelsExbibytes()
    ensures var b := 1152921504606846976;
      LoopCount(b / 1024) == 5 && Pow1024(5 + 1) == b && Units[4] == "PB" && UnitValue(4) != b
  {
    var b := 1152921504606846976;
    assert LoopCount(1) == 0;
    assert LoopCount(1024) == 1 + LoopCount(1);
    assert LoopCount(1048576) == 1 + LoopCount(1024);
    assert LoopCount(1073741824) == 1 + LoopCount(1048576);
    assert LoopCount(1099511627776) == 1 + LoopCount(1073741824);
    assert LoopCount(1125899906842624) == 1 + LoopCount(1099511627776);
    assert b / 1024 == 1125899906842624;
    assert Pow1024(6) == 1024 * Pow1024(5);
    assert Pow1024(5) == 1125899906842624 by {
      assert Pow1024(2) == 1048576;
      assert Pow1024(3) == 1073741824;
      assert Pow1024(4) == 1099511627776;
    }
  }

  /** `FormatSize` as intended: the loop stops at the largest unit, so the divisor is always the
      value of the label and the shown number is the size in that unit (below 1024 except in PB). */
  method FormatSize(bytes: int) returns (r: SizeText)
    requires GoStrings.MinInt64 <= bytes <= GoStrings.MaxInt64
    ensures bytes < 1024 <==> r.Plain?
    ensures r.Plain? ==> r.text == GoStrings.IntToString(bytes) + " B"
    ensures r.Scaled? ==> exists i :: 0 <= i < |Units| && r.unit == Units[i] && r.div == UnitValue(i)
    ensures r.Scaled? ==> r.div <= bytes && (bytes < 1024 * r.div || r.unit == "PB")
  {
    if bytes < 1024 {
      return Plain(GoStrings.IntToString(bytes) + " B");
    }
    var div, exp := 1024, 0;
    var n := bytes / 1024;
    while n >= 1024 && exp < |Units| - 1
      invariant 0 <= exp < |Units|
      invariant div == Pow1024(exp + 1) && 1 <= n && n == bytes / div
      decreases n
    {
      DivDiv(bytes, div, 1024);
      div := div * 1024;
      exp := exp + 1;
      n := n / 1024;
    }
    assert div <= bytes by { DivBound(bytes, div); }
    if n < 1024 { QuotientBounds(bytes, div); }
    return Scaled(div, Units[exp]);
  }
}
