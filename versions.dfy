/**
  Version strings: the embedded interpreter's "major.minor" target, the
  leftmost `\d+\.\d+` search that reads "major.minor" out of an
  interpreter's `--version` report, and the numpy requirement chosen from
  the target.
*/
module Versions {
  import opened Wrappers
  import opened Text

  function DigitChar(d: nat): (c: char)
    requires d < 10
    ensures IsDigit(c)
  {
    ('0' as int + d) as char
  }

  function DigitValue(c: char): nat
    requires IsDigit(c)
  {
    c as int - '0' as int
  }

  /** Decimal notation of a natural number, as `str(n)` writes it. */
  function Decimal(n: nat): (r: string)
    ensures |r| > 0 && AllDigits(r)
    decreases n
  {
    if n < 10 then [DigitChar(n)] else Decimal(n / 10) + [DigitChar(n % 10)]
  }

  /** The number a string of digits denotes. */
  function ValueOf(s: string): nat
    requires AllDigits(s)
  {
    if s == [] then 0 else 10 * ValueOf(s[..|s| - 1]) + DigitValue(s[|s| - 1])
  }

  lemma {:induction false} DecimalValue(n: nat)
    ensures ValueOf(Decimal(n)) == n
    decreases n
  {
    if n >= 10 {
      DecimalValue(n / 10);
      var d := Decimal(n);
      assert d[..|d| - 1] == Decimal(n / 10);
    }
  }

  /** Exactly the strings `\d+\.\d+` matches in full. */
  predicate IsMajorMinor(v: string) {
    exists a :: 0 < a < |v| - 1 && v[a] == '.' && AllDigits(v[..a]) && AllDigits(v[a + 1..])
  }

  /** `f"{major}.{minor}"`, the target version derived from `sys.version_info`. */
  function TargetVersion(major: nat, minor: nat): (v: string)
    ensures IsMajorMinor(v)
  {
    var v := Decimal(major) + "." + Decimal(minor);
    assert v[..|Decimal(major)|] == Decimal(major);
    assert v[|Decimal(major)| + 1..] == Decimal(minor);
    v
  }

  /** `target.replace(".", "")` joins the two numbers: "3.10" becomes "310". */
  lemma TargetVersionWithoutDot(major: nat, minor: nat)
    ensures RemoveChar(TargetVersion(major, minor), '.') == Decimal(major) + Decimal(minor)
  {
    var a, b := Decimal(major), Decimal(minor);
    assert '.' !in a by { forall k | 0 <= k < |a| ensures a[k] != '.' { assert IsDigit(a[k]); } }
    assert '.' !in b by { forall k | 0 <= k < |b| ensures b[k] != '.' { assert IsDigit(b[k]); } }
    RemoveCharConcat(a + ".", b, '.');
    RemoveCharConcat(a, ".", '.');
  }

  /** Different version numbers give different target strings. */
  lemma TargetVersionInjective(a: nat, b: nat, c: nat, d: nat)
    requires TargetVersion(a, b) == TargetVersion(c, d)
    ensures a == c && b == d
  {
    var v := TargetVersion(a, b);
    var da, dc := Decimal(a), Decimal(c);
    assert v == da + "." + Decimal(b) == dc + "." + Decimal(d);
    assert da == v[..|da|] == dc;
    assert Decimal(b) == v[|da| + 1..] == Decimal(d);
    DecimalValue(a);
    DecimalValue(b);
    DecimalValue(c);
    DecimalValue(d);
  }

  /** End of the run of digits that starts at `i` (`i` itself when `s[i]` is no digit). */
  function DigitsEnd(s: string, i: nat): (j: nat)
    requires i <= |s|
    ensures i <= j <= |s|
    ensures forall k :: i <= k < j ==> IsDigit(s[k])
    ensures j < |s| ==> !IsDigit(s[j])
    decreases |s| - i
  {
    if i < |s| && IsDigit(s[i]) then DigitsEnd(s, i + 1) else i
  }

  /** A run of digits is measured exactly by DigitsEnd. */
  lemma {:induction false} DigitsEndOfRun(s: string, i: nat, j: nat)
    requires i <= j <= |s|
    requires forall k :: i <= k < j ==> IsDigit(s[k])
    requires j < |s| ==> !IsDigit(s[j])
    ensures DigitsEnd(s, i) == j
    decreases j - i
  {
    if i < j {
      DigitsEndOfRun(s, i + 1, j);
    }
  }

  /**
    `\d+\.\d+` matches starting at `i`: digits, a dot right after the
    longest run of them, and a digit after the dot (a shorter first run
    cannot be followed by a dot, so the longest one is the only candidate).
  */
  predicate MatchesAt(s: string, i: nat)
    requires i <= |s|
  {
    var j := DigitsEnd(s, i);
    i < j && j + 1 < |s| && s[j] == '.' && IsDigit(s[j + 1])
  }

  /** End of the greedy match that starts at `i`. */
  function MatchEnd(s: string, i: nat): (e: nat)
    requires i <= |s| && MatchesAt(s, i)
    ensures i < e <= |s| && IsMajorMinor(s[i..e])
    ensures e == |s| || !IsDigit(s[e])
  {
    var j := DigitsEnd(s, i);
    var e := DigitsEnd(s, j + 1);
    var m := s[i..e];
    assert m[j - i] == '.' && m[..j - i] == s[i..j] && m[j - i + 1..] == s[j + 1..e];
    e
  }

  /** The first position at or after `i` where the pattern matches, as `re.search` scans. */
  function FirstMatchFrom(s: string, i: nat): (r: Option<nat>)
    requires i <= |s|
    ensures r.Some? ==> i <= r.value < |s| && MatchesAt(s, r.value)
    ensures r.Some? ==> forall k :: i <= k < r.value ==> !MatchesAt(s, k)
    ensures r.None? ==> forall k :: i <= k <= |s| ==> !MatchesAt(s, k)
    decreases |s| - i
  {
    if i == |s| then None
    else if MatchesAt(s, i) then Some(i)
    else FirstMatchFrom(s, i + 1)
  }

  /**
    `re.search(r'(\d+\.\d+)', s).group(1)`, or None when nothing matches:
    the leftmost match, extended as far as the second run of digits goes.
  */
  function SearchMajorMinor(s: string): (r: Option<string>)
    ensures r.None? <==> forall k :: 0 <= k <= |s| ==> !MatchesAt(s, k)
    ensures r.Some? ==> IsMajorMinor(r.value) && Contains(s, r.value)
    ensures r.Some? ==> exists i :: 0 <= i < |s| && MatchesAt(s, i) && r.value == s[i..MatchEnd(s, i)]
  {
    match FirstMatchFrom(s, 0)
    case None => None
    case Some(i) =>
      var m := s[i..MatchEnd(s, i)];
      assert OccursAt(s, m, i);
      Some(m)
  }

  /** Where the pattern matches at `i` and nowhere before, the search returns that match. */
  lemma SearchFindsLeftmost(s: string, i: nat)
    requires i <= |s| && MatchesAt(s, i)
    requires forall k :: 0 <= k < i ==> !MatchesAt(s, k)
    ensures SearchMajorMinor(s) == Some(s[i..MatchEnd(s, i)])
  {
    var r := FirstMatchFrom(s, 0);
    assert r.Some?;
    assert r.value == i;
  }

  /** Wherever a full `\d+\.\d+` starts, the per-position test holds: it misses no match. */
  lemma MatchesAtComplete(s: string, i: nat, e: nat)
    requires i < e <= |s| && IsMajorMinor(s[i..e])
    ensures MatchesAt(s, i)
  {
    var v := s[i..e];
    var a :| 0 < a < |v| - 1 && v[a] == '.' && AllDigits(v[..a]) && AllDigits(v[a + 1..]);
    forall k | i <= k < i + a ensures IsDigit(s[k]) {
      assert s[k] == v[..a][k - i];
    }
    assert s[i + a] == v[a];
    DigitsEndOfRun(s, i, i + a);
    assert s[i + a + 1] == v[a + 1..][0];
  }

  /** The search finds nothing exactly when no substring is a full `\d+\.\d+`. */
  lemma SearchNoneIffNoFullMatch(s: string)
    ensures SearchMajorMinor(s).None? <==> forall i, e :: 0 <= i < e <= |s| ==> !IsMajorMinor(s[i..e])
  {
    if SearchMajorMinor(s).None? {
      forall i, e | 0 <= i < e <= |s| ensures !IsMajorMinor(s[i..e]) {
        if IsMajorMinor(s[i..e]) {
          MatchesAtComplete(s, i, e);
          assert false;
        }
      }
    } else {
      var i := FirstMatchFrom(s, 0).value;
      var e := MatchEnd(s, i);
      assert IsMajorMinor(s[i..e]);
    }
  }

  /**
    Where a full `\d+\.\d+` starts at `i` and none starts earlier, the search
    returns the match at `i`, its minor number read greedily.
  */
  lemma SearchFindsLeftmostFullMatch(s: string, i: nat, e: nat)
    requires i < e <= |s| && IsMajorMinor(s[i..e])
    requires forall k, f :: 0 <= k < i && k < f <= |s| ==> !IsMajorMinor(s[k..f])
    ensures MatchesAt(s, i)
    ensures SearchMajorMinor(s) == Some(s[i..MatchEnd(s, i)])
  {
    MatchesAtComplete(s, i, e);
    forall k | 0 <= k < i ensures !MatchesAt(s, k) {
      if MatchesAt(s, k) {
        var f := MatchEnd(s, k);
        assert false;
      }
    }
    SearchFindsLeftmost(s, i);
  }

  /**
    A version report such as "Python 3.9.5" or "Python 3.10.1": the search
    returns exactly "major.minor", whatever digit-free text comes before it
    and whatever follows it that does not continue the minor number.
  */
  lemma {:induction false} SearchReadsReport(prefix: string, major: nat, minor: nat, rest: string)
    requires forall k :: 0 <= k < |prefix| ==> !IsDigit(prefix[k])
    requires rest == [] || !IsDigit(rest[0])
    ensures SearchMajorMinor(prefix + TargetVersion(major, minor) + rest) == Some(TargetVersion(major, minor))
  {
    var v := TargetVersion(major, minor);
    var s := prefix + v + rest;
    var da, db := Decimal(major), Decimal(minor);
    var p := |prefix|;
    assert v == da + "." + db;
    forall k | p <= k < p + |da| ensures IsDigit(s[k]) {
      assert s[k] == da[k - p];
    }
    assert s[p + |da|] == '.';
    DigitsEndOfRun(s, p, p + |da|);
    var q := p + |da| + 1;
    forall k | q <= k < q + |db| ensures IsDigit(s[k]) {
      assert s[k] == db[k - q];
    }
    assert q + |db| < |s| ==> s[q + |db|] == rest[0];
    DigitsEndOfRun(s, q, q + |db|);
    assert MatchesAt(s, p);
    forall k | 0 <= k < p ensures !MatchesAt(s, k) {
      assert s[k] == prefix[k];
    }
    SearchFindsLeftmost(s, p);
    assert s[p..q + |db|] == v;
  }

  /** "Python 3.9.5" reads as "3.9". */
  lemma ReportPython395()
    ensures SearchMajorMinor("Python 3.9.5") == Some("3.9")
  {
    assert TargetVersion(3, 9) == "3.9";
    assert "Python 3.9.5" == "Python " + TargetVersion(3, 9) + ".5";
    SearchReadsReport("Python ", 3, 9, ".5");
  }

  /** "Python 3.10.1" reads as "3.10", not "3.1". */
  lemma ReportPython3101()
    ensures SearchMajorMinor("Python 3.10.1") == Some("3.10")
  {
    assert Decimal(10) == "10";
    assert TargetVersion(3, 10) == "3.10";
    assert "Python 3.10.1" == "Python " + TargetVersion(3, 10) + ".1";
    SearchReadsReport("Python ", 3, 10, ".1");
  }

  /** A target version reads back as itself. */
  lemma TargetVersionReadsBack(major: nat, minor: nat)
    ensures SearchMajorMinor(TargetVersion(major, minor)) == Some(TargetVersion(major, minor))
  {
    assert "" + TargetVersion(major, minor) + "" == TargetVersion(major, minor);
    SearchReadsReport("", major, minor, "");
  }

  /**
    The numpy requirement passed to pip: NumPy 2 needs Python 3.10 or newer,
    so a 3.9 target pins the 1.x line and any other target takes the latest.
  */
  function NumpyRequirement(target: string): (req: string)
    ensures req == "numpy<2.0" || req == "numpy"
  {
    if target == "3.9" then "numpy<2.0" else "numpy"
  }

  /** The pin applies to exactly one interpreter version, 3.9. */
  lemma NumpyPinnedOnlyFor39(major: nat, minor: nat)
    ensures NumpyRequirement(TargetVersion(major, minor)) == "numpy<2.0" <==> major == 3 && minor == 9
  {
    assert TargetVersion(3, 9) == "3.9";
    if TargetVersion(major, minor) == "3.9" {
      TargetVersionInjective(major, minor, 3, 9);
    }
  }
}
