/** The usual optional value. */
module Wrappers {
  datatype Option<T> = None | Some(value: T)
}

/**
  The string operations the installer script relies on: substring tests,
  ASCII case folding, whitespace stripping, splitting at a separator and
  Windows path joining. Strings are `seq<char>`; only ASCII digits, ASCII
  letters and ASCII whitespace (plus the four separator controls) are
  recognised.
*/
module Text {

  predicate IsDigit(c: char) { '0' <= c <= '9' }

  predicate AllDigits(s: string) { forall k :: 0 <= k < |s| ==> IsDigit(s[k]) }

  /** The characters `str.strip()` removes, restricted to ASCII. */
  predicate IsSpace(c: char) { c == ' ' || ('\t' <= c <= '\r') || ('\U{1C}' <= c <= '\U{1F}') }

  predicate NoSpaces(s: string) { forall k :: 0 <= k < |s| ==> !IsSpace(s[k]) }

  /** `t` occurs in `s` starting at index `i`. */
  predicate OccursAt(s: string, t: string, i: int) {
    0 <= i && i + |t| <= |s| && s[i..i + |t|] == t
  }

  /** Python's `t in s` on strings. */
  predicate Contains(s: string, t: string) {
    exists i :: 0 <= i <= |s| && OccursAt(s, t, i)
  }

  predicate EndsWith(s: string, suffix: string) {
    |suffix| <= |s| && s[|s| - |suffix|..] == suffix
  }

  /** A substring of a substring is a substring. */
  lemma ContainsTransitive(s: string, m: string, t: string)
    requires Contains(s, m) && Contains(m, t)
    ensures Contains(s, t)
  {
    var i :| 0 <= i <= |s| && OccursAt(s, m, i);
    var j :| 0 <= j <= |m| && OccursAt(m, t, j);
    assert j + |t| <= |m|;
    forall k | 0 <= k < |t| ensures s[i + j + k] == t[k] {
      assert m[j + k] == t[k];
      assert s[i..i + |m|][j + k] == s[i + j + k];
    }
    assert s[i + j..i + j + |t|] == t;
    assert OccursAt(s, t, i + j);
  }

  function LowerChar(c: char): char {
    if 'A' <= c <= 'Z' then (c as int + 32) as char else c
  }

  /** `str.lower()` on ASCII letters. */
  function Lower(s: string): (r: string)
    ensures |r| == |s|
    ensures forall k :: 0 <= k < |s| ==> r[k] == LowerChar(s[k])
  {
    seq(|s|, k requires 0 <= k < |s| => LowerChar(s[k]))
  }

  /** Folding both sides keeps a case-sensitive occurrence. */
  lemma ContainsLower(s: string, t: string)
    requires Contains(s, t)
    ensures Contains(Lower(s), Lower(t))
  {
    var i :| 0 <= i <= |s| && OccursAt(s, t, i);
    assert Lower(s)[i..i + |t|] == Lower(t);
    assert OccursAt(Lower(s), Lower(t), i);
  }

  /** Number of leading whitespace characters. */
  function LeadingSpaces(s: string): (n: nat)
    ensures n <= |s|
    ensures forall k :: 0 <= k < n ==> IsSpace(s[k])
    ensures n < |s| ==> !IsSpace(s[n])
  {
    if s != [] && IsSpace(s[0]) then 1 + LeadingSpaces(s[1..]) else 0
  }

  /** Start of the trailing whitespace of `s`, not going below `lo`. */
  function TrailingStart(s: string, lo: nat): (m: nat)
    requires lo <= |s|
    ensures lo <= m <= |s|
    ensures forall k :: m <= k < |s| ==> IsSpace(s[k])
    ensures m > lo ==> !IsSpace(s[m - 1])
    decreases |s|
  {
    if |s| > lo && IsSpace(s[|s| - 1]) then TrailingStart(s[..|s| - 1], lo) else |s|
  }

  /** `str.strip()`: the slice of `s` between its leading and trailing whitespace. */
  function Strip(s: string): (r: string)
    ensures r == [] || (!IsSpace(r[0]) && !IsSpace(r[|r| - 1]))
    ensures Contains(s, r)
    ensures StrippedAt(s, r, LeadingSpaces(s), TrailingStart(s, LeadingSpaces(s)))
  {
    var i := LeadingSpaces(s);
    var m := TrailingStart(s, i);
    assert OccursAt(s, s[i..m], i);
    assert StrippedAt(s, s[i..m], i, m);
    s[i..m]
  }

  /** `r` is `s[i..m]`, and only whitespace lies before `i` and from `m` on. */
  predicate StrippedAt(s: string, r: string, i: int, m: int) {
    && 0 <= i <= m <= |s| && r == s[i..m]
    && (forall k :: 0 <= k < i ==> IsSpace(s[k]))
    && (forall k :: m <= k < |s| ==> IsSpace(s[k]))
  }

  /**
    Looking for a non-empty word without whitespace in a string or in its
    stripped form gives the same answer.
  */
  lemma StripPreservesContains(s: string, t: string)
    requires t != [] && NoSpaces(t)
    ensures Contains(Strip(s), t) <==> Contains(s, t)
  {
    if Contains(Strip(s), t) {
      ContainsTransitive(s, Strip(s), t);
    }
    if Contains(s, t) {
      var p :| 0 <= p <= |s| && OccursAt(s, t, p);
      OccurrenceInsideStrip(s, t, p);
    }
  }

  /** An occurrence of a word without whitespace lies between the leading and trailing whitespace. */
  lemma OccurrenceInsideStrip(s: string, t: string, p: nat)
    requires t != [] && NoSpaces(t) && OccursAt(s, t, p)
    ensures Contains(Strip(s), t)
  {
    var i := LeadingSpaces(s);
    var m := TrailingStart(s, i);
    assert s[p] == t[0];
    assert i <= p;
    assert s[p + |t| - 1] == t[|t| - 1];
    assert p + |t| <= m;
    SliceKeepsOccurrence(s, t, p, i, m);
  }

  lemma SliceKeepsOccurrence(s: string, t: string, p: nat, i: nat, m: nat)
    requires OccursAt(s, t, p) && i <= p && p + |t| <= m <= |s|
    ensures OccursAt(s[i..m], t, p - i)
  {
    forall k | 0 <= k < |t| ensures s[i..m][p - i + k] == t[k] {
      assert s[p..p + |t|][k] == t[k];
    }
    assert s[i..m][p - i..p - i + |t|] == t;
  }

  /** `s.split(sep)`: the pieces between separators, empty ones included. */
  function Split(s: string, sep: char): (r: seq<string>)
    ensures |r| > 0
    ensures forall k :: 0 <= k < |r| ==> sep !in r[k]
    decreases |s|
  {
    if s == [] then [[]]
    else
      var rest := Split(s[1..], sep);
      if s[0] == sep then [[]] + rest else [[s[0]] + rest[0]] + rest[1..]
  }

  function JoinWith(parts: seq<string>, sep: char): string
    requires |parts| > 0
  {
    if |parts| == 1 then parts[0] else parts[0] + [sep] + JoinWith(parts[1..], sep)
  }

  /** Splitting loses nothing: joining the pieces back gives the input. */
  lemma {:induction false} SplitJoin(s: string, sep: char)
    ensures JoinWith(Split(s, sep), sep) == s
    decreases |s|
  {
    if s != [] {
      var rest := Split(s[1..], sep);
      SplitJoin(s[1..], sep);
      if s[0] == sep {
        assert ([[]] + rest)[1..] == rest;
      } else {
        var parts := [[s[0]] + rest[0]] + rest[1..];
        if |rest| == 1 {
          assert JoinWith(parts, sep) == [s[0]] + rest[0];
        } else {
          assert parts[1..] == rest[1..];
          assert JoinWith(rest, sep) == rest[0] + [sep] + JoinWith(rest[1..], sep);
          assert JoinWith(parts, sep) == [s[0]] + JoinWith(rest, sep);
        }
      }
    }
  }

  /**
    `str.splitlines()` on text whose line ends are `\n` (what a text-mode
    pipe delivers): no lines for "", and no empty last line after a final `\n`.
  */
  function SplitLines(s: string): (r: seq<string>)
    ensures s == [] <==> r == []
    ensures forall k :: 0 <= k < |r| ==> '\n' !in r[k]
    ensures r != [] ==> JoinWith(r, '\n') == (if s[|s| - 1] == '\n' then s[..|s| - 1] else s)
  {
    if s == [] then []
    else if s[|s| - 1] == '\n' then
      SplitJoin(s[..|s| - 1], '\n');
      Split(s[..|s| - 1], '\n')
    else
      SplitJoin(s, '\n');
      Split(s, '\n')
  }

  /** `s.replace(from, to)` for single characters. */
  function ReplaceChar(s: string, from: char, to: char): (r: string)
    ensures |r| == |s|
    ensures forall k :: 0 <= k < |s| ==> r[k] == (if s[k] == from then to else s[k])
  {
    if s == [] then [] else [if s[0] == from then to else s[0]] + ReplaceChar(s[1..], from, to)
  }

  /** `s.replace(c, "")`. */
  function RemoveChar(s: string, c: char): (r: string)
    ensures c !in r
    ensures |r| <= |s|
    ensures c !in s ==> r == s
  {
    if s == [] then [] else (if s[0] == c then [] else [s[0]]) + RemoveChar(s[1..], c)
  }

  /** Removing a character from a concatenation removes it from each part, keeping the order of the rest. */
  lemma {:induction false} RemoveCharConcat(s: string, t: string, c: char)
    ensures RemoveChar(s + t, c) == RemoveChar(s, c) + RemoveChar(t, c)
    decreases |s|
  {
    if s != [] {
      assert (s + t)[0] == s[0] && (s + t)[1..] == s[1..] + t;
      RemoveCharConcat(s[1..], t, c);
      var h := if s[0] == c then [] else [s[0]];
      assert RemoveChar(s + t, c) == h + RemoveChar(s[1..] + t, c);
      assert RemoveChar(s, c) == h + RemoveChar(s[1..], c);
    } else {
      assert s + t == t;
    }
  }

  predicate IsPathSep(c: char) { c == '\\' || c == '/' }

  /**
    `ntpath.join(a, b)` for a relative `b`: a backslash goes between the two
    unless `a` is empty, is a bare drive such as "C:", or already ends in a
    separator.
  */
  function JoinPath(a: string, b: string): (r: string)
    ensures EndsWith(r, b)
    ensures a != [] && !IsPathSep(a[|a| - 1]) && !(|a| == 2 && a[1] == ':') ==> r == a + "\\" + b
  {
    if a == [] || IsPathSep(a[|a| - 1]) || (|a| == 2 && a[1] == ':') then a + b else a + "\\" + b
  }
}
