/**
 * The few Python `str` operations cuesplit relies on:
 * `str.isspace`, `str.strip`, `str.find`, `str.split(sep, n)`, `sep.join`.
 */
module Strings {

  /** Python's `str.isspace`, the notion of whitespace used by `strip()`, `int()` and `\s`. */
  predicate IsSpace(c: char) {
    ('\t' <= c <= '\r') || ('\U{1c}' <= c <= ' ') || c == '\U{85}' || c == '\U{a0}'
    || c == '\U{1680}' || ('\U{2000}' <= c <= '\U{200a}') || c == '\U{2028}' || c == '\U{2029}'
    || c == '\U{202f}' || c == '\U{205f}' || c == '\U{3000}'
  }

  predicate NoSpace(s: string) {
    forall i :: 0 <= i < |s| ==> !IsSpace(s[i])
  }

  /** The position of the first non-whitespace character of `s` at or after `i`, or `|s|`. */
  function SkipSpaces(s: string, i: nat): (j: nat)
    requires i <= |s|
    ensures i <= j <= |s|
    ensures forall k :: i <= k < j ==> IsSpace(s[k])
    ensures j < |s| ==> !IsSpace(s[j])
    decreases |s| - i
  {
    if i == |s| || !IsSpace(s[i]) then i else SkipSpaces(s, i + 1)
  }

  /** The position just after the last non-whitespace character of `s[lo..j]`, or `lo`. */
  function SkipSpacesBack(s: string, lo: nat, j: nat): (k: nat)
    requires lo <= j <= |s|
    ensures lo <= k <= j
    ensures forall m :: k <= m < j ==> IsSpace(s[m])
    ensures k > lo ==> !IsSpace(s[k - 1])
    decreases j
  {
    if j == lo || !IsSpace(s[j - 1]) then j else SkipSpacesBack(s, lo, j - 1)
  }

  /** `s.lstrip()` */
  function TrimStart(s: string): (r: string)
    ensures |r| <= |s| && r == s[|s| - |r|..]
    ensures r != [] ==> !IsSpace(r[0])
    ensures forall i :: 0 <= i < |s| - |r| ==> IsSpace(s[i])
  {
    s[SkipSpaces(s, 0)..]
  }

  /** `s.rstrip()` */
  function TrimEnd(s: string): (r: string)
    ensures |r| <= |s| && r == s[..|r|]
    ensures r != [] ==> !IsSpace(r[|r| - 1])
    ensures forall i :: |r| <= i < |s| ==> IsSpace(s[i])
  {
    s[..SkipSpacesBack(s, 0, |s|)]
  }

  /** `s.strip()`: `s` without its leading and trailing whitespace. */
  function Strip(s: string): (r: string)
    ensures |r| <= |s|
    ensures r != [] ==> !IsSpace(r[0]) && !IsSpace(r[|r| - 1])
  {
    var a := SkipSpaces(s, 0);
    s[a..SkipSpacesBack(s, a, |s|)]
  }

  /** `s.strip()` is the part of `s` between its leading and its trailing whitespace. */
  lemma StripInfix(s: string)
    ensures var a := |s| - |TrimStart(s)|;
      && a + |Strip(s)| <= |s| && Strip(s) == s[a..a + |Strip(s)|]
      && (forall i :: 0 <= i < a ==> IsSpace(s[i]))
      && (forall i :: a + |Strip(s)| <= i < |s| ==> IsSpace(s[i]))
  {
  }

  /** A non-whitespace character of `s` is still in `s.lstrip()`, shifted by what was removed. */
  lemma TrimStartKeeps(s: string, i: nat)
    requires i < |s| && !IsSpace(s[i])
    ensures |s| - |TrimStart(s)| <= i && TrimStart(s)[i - (|s| - |TrimStart(s)|)] == s[i]
  {
    var r := TrimStart(s);
    var k := |s| - |r|;
    assert i >= k;
    assert r == s[k..];
  }

  /** A non-whitespace character of `s` is still in `s.rstrip()`, in its place. */
  lemma TrimEndKeeps(s: string, i: nat)
    requires i < |s| && !IsSpace(s[i])
    ensures i < |TrimEnd(s)| && TrimEnd(s)[i] == s[i]
  {
    var r := TrimEnd(s);
    assert i < |r|;
    assert r == s[..|r|];
  }

  /** Skipping blanks in `p + x` from inside `x` is skipping them in `x`, shifted by `|p|`. */
  lemma {:induction false} SkipSpacesShift(p: string, x: string, j: nat)
    requires j <= |x|
    ensures SkipSpaces(p + x, |p| + j) == |p| + SkipSpaces(x, j)
    decreases |x| - j
  {
    if j < |x| {
      assert (p + x)[|p| + j] == x[j];
      SkipSpacesShift(p, x, j + 1);
    }
  }

  lemma {:induction false} SkipSpacesBackShift(p: string, x: string, lo: nat, j: nat)
    requires lo <= j <= |x|
    ensures SkipSpacesBack(p + x, |p| + lo, |p| + j) == |p| + SkipSpacesBack(x, lo, j)
    decreases j
  {
    if j > lo {
      assert (p + x)[|p| + j - 1] == x[j - 1];
      SkipSpacesBackShift(p, x, lo, j - 1);
    }
  }

  /** Leading whitespace is skipped over entirely. */
  lemma {:induction false} SkipLeadingSpaces(p: string, x: string, i: nat)
    requires NoneSpace(p) && i <= |p|
    ensures SkipSpaces(p + x, i) == |p| + SkipSpaces(x, 0)
    decreases |p| - i
  {
    if i < |p| {
      assert (p + x)[i] == p[i];
      SkipLeadingSpaces(p, x, i + 1);
    } else {
      SkipSpacesShift(p, x, 0);
    }
  }

  /** Every character of `p` is whitespace. */
  predicate NoneSpace(p: string) {
    forall i :: 0 <= i < |p| ==> IsSpace(p[i])
  }

  /** Whitespace in front of `x` does not change `x.strip()`. */
  lemma StripAfterSpaces(p: string, x: string)
    requires NoneSpace(p)
    ensures Strip(p + x) == Strip(x)
  {
    var a := SkipSpaces(x, 0);
    var b := SkipSpacesBack(x, a, |x|);
    SkipLeadingSpaces(p, x, 0);
    SkipSpacesBackShift(p, x, a, |x|);
    StripBetween(p + x, |p| + a, |p| + b);
    StripBetween(x, a, b);
    SliceAfter(p, x, a, b);
  }

  /** `s.strip()` is `s[a..b]` for the first and last non-blank positions `a` and `b`. */
  lemma StripBetween(s: string, a: nat, b: nat)
    requires SkipSpaces(s, 0) == a && a <= |s| && SkipSpacesBack(s, a, |s|) == b
    ensures a <= b <= |s| && Strip(s) == s[a..b]
  {
  }

  lemma SliceAfter(p: string, x: string, a: nat, b: nat)
    requires a <= b <= |x|
    ensures (p + x)[|p| + a..|p| + b] == x[a..b]
  {
  }

  /** Stripping removes whitespace only: every other character of `s` is still there. */
  lemma StripKeeps(s: string, c: char)
    requires c in s && !IsSpace(c)
    ensures c in Strip(s)
  {
    var i :| 0 <= i < |s| && s[i] == c;
    var a := SkipSpaces(s, 0);
    assert Strip(s)[i - a] == c;
  }

  lemma NoSpaceConcat(a: string, b: string)
    requires NoSpace(a) && NoSpace(b)
    ensures NoSpace(a + b)
  {
    forall k | 0 <= k < |a + b| ensures !IsSpace((a + b)[k]) {
      if k < |a| { assert (a + b)[k] == a[k]; } else { assert (a + b)[k] == b[k - |a|]; }
    }
  }

  lemma StripWithoutSpace(s: string)
    requires NoSpace(s)
    ensures Strip(s) == s
  {
  }

  /** `s.find(c)` for a one-character needle: the first index of `c`, or -1. */
  function Find(s: string, c: char): (r: int)
    ensures -1 <= r < |s|
    ensures r == -1 <==> c !in s
    ensures r >= 0 ==> s[r] == c && c !in s[..r]
  {
    if s == [] then -1
    else if s[0] == c then 0
    else
      var k := Find(s[1..], c);
      assert s[1..][..k + 1] == s[1..k + 2] by { assert k + 1 <= |s| - 1 || k == -1; }
      if k < 0 then -1 else k + 1
  }

  /** `sep.join(parts)` */
  function Join(sep: string, parts: seq<string>): (r: string)
    ensures parts == [] ==> r == ""
    ensures |parts| == 1 ==> r == parts[0]
  {
    if parts == [] then ""
    else if |parts| == 1 then parts[0]
    else parts[0] + sep + Join(sep, parts[1..])
  }

  /** `s.split(c, n)` for a one-character separator and `n >= 0`. */
  function SplitN(s: string, c: char, n: nat): (r: seq<string>)
    ensures 1 <= |r| <= n + 1
  {
    var i := Find(s, c);
    if n == 0 || i < 0 then [s] else [s[..i]] + SplitN(s[i + 1..], c, n - 1)
  }

  /** Splitting and joining with the same separator gives back the string. */
  lemma {:induction false} SplitNJoin(s: string, c: char, n: nat)
    ensures Join([c], SplitN(s, c, n)) == s
  {
    var i := Find(s, c);
    if n == 0 || i < 0 {
    } else {
      var rest := SplitN(s[i + 1..], c, n - 1);
      SplitNJoin(s[i + 1..], c, n - 1);
      var parts := [s[..i]] + rest;
      assert SplitN(s, c, n) == parts;
      assert parts[1..] == rest;
      assert Join([c], parts) == s[..i] + [c] + Join([c], rest);
      assert s == s[..i] + [c] + s[i + 1..];
    }
  }

  /** Every field but the last holds no separator; the last holds one only when the split budget ran out. */
  lemma {:induction false} SplitNFields(s: string, c: char, n: nat)
    ensures var r := SplitN(s, c, n);
      (forall j :: 0 <= j < |r| - 1 ==> c !in r[j]) && (|r| < n + 1 ==> c !in r[|r| - 1])
  {
    var i := Find(s, c);
    if n == 0 || i < 0 {
    } else {
      SplitNFields(s[i + 1..], c, n - 1);
      var rest := SplitN(s[i + 1..], c, n - 1);
      assert SplitN(s, c, n) == [s[..i]] + rest;
    }
  }
}
