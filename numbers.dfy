/**
 * Python's `int(text)` (base 10) and `str(n)` for integers.
 */
module Numbers {
  import opened Wrappers
  import opened Strings

  predicate IsDigit(c: char) { '0' <= c <= '9' }

  function DigitValue(c: char): (d: nat)
    requires IsDigit(c)
    ensures d < 10
  {
    c as int - '0' as int
  }

  function DigitChar(d: nat): (c: char)
    requires d < 10
    ensures IsDigit(c) && DigitValue(c) == d
  {
    ('0' as int + d) as char
  }

  /** The digits of a literal after the sign: digits, with single `_` allowed between two digits. */
  predicate DigitRun(b: string) {
    && |b| > 0 && IsDigit(b[0]) && IsDigit(b[|b| - 1])
    && (forall i :: 0 <= i < |b| ==> IsDigit(b[i]) || b[i] == '_')
    && (forall i, j :: 0 <= i < |b| && 0 <= j < |b| && j == i + 1 ==> b[i] != '_' || b[j] != '_')
  }

  function RemoveUnderscores(b: string): (r: string)
    ensures |r| <= |b|
  {
    if b == [] then [] else (if b[0] == '_' then [] else [b[0]]) + RemoveUnderscores(b[1..])
  }

  /** The number written by a string of decimal digits, most significant first. */
  function DigitsValue(ds: string): nat
    requires forall i :: 0 <= i < |ds| ==> IsDigit(ds[i])
  {
    if ds == [] then 0 else DigitsValue(ds[..|ds| - 1]) * 10 + DigitValue(ds[|ds| - 1])
  }

  lemma {:induction false} RemoveUnderscoresDigits(b: string)
    requires forall i :: 0 <= i < |b| ==> IsDigit(b[i]) || b[i] == '_'
    ensures forall i :: 0 <= i < |RemoveUnderscores(b)| ==> IsDigit(RemoveUnderscores(b)[i])
  {
    if b != [] { RemoveUnderscoresDigits(b[1..]); }
  }

  /** The literal without its sign, and whether the sign was `-`. */
  function Unsigned(t: string): (string, bool)
  {
    if |t| > 0 && (t[0] == '-' || t[0] == '+') then (t[1..], t[0] == '-') else (t, false)
  }

  /** The value of a digit run, underscores ignored. */
  function RunValue(b: string): nat
    requires DigitRun(b)
  {
    RemoveUnderscoresDigits(b);
    DigitsValue(RemoveUnderscores(b))
  }

  /** `int(text)`: surrounding whitespace, an optional sign, then a digit run; None where Python raises ValueError. */
  function ParseInt(text: string): (r: Option<int>)
  {
    var (b, negative) := Unsigned(Strip(text));
    if !DigitRun(b) then None
    else
      var v: int := RunValue(b);
      Some(if negative then -v else v)
  }

  /** `int` looks only at the stripped text. */
  lemma ParseIntSameStrip(x: string, y: string)
    requires Strip(x) == Strip(y)
    ensures ParseInt(x) == ParseInt(y)
  {
  }

  /** `str(n)` for a natural number. */
  function NatToString(n: nat): (r: string)
    ensures |r| > 0
    ensures forall i :: 0 <= i < |r| ==> IsDigit(r[i])
  {
    if n < 10 then [DigitChar(n)] else NatToString(n / 10) + [DigitChar(n % 10)]
  }

  /** `str(n)` for an integer. */
  function IntToString(n: int): (r: string)
    ensures |r| > 0
  {
    if n < 0 then "-" + NatToString(-n) else NatToString(n)
  }

  lemma {:induction false} NatToStringValue(n: nat)
    ensures DigitsValue(NatToString(n)) == n
  {
    if n >= 10 {
      NatToStringValue(n / 10);
      var s := NatToString(n);
      assert s[..|s| - 1] == NatToString(n / 10);
    }
  }

  lemma {:induction false} RemoveUnderscoresNone(b: string)
    requires forall i :: 0 <= i < |b| ==> b[i] != '_'
    ensures RemoveUnderscores(b) == b
  {
    if b != [] { RemoveUnderscoresNone(b[1..]); }
  }

  lemma NatToStringRun(n: nat)
    ensures DigitRun(NatToString(n)) && RunValue(NatToString(n)) == n
  {
    var d := NatToString(n);
    RemoveUnderscoresNone(d);
    NatToStringValue(n);
  }

  /** `int(str(n)) == n` for every integer. */
  lemma IntToStringRoundTrip(n: int)
    ensures ParseInt(IntToString(n)) == Some(n)
  {
    var s := IntToString(n);
    var m: nat := if n < 0 then -n else n;
    var d := NatToString(m);
    assert NoSpace(s) by {
      assert forall i :: 0 <= i < |d| ==> IsDigit(d[i]);
      if n < 0 { assert forall i :: 1 <= i < |s| ==> s[i] == d[i - 1]; }
    }
    StripWithoutSpace(s);
    NatToStringRun(m);
    if n < 0 {
      assert s[1..] == d;
      assert Unsigned(s) == (d, true);
    } else {
      assert IsDigit(s[0]);
      assert Unsigned(s) == (d, false);
    }
  }

  lemma {:induction false} RemoveUnderscoresAppend(a: string, b: string)
    ensures RemoveUnderscores(a + b) == RemoveUnderscores(a) + RemoveUnderscores(b)
    decreases |a|
  {
    if a == [] {
      assert a + b == b;
    } else {
      assert (a + b)[1..] == a[1..] + b;
      RemoveUnderscoresAppend(a[1..], b);
    }
  }

  lemma {:induction false} DigitsValueLeadingZero(ds: string)
    requires forall i :: 0 <= i < |ds| ==> IsDigit(ds[i])
    ensures DigitsValue("0" + ds) == DigitsValue(ds)
    decreases |ds|
  {
    var z := "0" + ds;
    if ds == [] {
      assert z[..0] == [];
    } else {
      assert z[..|z| - 1] == "0" + ds[..|ds| - 1];
      DigitsValueLeadingZero(ds[..|ds| - 1]);
    }
  }

  /** A digit run has no whitespace to strip and no sign, so `int` reads its value. */
  lemma ParseIntRun(b: string)
    requires DigitRun(b)
    ensures ParseInt(b) == Some(RunValue(b))
  {
    assert NoSpace(b);
    StripWithoutSpace(b);
    assert Unsigned(b) == (b, false);
  }

  /** `int('-' + t)` is `-int(t)` for a text `t` that starts with a digit and holds no whitespace. */
  lemma ParseIntNegate(t: string)
    requires NoSpace(t) && t != [] && IsDigit(t[0])
    ensures ParseInt("-" + t) == if ParseInt(t).Some? then Some(-ParseInt(t).value) else None
    ensures NoSpace("-" + t)
  {
    var r := "-" + t;
    assert NoSpace(r) by {
      assert NoSpace("-");
      NoSpaceConcat("-", t);
    }
    assert Strip(r) == r by {
      StripWithoutSpace(r);
    }
    assert Strip(t) == t by {
      StripWithoutSpace(t);
    }
    assert Unsigned(r) == (t, true) by {
      assert r[1..] == t;
    }
    assert Unsigned(t) == (t, false);
  }

  /** Two digit runs, next to each other or with one underscore between them, form a digit run. */
  lemma DigitRunConcat(a: string, b: string)
    requires DigitRun(a) && DigitRun(b)
    ensures DigitRun(a + b) && DigitRun(a + "_" + b)
  {
    var v := a + b;
    assert forall i :: 0 <= i < |a| ==> v[i] == a[i];
    assert forall i :: |a| <= i < |v| ==> v[i] == b[i - |a|];
    var u := a + "_" + b;
    assert forall i :: 0 <= i < |a| ==> u[i] == a[i];
    assert u[|a|] == '_';
    assert forall i :: |a| < i < |u| ==> u[i] == b[i - |a| - 1];
  }

  lemma DigitRunLeadingZero(d: string)
    requires DigitRun(d)
    ensures DigitRun("0" + d)
  {
    var z := "0" + d;
    assert forall i :: 0 < i < |z| ==> z[i] == d[i - 1];
  }

  lemma RunValueLeadingZero(d: string)
    requires DigitRun(d) && DigitRun("0" + d)
    ensures RunValue("0" + d) == RunValue(d)
  {
    assert RemoveUnderscores("0" + d) == "0" + RemoveUnderscores(d) by {
      RemoveUnderscoresAppend("0", d);
      assert RemoveUnderscores("0") == "0";
    }
    RemoveUnderscoresDigits(d);
    DigitsValueLeadingZero(RemoveUnderscores(d));
  }

  /** Python accepts leading zeros: `int('0' + d) == int(d)` for every digit run `d`. */
  lemma ParseIntLeadingZero(d: string)
    requires DigitRun(d)
    ensures ParseInt("0" + d) == ParseInt(d)
  {
    DigitRunLeadingZero(d);
    ParseIntRun(d);
    ParseIntRun("0" + d);
    RunValueLeadingZero(d);
  }

  lemma RemoveUnderscoresBetween(a: string, b: string)
    ensures RemoveUnderscores(a + "_" + b) == RemoveUnderscores(a + b)
  {
    RemoveUnderscoresAppend(a + "_", b);
    RemoveUnderscoresAppend(a, "_");
    RemoveUnderscoresAppend(a, b);
    assert RemoveUnderscores("_") == "";
  }

  /** An underscore between two digit runs is dropped: `int(a + '_' + b) == int(a + b)`, and both succeed. */
  lemma ParseIntUnderscoreBetween(a: string, b: string)
    requires DigitRun(a) && DigitRun(b)
    ensures ParseInt(a + "_" + b) == ParseInt(a + b)
    ensures ParseInt(a + b).Some?
  {
    DigitRunConcat(a, b);
    ParseIntRun(a + "_" + b);
    ParseIntRun(a + b);
    assert RunValue(a + "_" + b) == RunValue(a + b) by {
      RemoveUnderscoresBetween(a, b);
    }
  }

  /** An underscore that ends the literal is a ValueError: `int(a + '_')` fails for every text `a`. */
  lemma ParseIntUnderscoreTrailing(a: string)
    ensures ParseInt(a + "_") == None
  {
    var s := a + "_";
    var t := TrimStart(s);
    assert t != [] && t[|t| - 1] == '_' by {
      TrimStartKeeps(s, |s| - 1);
    }
    assert TrimEnd(t) == t by {
      TrimEndKeeps(t, |t| - 1);
    }
    var b := Unsigned(t).0;
    assert b != [] && b[|b| - 1] == '_';
  }

  /** A character that is not whitespace, a digit, `_` or a sign anywhere in the text is a ValueError. */
  lemma ParseIntRejects(text: string, c: char)
    requires c in text && !IsSpace(c) && !IsDigit(c) && c != '_' && c != '+' && c != '-'
    ensures ParseInt(text) == None
  {
    var t := Strip(text);
    StripKeeps(text, c);
    var b := Unsigned(t).0;
    var i :| 0 <= i < |t| && t[i] == c;
    if b != t {
      assert i > 0 && b[i - 1] == c;
    }
  }
}
