/**
 * The part of `str.format(**metadata)` that filename templates use: literal text, the escapes `{{` and
 * `}}`, and replacement fields `{KEY}` and `{KEY:[0][WIDTH]d}` naming a metadata key. The template is read
 * from left to right and the first problem met is the error, as CPython's formatter does.
 */
module Templates {
  import opened Wrappers
  import opened Numbers
  import opened Errors
  import opened Dicts
  import opened Metadata
  import Util
  import opened Strings

  /** `r` with `p` in front, when `r` is a string. */
  function Prepend(p: string, r: Result<string, Error>): (q: Result<string, Error>)
    ensures q.Ok? <==> r.Ok?
    ensures r.Err? ==> q == r
    ensures r.Ok? ==> q.value == p + r.value
  {
    if r.Ok? then Ok(p + r.value) else r
  }

  /** The first position at or after `i` that holds `{` or `}`, or `|f|`. */
  function BraceAt(f: string, i: nat): (j: nat)
    requires i <= |f|
    ensures i <= j <= |f|
    ensures forall k :: i <= k < j ==> f[k] != '{' && f[k] != '}'
    ensures j < |f| ==> f[j] == '{' || f[j] == '}'
    decreases |f| - i
  {
    if i == |f| || f[i] == '{' || f[i] == '}' then i else BraceAt(f, i + 1)
  }

  /** The first position at or after `i` that holds one of `stops`, or `|s|`. */
  function StopAt(s: string, i: nat, stops: set<char>): (j: nat)
    requires i <= |s|
    ensures i <= j <= |s|
    ensures forall k :: i <= k < j ==> s[k] !in stops
    ensures j < |s| ==> s[j] in stops
    decreases |s| - i
  {
    if i == |s| || s[i] in stops then i else StopAt(s, i + 1, stops)
  }

  predicate AllDigits(s: string) {
    forall i :: 0 <= i < |s| ==> IsDigit(s[i])
  }

  function Repeat(c: char, n: int): (r: string)
    ensures |r| == if n < 0 then 0 else n
    ensures forall i :: 0 <= i < |r| ==> r[i] == c
    decreases n
  {
    if n <= 0 then "" else [c] + Repeat(c, n - 1)
  }

  /** A spec `[0][WIDTH]d`: an integer presentation, zero-padded after the sign when it starts with `0`. */
  predicate IntSpec(spec: string) {
    |spec| > 0 && spec[|spec| - 1] == 'd' && AllDigits(spec[..|spec| - 1])
  }

  /** Whether an `IntSpec` asks for zero padding: its width starts with `0`. */
  predicate SpecZero(spec: string)
    requires IntSpec(spec)
  {
    |spec| > 1 && spec[0] == '0'
  }

  /** The minimum field width of an `IntSpec`: the number its digits write, after the `0` flag. */
  function SpecWidth(spec: string): nat
    requires IntSpec(spec)
  {
    var flags := spec[..|spec| - 1];
    if SpecZero(spec) then DigitsValue(flags[1..]) else DigitsValue(flags)
  }

  /** Zeros in front of a digit run keep it a digit run with the same value. */
  lemma {:induction false} ZerosBeforeRun(n: int, d: string)
    requires DigitRun(d)
    ensures DigitRun(Repeat('0', n) + d) && RunValue(Repeat('0', n) + d) == RunValue(d)
    decreases n
  {
    if n > 0 {
      var e := Repeat('0', n - 1) + d;
      assert Repeat('0', n) + d == "0" + e;
      ZerosBeforeRun(n - 1, d);
      DigitRunLeadingZero(e);
      RunValueLeadingZero(e);
    } else {
      assert Repeat('0', n) + d == d;
    }
  }

  /** The sign `str(i)` starts with: `-` for a negative number, nothing otherwise. */
  function SignOf(i: int): string {
    if i < 0 then "-" else ""
  }

  /** The digits of `str(abs(i))`. */
  function Magnitude(i: int): string {
    NatToString(if i < 0 then -i else i)
  }

  /** `str(i)` right-aligned in `width` with zeros between the sign and the digits. */
  function ZeroPadded(i: int, width: int): string {
    SignOf(i) + (Repeat('0', width - |IntToString(i)|) + Magnitude(i))
  }

  /** `str(i)` right-aligned in `width` with blanks in front. */
  function BlankPadded(i: int, width: int): string {
    Repeat(' ', width - |IntToString(i)|) + IntToString(i)
  }

  /** Zero padding is read back as `i`. */
  lemma ZeroPaddedReads(i: int, width: int)
    ensures ParseInt(ZeroPadded(i, width)) == Some(i)
  {
    if i < 0 {
      NegativeZeroPaddedReads(i, width);
    } else {
      NaturalZeroPaddedReads(i, width);
    }
  }

  lemma NaturalZeroPaddedReads(i: nat, width: int)
    ensures ParseInt(ZeroPadded(i, width)) == Some(i)
  {
    var z := Repeat('0', width - |IntToString(i)|) + NatToString(i);
    assert ZeroPadded(i, width) == z by {
      assert SignOf(i) == "";
    }
    ZerosBeforeDigits(width - |IntToString(i)|, i);
    ReadsLike(ZeroPadded(i, width), z, i);
  }

  lemma NegativeZeroPaddedReads(i: int, width: int)
    requires i < 0
    ensures ParseInt(ZeroPadded(i, width)) == Some(i)
  {
    var m: nat := -i;
    var z := Repeat('0', width - |IntToString(i)|) + NatToString(m);
    assert ZeroPadded(i, width) == "-" + z;
    NegativeZerosRead(width - |IntToString(i)|, m);
    ReadsLike(ZeroPadded(i, width), "-" + z, -(m as int));
  }

  /** Equal texts read the same; keeps `int` folded while the texts are matched. */
  lemma ReadsLike(s: string, t: string, v: int)
    requires s == t && ParseInt(t) == Some(v)
    ensures ParseInt(s) == Some(v)
  {
  }

  lemma NegativeZerosRead(fill: int, m: nat)
    ensures var z := Repeat('0', fill) + NatToString(m);
      ParseInt("-" + z) == Some(-(m as int)) && NoSpace("-" + z)
  {
    ZerosBeforeDigits(fill, m);
    ParseIntNegate(Repeat('0', fill) + NatToString(m));
  }

  /** Zeros in front of `str(m)` are read back as `m` by `int`. */
  lemma ZerosBeforeDigits(fill: int, m: nat)
    ensures var z := Repeat('0', fill) + NatToString(m);
      ParseInt(z) == Some(m) && NoSpace(z) && z != [] && IsDigit(z[0])
  {
    var z := Repeat('0', fill) + NatToString(m);
    NatToStringRun(m);
    ZerosBeforeRun(fill, NatToString(m));
    ParseIntRun(z);
    RunNoSpace(z);
  }

  lemma RunNoSpace(z: string)
    requires DigitRun(z)
    ensures NoSpace(z)
  {
    forall k | 0 <= k < |z| ensures !IsSpace(z[k]) {
      assert IsDigit(z[k]) || z[k] == '_';
    }
  }

  /** Blank padding is read back as `i`: `strip()` removes the blanks. */
  lemma BlankPaddedReads(i: int, width: int)
    ensures ParseInt(BlankPadded(i, width)) == Some(i)
  {
    IntToStringRoundTrip(i);
    BlanksBeforeReads(Repeat(' ', width - |IntToString(i)|), IntToString(i), i);
  }

  /** Whitespace in front of a text does not change what `int` reads. */
  lemma BlanksBeforeReads(p: string, x: string, v: int)
    requires NoneSpace(p) && ParseInt(x) == Some(v)
    ensures ParseInt(p + x) == Some(v)
  {
    StripAfterSpaces(p, x);
    ParseIntSameStrip(p + x, x);
  }

  /**
   * `format(i, spec)` for an `IntSpec`: `str(i)` right-aligned in the field width, zero-padded after the sign
   * when the width starts with `0`; its length is the larger of the width and `len(str(i))`.
   */
  function PadInt(i: int, spec: string): (r: string)
    requires IntSpec(spec)
    ensures |r| == if SpecWidth(spec) > |IntToString(i)| then SpecWidth(spec) else |IntToString(i)|
  {
    var w := SpecWidth(spec);
    assert |IntToString(i)| == |SignOf(i)| + |Magnitude(i)|;
    if SpecZero(spec) then ZeroPadded(i, w) else BlankPadded(i, w)
  }

  /** Padding changes only the look of the number: `int(format(i, spec)) == i`. */
  lemma PadIntReadsBack(i: int, spec: string)
    requires IntSpec(spec)
    ensures ParseInt(PadInt(i, spec)) == Some(i)
  {
    if SpecZero(spec) {
      ZeroPaddedReads(i, SpecWidth(spec));
    } else {
      BlankPaddedReads(i, SpecWidth(spec));
    }
  }

  /** `format(v, spec)` for the value of field `key`. */
  function FormatValue(key: string, v: Value, spec: string): (r: Result<string, Error>)
    ensures spec == "" ==> r == Ok(Render(v))
    ensures v.Str? && spec != "" ==> r.Err?
    ensures v.Int? ==> (r.Ok? <==> spec == "" || IntSpec(spec))
  {
    if spec == "" then Ok(Render(v))
    else match v
      case Str(_) => if IntSpec(spec) then Err(FormatSpecMismatch(key, spec)) else Err(UnsupportedTemplate(spec))
      case Int(i) => if IntSpec(spec) then Ok(PadInt(i, spec)) else Err(UnsupportedTemplate(spec))
  }

  /**
   * One replacement field (the text between the braces): the argument name up to `:` or `!`, then the spec.
   * An empty or all-digit name is a positional argument, of which there are none; a name must be a key;
   * conversions (`!r`), attribute and index access (`.x`, `[x]`) lie outside the modelled subset.
   */
  function RenderField(field: string, meta: Meta): (r: Result<string, Error>)
  {
    var c := StopAt(field, 0, {':', '!'});
    var name := field[..c];
    if c < |field| && field[c] == '!' then Err(UnsupportedTemplate(field))
    else
      var spec := if c < |field| then field[c + 1..] else "";
      var first := name[..StopAt(name, 0, {'.', '['})];
      if first == "" || AllDigits(first) then Err(PositionalField(first))
      else match Get(meta, first)
        case None => Err(MissingKey(first))
        case Some(v) => if first != name then Err(UnsupportedTemplate(field)) else FormatValue(first, v, spec)
  }

  /** `f.format(**meta)` */
  function Format(f: string, meta: Meta): (r: Result<string, Error>)
    decreases |f|
  {
    if f == "" then Ok("")
    else if f[0] == '{' then
      if |f| == 1 then Err(TemplateSyntax("Single '{' encountered in format string"))
      else if f[1] == '{' then Prepend("{", Format(f[2..], meta))
      else
        var j := BraceAt(f, 1);
        if j == |f| then Err(TemplateSyntax("expected '}' before end of string"))
        else if f[j] == '{' then Err(UnsupportedTemplate(f[1..j]))
        else match RenderField(f[1..j], meta)
          case Err(e) => Err(e)
          case Ok(v) => Prepend(v, Format(f[j + 1..], meta))
    else if f[0] == '}' then
      if |f| > 1 && f[1] == '}' then Prepend("}", Format(f[2..], meta))
      else Err(TemplateSyntax("Single '}' encountered in format string"))
    else Prepend([f[0]], Format(f[1..], meta))
  }
}
