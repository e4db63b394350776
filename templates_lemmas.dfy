/** What rendering a template guarantees: escaped text comes out verbatim, and each field needs its key. */
module TemplateProperties {
  import opened Wrappers
  import opened Numbers
  import opened Errors
  import opened Dicts
  import opened Metadata
  import opened Templates
  import Util

  lemma PrependPrepend(p: string, q: string, r: Result<string, Error>)
    ensures Prepend(p, Prepend(q, r)) == Prepend(p + q, r)
  {
    if r.Ok? { assert p + (q + r.value) == p + q + r.value; }
  }

  /** A leading character other than a brace is literal text. */
  lemma FormatLiteral(f: string, meta: Meta)
    requires f != [] && f[0] != '{' && f[0] != '}'
    ensures Format(f, meta) == Prepend([f[0]], Format(f[1..], meta))
  {
  }

  /** A leading doubled brace is one literal brace. */
  lemma FormatDoubled(f: string, meta: Meta)
    requires |f| >= 2 && f[1] == f[0] && (f[0] == '{' || f[0] == '}')
    ensures Format(f, meta) == Prepend([f[0]], Format(f[2..], meta))
  {
  }

  /** `escape_format` of a non-empty text, followed by `t`: the escaped first character, then the rest. */
  lemma EscapeCons(s: string, t: string)
    requires s != []
    ensures var f := Util.EscapeFormat(s) + t; var rest := Util.EscapeFormat(s[1..]) + t;
      if s[0] == '{' || s[0] == '}' then |f| >= 2 && f[0] == f[1] == s[0] && f[2..] == rest
      else |f| >= 1 && f[0] == s[0] && f[1..] == rest
  {
    var head := if s[0] == '{' || s[0] == '}' then [s[0], s[0]] else [s[0]];
    assert Util.EscapeFormat(s) + t == head + (Util.EscapeFormat(s[1..]) + t);
  }

  /** Text escaped with `escape_format` renders as itself, whatever follows it. */
  lemma {:induction false} FormatEscapedThen(s: string, t: string, meta: Meta)
    ensures Format(Util.EscapeFormat(s) + t, meta) == Prepend(s, Format(t, meta))
  {
    if s == [] {
      assert Util.EscapeFormat(s) + t == t;
      var r := Format(t, meta);
      if r.Ok? { assert "" + r.value == r.value; }
    } else {
      var f := Util.EscapeFormat(s) + t;
      FormatEscapedThen(s[1..], t, meta);
      EscapeCons(s, t);
      if s[0] == '{' || s[0] == '}' {
        FormatDoubled(f, meta);
      } else {
        FormatLiteral(f, meta);
      }
      PrependPrepend([s[0]], s[1..], Format(t, meta));
      assert [s[0]] + s[1..] == s;
    }
  }

  /** `str.format(escape_format(s)) == s`: escaping makes any text a template that prints it. */
  lemma FormatEscaped(s: string, meta: Meta)
    ensures Format(Util.EscapeFormat(s), meta) == Ok(s)
  {
    FormatEscapedThen(s, "", meta);
    assert Util.EscapeFormat(s) + "" == Util.EscapeFormat(s);
    assert s + "" == s;
  }

  /** The first brace found inside `f` is found at the same place when more text follows `f`. */
  lemma BraceAtThen(f: string, g: string, i: nat)
    requires i <= |f| && BraceAt(f, i) < |f|
    ensures BraceAt(f + g, i) == BraceAt(f, i)
    decreases |f| - i
  {
    assert (f + g)[i] == f[i];
    if f[i] != '{' && f[i] != '}' {
      BraceAtThen(f, g, i + 1);
    }
  }

  /** A leading field of a template that renders: the field closes inside `f` and renders. */
  lemma FieldThenStep(f: string, meta: Meta)
    requires |f| > 1 && f[0] == '{' && f[1] != '{' && Format(f, meta).Ok?
    ensures BraceAt(f, 1) < |f| && f[BraceAt(f, 1)] == '}' && RenderField(f[1..BraceAt(f, 1)], meta).Ok?
    ensures Format(f, meta) == Prepend(RenderField(f[1..BraceAt(f, 1)], meta).value, Format(f[BraceAt(f, 1) + 1..], meta))
  {
  }

  /** A field that closes inside `f` closes at the same place when text follows `f`. */
  lemma FieldShift(f: string, g: string)
    requires |f| > 1 && f[0] == '{' && f[1] != '{' && BraceAt(f, 1) < |f| && f[BraceAt(f, 1)] == '}'
    ensures var h, j := f + g, BraceAt(f, 1);
      && |h| > 1 && h[0] == '{' && h[1] != '{' && BraceAt(h, 1) == j && h[j] == '}'
      && h[1..j] == f[1..j] && h[j + 1..] == f[j + 1..] + g
  {
    var h, j := f + g, BraceAt(f, 1);
    assert h[0] == '{' && h[1] == f[1] && h[j] == f[j];
    BraceAtThen(f, g, 1);
    assert h[1..j] == f[1..j];
    assert h[j + 1..] == f[j + 1..] + g;
  }

  /** One step of `Format` over a leading field closed by the `}` at `j`. */
  lemma FieldUnfold(h: string, j: nat, meta: Meta)
    requires |h| > 1 && h[0] == '{' && h[1] != '{' && BraceAt(h, 1) == j && j < |h| && h[j] == '}'
    requires RenderField(h[1..j], meta).Ok?
    ensures Format(h, meta) == Prepend(RenderField(h[1..j], meta).value, Format(h[j + 1..], meta))
  {
  }

  /** A template that renders on its own renders the same way in front of any other text. */
  lemma {:induction false} FormatThen(f: string, g: string, meta: Meta)
    requires Format(f, meta).Ok?
    ensures Format(f + g, meta) == Prepend(Format(f, meta).value, Format(g, meta))
    decreases |f|
  {
    var h := f + g;
    if f == "" {
      assert h == g;
      var r := Format(g, meta);
      if r.Ok? { assert "" + r.value == r.value; }
    } else if (f[0] == '{' || f[0] == '}') && |f| > 1 && f[1] == f[0] {
      assert h[1] == f[1] && h[2..] == f[2..] + g;
      FormatDoubled(f, meta);
      FormatDoubled(h, meta);
      FormatThen(f[2..], g, meta);
      PrependPrepend([f[0]], Format(f[2..], meta).value, Format(g, meta));
    } else if f[0] == '{' {
      var j := BraceAt(f, 1);
      FieldThenStep(f, meta);
      var v := RenderField(f[1..j], meta).value;
      assert Format(h, meta) == Prepend(v, Format(f[j + 1..] + g, meta)) by {
        FieldShift(f, g);
        FieldUnfold(h, j, meta);
      }
      FormatThen(f[j + 1..], g, meta);
      PrependPrepend(v, Format(f[j + 1..], meta).value, Format(g, meta));
    } else if f[0] == '}' {
      assert false;
    } else {
      assert h[0] == f[0] && h[1..] == f[1..] + g;
      FormatLiteral(f, meta);
      FormatLiteral(h, meta);
      FormatThen(f[1..], g, meta);
      PrependPrepend([f[0]], Format(f[1..], meta).value, Format(g, meta));
    }
  }

  /** A key that the template grammar reads as a plain name: not positional, no brace, colon, `!`, `.` or `[`. */
  predicate PlainKey(k: string) {
    && k != "" && !AllDigits(k)
    && forall i :: 0 <= i < |k| ==> k[i] !in {'{', '}', ':', '!', '.', '['}
  }

  /** The text of the field `{k}` or `{k:spec}` between its braces. */
  function FieldText(k: string, spec: string): string {
    if spec == "" then k else k + ":" + spec
  }

  lemma RenderPlainField(k: string, spec: string, meta: Meta)
    requires PlainKey(k)
    ensures RenderField(FieldText(k, spec), meta) ==
      if !Has(meta, k) then Err(MissingKey(k)) else FormatValue(k, Get(meta, k).value, spec)
  {
    var field := FieldText(k, spec);
    assert field[..|k|] == k;
    var c := StopAt(field, 0, {':', '!'});
    assert forall i :: 0 <= i < |k| ==> field[i] == k[i] && field[i] !in {':', '!'};
    assert |k| < |field| ==> field[|k|] == ':';
    assert field[..c] == k;
    if spec != "" { assert field[c + 1..] == spec; }
    var a := StopAt(k, 0, {'.', '['});
    assert forall i :: 0 <= i < |k| ==> k[i] !in {'.', '['};
    assert k[..a] == k;
  }

  /** A field `{field}` followed by `t`: the field's rendering, then the rendering of `t`. */
  lemma FormatFieldThen(field: string, t: string, meta: Meta)
    requires field != "" && field[0] != '{'
    requires forall i :: 0 <= i < |field| ==> field[i] != '{' && field[i] != '}'
    ensures var v := RenderField(field, meta);
      Format("{" + field + "}" + t, meta) == if v.Err? then v else Prepend(v.value, Format(t, meta))
  {
    var f := "{" + field + "}" + t;
    assert f[1] == field[0];
    var j := BraceAt(f, 1);
    assert forall i :: 1 <= i < |field| + 1 ==> f[i] == field[i - 1];
    assert f[|field| + 1] == '}';
    assert f[1..j] == field;
    assert f[j + 1..] == t;
  }

  /**
   * A template referencing a plain key: the text before it comes out as written, the field fails with the
   * missing key or renders the value, and the rest follows.
   */
  lemma FormatKeyThen(k: string, spec: string, t: string, meta: Meta)
    requires PlainKey(k)
    requires forall i :: 0 <= i < |spec| ==> spec[i] != '{' && spec[i] != '}'
    ensures !Has(meta, k) ==> Format("{" + FieldText(k, spec) + "}" + t, meta) == Err(MissingKey(k))
    ensures Has(meta, k) ==> var x := FormatValue(k, Get(meta, k).value, spec);
      Format("{" + FieldText(k, spec) + "}" + t, meta) == if x.Err? then x else Prepend(x.value, Format(t, meta))
  {
    var field := FieldText(k, spec);
    assert field[0] == k[0];
    assert forall i :: 0 <= i < |field| ==> field[i] != '{' && field[i] != '}' by {
      forall i | 0 <= i < |field| ensures field[i] != '{' && field[i] != '}' {
        if i < |k| { assert field[i] == k[i]; }
        else if i > |k| { assert field[i] == spec[i - |k| - 1]; }
      }
    }
    FormatFieldThen(field, t, meta);
    RenderPlainField(k, spec, meta);
  }

  /**
   * A template of two plain fields with literal text between them, such as the `short` template: the first
   * value formatted with its spec, the text, then the second value.
   */
  lemma FormatTwoFields(k1: string, spec: string, s: string, k2: string, meta: Meta)
    requires PlainKey(k1) && PlainKey(k2) && Has(meta, k1) && Has(meta, k2)
    requires forall i :: 0 <= i < |spec| ==> spec[i] != '{' && spec[i] != '}'
    requires FormatValue(k1, Get(meta, k1).value, spec).Ok?
    ensures Format("{" + FieldText(k1, spec) + "}" + (Util.EscapeFormat(s) + ("{" + FieldText(k2, "") + "}" + "")), meta)
      == Ok(FormatValue(k1, Get(meta, k1).value, spec).value + s + Render(Get(meta, k2).value))
  {
    var tail := "{" + FieldText(k2, "") + "}" + "";
    var t := Util.EscapeFormat(s) + tail;
    var x := FormatValue(k1, Get(meta, k1).value, spec).value;
    var y := Render(Get(meta, k2).value);
    assert Format(tail, meta) == Ok(y) by {
      FormatKeyThen(k2, "", "", meta);
      assert Format("", meta) == Ok("");
      assert y + "" == y;
    }
    assert Format(t, meta) == Ok(s + y) by {
      FormatEscapedThen(s, tail, meta);
    }
    assert Format("{" + FieldText(k1, spec) + "}" + t, meta) == Prepend(x, Format(t, meta)) by {
      FormatKeyThen(k1, spec, t, meta);
    }
    assert x + (s + y) == x + s + y;
  }

  /** A template naming a key the metadata lacks fails with that key, whatever surrounds the field. */
  lemma FormatMissingKey(s: string, k: string, spec: string, t: string, meta: Meta)
    requires PlainKey(k) && !Has(meta, k)
    requires forall i :: 0 <= i < |spec| ==> spec[i] != '{' && spec[i] != '}'
    ensures Format(Util.EscapeFormat(s) + ("{" + FieldText(k, spec) + "}" + t), meta) == Err(MissingKey(k))
  {
    FormatEscapedThen(s, "{" + FieldText(k, spec) + "}" + t, meta);
    FormatKeyThen(k, spec, t, meta);
  }

  /** `{n:02d}` for `0 <= n < 100`: exactly two decimal digits. */
  lemma PadTwoDigits(n: int)
    requires 0 <= n < 100
    ensures IntSpec("02d") && PadInt(n, "02d") == [DigitChar(n / 10), DigitChar(n % 10)]
  {
    TwoDigitSpec();
    TwoDigitsZeroPadded(n);
  }

  /** `02d` is an integer spec asking for zero padding to width 2. */
  lemma TwoDigitSpec()
    ensures IntSpec("02d") && SpecZero("02d") && SpecWidth("02d") == 2
  {
    var spec := "02d";
    assert spec[..|spec| - 1] == "02";
    assert "02"[1..] == "2";
    assert DigitsValue("2") == 2 by {
      assert DigitsValue("2") == DigitsValue("") * 10 + DigitValue('2') by {
        assert "2"[..0] == "";
      }
    }
  }

  /** Below 100, zero padding to width 2 writes the tens digit and the units digit. */
  lemma TwoDigitsZeroPadded(n: int)
    requires 0 <= n < 100
    ensures ZeroPadded(n, 2) == [DigitChar(n / 10), DigitChar(n % 10)]
  {
    assert SignOf(n) == "";
    if n < 10 {
      assert NatToString(n) == [DigitChar(n)];
      assert Repeat('0', 1) == ['0'];
    } else {
      assert NatToString(n) == NatToString(n / 10) + [DigitChar(n % 10)];
      assert NatToString(n / 10) == [DigitChar(n / 10)];
      assert Repeat('0', 0) == [];
    }
  }
}
