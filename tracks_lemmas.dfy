/** What the track model guarantees: the filter tables, offsets, the seek format and the argument list. */
module TrackProperties {
  import opened Wrappers
  import opened Strings
  import opened Numbers
  import opened Errors
  import opened Dicts
  import opened Metadata
  import opened Paths
  import opened Commands
  import opened Templates
  import opened Tracks
  import TemplateProperties
  import Util

  // ---- filter tables ----

  /** The `minimal` (`posix`) table replaces the path separator by `-`, deletes NUL and touches nothing else. */
  lemma MinimalTableContents()
    ensures forall c :: c in MinimalTable <==> c == Sep || c == '\0'
    ensures MinimalTable[Sep] == Some('-') && MinimalTable['\0'] == None
  {
    var from := [Sep];
    assert from[0] == Sep && from[1..] == [];
  }

  /** The characters the `full` table deletes or replaces, besides the control characters. */
  const FullSpecials: set<char> := {'"', '<', '>', ':', '/', '\\', '|', '*', '?'}

  /** The characters the `full` table turns into `-`. */
  const Dashed: set<char> := {'<', '>', ':', '/', '\\', '|', '*'}

  /** The code points 0 to 31. */
  predicate Control(c: char) {
    c < ' '
  }

  lemma FullBaseDomain()
    ensures forall c :: c in FullBaseTable <==> c in FullSpecials
  {
    assert forall c :: c in FullFrom <==> c in FullSpecials - {'?'};
  }

  lemma FullBaseQuote()
    ensures FullBaseTable['"'] == Some('\'')
  {
    assert FullFrom[0] == '"' && '"' !in FullFrom[1..];
  }

  lemma FullBaseDashes()
    ensures forall c :: c in Dashed ==> FullBaseTable[c] == Some('-')
  {
    forall c | c in Dashed ensures FullBaseTable[c] == Some('-') {
      var i := if c == '<' then 1 else if c == '>' then 2 else if c == ':' then 3 else if c == '\\' then 5
        else if c == '|' then 6 else if c == '*' then 7 else 8;
      assert FullFrom[i] == c && c !in FullFrom[i + 1..];
    }
  }

  /**
   * The `full` (`windows`) table turns `"` into `'`; `< > : / \ |` and `*` into `-`; deletes `?` and the code
   * points 0 to 31; and touches nothing else.
   */
  lemma FullTableContents()
    ensures forall c :: c in FullTable <==> c in FullSpecials || Control(c)
    ensures FullTable['"'] == Some('\'')
    ensures forall c :: c in Dashed ==> FullTable[c] == Some('-')
    ensures FullTable['?'] == None
    ensures forall c :: Control(c) ==> FullTable[c] == None
  {
    FullBaseDomain();
    FullBaseQuote();
    FullBaseDashes();
    SpecialsPrintable();
    assert forall c :: c in FullSpecials ==> c !in ControlDeletions && FullTable[c] == FullBaseTable[c];
    assert forall c :: c in Dashed ==> c in FullSpecials;
  }

  lemma SpecialsPrintable()
    ensures forall c :: c in FullSpecials ==> !Control(c)
  {
  }

  /** A character the `full` table leaves out of file names: none of its specials, no control character. */
  predicate FileNameSafe(c: char) {
    c !in FullSpecials && !Control(c)
  }

  /** What the `full` table keeps is safe, and what it substitutes is `'` or `-`. */
  lemma FullTableImage()
    ensures forall c :: c !in FullTable ==> FileNameSafe(c)
    ensures forall c :: c in FullTable && FullTable[c].Some? ==> FullTable[c].value in {'\'', '-'}
  {
    FullTableContents();
    forall c | c in FullTable && FullTable[c].Some? ensures FullTable[c].value in {'\'', '-'} {
      FullTableSubstitutes(c);
    }
  }

  lemma FullTableSubstitutes(c: char)
    requires forall c :: c in FullTable <==> c in FullSpecials || Control(c)
    requires FullTable['"'] == Some('\'')
    requires forall c :: c in Dashed ==> FullTable[c] == Some('-')
    requires FullTable['?'] == None
    requires forall c :: Control(c) ==> FullTable[c] == None
    requires c in FullTable && FullTable[c].Some?
    ensures c == '"' || c in Dashed
  {
  }

  /** Nothing the `full` table produces is one of its specials or a control character. */
  lemma {:induction false} FullFilterAvoids(s: string)
    ensures forall i :: 0 <= i < |Util.Translate(s, FullTable)| ==> FileNameSafe(Util.Translate(s, FullTable)[i])
  {
    if s != [] {
      FullFilterAvoids(s[1..]);
      var head := if s[0] !in FullTable then [s[0]]
        else if FullTable[s[0]].None? then [] else [FullTable[s[0]].value];
      assert forall i :: 0 <= i < |head| ==> FileNameSafe(head[i]) by {
        FullTableImage();
        ReplacementsSafe();
      }
    }
  }

  lemma ReplacementsSafe()
    ensures FileNameSafe('\'') && FileNameSafe('-')
  {
  }

  /** Nothing the `minimal` table produces is a path separator or NUL. */
  lemma MinimalFilterAvoids(s: string)
    ensures forall i :: 0 <= i < |Util.Translate(s, MinimalTable)| ==>
      Util.Translate(s, MinimalTable)[i] != Sep && Util.Translate(s, MinimalTable)[i] != '\0'
  {
    MinimalTableContents();
    Util.TranslateAvoids(s, MinimalTable, {Sep, '\0'});
  }

  /** After the `full` filter, no string value of the metadata holds a special or a control character. */
  lemma FullFilterMetadata(meta: Meta, k: string)
    requires Has(meta, k) && Get(meta, k).value.Str?
    ensures var v := Get(TranslateMetadata(meta, TableOf(Full)), k).value;
      v.Str? && forall i :: 0 <= i < |v.s| ==> FileNameSafe(v.s[i])
  {
    FullFilterAvoids(Get(meta, k).value.s);
  }

  // ---- templates ----

  /** Joining three relative components none of which ends in a separator puts one separator between each. */
  lemma JoinThree(a: string, b: string, c: string)
    requires a != "" && a[|a| - 1] != Sep
    requires b != "" && b[|b| - 1] != Sep && !Absolute(b)
    requires !Absolute(c)
    ensures PathJoin(PathJoin(a, b), c) == a + [Sep] + b + [Sep] + c
  {
    var ab := PathJoin(a, b);
    assert ab[|ab| - 1] == b[|b| - 1];
  }

  /** The `full` template: album artist, then `[date] album`, then the `short` template, as directories. */
  lemma FullTemplateText()
    ensures FullTemplate == "{ALBUMARTIST}" + [Sep] + "[{DATE}] {ALBUM}" + [Sep] + ShortTemplate
  {
    JoinThree("{ALBUMARTIST}", "[{DATE}] {ALBUM}", ShortTemplate);
  }

  /** The `short` template: the track number in two digits, a blank and the title. */
  lemma ShortTemplateRenders(meta: Meta, n: int, title: string)
    requires 0 <= n < 100
    requires Get(meta, "TRACKNUMBER") == Some(Int(n)) && Get(meta, "TITLE") == Some(Str(title))
    ensures Format(ShortTemplate, meta) == Ok([DigitChar(n / 10), DigitChar(n % 10)] + " " + title)
  {
    PlainKeys();
    ShortTemplatePieces();
    TemplateProperties.PadTwoDigits(n);
    TemplateProperties.FormatTwoFields("TRACKNUMBER", "02d", " ", "TITLE", meta);
  }

  lemma PlainKeys()
    ensures TemplateProperties.PlainKey("TRACKNUMBER") && TemplateProperties.PlainKey("TITLE")
  {
    assert !AllDigits("TRACKNUMBER") by { assert !IsDigit("TRACKNUMBER"[0]); }
    assert !AllDigits("TITLE") by { assert !IsDigit("TITLE"[0]); }
  }

  lemma ShortTemplatePieces()
    ensures ShortTemplate == "{" + TemplateProperties.FieldText("TRACKNUMBER", "02d") + "}"
      + (Util.EscapeFormat(" ") + ("{" + TemplateProperties.FieldText("TITLE", "") + "}" + ""))
  {
    assert Util.EscapeFormat(" ") == " " by { assert Util.CountBraces(" ") == 0; }
    assert TemplateProperties.FieldText("TRACKNUMBER", "02d") == "TRACKNUMBER:02d";
    assert TemplateProperties.FieldText("TITLE", "") == "TITLE";
    assert "{" + "TRACKNUMBER:02d" + "}" == "{TRACKNUMBER:02d}";
    assert "{" + "TITLE" + "}" + "" == "{TITLE}";
    assert ShortTemplate == "{TRACKNUMBER:02d}" + (" " + "{TITLE}");
  }

  // ---- offsets ----

  /** The first `c` in `a + [c] + b` is the one after `a` when `a` holds none. */
  lemma FindAfter(a: string, c: char, b: string)
    requires c !in a
    ensures Find(a + [c] + b, c) == |a|
  {
    var s := a + [c] + b;
    assert s[|a|] == c;
    assert s[..|a|] == a;
  }

  /** `s.split(':', 2)` on `a:b:c`: the third field keeps any further colons. */
  lemma SplitOffset(a: string, b: string, c: string)
    requires ':' !in a && ':' !in b
    ensures SplitN(a + ":" + b + ":" + c, ':', 2) == [a, b, c]
  {
    assert a + ":" + b + ":" + c == a + [':'] + (b + [':'] + c);
    SplitStep(a, b + [':'] + c, 2);
    SplitStep(b, c, 1);
  }

  /** A field before the first separator is split off, and the budget drops by one. */
  lemma SplitStep(a: string, u: string, n: nat)
    requires ':' !in a && n > 0
    ensures SplitN(a + [':'] + u, ':', n) == [a] + SplitN(u, ':', n - 1)
  {
    var s := a + [':'] + u;
    FindAfter(a, ':', u);
    assert s[..|a|] == a && s[|a| + 1..] == u;
  }

  lemma IntToStringColonFree(n: int)
    ensures ':' !in IntToString(n)
  {
    var d := NatToString(if n < 0 then -n else n);
    assert forall i :: 0 <= i < |d| ==> IsDigit(d[i]);
    if n < 0 {
      var s := IntToString(n);
      assert forall i :: 1 <= i < |s| ==> s[i] == d[i - 1];
    }
  }

  /**
   * `MM:SS:FF` written with `str` gives `(MM * 60 + SS) * 75 + FF` frames: any integers, with no range
   * check on seconds or frames and negative values allowed.
   */
  lemma OffsetFramesOfFields(minutes: int, seconds: int, fragments: int)
    ensures OffsetFrames(IntToString(minutes) + ":" + IntToString(seconds) + ":" + IntToString(fragments))
      == Ok((minutes * 60 + seconds) * 75 + fragments)
  {
    IntToStringColonFree(minutes);
    IntToStringColonFree(seconds);
    var a, b, c := IntToString(minutes), IntToString(seconds), IntToString(fragments);
    SplitOffset(a, b, c);
    assert IntOf(a) == Ok(minutes) by { IntToStringRoundTrip(minutes); }
    assert IntOf(b) == Ok(seconds) by { IntToStringRoundTrip(seconds); }
    assert IntOf(c) == Ok(fragments) by { IntToStringRoundTrip(fragments); }
    OffsetFramesOfSplit(a + ":" + b + ":" + c, minutes, seconds, fragments);
  }

  lemma OffsetFramesOfSplit(s: string, minutes: int, seconds: int, fragments: int)
    requires |SplitN(s, ':', 2)| == 3
    requires IntOf(SplitN(s, ':', 2)[0]) == Ok(minutes) && IntOf(SplitN(s, ':', 2)[1]) == Ok(seconds)
    requires IntOf(SplitN(s, ':', 2)[2]) == Ok(fragments)
    ensures OffsetFrames(s) == Ok((minutes * 60 + seconds) * 75 + fragments)
  {
    var tok := SplitN(s, ':', 2);
    FieldsFramesOk(tok[0], tok[1], tok[2], minutes, seconds, fragments);
  }

  lemma FieldsFramesOk(a: string, b: string, c: string, minutes: int, seconds: int, fragments: int)
    requires IntOf(a) == Ok(minutes) && IntOf(b) == Ok(seconds) && IntOf(c) == Ok(fragments)
    ensures FieldsFrames(a, b, c) == Ok((minutes * 60 + seconds) * 75 + fragments)
  {
  }

  /** Fewer than two colons is the syntax error. */
  lemma OffsetTooFewFields(s: string)
    requires forall i, j :: 0 <= i < j < |s| && s[i] == ':' ==> s[j] != ':'
    ensures OffsetFrames(s) == Err(InvalidOffsetSyntax(s))
  {
    var i := Find(s, ':');
    if i >= 0 {
      var rest := s[i + 1..];
      assert ':' !in rest by {
        forall j | 0 <= j < |rest| ensures rest[j] != ':' {
          assert rest[j] == s[i + 1 + j];
        }
      }
      assert SplitN(s, ':', 2) == [s[..i]] + SplitN(rest, ':', 1);
    }
  }

  /** A further colon stays in the third field, which then is not an integer. */
  lemma OffsetExtraColon(minutes: int, seconds: int, rest: string)
    requires ':' in rest
    ensures OffsetFrames(IntToString(minutes) + ":" + IntToString(seconds) + ":" + rest) == Err(InvalidInteger(rest))
  {
    IntToStringColonFree(minutes);
    IntToStringColonFree(seconds);
    SplitOffset(IntToString(minutes), IntToString(seconds), rest);
    IntToStringRoundTrip(minutes);
    IntToStringRoundTrip(seconds);
    ParseIntRejects(rest, ':');
  }

  // ---- seek and duration ----

  /** The nearest thousandth is unique: no other count of thousandths is within half a thousandth. */
  lemma ThousandthsUnique(frames: nat, t: nat)
    requires -75 <= 2 * (75 * t - 1000 * frames) <= 75
    ensures t == Thousandths(frames)
  {
  }

  lemma ThreeDigitsValue(n: nat)
    requires n < 1000
    ensures DigitsValue(ThreeDigits(n)) == n
  {
    var r := ThreeDigits(n);
    assert r[..2][..1] == [DigitChar(n / 100)];
    assert DigitsValue(r[..2]) == n / 100 * 10 + n / 10 % 10 by {
      assert DigitsValue(r[..2][..1]) == n / 100 by {
        assert r[..2][..1][..0] == [];
      }
    }
  }

  /**
   * `format(frames / 75, '.3f')`: a `-` exactly for a negative count, then the whole seconds, a point and
   * exactly three digits, which together spell the thousandths of a second nearest to `|frames| / 75`.
   */
  lemma SecondsDenotes(frames: int)
    ensures var s := Seconds(frames); var body := if frames < 0 then s[1..] else s;
      && s != [] && (s[0] == '-' <==> frames < 0)
      && |body| >= 5 && body[|body| - 4] == '.'
      && (forall i :: 0 <= i < |body| && i != |body| - 4 ==> IsDigit(body[i]))
      && DigitsValue(body[..|body| - 4]) * 1000 + DigitsValue(body[|body| - 3..])
         == Thousandths(if frames < 0 then -frames else frames)
  {
    var t := Thousandths(if frames < 0 then -frames else frames);
    var w, d := NatToString(t / 1000), ThreeDigits(t % 1000);
    var s := Seconds(frames);
    assert s == (if frames < 0 then "-" else "") + (w + "." + d);
    assert (if frames < 0 then s[1..] else s) == w + "." + d;
    assert DigitsValue(w) * 1000 + DigitsValue(d) == t by {
      NatToStringValue(t / 1000);
      ThreeDigitsValue(t % 1000);
      assert t / 1000 * 1000 + t % 1000 == t;
    }
    PointedParts(w, d);
  }

  /** `w.d` with digits `w` and three digits `d`: where the point is, and the two parts around it. */
  lemma PointedParts(w: string, d: string)
    requires |w| > 0 && |d| == 3
    requires forall i :: 0 <= i < |w| ==> IsDigit(w[i])
    requires forall i :: 0 <= i < 3 ==> IsDigit(d[i])
    ensures var body := w + "." + d;
      && |body| >= 5 && body[|body| - 4] == '.'
      && (forall i :: 0 <= i < |body| && i != |body| - 4 ==> IsDigit(body[i]))
      && body[..|body| - 4] == w && body[|body| - 3..] == d
  {
    var body := w + "." + d;
    assert forall i :: 0 <= i < |w| ==> body[i] == w[i];
    assert forall i :: |w| < i < |body| ==> body[i] == d[i - |w| - 1];
    assert body[..|body| - 4] == w && body[|body| - 3..] == d;
  }

  /** A whole number of seconds prints with `.000`. */
  lemma SecondsWhole(n: nat)
    ensures Seconds(75 * n) == NatToString(n) + ".000"
  {
    var f, t := 75 * n, 1000 * n;
    assert -75 <= 2 * (75 * t - 1000 * f) <= 75;
    ThousandthsUnique(f, t);
    SecondsOf(f, t);
    assert t / 1000 == n && t % 1000 == 0;
    assert ThreeDigits(0) == "000";
  }

  lemma SecondsOf(frames: nat, t: nat)
    requires Thousandths(frames) == t
    ensures Seconds(frames) == NatToString(t / 1000) + "." + ThreeDigits(t % 1000)
  {
  }

  /** One frame is 0.0133... seconds; 38 frames back is -0.50666... seconds. */
  lemma SecondsExamples()
    ensures Seconds(1) == "0.013"
    ensures Seconds(-38) == "-0.507"
  {
    assert Thousandths(1) == 13;
    assert Thousandths(38) == 507;
    assert NatToString(0) == "0";
  }

  // ---- conversion ----

  /** The metadata the file name is rendered from: the track's metadata, translated through the table. */
  function NameMetadata(t: TrackValue, album: Meta, table: Util.Table): Meta {
    TranslateMetadata(TrackMetadata(t, album), table)
  }

  /** Where the `-metadata` pairs start among the argument words: after `-ss`, `-i` and, when known, `-t`. */
  function MetadataStart(length: Option<int>): nat {
    4 + (if length.Some? then 2 else 0)
  }

  /**
   * The argument words begin with `-ss` and the start, `-i` and the file, then `-t` and the duration exactly
   * when the length is known, and end with the file name; in between are one pair per metadata entry and the
   * extra arguments.
   */
  lemma ArgumentWordsHead(start: int, path: string, length: Option<int>, meta: Meta, ffmpegArgs: seq<string>,
                          name: string)
    ensures var w := ArgumentWords(start, path, length, meta, ffmpegArgs, name);
      && |w| == MetadataStart(length) + 2 * |meta.entries| + |ffmpegArgs| + 1
      && w[0] == "-ss" && w[1] == Seconds(start) && w[2] == "-i" && w[3] == path
      && (length.Some? ==> w[4] == "-t" && w[5] == Seconds(length.value))
      && w[|w| - 1] == name
  {
    var d := if length.Some? then Some(Seconds(length.value)) else None;
    ArgumentWordsShape(start, path, length, meta, ffmpegArgs, name);
    ArgsHead(ArgumentWords(start, path, length, meta, ffmpegArgs, name), Seconds(start), path, d, MetadataArgs(meta),
      ffmpegArgs, name);
  }

  /** One `-metadata KEY=VALUE` pair per metadata entry, in iteration order. */
  lemma ArgumentWordsMetadata(start: int, path: string, length: Option<int>, meta: Meta, ffmpegArgs: seq<string>,
                              name: string, i: int)
    requires 0 <= i < |meta.entries|
    ensures var w := ArgumentWords(start, path, length, meta, ffmpegArgs, name);
      var m := MetadataStart(length);
      m + 2 * i + 1 < |w| && w[m + 2 * i] == "-metadata" && w[m + 2 * i + 1] == Assignment(meta.entries[i])
  {
    var d := if length.Some? then Some(Seconds(length.value)) else None;
    var w := ArgumentWords(start, path, length, meta, ffmpegArgs, name);
    var margs := MetadataArgs(meta);
    var m := MetadataStart(length);
    assert 2 * i + 1 < |margs| && margs[2 * i] == "-metadata" && margs[2 * i + 1] == Assignment(meta.entries[i]) by {
      MetadataPair(meta, i);
    }
    assert m + 2 * i + 1 < |w| && w[m + 2 * i] == margs[2 * i] && w[m + 2 * i + 1] == margs[2 * i + 1] by {
      ArgumentWordsShape(start, path, length, meta, ffmpegArgs, name);
      ArgsPair(w, Seconds(start), path, d, margs, ffmpegArgs, name, i);
    }
  }

  lemma MetadataPair(meta: Meta, i: int)
    requires 0 <= i < |meta.entries|
    ensures 2 * i + 1 < |MetadataArgs(meta)|
    ensures MetadataArgs(meta)[2 * i] == "-metadata" && MetadataArgs(meta)[2 * i + 1] == Assignment(meta.entries[i])
  {
  }

  lemma ArgsPair(w: seq<string>, start: string, path: string, duration: Option<string>, margs: seq<string>,
                 xs: seq<string>, name: string, i: int)
    requires ArgsShape(w, start, path, duration, margs, xs, name)
    requires 0 <= i && 2 * i + 1 < |margs|
    ensures var k := 4 + (if duration.Some? then 2 else 0) + 2 * i;
      k + 1 < |w| && w[k] == margs[2 * i] && w[k + 1] == margs[2 * i + 1]
  {
    ArgsMiddle(w, start, path, duration, margs, xs, name, 2 * i);
    ArgsMiddle(w, start, path, duration, margs, xs, name, 2 * i + 1);
  }

  /** The argument words have the shape of `ArgsShape`, with the start and the duration formatted. */
  lemma ArgumentWordsShape(start: int, path: string, length: Option<int>, meta: Meta, ffmpegArgs: seq<string>,
                           name: string)
    ensures ArgsShape(ArgumentWords(start, path, length, meta, ffmpegArgs, name), Seconds(start), path,
      if length.Some? then Some(Seconds(length.value)) else None, MetadataArgs(meta), ffmpegArgs, name)
  {
  }

  /** The extra arguments come after the metadata pairs, in order. */
  lemma ArgumentWordsExtra(start: int, path: string, length: Option<int>, meta: Meta, ffmpegArgs: seq<string>,
                           name: string, i: int)
    requires 0 <= i < |ffmpegArgs|
    ensures var w := ArgumentWords(start, path, length, meta, ffmpegArgs, name);
      var k := MetadataStart(length) + 2 * |meta.entries| + i;
      k < |w| && w[k] == ffmpegArgs[i]
  {
    var d := if length.Some? then Some(Seconds(length.value)) else None;
    ArgumentWordsShape(start, path, length, meta, ffmpegArgs, name);
    ArgsMiddle(ArgumentWords(start, path, length, meta, ffmpegArgs, name), Seconds(start), path, d,
      MetadataArgs(meta), ffmpegArgs, name, 2 * |meta.entries| + i);
  }

  /** The shape of the argument words, with the start and the duration already formatted. */
  predicate ArgsShape(w: seq<string>, start: string, path: string, duration: Option<string>, margs: seq<string>,
                      xs: seq<string>, name: string)
  {
    w == ["-ss", start, "-i", path] + (if duration.Some? then ["-t", duration.value] else []) + margs + xs + [name]
  }

  lemma ArgsHead(w: seq<string>, start: string, path: string, duration: Option<string>, margs: seq<string>,
                 xs: seq<string>, name: string)
    requires ArgsShape(w, start, path, duration, margs, xs, name)
    ensures |w| == 4 + (if duration.Some? then 2 else 0) + |margs| + |xs| + 1
    ensures w[0] == "-ss" && w[1] == start && w[2] == "-i" && w[3] == path && w[|w| - 1] == name
    ensures duration.Some? ==> w[4] == "-t" && w[5] == duration.value
  {
    var a := ["-ss", start, "-i", path] + (if duration.Some? then ["-t", duration.value] else []);
    assert w == a + (margs + xs + [name]);
    assert w[0] == a[0] && w[1] == a[1] && w[2] == a[2] && w[3] == a[3];
    if duration.Some? {
      assert w[4] == a[4] && w[5] == a[5];
    }
  }

  lemma ArgsMiddle(w: seq<string>, start: string, path: string, duration: Option<string>, margs: seq<string>,
                   xs: seq<string>, name: string, i: int)
    requires ArgsShape(w, start, path, duration, margs, xs, name)
    requires 0 <= i < |margs| + |xs|
    ensures var k := 4 + (if duration.Some? then 2 else 0) + i;
      k < |w| && w[k] == if i < |margs| then margs[i] else xs[i - |margs|]
  {
    var a := ["-ss", start, "-i", path] + (if duration.Some? then ["-t", duration.value] else []);
    MiddleIndex(w, a, margs, xs, name, i);
  }

  /** An index into the middle parts of `a + b + c + [last]`. */
  lemma MiddleIndex<T>(w: seq<T>, a: seq<T>, b: seq<T>, c: seq<T>, last: T, i: int)
    requires w == a + b + c + [last] && 0 <= i < |b| + |c|
    ensures |a| + i < |w| && w[|a| + i] == if i < |b| then b[i] else c[i - |b|]
  {
    assert w == a + (b + c) + [last];
    assert w[|a| + i] == (b + c)[i];
  }

  /**
   * With the `full` template, a track whose album has no `ALBUMARTIST` is not converted: the file name
   * cannot be rendered, whatever the table and the rest of the metadata.
   */
  lemma FullTemplateNeedsAlbumArtist(t: TrackValue, ffmpegCmd: seq<CmdItem>, ffmpegArgs: seq<string>, album: Meta,
                                     table: Util.Table)
    requires 1 in t.offset && t.file.Some?
    requires !Has(album, "ALBUMARTIST")
    ensures TrackCommand(t, FullTemplate, ffmpegCmd, ffmpegArgs, album, table) == Err(MissingKey("ALBUMARTIST"))
  {
    var meta := NameMetadata(t, album, table);
    assert Format(FullTemplate, meta) == Err(MissingKey("ALBUMARTIST")) by {
      assert !Has(meta, "ALBUMARTIST") by {
        assert Get(TrackMetadata(t, album), "ALBUMARTIST") == Get(album, "ALBUMARTIST");
      }
      AlbumArtistKey();
      FullTemplatePieces();
      TemplateProperties.FormatMissingKey("", "ALBUMARTIST", "", FullTemplateRest, meta);
    }
    TrackCommandNamed(t, FullTemplate, ffmpegCmd, ffmpegArgs, album, table);
  }

  /** Once the offset and the file are there, the argument list stands or falls with the file name. */
  lemma TrackCommandNamed(t: TrackValue, f: string, ffmpegCmd: seq<CmdItem>, ffmpegArgs: seq<string>, album: Meta,
                          table: Util.Table)
    requires 1 in t.offset && t.file.Some?
    ensures var r := TrackCommand(t, f, ffmpegCmd, ffmpegArgs, album, table);
      var name := Format(f, NameMetadata(t, album, table));
      && (name.Err? ==> r == Err(name.error))
      && (name.Ok? ==> r == Ok(AfterActions(ffmpegCmd)
            + Words(ArgumentWords(t.offset[1], t.file.value.path, t.length, TrackMetadata(t, album), ffmpegArgs, name.value))))
  {
  }

  lemma AlbumArtistKey()
    ensures TemplateProperties.PlainKey("ALBUMARTIST")
  {
    assert !AllDigits("ALBUMARTIST") by { assert !IsDigit("ALBUMARTIST"[0]); }
  }

  /** What follows the album artist in the `full` template. */
  const FullTemplateRest: string := [Sep] + "[{DATE}] {ALBUM}" + [Sep] + ShortTemplate

  lemma FullTemplatePieces()
    ensures FullTemplate == Util.EscapeFormat("") + ("{" + TemplateProperties.FieldText("ALBUMARTIST", "") + "}" + FullTemplateRest)
  {
    FullTemplateText();
    assert Util.EscapeFormat("") == "";
  }

  /**
   * With the `short` template, a track numbered `0 <= n < 100` with a non-empty title converts, and the
   * file name, the last argument, is the number in two digits, a blank and the title through the table.
   */
  lemma ShortTemplateName(t: TrackValue, ffmpegCmd: seq<CmdItem>, ffmpegArgs: seq<string>, album: Meta,
                          table: Util.Table)
    requires 1 in t.offset && t.file.Some?
    requires t.index.Some? && 0 <= t.index.value < 100 && Truthy(t.title)
    ensures var r := TrackCommand(t, ShortTemplate, ffmpegCmd, ffmpegArgs, album, table);
      var n := t.index.value;
      r.Ok? && |r.value| > 0
      && r.value[|r.value| - 1] == Word([DigitChar(n / 10), DigitChar(n % 10)] + " " + Util.Translate(t.title.value, table))
  {
    ShortTemplateNamed(t, album, table);
    NameIsLastWord(t, ShortTemplate, ffmpegCmd, ffmpegArgs, album, table);
  }

  /** Whatever the template, a name it renders is the last word of the command. */
  lemma NameIsLastWord(t: TrackValue, f: string, ffmpegCmd: seq<CmdItem>, ffmpegArgs: seq<string>, album: Meta,
                       table: Util.Table)
    requires 1 in t.offset && t.file.Some?
    ensures var r := TrackCommand(t, f, ffmpegCmd, ffmpegArgs, album, table);
      var name := Format(f, NameMetadata(t, album, table));
      name.Ok? ==> r.Ok? && |r.value| > 0 && r.value[|r.value| - 1] == Word(name.value)
  {
    var name := Format(f, NameMetadata(t, album, table));
    if name.Ok? {
      var w := ArgumentWords(t.offset[1], t.file.value.path, t.length, TrackMetadata(t, album), ffmpegArgs, name.value);
      TrackCommandNamed(t, f, ffmpegCmd, ffmpegArgs, album, table);
      ArgumentWordsHead(t.offset[1], t.file.value.path, t.length, TrackMetadata(t, album), ffmpegArgs, name.value);
      LastWord(AfterActions(ffmpegCmd), w);
    }
  }

  lemma ShortTemplateNamed(t: TrackValue, album: Meta, table: Util.Table)
    requires t.index.Some? && 0 <= t.index.value < 100 && Truthy(t.title)
    ensures var n := t.index.value;
      Format(ShortTemplate, NameMetadata(t, album, table))
        == Ok([DigitChar(n / 10), DigitChar(n % 10)] + " " + Util.Translate(t.title.value, table))
  {
    var named := NameMetadata(t, album, table);
    var title := Util.Translate(t.title.value, table);
    assert Get(named, "TRACKNUMBER") == Some(Int(t.index.value));
    assert Get(named, "TITLE") == Some(Str(title));
    ShortTemplateRenders(named, t.index.value, title);
  }

  lemma LastWord(pre: seq<CmdItem>, w: seq<string>)
    requires w != []
    ensures var c := pre + Words(w); |c| > 0 && c[|c| - 1] == Word(w[|w| - 1])
  {
  }

  /**
   * The actions `convert` runs on an argument list: with no leading actions the tool alone is called, once,
   * and the conversion fails exactly when the tool does; otherwise each leading action runs in order on the
   * same list, up to a failing call.
   */
  lemma ActionsRun(ffmpegCmd: seq<CmdItem>, cmd: seq<CmdItem>, toolOk: seq<CmdItem> -> bool)
    ensures var r := RunActions(ActionsToRun(ffmpegCmd), cmd, toolOk);
      var actions := LeadingActions(ffmpegCmd);
      && (actions == [] ==> r == ([Invocation(CallAction, cmd)], if toolOk(cmd) then Pass else Fail(ToolFailed(cmd))))
      && (actions != [] ==>
            && |r.0| <= |actions|
            && (forall i :: 0 <= i < |r.0| ==> r.0[i] == Invocation(actions[i], cmd))
            && (r.1.Pass? <==> |r.0| == |actions| && (CallAction in actions ==> toolOk(cmd))))
  {
    if LeadingActions(ffmpegCmd) == [] {
      assert ActionsToRun(ffmpegCmd) == [CallAction];
      assert RunActions([CallAction][1..], cmd, toolOk) == ([], Pass);
      assert [Invocation(CallAction, cmd)] + [] == [Invocation(CallAction, cmd)];
    } else {
      RunActionsLog(ActionsToRun(ffmpegCmd), cmd, toolOk);
    }
  }

  /** `int(str(n)) == n` through the error-valued `int` used for offsets and track numbers. */
  lemma IntOfRoundTrip(n: int)
    ensures IntOf(IntToString(n)) == Ok(n)
  {
    IntToStringRoundTrip(n);
  }

  /** Filtering through a selectable table is idempotent: a filtered value passes through again unchanged. */
  lemma FilterIdempotent(v: Value, mode: FilterMode)
    ensures TranslateValue(TranslateValue(v, TableOf(mode)), TableOf(mode)) == TranslateValue(v, TableOf(mode))
  {
    if v.Str? {
      var t := TableOf(mode);
      var s := Util.Translate(v.s, t);
      assert forall i :: 0 <= i < |s| ==> s[i] !in t by {
        if mode == Full || mode == Windows {
          FullFilterAvoids(v.s);
          FullTableContents();
        } else {
          MinimalFilterAvoids(v.s);
          MinimalTableContents();
        }
      }
      Util.TranslateUntouched(s, t);
    }
  }

  /** `CueTrack.convert` on a track whose file name renders: the actions run on the full argument list. */
  lemma TrackConversionRuns(t: TrackValue, filenameFormat: string, ffmpegCmd: seq<CmdItem>, ffmpegArgs: seq<string>,
                            album: Meta, table: Util.Table, toolOk: seq<CmdItem> -> bool)
    requires 1 in t.offset && t.file.Some?
    requires Format(filenameFormat, NameMetadata(t, album, table)).Ok?
    ensures var name := Format(filenameFormat, NameMetadata(t, album, table)).value;
      var cmd := AfterActions(ffmpegCmd)
        + Words(ArgumentWords(t.offset[1], t.file.value.path, t.length, TrackMetadata(t, album), ffmpegArgs, name));
      var r := TrackConversion(t, filenameFormat, ffmpegCmd, ffmpegArgs, album, table, toolOk);
      && r == RunActions(ActionsToRun(ffmpegCmd), cmd, toolOk)
      && (LeadingActions(ffmpegCmd) == [] ==>
            r == ([Invocation(CallAction, cmd)], if toolOk(cmd) then Pass else Fail(ToolFailed(cmd))))
  {
    var name := Format(filenameFormat, NameMetadata(t, album, table)).value;
    var cmd := AfterActions(ffmpegCmd)
      + Words(ArgumentWords(t.offset[1], t.file.value.path, t.length, TrackMetadata(t, album), ffmpegArgs, name));
    TrackCommandNamed(t, filenameFormat, ffmpegCmd, ffmpegArgs, album, table);
    ActionsRun(ffmpegCmd, cmd, toolOk);
  }

}
