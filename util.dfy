/**
 * The helpers of `util.py` that cuesplit relies on (`str_maketrans`,
 * `escape_format`, `detect_bom`), and Python's `str.translate`.
 */
module Util {
  import opened Wrappers

  /** A translation table: a character maps to its replacement, or to None to be deleted. */
  type Table = map<char, Option<char>>

  /** The last index of `c` in `s`, or -1. */
  function LastIndex(s: string, c: char): (r: int)
    ensures -1 <= r < |s|
    ensures r == -1 <==> c !in s
    ensures r >= 0 ==> s[r] == c && c !in s[r + 1..]
  {
    if s == [] then -1
    else if s[|s| - 1] == c then |s| - 1
    else
      var r := LastIndex(s[..|s| - 1], c);
      assert s == s[..|s| - 1] + [s[|s| - 1]];
      r
  }

  function Min(a: int, b: int): int { if a < b then a else b }

  /** `from` zipped with `to` (padded with its last character), then every character of `del` deleted. */
  function Marked(from: string, to: string, del: string): Table
    requires to != ""
  {
    map c | c in from + del :: if c in del then None else Some(to[Min(LastIndex(from, c), |to| - 1)])
  }

  /**
   * What `str_maketrans(from, to, delete)` returns: every character of `delete` maps to None; every other
   * character of `from` maps to the character of `to` at the same position (the position of its last
   * occurrence, since a later pair overwrites an earlier one), or to the last character of `to` once `to`
   * is exhausted. An empty `to` is an IndexError (`to[-1]`).
   */
  function MakeTrans(from: string, to: string, delete: string): (r: Option<Table>)
    ensures r.None? <==> to == ""
    ensures r.Some? ==> forall c :: c in r.value <==> c in from || c in delete
    ensures r.Some? ==> forall c :: c in delete ==> r.value[c] == None
    ensures r.Some? ==> forall i :: 0 <= i < |from| && from[i] !in delete && from[i] !in from[i + 1..] ==>
      r.value[from[i]] == Some(to[Min(i, |to| - 1)])
  {
    if to == "" then None
    else
      LastOccurrences(from);
      Some(Marked(from, to, delete))
  }

  /** A character that does not occur again after position `i` has its last occurrence there. */
  lemma LastOccurrences(s: string)
    ensures forall i :: 0 <= i < |s| && s[i] !in s[i + 1..] ==> LastIndex(s, s[i]) == i
  {
  }

  lemma ZipStep(from: string, to: string, i: nat)
    requires to != "" && i < |from|
    ensures Marked(from[..i + 1], to, "") == Marked(from[..i], to, "")[from[i] := Some(to[Min(i, |to| - 1)])]
  {
    var p := from[..i + 1];
    assert p[..i] == from[..i];
    assert p + "" == from[..i] + "" + [from[i]];
    assert forall c :: LastIndex(p, c) == if c == from[i] then i else LastIndex(from[..i], c);
  }

  lemma DeleteStep(from: string, to: string, del: string, j: nat)
    requires to != "" && j < |del|
    ensures Marked(from, to, del[..j + 1]) == Marked(from, to, del[..j])[del[j] := None]
  {
    assert del[..j + 1] == del[..j] + [del[j]];
    assert from + del[..j + 1] == from + del[..j] + [del[j]];
  }

  /** `str_maketrans`: one loop zips `from` with `to`, a second one marks `delete` as deleted. */
  method StrMakeTrans(from: string, to: string, delete: string) returns (r: Option<Table>)
    ensures r == MakeTrans(from, to, delete)
  {
    if to == "" {
      return None;
    }
    var m: Table := map[];
    var i := 0;
    while i < |from|
      invariant 0 <= i <= |from|
      invariant m == Marked(from[..i], to, "")
    {
      ZipStep(from, to, i);
      m := m[from[i] := Some(to[Min(i, |to| - 1)])];
      i := i + 1;
    }
    assert from[..i] == from;
    assert m == Marked(from, to, delete[..0]) by { assert delete[..0] == ""; }
    var j := 0;
    while j < |delete|
      invariant 0 <= j <= |delete|
      invariant m == Marked(from, to, delete[..j])
    {
      DeleteStep(from, to, delete, j);
      m := m[delete[j] := None];
      j := j + 1;
    }
    assert delete[..j] == delete;
    return Some(m);
  }

  /** `str.translate(table)` */
  function Translate(s: string, t: Table): (r: string)
    ensures |r| <= |s|
  {
    if s == [] then ""
    else
      var head := if s[0] !in t then [s[0]] else if t[s[0]].None? then [] else [t[s[0]].value];
      head + Translate(s[1..], t)
  }

  /** Characters the table leaves alone stay where they are. */
  lemma {:induction false} TranslateUntouched(s: string, t: Table)
    requires forall i :: 0 <= i < |s| ==> s[i] !in t
    ensures Translate(s, t) == s
  {
    if s != [] { TranslateUntouched(s[1..], t); }
  }

  /**
   * If every character of `bad` is in the table and no replacement is in `bad`, the translation
   * contains no character of `bad`.
   */
  lemma {:induction false} TranslateAvoids(s: string, t: Table, bad: set<char>)
    requires forall c :: c in bad ==> c in t
    requires forall c :: c in t && t[c].Some? ==> t[c].value !in bad
    ensures forall i :: 0 <= i < |Translate(s, t)| ==> Translate(s, t)[i] !in bad
  {
    if s != [] { TranslateAvoids(s[1..], t, bad); }
  }

  /** Number of `{` and `}` in `s`. */
  function CountBraces(s: string): nat
  {
    if s == [] then 0 else (if s[0] == '{' || s[0] == '}' then 1 else 0) + CountBraces(s[1..])
  }

  /** `escape_format(s)`: every `{` and `}` doubled, so that `str.format` prints it literally. */
  function EscapeFormat(s: string): (r: string)
    ensures |r| == |s| + CountBraces(s)
    ensures CountBraces(s) == 0 ==> r == s
  {
    if s == [] then ""
    else (if s[0] == '{' || s[0] == '}' then [s[0], s[0]] else [s[0]]) + EscapeFormat(s[1..])
  }

  type Byte = b: int | 0 <= b < 256

  /** `BOM_ENCODING_MAP`, in its declaration (= iteration) order. */
  const BomEncodingMap: seq<(seq<Byte>, string)> := [
    ([0xEF, 0xBB, 0xBF], "utf-8-sig"),
    ([0xFF, 0xFE], "utf-16"),
    ([0xFE, 0xFF], "utf-16"),
    ([0xFF, 0xFE, 0x00, 0x00], "utf-32"),
    ([0x00, 0x00, 0xFE, 0xFF], "utf-32")
  ]

  const BomUtf16Le: seq<Byte> := [0xFF, 0xFE]
  const BomUtf32Le: seq<Byte> := [0xFF, 0xFE, 0x00, 0x00]

  /** The first mark of `marks[i..]` that starts `data`, or the empty string. */
  function FirstMark(marks: seq<(seq<Byte>, string)>, data: seq<Byte>, i: nat): (r: seq<Byte>)
    requires i <= |marks|
    ensures r == [] || exists j :: i <= j < |marks| && r == marks[j].0
    decreases |marks| - i
  {
    if i == |marks| then []
    else if marks[i].0 <= data then marks[i].0
    else FirstMark(marks, data, i + 1)
  }

  /** The mark found is the first one, in map order, that prefixes the data. */
  lemma {:induction false} FirstMarkIsFirst(marks: seq<(seq<Byte>, string)>, data: seq<Byte>, i: nat)
    requires i <= |marks|
    ensures var r := FirstMark(marks, data, i);
      && r <= data
      && ((forall j :: 0 <= j < |marks| ==> marks[j].0 != []) ==>
            (r == [] <==> forall j :: i <= j < |marks| ==> !(marks[j].0 <= data)))
      && (r != [] ==> exists j :: i <= j < |marks| && r == marks[j].0 && forall k :: i <= k < j ==> !(marks[k].0 <= data))
    decreases |marks| - i
  {
    if i < |marks| && !(marks[i].0 <= data) {
      FirstMarkIsFirst(marks, data, i + 1);
    }
  }

  /** What `detect_bom` returns. */
  function BomOf(data: seq<Byte>): seq<Byte>
  {
    if |data| >= 2 then FirstMark(BomEncodingMap, data, 0) else []
  }

  /** `detect_bom`: the first byte-order mark of `BOM_ENCODING_MAP` that prefixes the input. */
  method DetectBom(data: seq<Byte>) returns (bom: seq<Byte>)
    ensures bom == BomOf(data)
  {
    if |data| >= 2 {
      for i := 0 to |BomEncodingMap|
        invariant FirstMark(BomEncodingMap, data, 0) == FirstMark(BomEncodingMap, data, i)
      {
        if BomEncodingMap[i].0 <= data {
          return BomEncodingMap[i].0;
        }
      }
    }
    return [];
  }

  /** The result of `detect_bom` always prefixes its input, and inputs shorter than two bytes have none. */
  lemma BomOfPrefix(data: seq<Byte>)
    ensures BomOf(data) <= data
    ensures |data| < 2 ==> BomOf(data) == []
    ensures |data| >= 2 ==> (BomOf(data) == [] <==> forall j :: 0 <= j < |BomEncodingMap| ==> !(BomEncodingMap[j].0 <= data))
    ensures BomOf(data) != [] ==>
      exists j :: 0 <= j < |BomEncodingMap| && BomOf(data) == BomEncodingMap[j].0
        && forall k :: 0 <= k < j ==> !(BomEncodingMap[k].0 <= data)
  {
    FirstMarkIsFirst(BomEncodingMap, data, 0);
  }

  /** The UTF-32 LE mark starts with the UTF-16 LE mark, which is listed first, so it is never detected. */
  lemma Utf32LeDetectedAsUtf16Le(rest: seq<Byte>)
    ensures BomOf(BomUtf32Le + rest) == BomUtf16Le
  {
    var data := BomUtf32Le + rest;
    assert !(BomEncodingMap[0].0 <= data) by { assert data[0] != 0xEF; }
    assert BomEncodingMap[1].0 <= data by { assert data[..2] == BomUtf16Le; }
  }

  /** BOM_ENCODING_MAP with longer marks ahead of the marks they start with. */
  const BomEncodingMapLongestFirst: seq<(seq<Byte>, string)> := [
    ([0xEF, 0xBB, 0xBF], "utf-8-sig"),
    ([0xFF, 0xFE, 0x00, 0x00], "utf-32"),
    ([0x00, 0x00, 0xFE, 0xFF], "utf-32"),
    ([0xFF, 0xFE], "utf-16"),
    ([0xFE, 0xFF], "utf-16")
  ]

  /** Mark detection with the UTF-32 marks checked before the UTF-16 marks. */
  function BomOfLongestFirst(data: seq<Byte>): seq<Byte>
  {
    if |data| >= 2 then FirstMark(BomEncodingMapLongestFirst, data, 0) else []
  }

  /** Every mark of the map, given alone, is detected as itself; `BomOf` misses the UTF-32 LE mark. */
  lemma BomOfLongestFirstFindsEachMark(j: nat)
    requires j < |BomEncodingMap|
    ensures BomOfLongestFirst(BomEncodingMap[j].0) == BomEncodingMap[j].0
    ensures j == 3 ==> BomOf(BomEncodingMap[j].0) != BomEncodingMap[j].0
  {
    var m := BomEncodingMap[j].0;
    var l := BomEncodingMapLongestFirst;
    if j == 3 {
      Utf32LeDetectedAsUtf16Le([]);
      assert BomUtf32Le + [] == m;
    }
  }
}
