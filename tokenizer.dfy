/**
 * `cuesheettokenizer.py`: splits one line of a cue sheet into its directive and parameters, and reads the
 * next non-blank line of the input with a running line counter.
 */
module Tokenizing {
  import opened Wrappers
  import opened Strings
  import opened Errors

  /** The end of the run of characters that are neither `"` nor whitespace, starting at `p`. */
  function RunEnd(s: string, p: nat): (e: nat)
    requires p <= |s|
    ensures p <= e <= |s|
    ensures forall i :: p <= i < e ==> s[i] != '"' && !IsSpace(s[i])
    ensures e < |s| ==> s[e] == '"' || IsSpace(s[e])
    decreases |s| - p
  {
    if p == |s| || s[p] == '"' || IsSpace(s[p]) then p else RunEnd(s, p + 1)
  }

  /** The end of the run of blanks `' '` starting at `p`. */
  function BlanksEnd(s: string, p: nat): (e: nat)
    requires p <= |s|
    ensures p <= e <= |s|
    ensures forall i :: p <= i < e ==> s[i] == ' '
    ensures e < |s| ==> s[e] != ' '
    decreases |s| - p
  {
    if p == |s| || s[p] != ' ' then p else BlanksEnd(s, p + 1)
  }

  /** The separator `(?: +|$)` of `token_pattern` at `e`: the position after it, or None. */
  function Separator(s: string, e: nat): (r: Option<nat>)
    requires e <= |s|
    ensures r.Some? ==> e <= r.value <= |s|
    ensures r.Some? && r.value < |s| ==> e < r.value
  {
    if e == |s| then Some(e) else if s[e] == ' ' then Some(BlanksEnd(s, e)) else None
  }

  /**
   * `token_pattern.match(s, p)` with `token_pattern = ([^"\s]+|"[^"]*")(?: +|$)`: the token (quotes
   * stripped) and the end of the match. A quoted token holds no `"`; an unquoted one is a non-empty run of
   * characters that are neither `"` nor whitespace. Every match ends after `p`, so the scan terminates.
   */
  function MatchToken(s: string, p: nat): (r: Option<(string, nat)>)
    requires p < |s|
    ensures r.Some? ==> p < r.value.1 <= |s|
    ensures r.Some? ==> '"' !in r.value.0
    ensures r.Some? && s[p] == '"' ==>
      (p + |r.value.0| + 2 <= r.value.1 && s[p + 1..p + 1 + |r.value.0|] == r.value.0 && s[p + 1 + |r.value.0|] == '"')
    ensures r.Some? && s[p] != '"' ==>
      (p + |r.value.0| <= r.value.1 && r.value.0 == s[p..p + |r.value.0|] && r.value.0 != "" && NoSpace(r.value.0))
    ensures IsSpace(s[p]) ==> r.None?
  {
    if s[p] == '"' then
      var q := Find(s[p + 1..], '"');
      if q < 0 then None
      else
        var close := p + 1 + q;
        assert s[p + 1..close] == s[p + 1..][..q];
        match Separator(s, close + 1)
        case None => None
        case Some(e) => Some((s[p + 1..close], e))
    else if IsSpace(s[p]) then None
    else
      var e := RunEnd(s, p);
      match Separator(s, e)
      case None => None
      case Some(end) => Some((s[p..e], end))
  }

  /** The tokens of `s[p..]`, after those already in `acc`; None where a match fails. */
  function Scan(s: string, p: nat, acc: seq<string>): (r: Option<seq<string>>)
    requires p <= |s|
    ensures r.Some? ==> |r.value| >= |acc| && r.value[..|acc|] == acc
    ensures r.Some? ==> forall i :: |acc| <= i < |r.value| ==> '"' !in r.value[i]
    decreases |s| - p
  {
    if p == |s| then Some(acc)
    else match MatchToken(s, p)
      case None => None
      case Some((t, e)) =>
        var r := Scan(s, e, acc + [t]);
        assert r.Some? ==> r.value[..|acc|] == r.value[..|acc| + 1][..|acc|];
        r
  }

  /**
   * What `CueSheetTokenizer.tokenize(s)` returns: no tokens for the empty string; otherwise the text before
   * the first blank (or all of `s`), never quote-processed, then the tokens of the remainder. Every token
   * after the first is free of `"`.
   */
  function Tokens(s: string): (r: Option<seq<string>>)
    ensures s == "" ==> r == Some([])
    ensures s != "" && r.Some? ==> |r.value| >= 1 && r.value[0] == (if ' ' in s then s[..Find(s, ' ')] else s)
    ensures r.Some? ==> forall i :: 1 <= i < |r.value| ==> '"' !in r.value[i]
  {
    if s == "" then Some([])
    else
      var p := Find(s, ' ');
      if p >= 0 then Scan(s, p + 1, [s[..p]]) else Some([s])
  }

  /** What `readline` returns on its `k`-th call (0-based): the `k`-th line, or `""` at end of input. */
  function ReadLine(lines: seq<string>, k: nat): string
  {
    if k < |lines| then lines[k] else ""
  }

  /**
   * What `next_line` does from line counter `count`: reads lines, counting each read, skips those that are
   * blank after stripping, and stops at the first meaningful line (its tokens and the new counter), at end
   * of input (None), or at a syntax error citing the counter.
   */
  function NextLineFrom(lines: seq<string>, count: nat): (r: Result<(Option<seq<string>>, nat), Error>)
    ensures r.Ok? ==> r.value.1 > count
    ensures r.Ok? && r.value.0.Some? ==> r.value.1 <= |lines| && r.value.0.value != []
    ensures r.Err? ==> r.error.SyntaxError? && count < r.error.line <= |lines|
    decreases |lines| - count
  {
    var raw := ReadLine(lines, count);
    if raw == "" then Ok((None, count + 1))
    else match Tokens(Strip(raw))
      case None => Err(SyntaxError(count + 1))
      case Some(t) =>
        if t == [] then NextLineFrom(lines, count + 1)
        else Ok((Some(t), count + 1))
  }

  /**
   * `assert_token_count(count)`: a count `>= 0` asks for exactly that many tokens, a negative one for at
   * least `-count`; a missing or empty line always fails.
   */
  function CheckTokenCount(line: Option<seq<string>>, lineNo: nat, count: int): (r: Outcome<Error>)
    ensures r.Pass? <==>
      (line.Some? && line.value != [] && (if count >= 0 then |line.value| == count else |line.value| >= -count))
    ensures line.None? || line.value == [] ==> r == Fail(NoCommand(lineNo))
    ensures r.Fail? && line.Some? && line.value != [] ==>
      r.error == if count >= 0 then ExactArity(lineNo, line.value[0], count - 1)
                 else MinimumArity(lineNo, line.value[0], -1 - count)
  {
    if line.None? || line.value == [] then Fail(NoCommand(lineNo))
    else if count >= 0 then
      if |line.value| != count then Fail(ExactArity(lineNo, line.value[0], count - 1)) else Pass
    else if |line.value| < -count then Fail(MinimumArity(lineNo, line.value[0], -1 - count))
    else Pass
  }

  /** The tokenizer: the lines `readline` will yield, the number of reads so far, and the current line. */
  class CueSheetTokenizer {
    const lines: seq<string>
    var lineCount: nat
    var line: Option<seq<string>>

    constructor (lines: seq<string>)
      ensures this.lines == lines && lineCount == 0 && line == None
    {
      this.lines := lines;
      lineCount := 0;
      line := None;
    }

    /** `tokenize`: the first token up to the first blank, then a scan with `token_pattern`. */
    static method Tokenize(s: string) returns (r: Option<seq<string>>)
      ensures r == Tokens(s)
    {
      if s == "" {
        return Some([]);
      }
      var tokens: seq<string>;
      var p := Find(s, ' ');
      if p >= 0 {
        tokens := [s[..p]];
        p := p + 1;
      } else {
        tokens := [s];
        p := |s|;
        assert Scan(s, p, tokens) == Some([s]);
      }
      while p < |s|
        invariant 0 <= p <= |s|
        invariant Tokens(s) == Scan(s, p, tokens)
        decreases |s| - p
      {
        var m := MatchToken(s, p);
        if m.None? {
          return None;
        }
        assert Scan(s, p, tokens) == Scan(s, m.value.1, tokens + [m.value.0]);
        tokens := tokens + [m.value.0];
        p := m.value.1;
      }
      return Some(tokens);
    }

    /** `next_line`: the next meaningful line, None at end of input, or a syntax error. */
    method NextLine() returns (r: Result<Option<seq<string>>, Error>)
      modifies this
      ensures var spec := NextLineFrom(lines, old(lineCount));
        && (spec.Ok? ==> r == Ok(spec.value.0) && line == spec.value.0 && lineCount == spec.value.1)
        && (spec.Err? ==> r == spec.PropagateFailure() && line == old(line) && lineCount == spec.error.line)
    {
      var current: Option<seq<string>> := Some([]);
      while current == Some([])
        invariant NextLineFrom(lines, old(lineCount)) ==
          if current == Some([]) then NextLineFrom(lines, lineCount) else Ok((current, lineCount))
        invariant line == old(line)
        decreases if current == Some([]) then 1 else 0, |lines| - lineCount
      {
        ghost var before := lineCount;
        lineCount := lineCount + 1;
        var raw := ReadLine(lines, lineCount - 1);
        if raw != "" {
          current := Tokenize(Strip(raw));
          if current.None? {
            assert NextLineFrom(lines, before) == Err(SyntaxError(lineCount));
            return Err(SyntaxError(lineCount));
          }
        } else {
          current := None;
        }
        assert NextLineFrom(lines, before) ==
          if current == Some([]) then NextLineFrom(lines, lineCount) else Ok((current, lineCount));
      }
      line := current;
      return Ok(current);
    }
  }
}
