/** Properties of the line tokenizer and of `next_line`. */
module TokenizerProperties {
  import opened Wrappers
  import opened Strings
  import opened Errors
  import opened Tokenizing

  function Quoted(t: string): string { "\"" + t + "\"" }

  /** Parameters written back as quoted groups separated by single blanks. */
  function QuoteAll(ts: seq<string>): string
  {
    if ts == [] then "" else if |ts| == 1 then Quoted(ts[0]) else Quoted(ts[0]) + " " + QuoteAll(ts[1..])
  }

  /** A tokenized line written back: the directive, then its quoted parameters. */
  function Unparse(tokens: seq<string>): string
    requires tokens != []
  {
    if |tokens| == 1 then tokens[0] else tokens[0] + " " + QuoteAll(tokens[1..])
  }

  lemma FindFirst(x: string, c: char, k: nat)
    requires k < |x| && x[k] == c && c !in x[..k]
    ensures Find(x, c) == k
  {
    assert x[k] == c;
  }

  lemma SliceOfConcat(s: string, p: nat, a: string, b: string)
    requires p <= |s| && s[p..] == a + b
    ensures p + |a| <= |s| && s[p..p + |a|] == a && s[p + |a|..] == b
  {
    assert s[p..][..|a|] == a;
    assert s[p..][|a|..] == b;
  }

  /** `token_pattern` on a quoted group `"t"` at `p`. */
  lemma MatchQuoted(s: string, p: nat, t: string)
    requires p + |t| + 2 <= |s| && s[p] == '"' && s[p + 1..p + 1 + |t|] == t && s[p + 1 + |t|] == '"'
    requires '"' !in t
    ensures MatchToken(s, p) == match Separator(s, p + |t| + 2) case None => None case Some(e) => Some((t, e))
  {
    ClosingQuote(s, p, t);
    var q := Find(s[p + 1..], '"');
    var close := p + 1 + q;
    assert close + 1 == p + |t| + 2 && s[p + 1..close] == t;
  }

  lemma ClosingQuote(s: string, p: nat, t: string)
    requires p + |t| + 2 <= |s| && s[p + 1..p + 1 + |t|] == t && s[p + 1 + |t|] == '"'
    requires '"' !in t
    ensures Find(s[p + 1..], '"') == |t|
  {
    var x := s[p + 1..];
    assert x[..|t|] == t && x[|t|] == '"';
    FindFirst(x, '"', |t|);
  }

  /** One scan step: a token matched at `p` is collected and the scan goes on where the match ends. */
  lemma ScanStep(s: string, p: nat, acc: seq<string>, t: string, e: nat)
    requires p < |s| && MatchToken(s, p) == Some((t, e))
    ensures Scan(s, p, acc) == Scan(s, e, acc + [t])
  {
  }

  /** One quoted group, last on the line. */
  lemma ScanLastQuoted(s: string, p: nat, t: string, acc: seq<string>)
    requires p <= |s| && s[p..] == Quoted(t) && '"' !in t
    ensures Scan(s, p, acc) == Some(acc + [t])
  {
    assert p + |t| + 2 == |s| && s[p] == '"' && s[p + 1..p + 1 + |t|] == t && s[p + 1 + |t|] == '"' by {
      SliceOfConcat(s, p, "\"" + t, "\"");
      SliceOfConcat(s, p, "\"", t + "\"");
      SliceOfConcat(s, p + 1, t, "\"");
    }
    assert MatchToken(s, p) == Some((t, |s|)) by {
      MatchQuoted(s, p, t);
    }
    ScanStep(s, p, acc, t, |s|);
  }

  /** A quoted group followed by a single blank and another quoted group: the match ends at that group. */
  lemma QuotedThenMatch(s: string, p: nat, t: string, rest: string)
    requires p <= |s| && s[p..] == Quoted(t) + " " + rest && '"' !in t && rest != [] && rest[0] == '"'
    ensures p < |s| && MatchToken(s, p) == Some((t, p + |t| + 3))
  {
    var close := p + 1 + |t|;
    assert s[p] == '"' && s[p + 1..close] == t && s[close] == '"' && s[close + 1] == ' ' && s[close + 2] == '"' by {
      SliceOfConcat(s, p, "\"", t + "\"" + " " + rest);
      SliceOfConcat(s, p + 1, t, "\"" + " " + rest);
      SliceOfConcat(s, close, "\"", " " + rest);
      SliceOfConcat(s, close + 1, " ", rest);
    }
    assert Separator(s, close + 1) == Some(close + 2) by {
      assert BlanksEnd(s, close + 2) == close + 2;
      assert BlanksEnd(s, close + 1) == close + 2;
    }
    MatchQuoted(s, p, t);
  }

  lemma QuoteAllHead(ts: seq<string>)
    requires ts != []
    ensures QuoteAll(ts) != [] && QuoteAll(ts)[0] == '"'
  {
  }

  /** Where the write-back of the parameters after the first one starts. */
  lemma QuoteAllRest(s: string, p: nat, ts: seq<string>)
    requires p <= |s| && s[p..] == QuoteAll(ts) && |ts| > 1
    ensures p + |ts[0]| + 3 <= |s| && s[p + |ts[0]| + 3..] == QuoteAll(ts[1..])
  {
    assert QuoteAll(ts) == Quoted(ts[0]) + " " + QuoteAll(ts[1..]);
    SliceOfConcat(s, p, Quoted(ts[0]) + " ", QuoteAll(ts[1..]));
  }

  /** The first quoted group of a longer write-back is one match, ending where the next group starts. */
  lemma QuoteAllMatch(s: string, p: nat, ts: seq<string>)
    requires p <= |s| && s[p..] == QuoteAll(ts) && |ts| > 1 && '"' !in ts[0]
    ensures p < |s| && MatchToken(s, p) == Some((ts[0], p + |ts[0]| + 3))
  {
    var rest := QuoteAll(ts[1..]);
    assert rest != [] && rest[0] == '"' by {
      QuoteAllHead(ts[1..]);
    }
    assert s[p..] == Quoted(ts[0]) + " " + rest;
    QuotedThenMatch(s, p, ts[0], rest);
  }

  lemma {:induction false} ScanQuoteAll(s: string, p: nat, ts: seq<string>, acc: seq<string>)
    requires p <= |s| && s[p..] == QuoteAll(ts)
    requires forall i :: 0 <= i < |ts| ==> '"' !in ts[i]
    ensures Scan(s, p, acc) == Some(acc + ts)
    decreases ts
  {
    if ts == [] {
      assert acc + ts == acc;
    } else if |ts| == 1 {
      assert acc + [ts[0]] == acc + ts;
      ScanLastQuoted(s, p, ts[0], acc);
    } else {
      var q := p + |ts[0]| + 3;
      assert acc + [ts[0]] + ts[1..] == acc + ts by {
        AppendCons(acc, ts);
      }
      assert Scan(s, p, acc) == Scan(s, q, acc + [ts[0]]) by {
        QuoteAllMatch(s, p, ts);
        ScanStep(s, p, acc, ts[0], q);
      }
      assert Scan(s, q, acc + [ts[0]]) == Some(acc + [ts[0]] + ts[1..]) by {
        QuoteAllRest(s, p, ts);
        assert forall i :: 0 <= i < |ts[1..]| ==> '"' !in ts[1..][i] by {
          forall i | 0 <= i < |ts[1..]| ensures '"' !in ts[1..][i] {
            assert ts[1..][i] == ts[i + 1];
          }
        }
        ScanQuoteAll(s, q, ts[1..], acc + [ts[0]]);
      }
    }
  }

  /** The first blank ends the directive and is skipped; the scan starts right after it. */
  lemma TokensDirective(d: string, rest: string)
    requires ' ' !in d
    ensures Tokens(d + " " + rest) == Scan(d + " " + rest, |d| + 1, [d])
  {
    var s := d + " " + rest;
    assert s[..|d|] == d && s[|d|] == ' ';
    FindFirst(s, ' ', |d|);
  }

  /**
   * Tokenizing inverts writing back: a directive without blanks followed by parameters without `"`
   * (each written as a quoted group) tokenizes to exactly those tokens.
   */
  lemma TokensUnparse(tokens: seq<string>)
    requires tokens != [] && ' ' !in tokens[0] && (tokens[0] != "" || |tokens| > 1)
    requires forall i :: 1 <= i < |tokens| ==> '"' !in tokens[i]
    ensures Tokens(Unparse(tokens)) == Some(tokens)
  {
    if |tokens| > 1 {
      var d := tokens[0];
      var s := Unparse(tokens);
      TokensDirective(d, QuoteAll(tokens[1..]));
      assert s[|d| + 1..] == QuoteAll(tokens[1..]);
      ScanQuoteAll(s, |d| + 1, tokens[1..], [d]);
      assert [d] + tokens[1..] == tokens;
    } else {
      assert Find(tokens[0], ' ') == -1;
      assert tokens == [tokens[0]];
    }
  }

  /** An unquoted parameter: a non-empty run of characters that are neither `"` nor whitespace. */
  predicate Word(w: string) {
    w != "" && NoSpace(w) && '"' !in w
  }

  lemma {:induction false} RunEndOfWord(s: string, p: nat, w: string)
    requires p + |w| <= |s| && s[p..p + |w|] == w && NoSpace(w) && '"' !in w
    requires p + |w| == |s| || IsSpace(s[p + |w|]) || s[p + |w|] == '"'
    ensures RunEnd(s, p) == p + |w|
    decreases |w|
  {
    if w != [] {
      assert s[p] == w[0];
      assert s[p + 1..p + 1 + |w[1..]|] == w[1..];
      RunEndOfWord(s, p + 1, w[1..]);
    }
  }

  /** `token_pattern` on a word `w` at `p` that ends where the run of non-blank, non-quote characters ends. */
  lemma MatchWord(s: string, p: nat, w: string)
    requires p + |w| <= |s| && s[p..p + |w|] == w && Word(w)
    requires p + |w| == |s| || IsSpace(s[p + |w|]) || s[p + |w|] == '"'
    ensures MatchToken(s, p) == match Separator(s, p + |w|) case None => None case Some(e) => Some((w, e))
  {
    assert s[p] == w[0];
    RunEndOfWord(s, p, w);
  }

  /** One word, last on the line. */
  lemma ScanLastWord(s: string, p: nat, w: string, acc: seq<string>)
    requires p <= |s| && s[p..] == w && Word(w)
    ensures Scan(s, p, acc) == Some(acc + [w])
  {
    assert MatchToken(s, p) == Some((w, |s|)) by {
      assert s[p..p + |w|] == w;
      MatchWord(s, p, w);
    }
    ScanStep(s, p, acc, w, |s|);
  }

  /** A word followed by a single blank and a non-blank: the match ends right after the blank. */
  lemma WordThenMatch(s: string, p: nat, w: string, rest: string)
    requires p <= |s| && s[p..] == w + " " + rest && Word(w) && rest != [] && rest[0] != ' '
    ensures p < |s| && MatchToken(s, p) == Some((w, p + |w| + 1))
  {
    var e := p + |w|;
    assert e + 1 < |s| && s[p..e] == w && s[e] == ' ' && s[e + 1] != ' ' by {
      SliceOfConcat(s, p, w, " " + rest);
      SliceOfConcat(s, e, " ", rest);
    }
    assert Separator(s, e) == Some(e + 1) by {
      assert BlanksEnd(s, e + 1) == e + 1;
      assert BlanksEnd(s, e) == e + 1;
    }
    MatchWord(s, p, w);
  }

  lemma JoinHead(ts: seq<string>)
    requires ts != [] && Word(ts[0])
    ensures Join(" ", ts) != [] && Join(" ", ts)[0] == ts[0][0]
  {
  }

  /** Every element is a `Word`, stated element by element from the front. */
  predicate AllWords(ts: seq<string>)
    decreases |ts|
  {
    ts == [] || (Word(ts[0]) && AllWords(ts[1..]))
  }

  lemma {:induction false} AllWordsOf(ts: seq<string>)
    requires forall i :: 0 <= i < |ts| ==> Word(ts[i])
    ensures AllWords(ts)
    decreases |ts|
  {
    if ts != [] {
      assert forall i :: 0 <= i < |ts[1..]| ==> Word(ts[1..][i]) by {
        forall i | 0 <= i < |ts[1..]| ensures Word(ts[1..][i]) {
          assert ts[1..][i] == ts[i + 1];
        }
      }
      AllWordsOf(ts[1..]);
    }
  }

  lemma AppendCons(acc: seq<string>, ts: seq<string>)
    requires ts != []
    ensures acc + [ts[0]] + ts[1..] == acc + ts
  {
    assert ts == [ts[0]] + ts[1..];
  }

  /** Where the words after the first one start. */
  lemma JoinRest(s: string, p: nat, ts: seq<string>)
    requires p <= |s| && s[p..] == Join(" ", ts) && |ts| > 1
    ensures p + |ts[0]| + 1 <= |s| && s[p + |ts[0]| + 1..] == Join(" ", ts[1..])
  {
    SliceOfConcat(s, p, ts[0] + " ", Join(" ", ts[1..]));
  }

  /** The first word of a longer line is one match, ending where the next word starts. */
  lemma JoinMatch(s: string, p: nat, ts: seq<string>)
    requires p <= |s| && s[p..] == Join(" ", ts) && |ts| > 1 && AllWords(ts)
    ensures p < |s| && MatchToken(s, p) == Some((ts[0], p + |ts[0]| + 1))
  {
    var rest := Join(" ", ts[1..]);
    assert rest != [] && rest[0] != ' ' by {
      assert Word(ts[1..][0]);
      JoinHead(ts[1..]);
    }
    assert s[p..] == ts[0] + " " + rest;
    WordThenMatch(s, p, ts[0], rest);
  }

  lemma {:induction false} ScanWords(s: string, p: nat, ts: seq<string>, acc: seq<string>)
    requires p <= |s| && s[p..] == Join(" ", ts) && AllWords(ts)
    ensures Scan(s, p, acc) == Some(acc + ts)
    decreases |ts|
  {
    if ts == [] {
      assert acc + ts == acc;
    } else if |ts| == 1 {
      assert acc + [ts[0]] == acc + ts;
      ScanLastWord(s, p, ts[0], acc);
    } else {
      var q := p + |ts[0]| + 1;
      assert acc + [ts[0]] + ts[1..] == acc + ts by {
        AppendCons(acc, ts);
      }
      assert Scan(s, p, acc) == Scan(s, q, acc + [ts[0]]) by {
        JoinMatch(s, p, ts);
        ScanStep(s, p, acc, ts[0], q);
      }
      assert Scan(s, q, acc + [ts[0]]) == Some(acc + [ts[0]] + ts[1..]) by {
        JoinRest(s, p, ts);
        ScanWords(s, q, ts[1..], acc + [ts[0]]);
      }
    }
  }

  /**
   * A line made of a directive and unquoted parameters separated by single blanks (`TRACK 01 AUDIO`,
   * `INDEX 01 00:00:00`) tokenizes to exactly its words.
   */
  lemma TokensWords(tokens: seq<string>)
    requires |tokens| > 1 && ' ' !in tokens[0]
    requires forall i :: 1 <= i < |tokens| ==> Word(tokens[i])
    ensures Tokens(Join(" ", tokens)) == Some(tokens)
  {
    var d, more := tokens[0], tokens[1..];
    assert Join(" ", tokens) == d + " " + Join(" ", more);
    TokensDirective(d, Join(" ", more));
    var s := d + " " + Join(" ", more);
    SliceOfConcat(s, 0, d + " ", Join(" ", more));
    assert forall i :: 0 <= i < |more| ==> Word(more[i]) by {
      forall i | 0 <= i < |more| ensures Word(more[i]) {
        assert more[i] == tokens[i + 1];
      }
    }
    AllWordsOf(more);
    ScanWords(s, |d| + 1, more, [d]);
    assert [d] + more == tokens;
  }

  /** A `"` with no closing `"` after it fails the whole line. */
  lemma TokensRejectUnterminated(d: string, v: string)
    requires ' ' !in d && '"' !in v
    ensures Tokens(d + " \"" + v) == None
  {
    var s := d + " \"" + v;
    assert s == d + " " + ("\"" + v);
    TokensDirective(d, "\"" + v);
    SliceOfConcat(s, 0, d + " ", "\"" + v);
    assert s[|d| + 2..] == v;
    assert s[|d| + 1] == '"';
  }

  /** Two blanks after the directive: the second blank starts no token, so the line fails. */
  lemma TokensRejectDoubleBlank(d: string, rest: string)
    requires ' ' !in d
    ensures Tokens(d + "  " + rest) == None
  {
    var s := d + "  " + rest;
    assert s == d + " " + (" " + rest);
    TokensDirective(d, " " + rest);
    assert s[|d| + 1] == ' ';
  }

  lemma MatchWordThenQuote(s: string, p: nat, w: string)
    requires p + |w| < |s| && s[p..p + |w|] == w && Word(w) && s[p + |w|] == '"'
    ensures MatchToken(s, p) == None
  {
    assert s[p] == w[0];
    RunEndOfWord(s, p, w);
  }

  /** A word immediately followed by `"` has no separator after it, so the line fails. */
  lemma TokensRejectQuoteAfterWord(d: string, w: string, rest: string)
    requires ' ' !in d && Word(w)
    ensures Tokens(d + " " + (w + "\"" + rest)) == None
  {
    var params := w + "\"" + rest;
    var s := d + " " + params;
    var p := |d| + 1;
    assert p + |w| < |s| && s[p..p + |w|] == w && s[p + |w|] == '"' by {
      SliceOfConcat(s, 0, d + " ", params);
      SliceOfConcat(s, p, w, "\"" + rest);
    }
    assert MatchToken(s, p) == None by {
      MatchWordThenQuote(s, p, w);
    }
    TokensDirective(d, params);
  }
}

/** Properties of `next_line`: blank lines are skipped, each read counts, and the result is the next real line. */
module NextLineProperties {
  import opened Wrappers
  import opened Strings
  import opened Errors
  import opened Tokenizing

  /** A physical line that is read (not end of input) but is blank after stripping. */
  predicate BlankLine(lines: seq<string>, k: nat) {
    ReadLine(lines, k) != "" && Strip(ReadLine(lines, k)) == ""
  }

  /** Skipping a run of blank lines leaves the result of `next_line` unchanged, counter included. */
  lemma {:induction false} NextLineSkipsBlankLines(lines: seq<string>, count: nat, j: nat)
    requires count <= j
    requires forall k :: count <= k < j ==> BlankLine(lines, k)
    ensures NextLineFrom(lines, count) == NextLineFrom(lines, j)
    decreases j - count
  {
    if count < j {
      assert NextLineFrom(lines, count) == NextLineFrom(lines, count + 1) by {
        assert BlankLine(lines, count);
        NextLineStep(lines, count);
      }
      NextLineSkipsBlankLines(lines, count + 1, j);
    }
  }

  /** One read of `next_line`, by what the stripped line tokenizes to. */
  lemma NextLineStep(lines: seq<string>, count: nat)
    ensures ReadLine(lines, count) == "" ==> NextLineFrom(lines, count) == Ok((None, count + 1))
    ensures ReadLine(lines, count) != "" ==>
      match Tokens(Strip(ReadLine(lines, count)))
      case None => NextLineFrom(lines, count) == Err(SyntaxError(count + 1))
      case Some(t) => NextLineFrom(lines, count) == if t == [] then NextLineFrom(lines, count + 1) else Ok((Some(t), count + 1))
  {
  }

  /** Every line read from counter `a` up to (not including) counter `b` is blank. */
  predicate BlanksBetween(lines: seq<string>, a: nat, b: nat) {
    forall k :: a <= k < b ==> BlankLine(lines, k)
  }

  lemma BlanksBefore(lines: seq<string>, a: nat, b: nat)
    requires BlankLine(lines, a) && BlanksBetween(lines, a + 1, b)
    ensures BlanksBetween(lines, a, b)
  {
  }

  /** Line `c` (1-based) is the first non-blank one read from counter `count`, and it tokenizes to `t`. */
  predicate FoundAt(lines: seq<string>, count: nat, t: seq<string>, c: nat) {
    && count < c <= |lines|
    && Tokens(Strip(lines[c - 1])) == Some(t)
    && BlanksBetween(lines, count, c - 1)
  }

  /** A blank line in front of a found line: the line is found from one counter earlier too. */
  lemma FoundAtBefore(lines: seq<string>, count: nat, t: seq<string>, c: nat)
    requires BlankLine(lines, count) && FoundAt(lines, count + 1, t, c)
    ensures FoundAt(lines, count, t, c)
  {
    BlanksBefore(lines, count, c - 1);
  }

  /**
   * A line returned by `next_line` is the tokenized, stripped text of the physical line the counter now
   * names; every line read before it was blank.
   */
  lemma {:induction false} NextLineFound(lines: seq<string>, count: nat)
    requires NextLineFrom(lines, count).Ok? && NextLineFrom(lines, count).value.0.Some?
    ensures FoundAt(lines, count, NextLineFrom(lines, count).value.0.value, NextLineFrom(lines, count).value.1)
    decreases |lines| - count
  {
    var raw := ReadLine(lines, count);
    if raw != "" && Tokens(Strip(raw)) == Some([]) {
      assert BlankLine(lines, count) && NextLineFrom(lines, count) == NextLineFrom(lines, count + 1) by {
        NextLineStep(lines, count);
      }
      NextLineFound(lines, count + 1);
      var r := NextLineFrom(lines, count + 1);
      FoundAtBefore(lines, count, r.value.0.value, r.value.1);
    } else {
      assert count < |lines| && NextLineFrom(lines, count) == Ok((Tokens(Strip(lines[count])), count + 1)) by {
        NextLineStep(lines, count);
      }
    }
  }

  /** At the end of input `next_line` yields None and still counts the read. */
  lemma {:induction false} NextLineAtEnd(lines: seq<string>, count: nat)
    requires forall k :: count <= k < |lines| ==> BlankLine(lines, k)
    ensures NextLineFrom(lines, count) == Ok((None, if count < |lines| then |lines| + 1 else count + 1))
  {
    if count < |lines| {
      NextLineSkipsBlankLines(lines, count, |lines|);
    }
  }

  /** Line `n` (1-based) is the first non-blank one read from counter `count`, and it fails to tokenize. */
  predicate FailedAt(lines: seq<string>, count: nat, n: nat) {
    && count < n <= |lines|
    && Tokens(Strip(lines[n - 1])) == None
    && BlanksBetween(lines, count, n - 1)
  }

  /** A blank line in front of a failing line: the failure is reached from one counter earlier too. */
  lemma FailedAtBefore(lines: seq<string>, count: nat, n: nat)
    requires BlankLine(lines, count) && FailedAt(lines, count + 1, n)
    ensures FailedAt(lines, count, n)
  {
    BlanksBefore(lines, count, n - 1);
  }

  /** A syntax error cites the physical line that failed to tokenize; the lines before it were blank. */
  lemma {:induction false} NextLineSyntaxError(lines: seq<string>, count: nat)
    requires NextLineFrom(lines, count).Err?
    ensures FailedAt(lines, count, NextLineFrom(lines, count).error.line)
    decreases |lines| - count
  {
    var raw := ReadLine(lines, count);
    if raw != "" && Tokens(Strip(raw)) == Some([]) {
      assert BlankLine(lines, count) && NextLineFrom(lines, count) == NextLineFrom(lines, count + 1) by {
        NextLineStep(lines, count);
      }
      NextLineSyntaxError(lines, count + 1);
      FailedAtBefore(lines, count, NextLineFrom(lines, count + 1).error.line);
    } else {
      assert count < |lines| && Tokens(Strip(lines[count])) == None && NextLineFrom(lines, count) == Err(SyntaxError(count + 1)) by {
        NextLineStep(lines, count);
      }
    }
  }
}
