/**
 The code viewer's highlighters. Each one splits a file on newlines and turns
 every line into a row: the 1-based line number and a sequence of classified
 spans. Lua and XML lines are cut with a regular-expression split and the
 pieces classified one by one; `.toc` lines are cut at the first colon; any
 other file type shows each line as one plain span.
 */
module Highlight {
  import opened Wrappers
  import opened Text
  import opened RegexSplit

  /** What a span is shown as. */
  datatype Class =
    | Plain | Keyword | StringLit | Number | Call | Comment | Tag | AttrName | AttrValue
    | Muted   // the dimmed `##` marker, the `:` and a marker line without a colon
    | Key     // the key of a `## Key: value` line

  datatype Span = Span(text: string, cls: Class)

  datatype Row = Row(number: nat, spans: seq<Span>)

  datatype Format = Lua | Xml | Toc | Fallback

  /** The text a sequence of spans displays. */
  function SpanText(spans: seq<Span>): string
  {
    if |spans| == 0 then "" else spans[0].text + SpanText(spans[1..])
  }

  lemma SpanText3(x: Span, y: Span, z: Span)
    ensures SpanText([x, y, z]) == x.text + y.text + z.text
  {
    assert [x, y, z][1..] == [y, z];
    assert [y, z][1..] == [z];
    assert [z][1..] == [];
    assert SpanText([z]) == z.text;
  }

  lemma SpanText4(w: Span, x: Span, y: Span, z: Span)
    ensures SpanText([w, x, y, z]) == w.text + x.text + y.text + z.text
  {
    assert [w, x, y, z][1..] == [x, y, z];
    SpanText3(x, y, z);
  }

  lemma SpanTextAppend(a: seq<Span>, b: seq<Span>)
    ensures SpanText(a + b) == SpanText(a) + SpanText(b)
  {
    if |a| > 0 {
      assert (a + b)[1..] == a[1..] + b;
      SpanTextAppend(a[1..], b);
    } else {
      assert a + b == b;
    }
  }

  // ---- Lua ----

  /** The page's `LUA_KEYWORDS` set, as a list. */
  const LuaKeywords: seq<string> := [
    "local", "function", "end", "if", "then", "else", "elseif", "for", "do",
    "while", "return", "nil", "true", "false", "not", "and", "or", "in",
    "repeat", "until", "break", "goto", "self"
  ]

  /** Whether `t` is one of `ks`: the set lookup `LUA_KEYWORDS.has(t)`. */
  predicate Listed(t: string, ks: seq<string>)
  {
    |ks| > 0 && (ks[0] == t || Listed(t, ks[1..]))
  }

  lemma {:induction false} ListedIn(t: string, ks: seq<string>)
    ensures Listed(t, ks) <==> t in ks
  {
    if |ks| > 0 {
      ListedIn(t, ks[1..]);
      assert ks == [ks[0]] + ks[1..];
    }
  }

  predicate IsKeyword(t: string)
  {
    Listed(t, LuaKeywords)
  }

  /** `/^\d+\.?\d*$/`: digits, then optionally a dot and more digits, and nothing else. */
  predicate IsNumeral(t: string)
  {
    var d := RunEnd(Digits, t, 0);
    d > 0 && (d == |t| || (t[d] == '.' && RunEnd(Digits, t, d + 1) == |t|))
  }

  /** `/^\w+$/`. */
  predicate IsWord(t: string)
  {
    |t| > 0 && forall k :: 0 <= k < |t| ==> IsWordChar(t[k])
  }

  predicate StartsWithQuote(t: string)
  {
    |t| > 0 && (t[0] == '"' || t[0] == '\'')
  }

  /** The class a token gets from its own text alone: no call-site class. */
  function TextClass(t: string): Class
  {
    if IsKeyword(t) then Keyword
    else if StartsWithQuote(t) then StringLit
    else if IsNumeral(t) then Number
    else Plain
  }

  /**
   The class of the token at `i`, in the page's priority order: keyword,
   quoted string and number come from the text; after those, a word whose raw
   successor in `toks` is `(` is a call site.
   */
  function LuaClass(toks: seq<string>, i: nat): Class
    requires i < |toks|
  {
    var t := toks[i];
    var c := TextClass(t);
    if c == Plain && IsWord(t) && i + 1 < |toks| && toks[i + 1] == "(" then Call else c
  }

  /** The tokens from `i` on, empty ones dropped, each classified. */
  function LuaSpans(toks: seq<string>, i: nat): seq<Span>
    requires i <= |toks|
    decreases |toks| - i
  {
    if i == |toks| then []
    else if toks[i] == "" then LuaSpans(toks, i + 1)
    else [Span(toks[i], LuaClass(toks, i))] + LuaSpans(toks, i + 1)
  }

  /** A line whose `trimStart` begins with `--` is shown whole as a comment. */
  predicate IsLuaCommentLine(line: string)
  {
    StartsWith(TrimStart(line), "--")
  }

  /** One Lua line, as the page highlights it. */
  function LuaLine(line: string): seq<Span>
  {
    if IsLuaCommentLine(line) then [Span(line, Comment)]
    else LuaSpans(Split(LuaToken, line), 0)
  }

  function NonEmpty(toks: seq<string>): (r: seq<string>)
    ensures forall k :: 0 <= k < |r| ==> r[k] != ""
  {
    if |toks| == 0 then []
    else (if toks[0] == "" then [] else [toks[0]]) + NonEmpty(toks[1..])
  }

  /** The tokens of a line in order, without the empty pieces of the split. */
  function LuaTokens(line: string): seq<string>
  {
    NonEmpty(Split(LuaToken, line))
  }

  function TextSpans(ts: seq<string>): (r: seq<Span>)
    ensures |r| == |ts|
    ensures forall j :: 0 <= j < |ts| ==> r[j] == Span(ts[j], TextClass(ts[j]))
  {
    if |ts| == 0 then [] else [Span(ts[0], TextClass(ts[0]))] + TextSpans(ts[1..])
  }

  lemma {:induction false} LuaSpansText(toks: seq<string>, i: nat)
    requires i <= |toks|
    ensures SpanText(LuaSpans(toks, i)) == Concat(toks[i..])
    decreases |toks| - i
  {
    if i < |toks| {
      LuaSpansText(toks, i + 1);
      assert toks[i..][1..] == toks[i + 1..];
    }
  }

  /** The spans of a Lua line spell the line exactly. */
  lemma LuaLineText(line: string)
    ensures SpanText(LuaLine(line)) == line
  {
    if !IsLuaCommentLine(line) {
      var toks := Split(LuaToken, line);
      LuaSpansText(toks, 0);
      assert toks[0..] == toks;
      SplitConcat(LuaToken, line);
    }
  }

  lemma TextSpansCons(t: string, rest: seq<string>)
    ensures TextSpans([t] + rest) == [Span(t, TextClass(t))] + TextSpans(rest)
  {
    assert ([t] + rest)[1..] == rest;
  }

  /** An empty token yields no span. */
  lemma LuaSpansSkip(toks: seq<string>, i: nat)
    requires i < |toks| && toks[i] == ""
    ensures LuaSpans(toks, i) == LuaSpans(toks, i + 1)
  {
  }

  /** A non-empty token yields one classified span. */
  lemma LuaSpansTake(toks: seq<string>, i: nat)
    requires i < |toks| && toks[i] != ""
    ensures LuaSpans(toks, i) == [Span(toks[i], LuaClass(toks, i))] + LuaSpans(toks, i + 1)
  {
  }

  /** In a gapless split a token is followed by an empty gap. */
  lemma GaplessNext(toks: seq<string>, i: nat)
    requires Gapless(toks) && i < |toks| && toks[i] != ""
    ensures i + 1 < |toks| && toks[i + 1] == ""
  {
    assert i % 2 == 1;
  }

  lemma {:induction false} LuaSpansGapless(toks: seq<string>, i: nat)
    requires Gapless(toks) && i <= |toks|
    ensures LuaSpans(toks, i) == TextSpans(NonEmpty(toks[i..]))
    decreases |toks| - i
  {
    if i < |toks| {
      LuaSpansGapless(toks, i + 1);
      var t := toks[i];
      assert toks[i..] == [t] + toks[i + 1..];
      NonEmptyCons(t, toks[i + 1..]);
      if t != "" {
        GaplessNext(toks, i);
        LuaSpansTake(toks, i);
        assert LuaClass(toks, i) == TextClass(t);
        TextSpansCons(t, NonEmpty(toks[i + 1..]));
      } else {
        LuaSpansSkip(toks, i);
        assert [] + NonEmpty(toks[i + 1..]) == NonEmpty(toks[i + 1..]);
      }
    }
  }

  /**
   As written, the raw successor of a Lua token is always the empty gap the
   split left after it, never `(`: every span is classified from its own text
   and none is ever a call site.
   */
  lemma LuaLineAsWritten(line: string)
    ensures !IsLuaCommentLine(line) ==> LuaLine(line) == TextSpans(LuaTokens(line))
    ensures forall k :: 0 <= k < |LuaLine(line)| ==> LuaLine(line)[k].cls != Call
  {
    if IsLuaCommentLine(line) {
      assert LuaLine(line) == [Span(line, Comment)];
    } else {
      var toks := Split(LuaToken, line);
      LuaSplitGapless(line);
      LuaSpansGapless(toks, 0);
      assert toks[0..] == toks;
      TextSpansNeverCall(LuaTokens(line));
    }
  }

  lemma TextSpansNeverCall(ts: seq<string>)
    ensures forall k :: 0 <= k < |TextSpans(ts)| ==> TextSpans(ts)[k].cls != Call
  {
    forall k | 0 <= k < |ts|
      ensures TextSpans(ts)[k].cls != Call
    {
      assert TextSpans(ts)[k] == Span(ts[k], TextClass(ts[k]));
    }
  }

  /** Only a comment line is shown as comment: no token of any other line gets that class. */
  lemma LuaCommentSpans(line: string)
    ensures IsLuaCommentLine(line) <==> exists k :: 0 <= k < |LuaLine(line)| && LuaLine(line)[k].cls == Comment
  {
    if IsLuaCommentLine(line) {
      assert LuaLine(line)[0].cls == Comment;
    } else {
      LuaLineAsWritten(line);
    }
  }

  // ---- Lua, call sites as intended ----

  /** The Lua line with the call-site rule looking at the next non-empty token. */
  function LuaLineIntended(line: string): seq<Span>
  {
    if IsLuaCommentLine(line) then [Span(line, Comment)]
    else LuaSpans(LuaTokens(line), 0)
  }

  lemma {:induction false} LuaSpansDenseLength(ts: seq<string>, i: nat)
    requires i <= |ts|
    requires forall k :: 0 <= k < |ts| ==> ts[k] != ""
    ensures |LuaSpans(ts, i)| == |ts| - i
    decreases |ts| - i
  {
    if i < |ts| {
      LuaSpansDenseLength(ts, i + 1);
    }
  }

  /** Without empty tokens the span at offset `j - i` is token `j`, classified. */
  lemma {:induction false} LuaSpansDenseAt(ts: seq<string>, i: nat, j: nat)
    requires i <= j < |ts|
    requires forall k :: 0 <= k < |ts| ==> ts[k] != ""
    ensures |LuaSpans(ts, i)| == |ts| - i
    ensures LuaSpans(ts, i)[j - i] == Span(ts[j], LuaClass(ts, j))
    decreases j - i
  {
    assert ts[i] != "";
    var x, rest := Span(ts[i], LuaClass(ts, i)), LuaSpans(ts, i + 1);
    LuaSpansTake(ts, i);
    LuaSpansDenseLength(ts, i + 1);
    if j > i {
      LuaSpansDenseAt(ts, i + 1, j);
      ConsIndex(x, rest, j - i - 1);
    } else {
      assert ([x] + rest)[0] == x;
    }
  }

  lemma ConsIndex<T>(x: T, rest: seq<T>, m: nat)
    requires m < |rest|
    ensures ([x] + rest)[m + 1] == rest[m]
  {
  }

  /** On a list without empty tokens, the call-site rule looks at the next token. */
  lemma LuaClassDense(ts: seq<string>, j: nat)
    requires j < |ts|
    ensures LuaClass(ts, j) == Call <==>
              TextClass(ts[j]) == Plain && IsWord(ts[j]) && j + 1 < |ts| && ts[j + 1] == "("
    ensures LuaClass(ts, j) != Call ==> LuaClass(ts, j) == TextClass(ts[j])
  {
  }

  lemma {:induction false} NonEmptyText(toks: seq<string>)
    ensures Concat(NonEmpty(toks)) == Concat(toks)
  {
    if |toks| > 0 {
      NonEmptyText(toks[1..]);
      ConcatAppend(if toks[0] == "" then [] else [toks[0]], NonEmpty(toks[1..]));
    }
  }

  lemma {:induction false} NotListed(t: string, ks: seq<string>)
    requires forall k :: 0 <= k < |ks| ==> ks[k] != t
    ensures !Listed(t, ks)
  {
    if |ks| > 0 {
      NotListed(t, ks[1..]);
    }
  }

  /** No keyword is shorter than two characters or starts with anything but a lower-case letter. */
  lemma NotKeyword(t: string)
    requires |t| < 2 || !('a' <= t[0] <= 'z')
    ensures !IsKeyword(t)
  {
    forall k | 0 <= k < |LuaKeywords|
      ensures LuaKeywords[k] != t
    {
      assert |LuaKeywords[k]| >= 2 && 'a' <= LuaKeywords[k][0] <= 'z';
    }
    NotListed(t, LuaKeywords);
  }

  /** On a list without empty tokens each token becomes one span, a call site exactly when followed by `(`. */
  lemma DenseCallAt(ts: seq<string>, j: nat)
    requires forall k :: 0 <= k < |ts| ==> ts[k] != ""
    requires j < |ts|
    ensures |LuaSpans(ts, 0)| == |ts|
    ensures LuaSpans(ts, 0)[j].text == ts[j]
    ensures LuaSpans(ts, 0)[j].cls == Call <==>
              TextClass(ts[j]) == Plain && IsWord(ts[j]) && j + 1 < |ts| && ts[j + 1] == "("
    ensures LuaSpans(ts, 0)[j].cls != Call ==> LuaSpans(ts, 0)[j].cls == TextClass(ts[j])
  {
    LuaSpansDenseAt(ts, 0, j);
    LuaClassDense(ts, j);
  }

  /**
   With the intended lookahead a span is a call site exactly when it is a
   word that is not a keyword or number and the next span is `(`; every
   other span keeps the class its text gives it, and the line is spelled
   exactly.
   */
  lemma LuaLineIntendedCalls(line: string)
    requires !IsLuaCommentLine(line)
    ensures |LuaLineIntended(line)| == |LuaTokens(line)|
    ensures forall j :: 0 <= j < |LuaTokens(line)| ==> LuaLineIntended(line)[j].text == LuaTokens(line)[j]
    ensures forall j :: 0 <= j < |LuaTokens(line)| ==>
              (LuaLineIntended(line)[j].cls == Call <==>
                 TextClass(LuaTokens(line)[j]) == Plain && IsWord(LuaTokens(line)[j])
                 && j + 1 < |LuaTokens(line)| && LuaTokens(line)[j + 1] == "(")
    ensures forall j :: 0 <= j < |LuaTokens(line)| && LuaLineIntended(line)[j].cls != Call ==>
              LuaLineIntended(line)[j].cls == TextClass(LuaTokens(line)[j])
    ensures SpanText(LuaLineIntended(line)) == line
  {
    var ts := LuaTokens(line);
    assert LuaLineIntended(line) == LuaSpans(ts, 0);
    LuaSpansDenseLength(ts, 0);
    forall j | 0 <= j < |LuaTokens(line)|
      ensures LuaLineIntended(line)[j].text == LuaTokens(line)[j]
      ensures LuaLineIntended(line)[j].cls == Call <==>
                TextClass(LuaTokens(line)[j]) == Plain && IsWord(LuaTokens(line)[j])
                && j + 1 < |LuaTokens(line)| && LuaTokens(line)[j + 1] == "("
      ensures LuaLineIntended(line)[j].cls != Call ==>
                LuaLineIntended(line)[j].cls == TextClass(LuaTokens(line)[j])
    {
      DenseCallAt(ts, j);
    }
    LuaSpansText(ts, 0);
    assert ts[0..] == ts;
    NonEmptyText(Split(LuaToken, line));
    SplitConcat(LuaToken, line);
  }

  lemma AsWrittenVersusIntendedAt(line: string, j: nat)
    requires !IsLuaCommentLine(line)
    requires j < |LuaTokens(line)|
    ensures |LuaLine(line)| == |LuaLineIntended(line)| == |LuaTokens(line)|
    ensures LuaLine(line)[j].text == LuaLineIntended(line)[j].text
    ensures LuaLine(line)[j].cls == LuaLineIntended(line)[j].cls
            || (LuaLine(line)[j].cls == Plain && LuaLineIntended(line)[j].cls == Call)
  {
    LuaLineAsWritten(line);
    assert LuaLineIntended(line) == LuaSpans(LuaTokens(line), 0);
    DenseCallAt(LuaTokens(line), j);
    var t := LuaTokens(line)[j];
    assert LuaLine(line)[j] == Span(t, TextClass(t));
    assert LuaLineIntended(line)[j].text == t;
    assert LuaLineIntended(line)[j].cls == Call ==> TextClass(t) == Plain;
    assert LuaLineIntended(line)[j].cls != Call ==> LuaLineIntended(line)[j].cls == TextClass(t);
  }

  /** The as-written and the intended Lua rows differ only where the intended one marks a call. */
  lemma LuaAsWrittenVersusIntended(line: string)
    ensures |LuaLine(line)| == |LuaLineIntended(line)|
    ensures forall j :: 0 <= j < |LuaLine(line)| ==>
              LuaLine(line)[j].text == LuaLineIntended(line)[j].text
              && (LuaLine(line)[j].cls == LuaLineIntended(line)[j].cls
                  || (LuaLine(line)[j].cls == Plain && LuaLineIntended(line)[j].cls == Call))
  {
    if !IsLuaCommentLine(line) {
      LuaLineAsWritten(line);
      LuaLineIntendedCalls(line);
      forall j | 0 <= j < |LuaLine(line)|
        ensures LuaLine(line)[j].text == LuaLineIntended(line)[j].text
                && (LuaLine(line)[j].cls == LuaLineIntended(line)[j].cls
                    || (LuaLine(line)[j].cls == Plain && LuaLineIntended(line)[j].cls == Call))
      {
        AsWrittenVersusIntendedAt(line, j);
      }
    }
  }

  lemma LuaTokensOfCall(s: string)
    requires s == "f("
    ensures Split(LuaToken, s) == ["", "f", "", "(", ""]
  {
    RunEndAt(Word, s, 0, 1);
    assert s[0..1] == "f" && s[1..2] == "(" && s[0..0] == "" && s[1..1] == "" && s[2..] == "";
    assert LuaMatch(s, 0) == Some(Match(1, "f"));
    assert LuaMatch(s, 1) == Some(Match(2, "("));
    SplitLoopDone(LuaToken, s, 2);
    SplitLoopCut(LuaToken, s, 1, 1, Match(2, "("));
    SplitLoopCut(LuaToken, s, 0, 0, Match(1, "f"));
  }

  /** `NonEmpty` drops a leading empty string and keeps a leading non-empty one. */
  lemma NonEmptyCons(t: string, rest: seq<string>)
    ensures NonEmpty([t] + rest) == (if t == "" then [] else [t]) + NonEmpty(rest)
  {
    assert ([t] + rest)[1..] == rest;
  }

  /** `NonEmpty` of an alternation of empty gaps and the given tokens. */
  lemma NonEmptyGapped3(a: string, b: string, c: string)
    requires a != "" && b != "" && c != ""
    ensures NonEmpty(["", a, "", b, "", c, ""]) == [a, b, c]
  {
    NonEmptyCons("", []);
    NonEmptyCons(c, [""]);
    NonEmptyCons("", [c, ""]);
    NonEmptyCons(b, ["", c, ""]);
    NonEmptyCons("", [b, "", c, ""]);
    NonEmptyCons(a, ["", b, "", c, ""]);
    NonEmptyCons("", [a, "", b, "", c, ""]);
  }

  lemma NonEmptyGapped2(a: string, b: string)
    requires a != "" && b != ""
    ensures NonEmpty(["", a, "", b, ""]) == [a, b]
  {
    NonEmptyCons("", []);
    NonEmptyCons(b, [""]);
    NonEmptyCons("", [b, ""]);
    NonEmptyCons(a, ["", b, ""]);
    NonEmptyCons("", [a, "", b, ""]);
  }

  /** A token that cannot be a keyword, a string or a number takes the plain class from its text. */
  lemma PlainText(t: string)
    requires |t| > 0 && !IsDigit(t[0]) && t[0] != '"' && t[0] != '\''
    requires |t| < 2 || !('a' <= t[0] <= 'z')
    ensures TextClass(t) == Plain
  {
    NotKeyword(t);
    assert RunEnd(Digits, t, 0) == 0;
  }

  /** A single digit is a number. */
  lemma DigitText(t: string)
    requires |t| == 1 && IsDigit(t[0])
    ensures TextClass(t) == Number
  {
    NotKeyword(t);
    RunEndAt(Digits, t, 0, 1);
  }

  lemma TextSpans2(a: string, b: string)
    ensures TextSpans([a, b]) == [Span(a, TextClass(a)), Span(b, TextClass(b))]
  {
  }

  lemma TextSpans3(a: string, b: string, c: string)
    ensures TextSpans([a, b, c]) == [Span(a, TextClass(a)), Span(b, TextClass(b)), Span(c, TextClass(c))]
  {
    assert [a, b, c][1..] == [b, c];
  }

  /** A plain word followed by `(` is a call site under the intended lookahead. */
  lemma CallPair(a: string)
    requires TextClass(a) == Plain && IsWord(a)
    ensures LuaSpans([a, "("], 0) == [Span(a, Call), Span("(", Plain)]
  {
    var ts := [a, "("];
    PlainText("(");
    assert LuaSpans(ts, 2) == [];
    assert LuaSpans(ts, 1) == [Span("(", Plain)];
  }

  /** `f(` lexes to the tokens `f` and `(`. */
  lemma LuaTokensOfCallLine(line: string)
    requires line == "f("
    ensures !IsLuaCommentLine(line)
    ensures LuaTokens(line) == ["f", "("]
  {
    LuaTokensOfCall(line);
    NonEmptyGapped2("f", "(");
    assert LeadingSpaces(line) == 0;
  }

  /** `f(` shows `f` plain as written, and as a call site with the intended lookahead. */
  lemma LuaCallSiteExample(line: string)
    requires line == "f("
    ensures LuaLine(line) == [Span("f", Plain), Span("(", Plain)]
    ensures LuaLineIntended(line) == [Span("f", Call), Span("(", Plain)]
  {
    CallSiteAsWritten(line);
    CallSiteIntended(line);
  }

  lemma CallSiteAsWritten(line: string)
    requires line == "f("
    ensures LuaLine(line) == [Span("f", Plain), Span("(", Plain)]
  {
    LuaTokensOfCallLine(line);
    LuaLineAsWritten(line);
    PlainText("f");
    PlainText("(");
    TextSpans2("f", "(");
  }

  lemma CallSiteIntended(line: string)
    requires line == "f("
    ensures LuaLineIntended(line) == [Span("f", Call), Span("(", Plain)]
  {
    LuaTokensOfCallLine(line);
    PlainText("f");
    assert IsWord("f");
    CallPair("f");
  }

  lemma LuaTokensOfDecimal(s: string)
    requires s == "1.5"
    ensures Split(LuaToken, s) == ["", "1", "", ".", "", "5", ""]
  {
    DecimalMatches(s);
    assert s[0..0] == "" && s[1..1] == "" && s[2..2] == "" && s[3..] == "";
    SplitLoopDone(LuaToken, s, 3);
    SplitLoopCut(LuaToken, s, 2, 2, Match(3, "5"));
    SplitLoopCut(LuaToken, s, 1, 1, Match(2, "."));
    SplitLoopCut(LuaToken, s, 0, 0, Match(1, "1"));
  }

  /** The token matched at each position of `1.5`. */
  lemma DecimalMatches(s: string)
    requires s == "1.5"
    ensures MatchAt(LuaToken, s, 0) == Some(Match(1, "1"))
    ensures MatchAt(LuaToken, s, 1) == Some(Match(2, "."))
    ensures MatchAt(LuaToken, s, 2) == Some(Match(3, "5"))
  {
    RunEndAt(Word, s, 0, 1);
    RunEndAt(Word, s, 2, 3);
    assert s[0..1] == "1" && s[1..2] == "." && s[2..3] == "5";
  }

  lemma LuaTokensOfDecimalLine(line: string)
    requires line == "1.5"
    ensures !IsLuaCommentLine(line)
    ensures LuaTokens(line) == ["1", ".", "5"]
  {
    LuaTokensOfDecimal(line);
    NonEmptyGapped3("1", ".", "5");
    assert LeadingSpaces(line) == 0;
  }

  /** `1.5` is three tokens: the word alternative takes `1` before the number alternative is tried. */
  lemma LuaDecimalSplits(line: string)
    requires line == "1.5"
    ensures LuaLine(line) == [Span("1", Number), Span(".", Plain), Span("5", Number)]
  {
    LuaTokensOfDecimalLine(line);
    LuaLineAsWritten(line);
    var ts := LuaTokens(line);
    DigitText(ts[0]);
    PlainText(ts[1]);
    DigitText(ts[2]);
    TextSpans3(ts[0], ts[1], ts[2]);
  }

  lemma LuaTokensOfInlineComment(s: string)
    requires s == "x --c"
    ensures Split(LuaToken, s) == ["", "x", "", " ", "", "--c", ""]
  {
    InlineCommentMatches(s);
    assert s[0..0] == "" && s[1..1] == "" && s[2..2] == "" && s[5..] == "";
    SplitLoopDone(LuaToken, s, 5);
    SplitLoopCut(LuaToken, s, 2, 2, Match(5, "--c"));
    SplitLoopCut(LuaToken, s, 1, 1, Match(2, " "));
    SplitLoopCut(LuaToken, s, 0, 0, Match(1, "x"));
  }

  /** The token matched at each position of `x --c`. */
  lemma InlineCommentMatches(s: string)
    requires s == "x --c"
    ensures MatchAt(LuaToken, s, 0) == Some(Match(1, "x"))
    ensures MatchAt(LuaToken, s, 1) == Some(Match(2, " "))
    ensures MatchAt(LuaToken, s, 2) == Some(Match(5, "--c"))
  {
    RunEndAt(Word, s, 0, 1);
    RunEndAt(Spaces, s, 1, 2);
    assert s[2..4] == "--" && NoTerminatorFrom(s, 4);
    assert s[0..1] == "x" && s[1..2] == " " && s[2..5] == "--c";
  }

  lemma LuaTokensOfInlineCommentLine(line: string)
    requires line == "x --c"
    ensures !IsLuaCommentLine(line)
    ensures LuaTokens(line) == ["x", " ", "--c"]
  {
    LuaTokensOfInlineComment(line);
    NonEmptyGapped3("x", " ", "--c");
    assert LeadingSpaces(line) == 0;
  }

  /** A comment after code is one plain token running to the end of the line. */
  lemma LuaInlineComment(line: string)
    requires line == "x --c"
    ensures LuaLine(line) == [Span("x", Plain), Span(" ", Plain), Span("--c", Plain)]
  {
    LuaTokensOfInlineCommentLine(line);
    LuaLineAsWritten(line);
    var ts := LuaTokens(line);
    PlainText(ts[0]);
    PlainText(ts[1]);
    PlainText(ts[2]);
    TextSpans3(ts[0], ts[1], ts[2]);
  }

  // ---- XML ----

  predicate IsAttrName(n: string)
  {
    |n| > 0 && forall k :: 0 <= k < |n| ==> IsNameChar(n[k])
  }

  /** A double-quoted value with no quote inside. */
  predicate IsQuotedValue(v: string)
  {
    |v| >= 2 && v[0] == '"' && v[|v| - 1] == '"' && forall k :: 0 < k < |v| - 1 ==> v[k] != '"'
  }

  /** `part.match(/^([\w:]+)=("[^"]*")$/)`: the name and the quoted value. */
  function AttrSplit(part: string): (r: Option<(string, string)>)
    ensures r.Some? ==> part == r.value.0 + "=" + r.value.1
    ensures r.Some? ==> IsAttrName(r.value.0) && IsQuotedValue(r.value.1)
  {
    var n := RunEnd(Names, part, 0);
    if n > 0 && n + 1 < |part| && part[n] == '=' && part[n + 1] == '"' && FindChar(part, n + 2, '"') == Some(|part| - 1)
    then
      assert part == part[..n] + "=" + part[n + 1..];
      Some((part[..n], part[n + 1..]))
    else None
  }

  /** Every `name="value"` text is recognised, and split back into its name and value. */
  lemma AttrSplitRoundTrip(n: string, v: string)
    requires IsAttrName(n) && IsQuotedValue(v)
    ensures AttrSplit(n + "=" + v) == Some((n, v))
  {
    var part := n + "=" + v;
    assert forall k :: 0 <= k < |n| ==> part[k] == n[k];
    assert part[|n|] == '=';
    RunEndAt(Names, part, 0, |n|);
    assert forall k :: |n| + 2 <= k < |part| - 1 ==> part[k] == v[k - |n| - 1];
    FindCharAt(part, |n| + 2, '"', |part| - 1);
    assert part[..|n|] == n && part[|n| + 1..] == v;
  }

  /** A part that is neither a comment nor a tag: a `name="value"` pair as three spans, or one plain span. */
  function AttrOrPlain(part: string): (r: seq<Span>)
    ensures |r| == 3 <==> AttrSplit(part).Some?
    ensures |r| == 3 ==> r == [Span(AttrSplit(part).value.0, AttrName), Span("=", Plain), Span(AttrSplit(part).value.1, AttrValue)]
    ensures |r| == 3 ==> IsQuotedValue(r[2].text)
    ensures |r| != 3 ==> r == [Span(part, Plain)]
    ensures SpanText(r) == part
  {
    match AttrSplit(part)
    case Some((name, value)) =>
      SpanText3(Span(name, AttrName), Span("=", Plain), Span(value, AttrValue));
      [Span(name, AttrName), Span("=", Plain), Span(value, AttrValue)]
    case None => [Span(part, Plain)]
  }

  /**
   One piece of an XML split: a comment, a tag (anything starting with `<`,
   or `>`/`/>`), a `name="value"` pair as three spans, or plain text.
   */
  function XmlPartSpans(part: string): (r: seq<Span>)
    ensures |r| == 1 || |r| == 3
    ensures SpanText(r) == part
    ensures r[0].cls == Comment <==> StartsWith(part, "<!--")
    ensures r[0].cls == Tag <==> !StartsWith(part, "<!--") && (StartsWith(part, "<") || part == ">" || part == "/>")
    ensures |r| == 3 <==> r[0].cls == AttrName
    ensures |r| == 3 ==> r[1] == Span("=", Plain) && r[2].cls == AttrValue && IsQuotedValue(r[2].text)
    ensures !StartsWith(part, "<") && part != ">" && part != "/>" ==> (|r| == 3 <==> AttrSplit(part).Some?)
    ensures |r| == 3 ==> AttrSplit(part) == Some((r[0].text, r[2].text))
    ensures |r| == 1 && r[0].cls != Comment && r[0].cls != Tag ==> r[0] == Span(part, Plain)
  {
    if StartsWith(part, "<!--") then [Span(part, Comment)]
    else if StartsWith(part, "</") || StartsWith(part, "<") then [Span(part, Tag)]
    else if part == ">" || part == "/>" then [Span(part, Tag)]
    else AttrOrPlain(part)
  }

  function XmlSpans(parts: seq<string>, i: nat): seq<Span>
    requires i <= |parts|
    decreases |parts| - i
  {
    if i == |parts| then []
    else if parts[i] == "" then XmlSpans(parts, i + 1)
    else XmlPartSpans(parts[i]) + XmlSpans(parts, i + 1)
  }

  /** One XML line, as the page highlights it. */
  function XmlLine(line: string): seq<Span>
  {
    XmlSpans(Split(XmlPart, line), 0)
  }

  lemma {:induction false} XmlSpansText(parts: seq<string>, i: nat)
    requires i <= |parts|
    ensures SpanText(XmlSpans(parts, i)) == Concat(parts[i..])
    decreases |parts| - i
  {
    if i < |parts| {
      XmlSpansText(parts, i + 1);
      assert parts[i..][1..] == parts[i + 1..];
      if parts[i] != "" {
        SpanTextAppend(XmlPartSpans(parts[i]), XmlSpans(parts, i + 1));
      }
    }
  }

  /** The spans of an XML line spell the line exactly. */
  lemma XmlLineText(line: string)
    ensures SpanText(XmlLine(line)) == line
  {
    var parts := Split(XmlPart, line);
    XmlSpansText(parts, 0);
    assert parts[0..] == parts;
    SplitConcat(XmlPart, line);
  }

  // ---- TOC ----

  /** A line whose `trimStart` begins with the `##` marker. */
  predicate IsTocMarkerLine(line: string)
  {
    StartsWith(TrimStart(line), "##")
  }

  /** One `.toc` line, as the page highlights it. */
  function TocLine(line: string): seq<Span>
  {
    if IsTocMarkerLine(line) then
      match IndexOf(line, ':')
      case Some(c) => [Span("##", Muted), Span(Slice(line, 2, c), Key), Span(":", Muted), Span(line[c + 1..], Plain)]
      case None => [Span(line, Muted)]
    else [Span(line, Plain)]
  }

  /** In a marker line the first colon comes after the marker. */
  lemma TocColonAfterMarker(line: string)
    requires IsTocMarkerLine(line) && IndexOf(line, ':').Some?
    ensures IndexOf(line, ':').value >= LeadingSpaces(line) + 2
  {
    var n := LeadingSpaces(line);
    assert TrimStart(line)[0] == line[n] && TrimStart(line)[1] == line[n + 1];
    assert forall k :: 0 <= k < n ==> IsJsSpace(line[k]) && line[k] != ':';
  }

  lemma TocKeyLine(line: string, c: nat)
    requires IsTocMarkerLine(line) && IndexOf(line, ':') == Some(c) && 2 <= c
    ensures TocLine(line) == [Span("##", Muted), Span(line[2..c], Key), Span(":", Muted), Span(line[c + 1..], Plain)]
  {
  }

  /** A key line displays `##` followed by everything after index 2. */
  lemma TocKeyLineText(line: string)
    requires IsTocMarkerLine(line) && ':' in line
    ensures |TocLine(line)| == 4 && TocLine(line)[1].cls == Key
    ensures SpanText(TocLine(line)) == "##" + line[2..]
  {
    var c := IndexOf(line, ':').value;
    TocColonAfterMarker(line);
    var key := Span(line[2..c], Key);
    var value := Span(line[c + 1..], Plain);
    TocKeyLine(line, c);
    SpanText4(Span("##", Muted), key, Span(":", Muted), value);
    SliceAround(line, 2, c);
  }

  /** The text from `a` is the part before `b`, the character at `b`, and the rest. */
  lemma SliceAround(s: string, a: nat, b: nat)
    requires a <= b < |s|
    ensures s[a..] == s[a..b] + [s[b]] + s[b + 1..]
  {
    assert s[a..] == s[a..b] + s[b..];
    assert s[b..] == [s[b]] + s[b + 1..];
  }

  lemma MarkerPrefix(line: string)
    requires |line| >= 2
    ensures "##" + line[2..] == line <==> StartsWith(line, "##")
  {
    if StartsWith(line, "##") {
      assert line == line[..2] + line[2..];
    } else {
      assert ("##" + line[2..])[..2] == "##";
    }
  }

  /**
   A marker line with a colon shows as `##`, the key (from index 2 to the
   colon, leading space kept), `:` and the value; one without a colon is one
   muted span; any other line is one plain span. The displayed text equals
   the line except for a key line whose marker is indented.
   */
  lemma TocLineShape(line: string)
    ensures IsTocMarkerLine(line) && ':' in line ==>
              |TocLine(line)| == 4 && TocLine(line)[1].cls == Key
              && (SpanText(TocLine(line)) == line <==> StartsWith(line, "##"))
    ensures IsTocMarkerLine(line) && ':' !in line ==> TocLine(line) == [Span(line, Muted)]
    ensures !IsTocMarkerLine(line) ==> TocLine(line) == [Span(line, Plain)]
  {
    if IsTocMarkerLine(line) && ':' in line {
      TocKeyLineText(line);
      TocColonAfterMarker(line);
      MarkerPrefix(line);
    }
  }

  // ---- Dispatch and rows ----

  /** The file types with a highlighter; any other type falls back to plain rows. */
  function FormatOf(fileType: string): Format
  {
    if fileType == "lua" then Lua
    else if fileType == "xml" then Xml
    else if fileType == "toc" then Toc
    else Fallback
  }

  function LineSpans(fmt: Format, line: string): seq<Span>
  {
    match fmt
    case Lua => LuaLine(line)
    case Xml => XmlLine(line)
    case Toc => TocLine(line)
    case Fallback => [Span(line, Plain)]
  }

  /** One row per line of `code`, numbered from 1, in order. */
  function Render(fmt: Format, code: string): (rows: seq<Row>)
    ensures |rows| == CountChar(code, '\n') + 1
    ensures forall i :: 0 <= i < |rows| ==> rows[i].number == i + 1
    ensures forall i :: 0 <= i < |rows| ==> rows[i].spans == LineSpans(fmt, SplitLines(code)[i])
  {
    var lines := SplitLines(code);
    seq(|lines|, i requires 0 <= i < |lines| => Row(i + 1, LineSpans(fmt, lines[i])))
  }

  /** `highlightCode(code, fileType)`. */
  function HighlightCode(code: string, fileType: string): seq<Row>
  {
    Render(FormatOf(fileType), code)
  }

  /** The displayed text of each row. */
  function RowTexts(rows: seq<Row>): seq<string>
  {
    seq(|rows|, i requires 0 <= i < |rows| => SpanText(rows[i].spans))
  }

  /** Whether the displayed text of a line equals the line: always, except indented `.toc` key lines. */
  lemma LineSpansText(fmt: Format, line: string)
    ensures SpanText(LineSpans(fmt, line)) == line <==>
              !(fmt == Toc && IsTocMarkerLine(line) && ':' in line && !StartsWith(line, "##"))
  {
    match fmt
    case Lua => LuaLineText(line);
    case Xml => XmlLineText(line);
    case Toc => TocLineShape(line);
    case Fallback =>
  }

  /** For Lua, XML and the fallback, the rows joined by newlines give back the file. */
  lemma RenderRoundTrip(fmt: Format, code: string)
    requires fmt != Toc
    ensures Join(RowTexts(Render(fmt, code)), "\n") == code
  {
    var lines := SplitLines(code);
    var rows := Render(fmt, code);
    forall i | 0 <= i < |lines|
      ensures RowTexts(rows)[i] == lines[i]
    {
      LineSpansText(fmt, lines[i]);
    }
    assert RowTexts(rows) == lines;
  }

  /** Empty content is one row, numbered 1, that displays nothing. */
  lemma RenderEmpty(fmt: Format)
    ensures |Render(fmt, "")| == 1
    ensures Render(fmt, "")[0].number == 1
    ensures SpanText(Render(fmt, "")[0].spans) == ""
  {
    LineSpansText(fmt, "");
    assert SplitLines("") == [""];
    assert !IsTocMarkerLine("");
  }

  /** A file type other than `lua`, `xml` or `toc` shows every line as a single plain span. */
  lemma UnknownTypeIsPlain(code: string, fileType: string)
    requires fileType != "lua" && fileType != "xml" && fileType != "toc"
    ensures forall i :: 0 <= i < |HighlightCode(code, fileType)| ==>
              HighlightCode(code, fileType)[i].spans == [Span(SplitLines(code)[i], Plain)]
  {
  }

  /** The manifest example: the key span keeps the blank after the marker. */
  lemma TocExample()
    ensures TocLine("## Title: Foo") == [Span("##", Muted), Span(" Title", Key), Span(":", Muted), Span(" Foo", Plain)]
    ensures TocLine("Plain line") == [Span("Plain line", Plain)]
  {
    var a := "## Title: Foo";
    assert LeadingSpaces(a) == 0;
    assert TrimStart(a) == a;
    FindCharAt(a, 0, ':', 8);
    assert Slice(a, 2, 8) == " Title";
    assert a[9..] == " Foo";
    var b := "Plain line";
    assert LeadingSpaces(b) == 0;
    assert TrimStart(b) == b;
  }
}
