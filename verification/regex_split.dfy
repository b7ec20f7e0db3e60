/**
 `String.prototype.split` with a regular expression holding one capturing
 group, as ECMAScript's `RegExp.prototype[@@split]` runs it: a sticky match is
 tried at every position `q`; a match ending at `e != p` emits the gap
 `s[p..q]` and the captured text, and scanning resumes at `e`. The result is
 therefore (gap, capture, gap, ..., capture, gap).

 The three expressions the page splits with are scanned by hand, each
 alternative tried left to right at the current position (leftmost-first
 alternation, greedy and lazy quantifiers as JavaScript resolves them).
 */
module RegexSplit {
  import opened Wrappers
  import opened Text

  /** The three split patterns of the page. */
  datatype Pattern =
    | LuaToken  // the Lua token alternation: word, quoted strings, number, `--` comment, blanks, any other character
    | XmlPart   // the XML alternation: opening/closing tag start, `>`, `/>`, `name="value"`, `<!-- ... -->`
    | BoldSpan  // `**` + lazily anything + `**`, capturing the inside

  /** A sticky match at some position: where it ends and what the group captured. */
  datatype Match = Match(end: nat, group: string)

  function Whole(s: string, q: nat, e: nat): (r: Option<Match>)
    requires q <= e <= |s|
    ensures r.Some? && r.value.end == e && r.value.group == s[q..e]
  {
    Some(Match(e, s[q..e]))
  }

  /** `\d+\.?\d*` from `q`: digits, an optional dot, digits. */
  function NumberEnd(s: string, q: nat): (e: nat)
    requires q <= |s|
    ensures q <= e <= |s|
  {
    var d := RunEnd(Digits, s, q);
    if d < |s| && s[d] == '.' then RunEnd(Digits, s, d + 1) else d
  }

  /**
   The Lua alternation at `q`, in source order: a whole word bounded by `\b`,
   a double-quoted then a single-quoted string without escapes, a number, a
   `--` comment running to the end of the line, a run of white space, any one
   character that is neither a word character nor white space.
   */
  function LuaMatch(s: string, q: nat): (r: Option<Match>)
    requires q <= |s|
    ensures r.Some? ==> q <= r.value.end <= |s| && r.value.group == s[q..r.value.end]
  {
    if q == |s| then None
    else if IsWordChar(s[q]) && (q == 0 || !IsWordChar(s[q - 1])) then Whole(s, q, RunEnd(Word, s, q))
    else if s[q] == '"' && FindChar(s, q + 1, '"').Some? then Whole(s, q, FindChar(s, q + 1, '"').value + 1)
    else if s[q] == '\'' && FindChar(s, q + 1, '\'').Some? then Whole(s, q, FindChar(s, q + 1, '\'').value + 1)
    else if IsDigit(s[q]) then Whole(s, q, NumberEnd(s, q))
    else if q + 2 <= |s| && s[q..q + 2] == "--" && NoTerminatorFrom(s, q + 2) then Whole(s, q, |s|)
    else if IsJsSpace(s[q]) then Whole(s, q, RunEnd(Spaces, s, q))
    else if !IsWordChar(s[q]) && !IsJsSpace(s[q]) then Whole(s, q, q + 1)
    else None
  }

  /** `[\w:]+="[^"]*"` at `q`: the end of a `name="value"` pair, if one starts here. */
  function AttrEnd(s: string, q: nat): (r: Option<nat>)
    requires q <= |s|
    ensures r.Some? ==> q < r.value <= |s|
  {
    var n := RunEnd(Names, s, q);
    if n > q && n + 1 < |s| && s[n] == '=' && s[n + 1] == '"' && FindChar(s, n + 2, '"').Some?
    then Some(FindChar(s, n + 2, '"').value + 1)
    else None
  }

  /**
   The XML alternation at `q`, in source order: `<` or `</` followed by a
   name, `>`, `/>`, a `name="value"` pair, and a comment `<!--` ... `-->` that
   stays on the line.
   */
  function XmlMatch(s: string, q: nat): (r: Option<Match>)
    requires q <= |s|
    ensures r.Some? ==> q <= r.value.end <= |s| && r.value.group == s[q..r.value.end]
  {
    if q == |s| then None
    else if s[q] == '<' && q + 1 < |s| && s[q + 1] == '/' && RunEnd(Names, s, q + 2) > q + 2
    then Whole(s, q, RunEnd(Names, s, q + 2))
    else if s[q] == '<' && RunEnd(Names, s, q + 1) > q + 1 then Whole(s, q, RunEnd(Names, s, q + 1))
    else if s[q] == '>' then Whole(s, q, q + 1)
    else if s[q] == '/' && q + 1 < |s| && s[q + 1] == '>' then Whole(s, q, q + 2)
    else if AttrEnd(s, q).Some? then Whole(s, q, AttrEnd(s, q).value)
    else if q + 4 <= |s| && s[q..q + 4] == "<!--" && LazyFind(s, q + 4, "-->").Some?
    then Whole(s, q, LazyFind(s, q + 4, "-->").value + 3)
    else None
  }

  /** `**` + lazy `.*?` + `**` at `q`; the group is the text between the markers. */
  function BoldMatch(s: string, q: nat): (r: Option<Match>)
    requires q <= |s|
    ensures r.Some? ==> q + 4 <= r.value.end <= |s|
    ensures r.Some? ==> s[q..q + 2] == "**" && s[r.value.end - 2..r.value.end] == "**"
    ensures r.Some? ==> r.value.group == s[q + 2..r.value.end - 2]
  {
    if q + 2 <= |s| && s[q..q + 2] == "**" && LazyFind(s, q + 2, "**").Some?
    then
      var k := LazyFind(s, q + 2, "**").value;
      Some(Match(k + 2, s[q + 2..k]))
    else None
  }

  /**
   The bold match is lazy and stays on one line: the closing `**` is the first
   one after the opening and no line terminator lies between them; with no
   opening `**`, or no closing `**` before the end of the line, there is no match.
   */
  lemma BoldMatchLazy(s: string, q: nat)
    requires q <= |s|
    ensures BoldMatch(s, q).Some? ==>
              forall k :: q + 2 <= k < BoldMatch(s, q).value.end - 2 ==> !IsLineTerminator(s[k]) && !OccursAt(s, "**", k)
    ensures !OccursAt(s, "**", q) ==> BoldMatch(s, q).None?
    ensures BoldMatch(s, q).None? && OccursAt(s, "**", q) ==>
              forall k :: q + 2 <= k <= |s| && OccursAt(s, "**", k) ==> exists j :: q + 2 <= j < k && IsLineTerminator(s[j])
  {
  }

  function MatchAt(pat: Pattern, s: string, q: nat): (r: Option<Match>)
    requires q <= |s|
    ensures r.Some? ==> q <= r.value.end <= |s|
    ensures r.Some? && pat != BoldSpan ==> r.value.group == s[q..r.value.end]
    ensures r.Some? && pat == BoldSpan ==>
              q + 4 <= r.value.end && r.value.group == s[q + 2..r.value.end - 2]
              && s[q..q + 2] == "**" && s[r.value.end - 2..r.value.end] == "**"
  {
    match pat
    case LuaToken => LuaMatch(s, q)
    case XmlPart => XmlMatch(s, q)
    case BoldSpan => BoldMatch(s, q)
  }

  /** `s.split(pattern)`. An empty string splits to `[""]` unless the pattern matches the empty string. */
  function Split(pat: Pattern, s: string): (r: seq<string>)
    ensures |r| % 2 == 1
  {
    if |s| == 0 then (if MatchAt(pat, s, 0).Some? then [] else [s])
    else SplitLoop(pat, s, 0, 0)
  }

  /**
   The scanning loop: `p` is where the current gap began, `q` where a match
   is tried. For the patterns that capture the whole match, the pieces
   concatenate back to `s[p..]`.
   */
  function SplitLoop(pat: Pattern, s: string, p: nat, q: nat): (r: seq<string>)
    requires p <= q <= |s|
    ensures |r| % 2 == 1
    ensures pat != BoldSpan ==> Concat(r) == s[p..]
    decreases |s| - q, q - p
  {
    if q == |s| then ConcatSingle(s[p..]); [s[p..]]
    else
      var r := MatchAt(pat, s, q);
      if r.None? || r.value.end == p then SplitLoop(pat, s, p, q + 1)
      else
        var m := r.value;
        var rest := SplitLoop(pat, s, m.end, m.end);
        ConcatGapMatch(s, p, q, m.end, m.group, rest);
        assert |[s[p..q], m.group] + rest| == |rest| + 2;
        [s[p..q], m.group] + rest
  }

  /** At the end of the text the loop emits the last gap. */
  lemma SplitLoopDone(pat: Pattern, s: string, p: nat)
    requires p <= |s|
    ensures SplitLoop(pat, s, p, |s|) == [s[p..]]
  {
  }

  /** A step of the scanning loop that finds a match emits the gap and the capture. */
  lemma SplitLoopCut(pat: Pattern, s: string, p: nat, q: nat, m: Match)
    requires p <= q < |s|
    requires MatchAt(pat, s, q) == Some(m) && m.end != p
    ensures SplitLoop(pat, s, p, q) == [s[p..q], m.group] + SplitLoop(pat, s, m.end, m.end)
  {
  }

  /** No cut at `q`: the scan moves on. */
  lemma SplitLoopSkip(pat: Pattern, s: string, p: nat, q: nat)
    requires p <= q < |s|
    requires MatchAt(pat, s, q).None?
    ensures SplitLoop(pat, s, p, q) == SplitLoop(pat, s, p, q + 1)
  {
  }

  lemma ConcatPair(a: string, b: string, rest: seq<string>)
    ensures Concat([a, b] + rest) == a + b + Concat(rest)
  {
    ConcatAppend([a, b], rest);
    assert [a, b][1..] == [b];
    assert Concat([b]) == b + Concat([]);
  }

  /** A gap, a whole match and the rest of the pieces rebuild the text from the gap's start. */
  lemma ConcatGapMatch(s: string, p: nat, q: nat, e: nat, g: string, rest: seq<string>)
    requires p <= q <= e <= |s|
    ensures g == s[q..e] && Concat(rest) == s[e..] ==> Concat([s[p..q], g] + rest) == s[p..]
  {
    ConcatPair(s[p..q], g, rest);
    assert s[p..] == s[p..q] + s[q..e] + s[e..];
  }

  /** No text is gained or lost by a Lua or XML split. */
  lemma SplitConcat(pat: Pattern, s: string)
    requires pat != BoldSpan
    ensures Concat(Split(pat, s)) == s
  {
    if |s| == 0 && MatchAt(pat, s, 0).Some? {
      assert false;
    }
  }

  /**
   Rebuilds the source of a bold split: the odd-indexed pieces were captured
   between `**` markers, so they get their markers back.
   */
  function Unsplit(parts: seq<string>): string
  {
    if |parts| == 0 then ""
    else if |parts| == 1 then parts[0]
    else parts[0] + "**" + parts[1] + "**" + Unsplit(parts[2..])
  }

  lemma {:induction false} BoldSplitLoopUnsplit(s: string, p: nat, q: nat)
    requires p <= q <= |s|
    ensures Unsplit(SplitLoop(BoldSpan, s, p, q)) == s[p..]
    decreases |s| - q, q - p
  {
    if q == |s| {
    } else {
      match MatchAt(BoldSpan, s, q)
      case None => BoldSplitLoopUnsplit(s, p, q + 1);
      case Some(m) =>
        if m.end == p {
          assert false;  // a bold match is never empty
        } else {
          var rest := SplitLoop(BoldSpan, s, m.end, m.end);
          BoldSplitLoopUnsplit(s, m.end, m.end);
          var r := [s[p..q], m.group] + rest;
          assert r[2..] == rest;
          assert Unsplit(r) == s[p..q] + "**" + m.group + "**" + s[m.end..];
          SplitAround(s, p, q, m.end);
        }
    }
  }

  lemma SplitAround(s: string, p: nat, q: nat, e: nat)
    requires p <= q && q + 4 <= e <= |s|
    requires s[q..q + 2] == "**" && s[e - 2..e] == "**"
    ensures s[p..] == s[p..q] + "**" + s[q + 2..e - 2] + "**" + s[e..]
  {
    assert s[p..] == s[p..q] + s[q..q + 2] + s[q + 2..e - 2] + s[e - 2..e] + s[e..];
  }

  /** Putting the `**` markers back around the captured pieces restores the text. */
  lemma BoldSplitUnsplit(s: string)
    ensures Unsplit(Split(BoldSpan, s)) == s
  {
    if |s| > 0 {
      BoldSplitLoopUnsplit(s, 0, 0);
    }
  }

  // ---- The Lua split never leaves a gap ----

  /**
   A position where the word alternative cannot be blocked by its leading
   `\b`: the start, the end, or a position not inside a run of word characters.
   */
  predicate LuaSafe(s: string, q: nat)
  {
    q == 0 || q >= |s| || !IsWordChar(s[q - 1]) || !IsWordChar(s[q])
  }

  /** From a safe position some Lua alternative always matches, consumes text, and ends at a safe position. */
  lemma LuaMatchAdvances(s: string, q: nat)
    requires q < |s| && LuaSafe(s, q)
    ensures LuaMatch(s, q).Some?
    ensures LuaMatch(s, q).value.end > q
    ensures LuaSafe(s, LuaMatch(s, q).value.end)
  {
    SpaceIsNotWord(s[q]);
    var e := LuaMatch(s, q).value.end;
    if e < |s| {
      SpaceIsNotWord(s[e - 1]);
    }
  }

  /** Gaps at even indices are empty and captures at odd indices are not. */
  predicate Gapless(toks: seq<string>)
  {
    && |toks| % 2 == 1
    && (forall i :: 0 <= i < |toks| ==> (toks[i] == "" <==> i % 2 == 0))
  }

  lemma {:induction false} LuaSplitLoopGapless(s: string, q: nat)
    requires q <= |s| && LuaSafe(s, q)
    ensures Gapless(SplitLoop(LuaToken, s, q, q))
    decreases |s| - q
  {
    if q < |s| {
      LuaMatchAdvances(s, q);
      var m := LuaMatch(s, q).value;
      var rest := SplitLoop(LuaToken, s, m.end, m.end);
      LuaSplitLoopGapless(s, m.end);
      SplitLoopCut(LuaToken, s, q, q, m);
      assert s[q..q] == "";
      GaplessCons(m.group, rest);
    }
  }

  /** An empty gap and a non-empty capture in front of a gapless split keep it gapless. */
  lemma GaplessCons(g: string, rest: seq<string>)
    requires g != "" && Gapless(rest)
    ensures Gapless(["", g] + rest)
  {
    var r := ["", g] + rest;
    forall i | 2 <= i < |r|
      ensures r[i] == rest[i - 2]
    {
    }
  }

  /**
   Every gap of the Lua split is empty: the split is `""`, token, `""`, ...,
   token, `""`, and no token is empty. So the element after a token is
   always `""`.
   */
  lemma LuaSplitGapless(line: string)
    ensures Gapless(Split(LuaToken, line))
  {
    if |line| > 0 {
      LuaSplitLoopGapless(line, 0);
    }
  }
}
