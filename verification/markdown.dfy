/**
 The small Markdown renderer the summaries are shown with. Every line of the
 text becomes one block, chosen by the first rule its start matches; bullet,
 numbered and paragraph bodies have their `**bold**` spans picked out.
 */
module Markdown {
  import opened Wrappers
  import opened Text
  import opened RegexSplit

  /** A piece of inline text, shown in bold or not. */
  datatype Piece = Piece(text: string, bold: bool)

  /** `formatInline`'s result: the text itself when it holds no bold span, else its pieces. */
  datatype Inline = Unchanged(text: string) | Pieces(pieces: seq<Piece>)

  /** The markdown an inline result was rendered from: bold pieces get their `**` back. */
  function InlineSource(r: Inline): string
  {
    match r
    case Unchanged(t) => t
    case Pieces(ps) => PiecesSource(ps)
  }

  function PiecesSource(ps: seq<Piece>): string
  {
    if |ps| == 0 then ""
    else (if ps[0].bold then "**" + ps[0].text + "**" else ps[0].text) + PiecesSource(ps[1..])
  }

  /** Some `**...**` span, on one line, starts somewhere in `s`. */
  predicate HasBold(s: string)
  {
    exists k :: 0 <= k < |s| && BoldMatch(s, k).Some?
  }

  function ToPieces(parts: seq<string>, i: nat): (r: seq<Piece>)
    requires i <= |parts|
    ensures |r| == |parts| - i
    ensures forall j :: i <= j < |parts| ==> r[j - i] == Piece(parts[j], j % 2 == 1)
    decreases |parts| - i
  {
    if i == |parts| then [] else [Piece(parts[i], i % 2 == 1)] + ToPieces(parts, i + 1)
  }

  /**
   `formatInline(text)`: split on the bold pattern; a single piece means the
   text is returned as it is, otherwise the odd-indexed pieces are bold.
   */
  function FormatInline(text: string): (r: Inline)
    ensures r.Unchanged? ==> r.text == text
    ensures r.Pieces? ==> |r.pieces| % 2 == 1 && |r.pieces| >= 3
    ensures r.Pieces? ==> forall j :: 0 <= j < |r.pieces| ==> (r.pieces[j].bold <==> j % 2 == 1)
  {
    var parts := Split(BoldSpan, text);
    if |parts| == 1 then Unchanged(text)
    else
      var ps := ToPieces(parts, 0);
      assert |parts| != 0 && |parts| != 2;
      assert forall j :: 0 <= j < |ps| ==> ps[j] == Piece(parts[j], j % 2 == 1);
      Pieces(ps)
  }

  lemma {:induction false} PiecesSourceUnsplit(parts: seq<string>, i: nat)
    requires i <= |parts| && i % 2 == 0
    ensures PiecesSource(ToPieces(parts, i)) == Unsplit(parts[i..])
    decreases |parts| - i
  {
    var r := ToPieces(parts, i);
    if |parts| - i == 1 {
      assert r[1..] == [];
      assert parts[i..] == [parts[i]];
    } else if |parts| - i >= 2 {
      PiecesSourceUnsplit(parts, i + 2);
      var rest := ToPieces(parts, i + 2);
      assert r[1..][1..] == rest;
      assert parts[i..][2..] == parts[i + 2..];
    }
  }

  /** Putting the markers back around the bold pieces gives the original text. */
  lemma FormatInlineRoundTrip(text: string)
    ensures InlineSource(FormatInline(text)) == text
  {
    var parts := Split(BoldSpan, text);
    if |parts| != 1 {
      PiecesSourceUnsplit(parts, 0);
      assert parts[0..] == parts;
      BoldSplitUnsplit(text);
    }
  }

  lemma {:induction false} BoldSplitLoopSingle(s: string, p: nat, q: nat)
    requires p <= q <= |s|
    ensures |SplitLoop(BoldSpan, s, p, q)| == 1 <==> forall k :: q <= k < |s| ==> BoldMatch(s, k).None?
    decreases |s| - q
  {
    if q < |s| {
      match MatchAt(BoldSpan, s, q)
      case None => BoldSplitLoopSingle(s, p, q + 1);
      case Some(m) =>
        if m.end == p {
          assert false;  // a bold match is never empty
        } else {
          assert |SplitLoop(BoldSpan, s, p, q)| >= 3;
        }
    }
  }

  /** The text is left unchanged exactly when it holds no bold span. */
  lemma FormatInlineUnchanged(text: string)
    ensures FormatInline(text).Unchanged? <==> !HasBold(text)
  {
    if |text| > 0 {
      BoldSplitLoopSingle(text, 0, 0);
    }
  }

  /** A bold span: the two-piece text around it and the bold piece in the middle. */
  lemma BoldExample(line: string)
    requires line == "a **b** c"
    ensures FormatInline(line) == Pieces([Piece("a ", false), Piece("b", true), Piece(" c", false)])
  {
    var s := line;
    BoldMatches(s);
    assert s[0..2] == "a " && s[7..] == " c";
    SplitLoopDone(BoldSpan, s, 7);
    SplitLoopSkip(BoldSpan, s, 7, 8);
    SplitLoopSkip(BoldSpan, s, 7, 7);
    SplitLoopCut(BoldSpan, s, 0, 2, Match(7, "b"));
    SplitLoopSkip(BoldSpan, s, 0, 1);
    SplitLoopSkip(BoldSpan, s, 0, 0);
    var parts := ["a ", "b", " c"];
    assert Split(BoldSpan, s) == parts;
    var ps := ToPieces(parts, 0);
    assert ps[0] == Piece("a ", false) && ps[1] == Piece("b", true) && ps[2] == Piece(" c", false);
    assert ps == [Piece("a ", false), Piece("b", true), Piece(" c", false)];
  }

  /** Where `\*\*(.*?)\*\*` matches in `a **b** c`. */
  lemma BoldMatches(s: string)
    requires s == "a **b** c"
    ensures MatchAt(BoldSpan, s, 0).None? && MatchAt(BoldSpan, s, 1).None?
    ensures MatchAt(BoldSpan, s, 2) == Some(Match(7, "b"))
    ensures MatchAt(BoldSpan, s, 7).None? && MatchAt(BoldSpan, s, 8).None?
  {
    assert s[0..2] == "a " && s[1..3] == " *" && s[2..4] == "**";
    assert s[4..6] == "b*" && s[5..7] == "**" && s[2 + 2..5] == "b" && s[7..9] == " c";
    assert LazyFind(s, 5, "**") == Some(5);
    assert LazyFind(s, 4, "**") == Some(5);
  }

  // ---- Blocks ----

  /** What one line renders as. */
  datatype Block =
    | Heading(marks: nat, text: string)  // `#`, `##`, `###`: an h2, h3 or h4 with the plain rest of the line
    | Bullet(body: Inline)
    | Numbered(body: Inline)
    | Spacer
    | Paragraph(body: Inline)

  /** The length of a `^\d+\.\s` prefix, if the line has one. */
  function NumberedPrefix(line: string): (r: Option<nat>)
    ensures r.Some? ==> 3 <= r.value <= |line|
  {
    var d := RunEnd(Digits, line, 0);
    if d > 0 && d + 1 < |line| && line[d] == '.' && IsJsSpace(line[d + 1]) then Some(d + 2) else None
  }

  /** The block for one line: the first rule whose prefix matches decides. */
  function MdBlock(line: string): Block
  {
    if StartsWith(line, "### ") then Heading(3, line[4..])
    else if StartsWith(line, "## ") then Heading(2, line[3..])
    else if StartsWith(line, "# ") then Heading(1, line[2..])
    else if StartsWith(line, "- ") || StartsWith(line, "* ") then Bullet(FormatInline(line[2..]))
    else if NumberedPrefix(line).Some? then Numbered(FormatInline(line[NumberedPrefix(line).value..]))
    else if Trim(line) == "" then Spacer
    else Paragraph(FormatInline(line))
  }

  function Hashes(n: nat): string
  {
    if n == 0 then "" else "#" + Hashes(n - 1)
  }

  /** `renderMarkdown(text)`: nothing for empty text, else one block per line. */
  function RenderMarkdown(text: string): (r: Option<seq<Block>>)
    ensures r.None? <==> text == ""
    ensures r.Some? ==> |r.value| == |SplitLines(text)|
    ensures r.Some? ==> forall i :: 0 <= i < |r.value| ==> r.value[i] == MdBlock(SplitLines(text)[i])
  {
    if text == "" then None
    else
      var lines := SplitLines(text);
      Some(seq(|lines|, i requires 0 <= i < |lines| => MdBlock(lines[i])))
  }

  lemma PrefixChar(line: string, prefix: string, k: nat)
    requires StartsWith(line, prefix) && k < |prefix|
    ensures line[k] == prefix[k]
  {
    assert line[..|prefix|][k] == line[k];
  }

  lemma MarksPrefix(line: string, n: nat)
    requires 1 <= n <= 3 && StartsWith(line, Hashes(n) + " ")
    ensures line == Hashes(n) + " " + line[n + 1..]
  {
    assert |Hashes(n) + " "| == n + 1 by {
      assert Hashes(1) == "#" && Hashes(2) == "##" && Hashes(3) == "###";
    }
    assert line == line[..n + 1] + line[n + 1..];
  }

  /**
   A line is a heading exactly when it starts with `# `, `## ` or `### `; the
   heading is its marks, a blank and the plain rest of the line.
   */
  lemma HeadingShape(line: string)
    ensures MdBlock(line).Heading? <==> StartsWith(line, "# ") || StartsWith(line, "## ") || StartsWith(line, "### ")
    ensures MdBlock(line).Heading? ==> 1 <= MdBlock(line).marks <= 3
    ensures MdBlock(line).Heading? ==> line == Hashes(MdBlock(line).marks) + " " + MdBlock(line).text
  {
    assert Hashes(1) == "#" && Hashes(2) == "##" && Hashes(3) == "###";
    if StartsWith(line, "### ") {
      MarksPrefix(line, 3);
    } else if StartsWith(line, "## ") {
      MarksPrefix(line, 2);
    } else if StartsWith(line, "# ") {
      MarksPrefix(line, 1);
    }
  }

  /** A line is a bullet exactly when it starts with `- ` or `* `; the body rebuilds the rest. */
  lemma BulletShape(line: string)
    ensures MdBlock(line).Bullet? <==> StartsWith(line, "- ") || StartsWith(line, "* ")
    ensures MdBlock(line).Bullet? ==> InlineSource(MdBlock(line).body) == line[2..]
  {
    if StartsWith(line, "- ") {
      PrefixChar(line, "- ", 0);
    } else if StartsWith(line, "* ") {
      PrefixChar(line, "* ", 0);
    }
    if MdBlock(line).Bullet? {
      FormatInlineRoundTrip(line[2..]);
    }
  }

  /** Nothing but white space before the first character rules out every prefix rule. */
  lemma NoPrefixRule(line: string)
    requires |line| == 0 || (!('0' <= line[0] <= '9') && line[0] != '#' && line[0] != '-' && line[0] != '*')
    ensures !StartsWith(line, "### ") && !StartsWith(line, "## ") && !StartsWith(line, "# ")
    ensures !StartsWith(line, "- ") && !StartsWith(line, "* ")
    ensures NumberedPrefix(line).None?
  {
    if |line| > 0 {
      assert RunEnd(Digits, line, 0) == 0;
      if StartsWith(line, "### ") { PrefixChar(line, "### ", 0); }
      if StartsWith(line, "## ") { PrefixChar(line, "## ", 0); }
      if StartsWith(line, "# ") { PrefixChar(line, "# ", 0); }
      if StartsWith(line, "- ") { PrefixChar(line, "- ", 0); }
      if StartsWith(line, "* ") { PrefixChar(line, "* ", 0); }
    }
  }

  /** A line is a numbered item exactly when it has the `^\d+\.\s` prefix; the body rebuilds the rest. */
  lemma NumberedShape(line: string)
    ensures MdBlock(line).Numbered? <==> NumberedPrefix(line).Some?
    ensures MdBlock(line).Numbered? ==> InlineSource(MdBlock(line).body) == line[NumberedPrefix(line).value..]
  {
    if NumberedPrefix(line).Some? {
      NoHeadingOrBullet(line);
      FormatInlineRoundTrip(line[NumberedPrefix(line).value..]);
    }
  }

  /** A line is a spacer exactly when it is blank. */
  lemma SpacerShape(line: string)
    ensures MdBlock(line) == Spacer <==> IsBlank(line)
  {
    TrimEmptyIffBlank(line);
    if IsBlank(line) && |line| > 0 {
      assert IsJsSpace(line[0]);
      NoPrefixRule(line);
    } else if |line| == 0 {
      NoPrefixRule(line);
    }
  }

  /** A paragraph's body rebuilds the whole line. */
  lemma ParagraphShape(line: string)
    requires MdBlock(line).Paragraph?
    ensures InlineSource(MdBlock(line).body) == line
    ensures !IsBlank(line)
  {
    FormatInlineRoundTrip(line);
    SpacerShape(line);
  }

  /** The heading rules cannot both match, so their order does not decide anything. */
  lemma HeadingRulesExclusive(line: string)
    ensures !(StartsWith(line, "### ") && StartsWith(line, "## "))
    ensures !(StartsWith(line, "## ") && StartsWith(line, "# "))
    ensures !(StartsWith(line, "### ") && StartsWith(line, "# "))
  {
    if StartsWith(line, "## ") {
      PrefixChar(line, "## ", 1);
      PrefixChar(line, "## ", 2);
    }
    if StartsWith(line, "### ") {
      PrefixChar(line, "### ", 1);
      PrefixChar(line, "### ", 2);
    }
    if StartsWith(line, "# ") {
      PrefixChar(line, "# ", 1);
    }
  }

  /** A line starting with four marks matches no prefix rule. */
  lemma FourMarksNoRule(line: string)
    requires |line| >= 4 && line[..4] == "####"
    ensures !StartsWith(line, "### ") && !StartsWith(line, "## ") && !StartsWith(line, "# ")
    ensures !StartsWith(line, "- ") && !StartsWith(line, "* ") && NumberedPrefix(line).None?
  {
    assert line[0] == '#' && line[1] == '#' && line[2] == '#' && line[3] == '#';
    if StartsWith(line, "## ") { PrefixChar(line, "## ", 2); }
    if StartsWith(line, "# ") { PrefixChar(line, "# ", 1); }
    if StartsWith(line, "- ") { PrefixChar(line, "- ", 0); }
    if StartsWith(line, "* ") { PrefixChar(line, "* ", 0); }
    assert RunEnd(Digits, line, 0) == 0;
  }

  /** Four marks are not a heading: the line is a paragraph. */
  lemma FourMarksIsParagraph(line: string)
    requires |line| >= 4 && line[..4] == "####"
    ensures MdBlock(line) == Paragraph(FormatInline(line))
  {
    FourMarksNoRule(line);
    assert !IsJsSpace(line[0]);
    TrimEmptyIffBlank(line);
  }

  /** A multi-digit item number is stripped along with its dot and blank. */
  lemma NumberedExample(line: string)
    requires line == "10. x"
    ensures MdBlock(line) == Numbered(FormatInline("x"))
  {
    RunEndAt(Digits, line, 0, 2);
    NoHeadingOrBullet(line);
    assert line[2] == '.' && IsJsSpace(line[3]);
    assert NumberedPrefix(line) == Some(4);
    assert line[4..] == "x";
  }

  /** Without the blank after the dot the line is an ordinary paragraph. */
  lemma NumberWithoutBlank(line: string)
    requires line == "1.x"
    ensures MdBlock(line) == Paragraph(FormatInline(line))
  {
    RunEndAt(Digits, line, 0, 1);
    NoHeadingOrBullet(line);
    assert !IsJsSpace(line[0]);
    TrimEmptyIffBlank(line);
  }

  /** A line starting with a digit is neither a heading nor a bullet. */
  lemma NoHeadingOrBullet(line: string)
    requires |line| > 0 && IsDigit(line[0])
    ensures !StartsWith(line, "### ") && !StartsWith(line, "## ") && !StartsWith(line, "# ")
    ensures !StartsWith(line, "- ") && !StartsWith(line, "* ")
  {
    if StartsWith(line, "### ") { PrefixChar(line, "### ", 0); }
    if StartsWith(line, "## ") { PrefixChar(line, "## ", 0); }
    if StartsWith(line, "# ") { PrefixChar(line, "# ", 0); }
    if StartsWith(line, "- ") { PrefixChar(line, "- ", 0); }
    if StartsWith(line, "* ") { PrefixChar(line, "* ", 0); }
  }
}
