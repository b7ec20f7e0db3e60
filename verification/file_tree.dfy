/** The file-tree panel: one entry per line of the tree text, with the drawing characters cleaned off. */
module FileTree {
  import opened Wrappers
  import opened Text

  /** The class `[|`\-\s]`: the characters a text tree is drawn with. */
  predicate IsTreeChar(c: char)
  {
    c == '|' || c == '`' || c == '-' || IsJsSpace(c)
  }

  /** `line.replace(/[|`\-\s]/g, '')`. */
  function StripTreeChars(s: string): (r: string)
    ensures |r| <= |s|
    ensures forall k :: 0 <= k < |r| ==> !IsTreeChar(r[k])
  {
    if |s| == 0 then ""
    else if IsTreeChar(s[0]) then StripTreeChars(s[1..])
    else [s[0]] + StripTreeChars(s[1..])
  }

  /** Stripping a concatenation strips each part and keeps their order. */
  lemma {:induction false} StripAppend(a: string, b: string)
    ensures StripTreeChars(a + b) == StripTreeChars(a) + StripTreeChars(b)
  {
    if |a| == 0 {
      assert a + b == b;
    } else {
      assert (a + b)[0] == a[0];
      assert (a + b)[1..] == a[1..] + b;
      StripAppend(a[1..], b);
    }
  }

  /** A string with no drawing characters is its own stripping. */
  lemma {:induction false} StripClean(s: string)
    requires forall k :: 0 <= k < |s| ==> !IsTreeChar(s[k])
    ensures StripTreeChars(s) == s
  {
    if |s| > 0 {
      assert !IsTreeChar(s[0]);
      StripClean(s[1..]);
    }
  }

  /** Nothing survives the stripping exactly when the line is all drawing characters. */
  lemma {:induction false} StripEmpty(s: string)
    ensures StripTreeChars(s) == "" <==> forall k :: 0 <= k < |s| ==> IsTreeChar(s[k])
  {
    if |s| > 0 {
      StripEmpty(s[1..]);
      if forall k :: 0 <= k < |s[1..]| ==> IsTreeChar(s[1..][k]) {
        assert forall k :: 1 <= k < |s| ==> IsTreeChar(s[k]) by {
          forall k | 1 <= k < |s| ensures IsTreeChar(s[k]) {
            assert s[k] == s[1..][k - 1];
          }
        }
      }
    }
  }

  /** The label shown for one line: the stripped, trimmed line, or the line itself when that is empty. */
  function TreeLabel(line: string): string
  {
    var r := Trim(StripTreeChars(line));
    if r == "" then line else r
  }

  /** The stripped line has no white space, so the trim changes nothing. */
  lemma TrimAfterStrip(line: string)
    ensures Trim(StripTreeChars(line)) == StripTreeChars(line)
  {
    var r := StripTreeChars(line);
    assert forall k :: 0 <= k < |r| ==> !IsJsSpace(r[k]);
    TrimNoSpaces(r);
  }

  /**
   A line made only of drawing characters keeps its own text as label; any
   other line is labelled with what is left after stripping.
   */
  lemma TreeLabelCases(line: string)
    ensures (forall k :: 0 <= k < |line| ==> IsTreeChar(line[k])) ==> TreeLabel(line) == line
    ensures (exists k :: 0 <= k < |line| && !IsTreeChar(line[k])) ==> TreeLabel(line) == StripTreeChars(line) != ""
  {
    TrimAfterStrip(line);
    StripEmpty(line);
  }

  /** The label is empty only for an empty line. */
  lemma TreeLabelEmpty(line: string)
    ensures TreeLabel(line) == "" <==> line == ""
  {
    TrimAfterStrip(line);
  }

  /** Cleaning a label again changes nothing. */
  lemma TreeLabelIdempotent(line: string)
    ensures TreeLabel(TreeLabel(line)) == TreeLabel(line)
  {
    TrimAfterStrip(line);
    var r := StripTreeChars(line);
    if r != "" {
      StripClean(r);
      TrimAfterStrip(r);
    }
  }

  datatype TreeEntry = TreeEntry(isFile: bool, text: string)

  /** The drawing characters are all the stripping removes: any other character survives it. */
  lemma {:induction false} StripKeeps(s: string, c: char)
    requires !IsTreeChar(c)
    ensures c in StripTreeChars(s) <==> c in s
  {
    if |s| > 0 {
      StripKeeps(s[1..], c);
      assert s == [s[0]] + s[1..];
    }
  }

  /**
   A line with a `.` is drawn with the file icon, any other with the folder
   icon. The label is empty only for an empty line; a line of drawing
   characters only is its own label, and any other line's label is non-empty
   and free of drawing characters. The icon agrees with the label: a file
   exactly when the label shows a `.`.
   */
  function EntryOf(line: string): (e: TreeEntry)
    ensures e.isFile <==> '.' in line
    ensures e.isFile <==> '.' in e.text
    ensures e.text == "" <==> line == ""
    ensures (forall k :: 0 <= k < |line| ==> IsTreeChar(line[k])) ==> e.text == line
    ensures (exists k :: 0 <= k < |line| && !IsTreeChar(line[k])) ==>
              e.text != "" && forall k :: 0 <= k < |e.text| ==> !IsTreeChar(e.text[k])
  {
    TreeLabelCases(line);
    TreeLabelEmpty(line);
    StripKeeps(line, '.');
    TreeEntry('.' in line, TreeLabel(line))
  }

  /**
   `FileTreeView`: with a tree text, one entry per line; with an empty tree
   the panel lists the files instead, shown here as `None`.
   */
  function TreeEntries(tree: string): (r: Option<seq<TreeEntry>>)
    ensures r.None? <==> tree == ""
    ensures r.Some? ==> |r.value| == CountChar(tree, '\n') + 1
    ensures r.Some? ==> forall i :: 0 <= i < |r.value| ==> r.value[i] == EntryOf(SplitLines(tree)[i])
  {
    if tree == "" then None
    else
      var lines := SplitLines(tree);
      Some(seq(|lines|, i requires 0 <= i < |lines| => EntryOf(lines[i])))
  }

  /** A tree line drawn before a file name is labelled with the name alone. */
  lemma TreeFileExample(line: string)
    requires line == "|-- Core.lua"
    ensures TreeLabel(line) == "Core.lua"
  {
    var drawing, name := line[..4], line[4..];
    assert line == drawing + name;
    assert name == "Core.lua";
    assert forall k :: 0 <= k < |drawing| ==> IsTreeChar(drawing[k]);
    assert forall k :: 0 <= k < |name| ==> !IsTreeChar(name[k]);
    StripAppend(drawing, name);
    StripEmpty(drawing);
    StripClean(name);
    TrimAfterStrip(line);
  }

  /** A line of drawing characters only is shown as it is. */
  lemma TreeRuleExample(line: string)
    requires line == "---"
    ensures TreeLabel(line) == "---"
  {
    StripEmpty(line);
    TrimAfterStrip(line);
  }
}
