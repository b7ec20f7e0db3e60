/**
 The JavaScript string primitives the page relies on, stated over `seq<char>`:
 the regular-expression character classes `\w`, `\d`, `\s`, the line
 terminators that `.` refuses, `trimStart`/`trim`, `startsWith`, `indexOf`,
 `slice`, `includes`, `split('\n')`, `join` and an ASCII `toLowerCase`.
 Every character stands for one UTF-16 code unit.
 */
module Text {
  import opened Wrappers

  // ---- Character classes ----

  /** `\w` without the `u` flag: ASCII letters, digits and underscore. */
  predicate IsWordChar(c: char)
  {
    ('A' <= c <= 'Z') || ('a' <= c <= 'z') || ('0' <= c <= '9') || c == '_'
  }

  /** `\d`. */
  predicate IsDigit(c: char)
  {
    '0' <= c <= '9'
  }

  predicate IsAsciiLetter(c: char)
  {
    ('A' <= c <= 'Z') || ('a' <= c <= 'z')
  }

  /** The class `[\w:]` used for element and attribute names. */
  predicate IsNameChar(c: char)
  {
    IsWordChar(c) || c == ':'
  }

  /** The characters `.` does not match: LF, CR, LINE SEPARATOR, PARAGRAPH SEPARATOR. */
  predicate IsLineTerminator(c: char)
  {
    c == '\n' || c == '\r' || c as int == 0x2028 || c as int == 0x2029
  }

  /**
   `\s`, which is also the set `trim` and `trimStart` remove: the ECMAScript
   WhiteSpace and LineTerminator code points.
   */
  predicate IsJsSpace(c: char)
  {
    var n := c as int;
    (9 <= n <= 13) || n == 0x20 || n == 0xA0 || n == 0x1680 || (0x2000 <= n <= 0x200A)
    || n == 0x2028 || n == 0x2029 || n == 0x202F || n == 0x205F || n == 0x3000 || n == 0xFEFF
  }

  lemma SpaceIsNotWord(c: char)
    ensures IsJsSpace(c) ==> !IsWordChar(c) && !IsNameChar(c)
    ensures IsLineTerminator(c) ==> IsJsSpace(c)
  {
  }

  /** The four character classes the scanners take maximal runs of. */
  datatype CharClass = Word | Digits | Spaces | Names

  predicate InClass(cc: CharClass, c: char)
  {
    match cc
    case Word => IsWordChar(c)
    case Digits => IsDigit(c)
    case Spaces => IsJsSpace(c)
    case Names => IsNameChar(c)
  }

  /** End of the longest run of `cc` characters starting at `i` (a greedy `+`/`*`). */
  function RunEnd(cc: CharClass, s: string, i: nat): (e: nat)
    requires i <= |s|
    ensures i <= e <= |s|
    ensures forall k :: i <= k < e ==> InClass(cc, s[k])
    ensures e == |s| || !InClass(cc, s[e])
    decreases |s| - i
  {
    if i < |s| && InClass(cc, s[i]) then RunEnd(cc, s, i + 1) else i
  }

  /** A run that is known to end at `j` ends there. */
  lemma {:induction false} RunEndAt(cc: CharClass, s: string, i: nat, j: nat)
    requires i <= j <= |s|
    requires forall k :: i <= k < j ==> InClass(cc, s[k])
    requires j == |s| || !InClass(cc, s[j])
    ensures RunEnd(cc, s, i) == j
    decreases j - i
  {
    if i < j {
      RunEndAt(cc, s, i + 1, j);
    }
  }

  /** First index at or after `i` holding `c`. */
  function FindChar(s: string, i: nat, c: char): (r: Option<nat>)
    requires i <= |s|
    ensures r.Some? ==> i <= r.value < |s| && s[r.value] == c
    ensures r.Some? ==> forall k :: i <= k < r.value ==> s[k] != c
    ensures r.None? ==> forall k :: i <= k < |s| ==> s[k] != c
    decreases |s| - i
  {
    if i == |s| then None
    else if s[i] == c then Some(i)
    else FindChar(s, i + 1, c)
  }

  lemma {:induction false} FindCharAt(s: string, i: nat, c: char, j: nat)
    requires i <= j < |s| && s[j] == c
    requires forall k :: i <= k < j ==> s[k] != c
    ensures FindChar(s, i, c) == Some(j)
    decreases j - i
  {
    if i < j {
      FindCharAt(s, i + 1, c, j);
    }
  }

  /**
   The lazy `.*?` followed by the literal `delim`: the first position `k >= i`
   where `delim` starts, provided no line terminator lies in `s[i..k]`.
   */
  function LazyFind(s: string, i: nat, delim: string): (r: Option<nat>)
    requires i <= |s|
    ensures r.Some? ==> i <= r.value && r.value + |delim| <= |s| && s[r.value..r.value + |delim|] == delim
    ensures r.Some? ==> forall k :: i <= k < r.value ==> !IsLineTerminator(s[k]) && !OccursAt(s, delim, k)
    ensures r.None? ==> forall k :: i <= k <= |s| && OccursAt(s, delim, k) ==>
                          exists j :: i <= j < k && IsLineTerminator(s[j])
    decreases |s| - i
  {
    if i + |delim| <= |s| && s[i..i + |delim|] == delim then Some(i)
    else if i < |s| && !IsLineTerminator(s[i]) then LazyFind(s, i + 1, delim)
    else None
  }

  /** No line terminator from `i` to the end: what `.*$` needs without the `m` flag. */
  predicate NoTerminatorFrom(s: string, i: nat)
  {
    forall k :: i <= k < |s| ==> !IsLineTerminator(s[k])
  }

  // ---- String methods ----

  predicate StartsWith(s: string, prefix: string)
  {
    |prefix| <= |s| && s[..|prefix|] == prefix
  }

  predicate EndsWith(s: string, suffix: string)
  {
    |suffix| <= |s| && s[|s| - |suffix|..] == suffix
  }

  /** Number of leading `\s` characters. */
  function LeadingSpaces(s: string): (n: nat)
    ensures n <= |s|
    ensures forall k :: 0 <= k < n ==> IsJsSpace(s[k])
    ensures n == |s| || !IsJsSpace(s[n])
  {
    RunEnd(Spaces, s, 0)
  }

  /** `s.trimStart()`. */
  function TrimStart(s: string): string
  {
    s[LeadingSpaces(s)..]
  }

  /** Number of trailing `\s` characters. */
  function TrailingSpaces(s: string): (n: nat)
    ensures n <= |s|
    ensures forall k :: |s| - n <= k < |s| ==> IsJsSpace(s[k])
    ensures n == |s| || !IsJsSpace(s[|s| - n - 1])
    decreases |s|
  {
    if |s| > 0 && IsJsSpace(s[|s| - 1]) then 1 + TrailingSpaces(s[..|s| - 1]) else 0
  }

  /** `s.trim()`. */
  function Trim(s: string): string
  {
    var t := TrimStart(s);
    t[..|t| - TrailingSpaces(t)]
  }

  predicate IsBlank(s: string)
  {
    forall k :: 0 <= k < |s| ==> IsJsSpace(s[k])
  }

  /** `trim` leaves nothing exactly when every character is white space. */
  lemma TrimEmptyIffBlank(s: string)
    ensures Trim(s) == "" <==> IsBlank(s)
  {
    var n := LeadingSpaces(s);
    var t := s[n..];
    if IsBlank(s) {
      assert n == |s|;
    } else {
      var k :| 0 <= k < |s| && !IsJsSpace(s[k]);
      assert n < |s|;
      assert t[0] == s[n] && !IsJsSpace(t[0]);
      assert TrailingSpaces(t) < |t|;
    }
  }

  /** What `trim` leaves neither starts nor ends with white space, and is a piece of the string. */
  lemma TrimEnds(s: string)
    ensures Trim(s) != "" ==> !IsJsSpace(Trim(s)[0]) && !IsJsSpace(Trim(s)[|Trim(s)| - 1])
    ensures Contains(s, Trim(s))
  {
    var n := LeadingSpaces(s);
    var t := s[n..];
    var m := TrailingSpaces(t);
    assert Trim(s) == s[n..|s| - m];
    assert OccursAt(s, Trim(s), n);
    if Trim(s) != "" {
      assert Trim(s)[0] == s[n];
      assert Trim(s)[|Trim(s)| - 1] == t[|t| - m - 1];
    }
  }

  /** `trim` is the identity on a string with no white space at all. */
  lemma TrimNoSpaces(s: string)
    requires forall k :: 0 <= k < |s| ==> !IsJsSpace(s[k])
    ensures Trim(s) == s
  {
    assert LeadingSpaces(s) == 0;
    assert s[0..] == s;
    assert TrailingSpaces(s) == 0;
  }

  /** `s.indexOf(c)`, with `None` for `-1`. */
  function IndexOf(s: string, c: char): (r: Option<nat>)
    ensures r.Some? ==> r.value < |s| && s[r.value] == c && forall k :: 0 <= k < r.value ==> s[k] != c
    ensures r.None? <==> c !in s
  {
    FindChar(s, 0, c)
  }

  /** `s.slice(start, end)` for non-negative arguments: clamped, empty when `start >= end`. */
  function Slice(s: string, start: nat, end: nat): (r: string)
    ensures start <= end <= |s| ==> r == s[start..end]
    ensures end <= start ==> r == ""
  {
    var e := if end <= |s| then end else |s|;
    var b := if start <= |s| then start else |s|;
    if b >= e then "" else s[b..e]
  }

  /** `haystack.includes(needle)`. */
  predicate Contains(haystack: string, needle: string)
  {
    exists i :: 0 <= i <= |haystack| && OccursAt(haystack, needle, i)
  }

  predicate OccursAt(haystack: string, needle: string, i: nat)
  {
    i + |needle| <= |haystack| && haystack[i..i + |needle|] == needle
  }

  lemma ContainsMiddle(a: string, x: string, b: string)
    ensures Contains(a + x + b, x)
  {
    var h := a + x + b;
    assert h[|a|..|a| + |x|] == x;
    assert OccursAt(h, x, |a|);
  }

  lemma ContainsEmpty(h: string)
    ensures Contains(h, "")
  {
    assert h[0..0] == "";
    assert OccursAt(h, "", 0);
  }

  /** ASCII `toLowerCase`. */
  function LowerChar(c: char): char
  {
    if 'A' <= c <= 'Z' then (c as int + 32) as char else c
  }

  predicate IsAsciiUpper(c: char)
  {
    'A' <= c <= 'Z'
  }

  /**
   ASCII `toLowerCase`: no upper-case letter is left, each one becomes the
   letter 32 code points further on, and every other character is kept.
   */
  function LowerAscii(s: string): (r: string)
    ensures |r| == |s|
    ensures forall k :: 0 <= k < |r| ==> !IsAsciiUpper(r[k])
    ensures forall k :: 0 <= k < |s| && IsAsciiUpper(s[k]) ==> r[k] as int == s[k] as int + 32 && IsAsciiLetter(r[k])
    ensures forall k :: 0 <= k < |s| && !IsAsciiUpper(s[k]) ==> r[k] == s[k]
  {
    seq(|s|, k requires 0 <= k < |s| => LowerChar(s[k]))
  }

  // ---- Sequences of strings ----

  function Concat(ss: seq<string>): string
  {
    if |ss| == 0 then "" else ss[0] + Concat(ss[1..])
  }

  lemma ConcatAppend(a: seq<string>, b: seq<string>)
    ensures Concat(a + b) == Concat(a) + Concat(b)
  {
    if |a| > 0 {
      assert (a + b)[1..] == a[1..] + b;
      ConcatAppend(a[1..], b);
    } else {
      assert a + b == b;
    }
  }

  lemma ConcatSingle(x: string)
    ensures Concat([x]) == x
  {
    assert [x][1..] == [];
  }

  /** Each piece of a concatenation occurs in it. */
  lemma {:induction false} ConcatContains(ss: seq<string>, k: nat)
    requires k < |ss|
    ensures Contains(Concat(ss), ss[k])
  {
    if k == 0 {
      ContainsMiddle("", ss[0], Concat(ss[1..]));
      assert "" + ss[0] + Concat(ss[1..]) == Concat(ss);
    } else {
      ConcatContains(ss[1..], k - 1);
      assert ss[1..][k - 1] == ss[k];
      ContainsAfter(ss[0], Concat(ss[1..]), ss[k]);
    }
  }

  /** `ss.join(sep)`. */
  function Join(ss: seq<string>, sep: string): string
  {
    if |ss| == 0 then "" else if |ss| == 1 then ss[0] else ss[0] + sep + Join(ss[1..], sep)
  }

  /** What occurs in the tail of a string occurs in the whole. */
  lemma ContainsAfter(a: string, b: string, x: string)
    requires Contains(b, x)
    ensures Contains(a + b, x)
  {
    var i :| 0 <= i <= |b| && OccursAt(b, x, i);
    assert (a + b)[|a| + i..|a| + i + |x|] == b[i..i + |x|];
    assert OccursAt(a + b, x, |a| + i);
  }

  /** Each piece of a join occurs in it. */
  lemma {:induction false} JoinContains(ss: seq<string>, sep: string, k: nat)
    requires k < |ss|
    ensures Contains(Join(ss, sep), ss[k])
  {
    if |ss| == 1 {
      ContainsMiddle("", ss[0], "");
      assert "" + ss[0] + "" == ss[0];
    } else if k == 0 {
      ContainsMiddle("", ss[0], sep + Join(ss[1..], sep));
      assert "" + ss[0] + (sep + Join(ss[1..], sep)) == Join(ss, sep);
    } else {
      JoinContains(ss[1..], sep, k - 1);
      ContainsAfter(ss[0] + sep, Join(ss[1..], sep), ss[k]);
      assert ss[0] + sep + Join(ss[1..], sep) == Join(ss, sep);
    }
  }

  /** A join of non-empty pieces is empty exactly when there are no pieces. */
  lemma JoinEmpty(ss: seq<string>, sep: string)
    requires forall k :: 0 <= k < |ss| ==> ss[k] != ""
    ensures Join(ss, sep) == "" <==> |ss| == 0
  {
    if |ss| > 1 {
      assert |Join(ss, sep)| >= |ss[0]|;
    }
  }

  function CountChar(s: string, c: char): nat
  {
    if |s| == 0 then 0 else (if s[0] == c then 1 else 0) + CountChar(s[1..], c)
  }

  predicate NoNewline(line: string)
  {
    forall k :: 0 <= k < |line| ==> line[k] != '\n'
  }

  /**
   `s.split('\n')`: one line per newline plus one, no line holding a newline,
   and joining the lines with newlines gives back `s`.
   */
  function SplitLines(s: string): (r: seq<string>)
    ensures |r| == CountChar(s, '\n') + 1
    ensures forall i :: 0 <= i < |r| ==> NoNewline(r[i])
    ensures Join(r, "\n") == s
  {
    if |s| == 0 then [""]
    else if s[0] == '\n' then [""] + SplitLines(s[1..])
    else
      var rest := SplitLines(s[1..]);
      assert Join(rest, "\n") == s[1..];
      var first := [s[0]] + rest[0];
      assert s == [s[0]] + s[1..];
      [first] + rest[1..]
  }

  /** Joining newline-free lines and splitting again gives the lines back. */
  lemma {:induction false} SplitLinesOfJoin(lines: seq<string>)
    requires |lines| >= 1
    requires forall i :: 0 <= i < |lines| ==> NoNewline(lines[i])
    ensures SplitLines(Join(lines, "\n")) == lines
  {
    var s := Join(lines, "\n");
    JoinInjective(SplitLines(s), lines);
  }

  /** In a join of newline-free lines the first newline ends the first line. */
  lemma JoinFirstLine(a: seq<string>)
    requires |a| >= 1
    requires forall i :: 0 <= i < |a| ==> NoNewline(a[i])
    ensures |a| == 1 ==> Join(a, "\n") == a[0] && IndexOf(Join(a, "\n"), '\n').None?
    ensures |a| > 1 ==> IndexOf(Join(a, "\n"), '\n') == Some(|a[0]|)
    ensures |a| > 1 ==> Join(a, "\n")[..|a[0]|] == a[0] && Join(a, "\n")[|a[0]| + 1..] == Join(a[1..], "\n")
  {
    var j := Join(a, "\n");
    if |a| > 1 {
      var rest := Join(a[1..], "\n");
      assert j == a[0] + "\n" + rest;
      var n := |a[0]|;
      assert j[n] == '\n';
      assert j[..n] == a[0];
      assert j[n + 1..] == rest;
      assert forall k :: 0 <= k < n ==> j[k] == a[0][k];
      FindCharAt(j, 0, '\n', n);
    } else {
      assert j == a[0];
      assert '\n' !in a[0] by {
        assert NoNewline(a[0]);
      }
    }
  }

  lemma {:induction false} JoinInjective(a: seq<string>, b: seq<string>)
    requires |a| >= 1 && |b| >= 1
    requires forall i :: 0 <= i < |a| ==> NoNewline(a[i])
    requires forall i :: 0 <= i < |b| ==> NoNewline(b[i])
    requires Join(a, "\n") == Join(b, "\n")
    ensures a == b
    decreases |a|
  {
    JoinFirstLine(a);
    JoinFirstLine(b);
    if |a| > 1 {
      var k := |a[0]|;
      assert |b[0]| == k;
      JoinInjective(a[1..], b[1..]);
      assert a == [a[0]] + a[1..];
      assert b == [b[0]] + b[1..];
    }
  }
}
