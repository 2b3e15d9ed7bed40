/** Characters and lines as Python's `str` methods see them. */
module Text {
  /** str.isspace, which is also the regular expression class \s. */
  predicate IsSpace(c: char) {
    var n := c as int;
    || 0x09 <= n <= 0x0D || 0x1C <= n <= 0x20 || n == 0x85 || n == 0xA0 || n == 0x1680
    || 0x2000 <= n <= 0x200A || n == 0x2028 || n == 0x2029 || n == 0x202F || n == 0x205F || n == 0x3000
  }

  /** The characters at which str.splitlines breaks. */
  predicate IsLineBreak(c: char) {
    var n := c as int;
    0x0A <= n <= 0x0D || 0x1C <= n <= 0x1E || n == 0x85 || n == 0x2028 || n == 0x2029
  }

  predicate NoLineBreak(s: string) {
    forall c :: c in s ==> !IsLineBreak(c)
  }

  predicate Blank(s: string) {
    forall c :: c in s ==> IsSpace(c)
  }

  /** No white space at either end. */
  predicate Trimmed(s: string) {
    s != [] ==> !IsSpace(s[0]) && !IsSpace(s[|s| - 1])
  }

  function StripLeft(s: string): (t: string)
    ensures |t| <= |s| && t == s[|s| - |t|..] && Blank(s[..|s| - |t|])
    ensures t != [] ==> !IsSpace(t[0])
  {
    if s != [] && IsSpace(s[0]) then
      var t := StripLeft(s[1..]);
      assert s[..|s| - |t|] == [s[0]] + s[1..][..|s| - 1 - |t|];
      t
    else s
  }

  function StripRight(s: string): (t: string)
    ensures t <= s && Blank(s[|t|..])
    ensures t != [] ==> !IsSpace(t[|t| - 1])
  {
    if s != [] && IsSpace(s[|s| - 1]) then
      var t := StripRight(s[..|s| - 1]);
      assert s[|t|..] == s[..|s| - 1][|t|..] + [s[|s| - 1]];
      t
    else s
  }

  function Strip(s: string): string {
    StripRight(StripLeft(s))
  }

  lemma StripTrims(s: string)
    ensures Trimmed(Strip(s))
    ensures Trimmed(s) ==> Strip(s) == s
  {
    hide IsSpace;
    var t := StripLeft(s);
    assert Strip(s) <= t;
  }

  lemma {:induction false} StripsToNothing(s: string)
    ensures Strip(s) == "" <==> Blank(s)
  {
    hide IsSpace;
    var t := StripLeft(s);
    assert s == s[..|s| - |t|] + t;
    if Strip(s) == "" {
      assert t == t[|Strip(s)|..];
    } else {
      assert t[0] in s;
    }
  }

  // ----- Splitting at one character ----------------------------------------------------------

  /** str.split with a one-character separator. */
  function SplitOn(s: string, sep: char): (parts: seq<string>)
    ensures parts != []
    ensures forall k :: 0 <= k < |parts| ==> sep !in parts[k]
  {
    if s == [] then [[]]
    else
      var rest := SplitOn(s[1..], sep);
      if s[0] == sep then [[]] + rest else [[s[0]] + rest[0]] + rest[1..]
  }

  function JoinWith(parts: seq<string>, sep: char): string
    requires parts != []
  {
    if |parts| == 1 then parts[0] else parts[0] + [sep] + JoinWith(parts[1..], sep)
  }

  lemma {:induction false} JoinSplit(s: string, sep: char)
    ensures JoinWith(SplitOn(s, sep), sep) == s
  {
    if s != [] {
      JoinSplit(s[1..], sep);
      var rest := SplitOn(s[1..], sep);
      if s[0] == sep {
        assert ([[]] + rest)[1..] == rest;
      } else if |rest| > 1 {
        assert ([[s[0]] + rest[0]] + rest[1..])[1..] == rest[1..];
      }
    }
  }

  lemma {:induction false} SplitJoin(parts: seq<string>, sep: char)
    requires parts != [] && forall k :: 0 <= k < |parts| ==> sep !in parts[k]
    ensures SplitOn(JoinWith(parts, sep), sep) == parts
    decreases |parts|, |parts[0]|
  {
    var s := JoinWith(parts, sep);
    if parts[0] != [] {
      var shorter := [parts[0][1..]] + parts[1..];
      assert sep !in parts[0][1..];
      SplitJoin(shorter, sep);
      assert s[0] == parts[0][0] && s[0] != sep;
      assert |parts| > 1 ==> shorter[1..] == parts[1..];
      assert s[1..] == JoinWith(shorter, sep);
      assert [parts[0][0]] + parts[0][1..] == parts[0];
      assert parts == [parts[0]] + parts[1..];
    } else if |parts| > 1 {
      SplitJoin(parts[1..], sep);
      assert s == [sep] + JoinWith(parts[1..], sep);
      assert parts == [[]] + parts[1..];
    } else {
      assert parts == [[]];
    }
  }

  // ----- Lines -------------------------------------------------------------------------------

  /** The index of the first line break, or the length. */
  function FirstBreak(s: string): (n: nat)
    ensures n <= |s| && NoLineBreak(s[..n])
    ensures n < |s| ==> IsLineBreak(s[n])
  {
    if s == [] || IsLineBreak(s[0]) then 0
    else
      var n := 1 + FirstBreak(s[1..]);
      assert s[..n] == [s[0]] + s[1..][..n - 1];
      n
  }

  /** How many characters the line break at `n` takes: a carriage return and line feed count as one break. */
  function BreakWidth(s: string, n: nat): (w: nat)
    requires n < |s|
    ensures 1 <= w && n + w <= |s|
  {
    if s[n] == '\r' && n + 1 < |s| && s[n + 1] == '\n' then 2 else 1
  }

  /** str.splitlines. */
  function SplitLines(s: string): (lines: seq<string>)
    ensures forall k :: 0 <= k < |lines| ==> NoLineBreak(lines[k])
    decreases |s|
  {
    if s == [] then []
    else
      var n := FirstBreak(s);
      assert s[..n] + s[n..] == s;
      if n == |s| then [s] else [s[..n]] + SplitLines(s[n + BreakWidth(s, n)..])
  }

  lemma FirstBreakIs(s: string, n: nat)
    requires n <= |s| && NoLineBreak(s[..n]) && (n < |s| ==> IsLineBreak(s[n]))
    ensures FirstBreak(s) == n
  {
    hide IsLineBreak;
    var m := FirstBreak(s);
    forall k | 0 <= k < m ensures !IsLineBreak(s[k]) {
      assert s[k] in s[..m];
    }
    forall k | 0 <= k < n ensures !IsLineBreak(s[k]) {
      assert s[k] in s[..n];
    }
  }

  lemma {:induction false} SplitLinesStep(s: string, n: nat)
    requires n == FirstBreak(s) < |s|
    ensures SplitLines(s) == [s[..n]] + SplitLines(s[n + BreakWidth(s, n)..])
  {
    hide FirstBreak, IsLineBreak, NoLineBreak, BreakWidth;
  }

  /** The text is empty or ends with a line break. */
  predicate Terminated(s: string) {
    s == [] || IsLineBreak(s[|s| - 1])
  }

  /** Putting `b` behind `a` makes no carriage return and line feed out of their ends. */
  predicate NoNewPair(a: string, b: string) {
    a != [] && b != [] && a[|a| - 1] == '\r' ==> b[0] != '\n'
  }

  lemma FirstBreakBeforeEnd(a: string) returns (n: nat)
    requires a != [] && Terminated(a)
    ensures n == FirstBreak(a) && n < |a|
  {
    n := FirstBreak(a);
    forall k | 0 <= k < n ensures !IsLineBreak(a[k]) {
      assert a[k] in a[..n];
    }
  }

  /** Texts joined at a line end are split separately. */
  lemma {:induction false} SplitLinesAppend(a: string, b: string)
    requires Terminated(a) && NoNewPair(a, b)
    ensures SplitLines(a + b) == SplitLines(a) + SplitLines(b)
    decreases |a|
  {
    hide FirstBreak, IsLineBreak, SplitLines, NoLineBreak, BreakWidth;
    if a == [] {
      SplitNothing();
      assert a + b == b;
    } else {
      var n := FirstBreakBeforeEnd(a);
      SameBreak(a, b, n);
      FirstBreakIs(a + b, n);
      SplitLinesStep(a, n);
      SplitLinesStep(a + b, n);
      var rest := a[n + BreakWidth(a, n)..];
      SplitLinesAppend(rest, b);
      Regroup(a[..n], SplitLines(rest), SplitLines(b));
    }
  }

  /** A line feed behind a carriage return only completes its line break. */
  lemma {:induction false} LineFeedJoins(a: string)
    requires a != [] && a[|a| - 1] == '\r'
    ensures SplitLines(a + "\n") == SplitLines(a)
    decreases |a|
  {
    hide FirstBreak, IsLineBreak, SplitLines, NoLineBreak, BreakWidth;
    CarriageReturnBreaks();
    var n := FirstBreakBeforeEnd(a);
    var whole := a + "\n";
    assert whole[..n] == a[..n] && whole[n] == a[n];
    FirstBreakIs(whole, n);
    SplitLinesStep(a, n);
    SplitLinesStep(whole, n);
    WidthBeforeLineFeed(a, n);
    SplitNothing();
    if n < |a| - 1 {
      LineFeedJoins(a[n + BreakWidth(a, n)..]);
    }
  }

  lemma CarriageReturnBreaks()
    ensures IsLineBreak('\r')
  {
  }

  lemma WidthBeforeLineFeed(a: string, n: nat)
    requires n < |a| && a[|a| - 1] == '\r'
    ensures
      var w, v := BreakWidth(a, n), BreakWidth(a + "\n", n);
      if n == |a| - 1 then a[n + w..] == [] && (a + "\n")[n + v..] == []
      else
        && w == v && n + w < |a|
        && (a + "\n")[n + v..] == a[n + w..] + "\n" && a[n + w..][|a| - n - w - 1] == '\r'
  {
  }

  lemma Regroup(first: string, a: seq<string>, b: seq<string>)
    ensures [first] + (a + b) == [first] + a + b
  {
  }

  lemma SameBreak(a: string, b: string, n: nat)
    requires n < |a| && Terminated(a) && NoNewPair(a, b)
    ensures
      var w := BreakWidth(a, n);
      && BreakWidth(a + b, n) == w
      && (a + b)[n] == a[n] && (a + b)[..n] == a[..n]
      && (a + b)[n + w..] == a[n + w..] + b
      && Terminated(a[n + w..]) && NoNewPair(a[n + w..], b)
  {
    hide IsLineBreak;
  }

  lemma SplitAround(before: string, line: string, after: string)
    requires Terminated(before) && NoNewPair(before, after) && NoNewPair(before, line + "\n")
    requires NoLineBreak(line)
    ensures SplitLines(before + (line + "\n") + after) == SplitLines(before) + [line] + SplitLines(after)
  {
    hide NoLineBreak, SplitLines;
    var text := line + "\n";
    SplitLinesOfLine(line);
    LineFeedBreaks();
    SplitLinesAppend(before, text);
    SplitLinesAppend(before + text, after);
  }

  lemma SplitLinesOfLine(line: string)
    requires NoLineBreak(line)
    ensures SplitLines(line + "\n") == [line]
  {
    var s := line + "\n";
    assert s[..|line|] == line;
    FirstBreakIs(s, |line|);
    assert s[|line| + 1..] == [];
  }

  lemma LineFeedBreaks()
    ensures IsLineBreak('\n')
  {
  }

  function Unlines(lines: seq<string>): string {
    if lines == [] then "" else lines[0] + "\n" + Unlines(lines[1..])
  }

  lemma {:induction false} SplitUnlines(lines: seq<string>)
    requires forall k :: 0 <= k < |lines| ==> NoLineBreak(lines[k])
    ensures SplitLines(Unlines(lines)) == lines
  {
    hide IsLineBreak, NoLineBreak, SplitLines;
    if lines == [] {
      SplitNothing();
    } else {
      SplitUnlines(lines[1..]);
      SplitLinesOfLine(lines[0]);
      LineFeedBreaks();
      SplitLinesAppend(lines[0] + "\n", Unlines(lines[1..]));
      assert lines == [lines[0]] + lines[1..];
    }
  }

  lemma SplitNothing()
    ensures SplitLines("") == []
  {
  }

  predicate EndsWith(s: string, suffix: string) {
    |s| >= |suffix| && s[|s| - |suffix|..] == suffix
  }

  // ----- Words -------------------------------------------------------------------------------

  predicate NoSpace(s: string) {
    forall c :: c in s ==> !IsSpace(c)
  }

  /** The longest run of non-space characters at the start. */
  function Word(s: string): (w: string)
    ensures w <= s && NoSpace(w)
    ensures |w| < |s| ==> IsSpace(s[|w|])
  {
    if s == [] || IsSpace(s[0]) then []
    else
      var w := Word(s[1..]);
      assert ([s[0]] + w)[1..] == w;
      [s[0]] + w
  }

  /** What follows the first word and the white space after it. */
  function AfterWord(s: string): (t: string)
    ensures |t| <= |s| && t == s[|s| - |t|..]
  {
    StripLeft(s[|Word(s)|..])
  }

  lemma WordIs(s: string, w: string)
    requires w <= s && NoSpace(w) && (|w| < |s| ==> IsSpace(s[|w|]))
    ensures Word(s) == w
  {
    hide IsSpace, Word;
    var v := Word(s);
    forall k | 0 <= k < |v| ensures !IsSpace(s[k]) {
      assert v[k] in v;
    }
    forall k | 0 <= k < |w| ensures !IsSpace(s[k]) {
      assert w[k] in w;
    }
    assert |v| == |w|;
    assert v == s[..|v|] && w == s[..|w|];
  }

  lemma WordThenRest(w: string, t: string)
    requires w != [] && NoSpace(w) && t != [] && !IsSpace(t[0])
    ensures Word(w + " " + t) == w && AfterWord(w + " " + t) == t
  {
    hide IsSpace, Word, NoSpace;
    var s := w + " " + t;
    SpaceIsSpace();
    assert s[..|w|] == w && s[|w|] == ' ';
    WordIs(s, w);
    assert s[|w|..] == [' '] + t;
    assert s[|w|..][1..] == t;
  }

  lemma SpaceIsSpace()
    ensures IsSpace(' ')
  {
  }

  /** The part before the first occurrence of a character. */
  function Before(s: string, sep: char): (p: string)
    ensures p <= s && sep !in p
    ensures |p| < |s| ==> s[|p|] == sep
  {
    if s == [] || s[0] == sep then []
    else
      var p := Before(s[1..], sep);
      assert ([s[0]] + p)[1..] == p;
      [s[0]] + p
  }

  lemma BeforeSeparator(front: string, sep: char, rest: string)
    requires sep !in front
    ensures Before(front + [sep] + rest, sep) == front
  {
    hide Before;
    var s := front + [sep] + rest;
    var p := Before(s, sep);
    assert s[|front|] == sep;
    forall k | 0 <= k < |p| ensures s[k] != sep {
      assert p[k] in p;
    }
    forall k | 0 <= k < |front| ensures s[k] != sep {
      assert front[k] in front;
    }
    assert p == s[..|p|] && front == s[..|front|];
  }
}
