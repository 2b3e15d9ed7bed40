/**
 * The trace ledger (`append_trace_ledger` in `runtime_core.py`): one record is appended as a whole line
 * and verified at the tail of the file, or else by a scan that skips lines which are not JSON.
 */
module TraceLedger {
  import opened Text

  /** What JSON makes of a line; only objects can be asked for their trace id. */
  datatype Parsed = Corrupt | NotAnObject | AnObject

  datatype Verdict = Accepted | Mismatch | Raised

  datatype Outcome = TooLarge | Appended(verdict: Verdict)

  /** A record as it is written: one line of text, and its line feed. */
  function RecordText(line: string): string {
    line + "\n"
  }

  /** A line that the ledger writes: one line, not blank, and a JSON object. */
  predicate Writable(line: string, parse: string -> Parsed) {
    NoLineBreak(line) && !Blank(line) && parse(line).AnObject?
  }

  /** The last bytes of the file are the record. */
  predicate AtTail(content: string, record: string) {
    |content| >= |record| && content[|content| - |record|..] == record
  }

  /** The full scan: a line matches when its hash, with the line feed put back, is the record's. */
  function Scan(lines: seq<string>, line: string, parse: string -> Parsed): Verdict {
    if lines == [] then Mismatch
    else if Blank(lines[0]) || parse(lines[0]).Corrupt? then Scan(lines[1..], line, parse)
    else if parse(lines[0]).NotAnObject? then Raised
    else if RecordText(lines[0]) == RecordText(line) then Accepted
    else Scan(lines[1..], line, parse)
  }

  function Verify(content: string, line: string, parse: string -> Parsed): Verdict {
    if AtTail(content, RecordText(line)) then Accepted else Scan(SplitLines(content), line, parse)
  }

  class TraceFile {
    var content: string

    constructor ()
      ensures content == ""
    {
      content := "";
    }

    /** Appends one record; `others` are the whole lines that other processes append before it is verified. */
    method Append(line: string, maxBytes: nat, others: seq<string>, parse: string -> Parsed) returns (r: Outcome)
      modifies this
      ensures |line| + 1 > maxBytes ==> r == TooLarge && content == old(content)
      ensures |line| + 1 <= maxBytes ==>
        && content == old(content) + RecordText(line) + Unlines(others)
        && r == Appended(Verify(content, line, parse))
    {
      var record := RecordText(line);
      if |record| > maxBytes {
        return TooLarge;
      }
      content := content + record;
      content := content + Unlines(others);
      var size := |content|;
      var from := if size >= |record| then size - |record| else 0;
      var tail := content[from..];
      if tail == record {
        return Appended(Accepted);
      }
      var verdict := ScanLines(SplitLines(content), line, parse);
      return Appended(verdict);
    }
  }

  method ScanLines(lines: seq<string>, line: string, parse: string -> Parsed) returns (v: Verdict)
    ensures v == Scan(lines, line, parse)
  {
    assert lines[0..] == lines;
    for n := 0 to |lines|
      invariant Scan(lines, line, parse) == Scan(lines[n..], line, parse)
    {
      assert lines[n..][1..] == lines[n + 1..];
      if Blank(lines[n]) {
        continue;
      }
      if parse(lines[n]).Corrupt? {
        continue;
      }
      if parse(lines[n]).NotAnObject? {
        return Raised;
      }
      if RecordText(lines[n]) == RecordText(line) {
        return Accepted;
      }
    }
    return Mismatch;
  }

  // ----- What the scan finds -----------------------------------------------------------------

  /** A line at which the scan raises: JSON, but no object. */
  predicate Raises(l: string, parse: string -> Parsed) {
    !Blank(l) && parse(l).NotAnObject?
  }

  /**
   * The scan is decided by the first line that is the record's or at which it raises, however many
   * corrupt lines come before; without such a line it is a mismatch.
   */
  lemma {:induction false} ScanDecides(lines: seq<string>, line: string, parse: string -> Parsed) returns (k: nat)
    requires Writable(line, parse)
    ensures k <= |lines| && forall j :: 0 <= j < k ==> lines[j] != line && !Raises(lines[j], parse)
    ensures
      if k == |lines| then Scan(lines, line, parse) == Mismatch
      else if lines[k] == line then Scan(lines, line, parse) == Accepted
      else Raises(lines[k], parse) && Scan(lines, line, parse) == Raised
  {
    hide Blank, NoLineBreak;
    if lines == [] {
      return 0;
    }
    SameRecordText(lines[0], line);
    if lines[0] == line || Raises(lines[0], parse) {
      return 0;
    }
    var rest := ScanDecides(lines[1..], line, parse);
    k := rest + 1;
  }

  lemma SameRecordText(a: string, b: string)
    ensures RecordText(a) == RecordText(b) <==> a == b
  {
    assert RecordText(a)[..|RecordText(a)| - 1] == a && RecordText(b)[..|RecordText(b)| - 1] == b;
  }

  /** Lines that the scan can go over without raising. */
  ghost predicate Scannable(lines: seq<string>, parse: string -> Parsed) {
    forall k :: 0 <= k < |lines| ==> !Raises(lines[k], parse)
  }

  /** Where it does not raise, the scan finds a record exactly if its line is one of the lines. */
  lemma ScanFinds(lines: seq<string>, line: string, parse: string -> Parsed)
    requires Writable(line, parse) && Scannable(lines, parse)
    ensures Scan(lines, line, parse) == if line in lines then Accepted else Mismatch
  {
    hide Scan, Raises, Writable;
    var k := ScanDecides(lines, line, parse);
  }

  // ----- Text in front of the record ---------------------------------------------------------

  /** A line put behind a torn one becomes the end of that line. */
  lemma {:induction false} TornLineSwallows(before: string, line: string)
    requires !Terminated(before) && NoLineBreak(line)
    ensures SplitLines(before) != []
    ensures
      var lines := SplitLines(before);
      var torn := lines[|lines| - 1];
      && torn != ""
      && SplitLines(before + RecordText(line)) == lines[..|lines| - 1] + [torn + line]
    decreases |before|
  {
    var n := FirstBreak(before);
    if n == |before| {
      WholeLine(before);
      WholeLineContinued(before, line);
    } else {
      hide SplitLines, IsLineBreak, FirstBreak, NoLineBreak, BreakWidth;
      var rest := before[n + BreakWidth(before, n)..];
      TornRest(before, n, RecordText(line));
      SplitLinesStep(before, n);
      TornLineSwallows(rest, line);
      var whole := before + RecordText(line);
      FirstBreakIs(whole, n);
      SplitLinesStep(whole, n);
      Reassemble(before[..n], SplitLines(rest), line);
    }
  }

  lemma Reassemble(first: string, lines: seq<string>, line: string)
    requires lines != []
    ensures
      var all := [first] + lines;
      && all[|all| - 1] == lines[|lines| - 1]
      && [first] + (lines[..|lines| - 1] + [lines[|lines| - 1] + line]) == all[..|all| - 1] + [all[|all| - 1] + line]
  {
  }

  lemma TornRest(before: string, n: nat, record: string)
    requires !Terminated(before) && n == FirstBreak(before) < |before|
    ensures
      var w := BreakWidth(before, n);
      && !Terminated(before[n + w..])
      && BreakWidth(before + record, n) == w
      && (before + record)[n] == before[n] && (before + record)[..n] == before[..n]
      && (before + record)[n + w..] == before[n + w..] + record
  {
    hide FirstBreak, IsLineBreak, BreakWidth, Terminated;
    BreakIsInside(before, n);
    SameWidth(before, record, n);
    TailOfSum(before, record, n + BreakWidth(before, n));
    assert (before + record)[..n] == before[..n];
  }

  lemma BreakIsInside(before: string, n: nat)
    requires !Terminated(before) && n < |before| && IsLineBreak(before[n])
    ensures n + BreakWidth(before, n) < |before| && !Terminated(before[n + BreakWidth(before, n)..])
  {
    hide IsLineBreak;
    LineFeedBreaks();
  }

  lemma SameWidth(before: string, record: string, n: nat)
    requires n < |before| && n + BreakWidth(before, n) < |before|
    ensures BreakWidth(before + record, n) == BreakWidth(before, n)
  {
  }

  lemma TailOfSum(a: string, b: string, from: nat)
    requires from <= |a|
    ensures (a + b)[from..] == a[from..] + b
  {
  }

  lemma {:induction false} WholeLine(s: string)
    requires s != [] && FirstBreak(s) == |s|
    ensures SplitLines(s) == [s]
  {
  }

  lemma {:induction false} WholeLineContinued(s: string, line: string)
    requires FirstBreak(s) == |s| && NoLineBreak(line)
    ensures SplitLines(s + RecordText(line)) == [s + line]
  {
    hide IsLineBreak, SplitLines, FirstBreak;
    assert s[..|s|] == s;
    assert NoLineBreak(s + line);
    assert s + RecordText(line) == s + line + "\n";
    SplitLinesOfLine(s + line);
  }

  // ----- The tail check against the scan -----------------------------------------------------

  /** The lines of a text that a line break ends. */
  function WholeLines(s: string): seq<string> {
    var lines := SplitLines(s);
    if Terminated(s) || lines == [] then lines else lines[..|lines| - 1]
  }

  /** The last line, if no line break ends it. */
  function TornLine(s: string): string {
    var lines := SplitLines(s);
    if Terminated(s) || lines == [] then "" else lines[|lines| - 1]
  }

  /** Each is one line of text. */
  ghost predicate AllWhole(lines: seq<string>) {
    forall k :: 0 <= k < |lines| ==> NoLineBreak(lines[k])
  }

  /** The lines of a file in which our record and then those of others were appended. */
  function LinesWith(before: string, line: string, others: seq<string>): seq<string> {
    WholeLines(before) + [TornLine(before) + line] + others
  }

  lemma LinesBehind(before: string, line: string, others: seq<string>)
    requires NoLineBreak(line) && line != "" && AllWhole(others)
    ensures SplitLines(before + RecordText(line) + Unlines(others)) == LinesWith(before, line, others)
    ensures TornLine(before) == "" <==> Terminated(before)
  {
    hide SplitLines, NoLineBreak, IsLineBreak, Unlines;
    LineFeedBreaks();
    RecordMakesNoPair(before, line);
    SplitLinesAppend(before + RecordText(line), Unlines(others));
    SplitUnlines(others);
    if Terminated(before) {
      SplitLinesAppend(before, RecordText(line));
      SplitLinesOfLine(line);
      assert "" + line == line;
    } else {
      TornLineSwallows(before, line);
    }
  }

  lemma RecordMakesNoPair(before: string, line: string)
    requires NoLineBreak(line) && line != ""
    ensures NoNewPair(before, RecordText(line))
  {
    assert line[0] in line;
    LineFeedBreaks();
  }

  lemma RecordIsTail(before: string, record: string)
    ensures AtTail(before + record, record)
  {
  }

  /**
   * Right after the append the tail check always accepts. The full scan agrees with it exactly if the
   * file was empty or ended with a line break, or held the record on a line of its own already: behind a
   * torn line the new record is on disk, but on no line of its own.
   */
  lemma TailAgreesWithScanIff(before: string, line: string, parse: string -> Parsed)
    requires Writable(line, parse) && Scannable(LinesWith(before, line, []), parse)
    ensures Verify(before + RecordText(line), line, parse) == Accepted
    ensures Scan(SplitLines(before + RecordText(line)), line, parse) == Accepted
      <==> Terminated(before) || line in WholeLines(before)
  {
    hide SplitLines, NoLineBreak, IsLineBreak, Terminated, AtTail, Scan, Scannable, WholeLines, TornLine;
    RecordIsTail(before, RecordText(line));
    NoLines();
    LinesBehind(before, line, []);
    assert before + RecordText(line) + Unlines([]) == before + RecordText(line);
    assert LinesWith(before, line, []) == WholeLines(before) + [TornLine(before) + line];
    ScanFinds(LinesWith(before, line, []), line, parse);
    TornIsLonger(before, line);
  }

  lemma TornIsLonger(before: string, line: string)
    ensures TornLine(before) + line == line <==> TornLine(before) == ""
  {
    hide SplitLines;
    assert |TornLine(before) + line| == |TornLine(before)| + |line|;
  }

  lemma {:induction false} UnlinesEnd(others: seq<string>)
    requires others != []
    ensures Unlines(others) == Unlines(others[..|others| - 1]) + others[|others| - 1] + "\n"
  {
    if |others| == 1 {
      assert others[1..] == [];
    } else {
      var rest := others[1..];
      UnlinesEnd(rest);
      assert rest[..|rest| - 1] == others[1..|others| - 1] && others[..|others| - 1][1..] == others[1..|others| - 1];
    }
  }

  /** Behind the lines of others the record is at the tail only if the last of them ends in its text. */
  lemma TailBehind(front: string, last: string, line: string)
    requires NoLineBreak(line)
    ensures AtTail(front + "\n" + last + "\n", RecordText(line)) <==> EndsWith(last, line)
  {
    if |line| <= |last| {
      ShortTail(front, last, line);
    } else {
      LongTail(front, last, line);
    }
  }

  lemma ShortTail(front: string, last: string, line: string)
    requires |line| <= |last|
    ensures AtTail(front + "\n" + last + "\n", RecordText(line)) <==> EndsWith(last, line)
  {
    var content := front + "\n" + last + "\n";
    var end := last[|last| - |line|..];
    assert content[|content| - |line| - 1..] == RecordText(end);
    SameRecordText(end, line);
  }

  lemma LongTail(front: string, last: string, line: string)
    requires NoLineBreak(line) && |line| > |last|
    ensures !AtTail(front + "\n" + last + "\n", RecordText(line))
  {
    hide IsLineBreak;
    var content := front + "\n" + last + "\n";
    LineFeedBreaks();
    var k := |line| - |last| - 1;
    assert line[k] in line && RecordText(line)[k] == line[k];
    assert content[|content| - |last| - 2] == '\n';
    assert |content| > |line| ==> content[|content| - |line| - 1..][k] == '\n';
  }

  predicate TailIsOurs(line: string, others: seq<string>) {
    others == [] || EndsWith(others[|others| - 1], line)
  }

  lemma AfterOthers(before: string, line: string, others: seq<string>)
    requires NoLineBreak(line)
    ensures AtTail(before + RecordText(line) + Unlines(others), RecordText(line)) <==> TailIsOurs(line, others)
  {
    hide NoLineBreak, Unlines, EndsWith, AtTail;
    var content := before + RecordText(line) + Unlines(others);
    NoLines();
    if others == [] {
      assert content == before + RecordText(line);
      RecordIsTail(before, RecordText(line));
    } else {
      UnlinesEnd(others);
      var front, last := others[..|others| - 1], others[|others| - 1];
      if front == [] {
        assert content == before + line + "\n" + last + "\n";
        TailBehind(before + line, last, line);
      } else {
        UnlinesEnd(front);
        var text := before + RecordText(line) + Unlines(front[..|front| - 1]) + front[|front| - 1];
        assert content == text + "\n" + last + "\n";
        TailBehind(text, last, line);
      }
    }
  }

  lemma NoLines()
    ensures Unlines([]) == ""
  {
  }

  /**
   * What verification finds after an append, whatever stood in the file and whatever whole lines other
   * processes put behind: it accepts at the tail, and otherwise the first line that is the record's or
   * raises decides.
   */
  lemma VerifyDecides(before: string, line: string, others: seq<string>, parse: string -> Parsed) returns (k: nat)
    requires Writable(line, parse) && AllWhole(others)
    ensures
      var lines := LinesWith(before, line, others);
      && k <= |lines|
      && (forall j :: 0 <= j < k ==> lines[j] != line && !Raises(lines[j], parse))
      && Verify(before + RecordText(line) + Unlines(others), line, parse)
        == if TailIsOurs(line, others) then Accepted
           else if k == |lines| then Mismatch
           else if lines[k] == line then Accepted
           else Raised
  {
    hide SplitLines, NoLineBreak, IsLineBreak, Terminated, Unlines, AtTail, Scan, TailIsOurs, LinesWith, Raises;
    AfterOthers(before, line, others);
    LinesBehind(before, line, others);
    k := ScanDecides(LinesWith(before, line, others), line, parse);
  }

  /**
   * Where the scan does not raise: the record is found exactly if it is at the tail, was put behind a
   * line break, or stands on some other line too. Only a torn line in front and another record behind
   * make the append fail its check.
   */
  lemma VerifiedIff(before: string, line: string, others: seq<string>, parse: string -> Parsed)
    requires Writable(line, parse) && AllWhole(others) && Scannable(LinesWith(before, line, others), parse)
    ensures
      Verify(before + RecordText(line) + Unlines(others), line, parse)
        == (if || TailIsOurs(line, others) || Terminated(before)
               || line in WholeLines(before) || line in others then Accepted
            else Mismatch)
  {
    hide SplitLines, NoLineBreak, IsLineBreak, Terminated, Unlines, AtTail, Scan, TailIsOurs, WholeLines, TornLine;
    AfterOthers(before, line, others);
    LinesBehind(before, line, others);
    ScanFinds(LinesWith(before, line, others), line, parse);
    TornIsLonger(before, line);
  }

  /** So a file that is empty or ends with a line break never fails the check, whatever others append. */
  lemma FoundBehindLineBreak(before: string, line: string, others: seq<string>, parse: string -> Parsed)
    requires Writable(line, parse) && Terminated(before) && AllWhole(others)
    requires Scannable(LinesWith(before, line, others), parse)
    ensures Scan(SplitLines(before + RecordText(line) + Unlines(others)), line, parse) == Accepted
    ensures Verify(before + RecordText(line) + Unlines(others), line, parse) == Accepted
  {
    hide SplitLines, NoLineBreak, IsLineBreak, Terminated, Unlines, AtTail, Scan, TailIsOurs, WholeLines, TornLine;
    LinesBehind(before, line, others);
    ScanFinds(LinesWith(before, line, others), line, parse);
    TornIsLonger(before, line);
  }

  /** The smallest failure: a torn `[`, the record `{}` behind it, and then another record. */
  lemma TornLineExample(parse: string -> Parsed)
    requires parse("{}").AnObject? && !parse("[{}").NotAnObject? && !parse("{ }").NotAnObject?
    ensures Verify("[" + RecordText("{}") + Unlines(["{ }"]), "{}", parse) == Mismatch
  {
    hide SplitLines, Scan, Verify, Unlines, NoLineBreak, Blank;
    ExampleLines();
    assert "[" + "{}" == "[{}";
    assert LinesWith("[", "{}", ["{ }"]) == ["[{}", "{ }"];
    assert "{ }"[1..][0] == ' ';
    VerifiedIff("[", "{}", ["{ }"], parse);
  }

  lemma ExampleLines()
    ensures NoLineBreak("{}") && NoLineBreak("{ }") && !Blank("{}") && !Terminated("[")
    ensures WholeLines("[") == [] && TornLine("[") == "["
  {
    assert '{' in "{}" && !IsSpace('{');
    FirstBreakIs("[", 1);
    WholeLine("[");
  }
}
