/**
 * What the policy block parser accepts, said without its line machine; a printer for the documented
 * grammar; and the round trip between the two.
 */
module PolicyGrammar {
  import opened Wrappers
  import opened Text
  import opened PolicyParser

  // ----- The language of blocks --------------------------------------------------------------

  /** The statements of a text: blank and comment lines say nothing. */
  function Statements(lines: seq<string>): seq<Statement> {
    if lines == [] then []
    else
      var s := Classify(lines[|lines| - 1]);
      Statements(lines[..|lines| - 1]) + (if s.Nothing? then [] else [s])
  }

  ghost predicate AllBody(ss: seq<Statement>) {
    forall k :: 0 <= k < |ss| ==> FaultOf(ss[k]).None?
  }

  function Collected(ss: seq<Statement>): Body
    requires AllBody(ss)
  {
    if ss == [] then EMPTY else Add(Collected(ss[..|ss| - 1]), ss[|ss| - 1])
  }

  /** A header, body statements without fault, and one closing line, with a resource and a capability. */
  ghost predicate IsBlock(ss: seq<Statement>, r: ScopeRecord) {
    && |ss| >= 2
    && ss[0] == Header(r.scopeId)
    && ss[|ss| - 1].Close?
    && AllBody(ss[1..|ss| - 1])
    && r.body == Collected(ss[1..|ss| - 1])
    && r.body.resources != []
    && r.body.capabilities != []
  }

  ghost function StateFor(ss: seq<Statement>): Option<State> {
    if ss == [] then Some(START)
    else if !ss[0].Header? then None
    else if AllBody(ss[1..]) then Some(State(Some(ss[0].id), true, false, Collected(ss[1..])))
    else if ss[|ss| - 1].Close? && AllBody(ss[1..|ss| - 1]) then
      Some(State(Some(ss[0].id), false, true, Collected(ss[1..|ss| - 1])))
    else None
  }

  /** One more statement: the machine and the language move together. */
  lemma {:induction false} OneMoreStatement(ss: seq<Statement>, s: Statement, number: nat)
    requires !s.Nothing?
    ensures
      match StateFor(ss)
      case None => StateFor(ss + [s]).None?
      case Some(st) =>
        match Step(st, number, s)
        case Err(_) => StateFor(ss + [s]).None?
        case Ok(next) => StateFor(ss + [s]) == Some(next)
  {
    hide Add, Collected, AllBody;
    var all := ss + [s];
    NothingCollected();
    if ss == [] {
      assert all[1..] == [];
    } else {
      assert all[1..|all| - 1] == ss[1..] && all[1..] == ss[1..] + [s];
      CollectedStep(ss[1..], s);
      if |ss| >= 2 {
        CollectedStep(ss[1..|ss| - 1], ss[|ss| - 1]);
        assert ss[1..|ss| - 1] + [ss[|ss| - 1]] == ss[1..];
      }
    }
  }

  lemma {:induction false} CollectedStep(ss: seq<Statement>, s: Statement)
    ensures AllBody(ss + [s]) <==> AllBody(ss) && FaultOf(s).None?
    ensures AllBody(ss + [s]) ==> Collected(ss + [s]) == Add(Collected(ss), s)
  {
    hide FaultOf, Add;
    var all := ss + [s];
    assert all[|ss|] == s && all[..|ss|] == ss;
    if AllBody(all) {
      assert forall k :: 0 <= k < |ss| ==> all[k] == ss[k];
    }
  }

  lemma NothingCollected()
    ensures AllBody([]) && Collected([]) == EMPTY
  {
  }

  lemma {:induction false} MachineReadsLanguage(lines: seq<string>)
    ensures
      match ReadLines(lines)
      case Err(_) => StateFor(Statements(lines)).None?
      case Ok(st) => StateFor(Statements(lines)) == Some(st)
  {
    if lines != [] {
      hide Classify, StateFor, Step;
      var front, s := lines[..|lines| - 1], Classify(lines[|lines| - 1]);
      MachineReadsLanguage(front);
      if s.Nothing? {
        assert Statements(front) + [] == Statements(front);
        NothingSteps(front, |lines|, s);
      } else {
        OneMoreStatement(Statements(front), s, |lines|);
      }
    }
  }

  lemma NothingSteps(front: seq<string>, number: nat, s: Statement)
    requires s.Nothing?
    ensures ReadLines(front).Ok? ==> Step(ReadLines(front).value, number, s) == ReadLines(front)
  {
  }

  /** A text is accepted, as a given record, exactly if its statements are a block for that record. */
  lemma AcceptsExactlyBlocks(text: string, r: ScopeRecord)
    ensures Parse(text) == Ok(r) <==> IsBlock(Statements(SplitLines(text)), r)
  {
    hide SplitLines, Statements, ReadLines, Collected;
    var ss := Statements(SplitLines(text));
    MachineReadsLanguage(SplitLines(text));
    if |ss| >= 2 && ss[|ss| - 1].Close? {
      assert ss[1..][|ss| - 2] == ss[|ss| - 1];
    }
  }

  // ----- Blank and comment lines -------------------------------------------------------------

  function Shifted<T>(r: Result<T, Error>, after: nat): Result<T, Error> {
    match r
    case Err(AtLine(number, fault)) => if number > after then Err(AtLine(number + 1, fault)) else r
    case _ => r
  }

  lemma {:induction false} BlankLineShifts(a: seq<string>, blank: string, b: seq<string>)
    requires Classify(blank).Nothing?
    ensures ReadLines(a + [blank] + b) == Shifted(ReadLines(a + b), |a|)
  {
    hide Classify, FaultOf, Add;
    var longer, shorter := a + [blank] + b, a + b;
    assert longer[..|longer| - 1] == if b == [] then a else a + [blank] + b[..|b| - 1];
    if b == [] {
      assert shorter == a;
      ErrorsAreInside(a);
    } else {
      BlankLineShifts(a, blank, b[..|b| - 1]);
      assert shorter[..|shorter| - 1] == a + b[..|b| - 1];
    }
  }

  lemma {:induction false} ErrorsAreInside(lines: seq<string>)
    ensures Shifted(ReadLines(lines), |lines|) == ReadLines(lines)
  {
    hide Classify, FaultOf, Add;
    if lines != [] {
      ErrorsAreInside(lines[..|lines| - 1]);
    }
  }

  /**
   * A line of white space and comment, put in at any line end, changes nothing but the line number of a
   * later error. (Between a carriage return and its line feed there is no line end; and an empty line put
   * behind a carriage return makes such a pair, and no new line.)
   */
  lemma {:induction false} BlankLineInvisible(before: string, blank: string, after: string)
    requires Terminated(before) && NoNewPair(before, after)
    requires NoLineBreak(blank) && Blank(Uncomment(blank))
    ensures
      var with := Parse(before + (blank + "\n") + after);
      if NoNewPair(before, blank + "\n") then with == Shifted(Parse(before + after), |SplitLines(before)|)
      else with == Parse(before + after)
  {
    hide NoLineBreak, SplitLines, Uncomment, ReadLines, Blank, Classify, IsLineBreak;
    SplitLinesAppend(before, after);
    if NoNewPair(before, blank + "\n") {
      SplitAround(before, blank, after);
      BlankIsNothing(blank);
      BlankLineShifts(SplitLines(before), blank, SplitLines(after));
    } else {
      LoneLineFeed(before, blank);
      LineFeedBreaks();
      SplitLinesAppend(before + "\n", after);
      LineFeedJoins(before);
    }
  }

  lemma LoneLineFeed(before: string, blank: string)
    requires NoLineBreak(blank) && !NoNewPair(before, blank + "\n")
    ensures blank == "" && before != "" && before[|before| - 1] == '\r'
    ensures blank + "\n" == "\n"
  {
    LineFeedBreaks();
    assert forall c :: c in blank ==> c != '\n';
  }

  lemma {:induction false} BlankIsNothing(line: string)
    ensures Classify(line).Nothing? <==> Blank(Uncomment(line))
  {
    hide MatchClose, MatchResource, MatchCapability, MatchPolicy, MatchApproval, MatchAudit, MatchHeader, Uncomment,
      Strip, Blank;
    StripsToNothing(Uncomment(line));
  }

  // ----- The printer -------------------------------------------------------------------------

  /** Text that survives being put on one line: neither a comment nor a line break in it. */
  predicate Clean(s: string) {
    NoComment(s) && NoLineBreak(s)
  }

  predicate Quotable(s: string) {
    s != "" && '"' !in s && Clean(s)
  }

  predicate Condition(s: string) {
    s != "" && Trimmed(s) && Clean(s)
  }

  /** The scope records that the grammar can express. */
  ghost predicate WellFormed(r: ScopeRecord) {
    && Identifier(r.scopeId)
    && r.body.resources != []
    && r.body.capabilities != []
    && GoodBody(r.body)
  }

  ghost predicate GoodBody(b: Body) {
    && (forall k :: 0 <= k < |b.resources| ==> GoodResource(b.resources[k]))
    && (forall k :: 0 <= k < |b.capabilities| ==> GoodCapability(b.capabilities[k]))
    && (forall k :: 0 <= k < |b.policies| ==> GoodPolicy(b.policies[k], k + 1))
    && (forall k :: 0 <= k < |b.approvals| ==> GoodApproval(b.approvals[k]))
    && (b.retain.Some? ==> AuditFields(b.retain.value))
  }

  predicate GoodResource(r: Resource) {
    r.kind in RESOURCE_KINDS && Quotable(r.target)
  }

  predicate GoodCapability(c: Capability) {
    && c.resourceKind in RESOURCE_KINDS
    && c.name == c.resourceKind + "." + c.mode
    && NoSpace(c.name) && NoComment(c.name)
    && |c.allow| == 1 && Quotable(c.allow[0])
  }

  /** The n-th policy, counting from one. */
  predicate GoodPolicy(p: Policy, n: nat) {
    p.id == PolicyId(n) && p.effect in POLICY_EFFECTS && Condition(p.condition)
  }

  predicate GoodApproval(a: Approval) {
    a.authority in AUTHORITIES && Condition(a.condition)
  }

  function Then(word: string, rest: string): string {
    word + " " + rest
  }

  function Quote(s: string): string {
    "\"" + s + "\""
  }

  /** The fields, separated by a comma and a space; a lone comma when there are none. */
  function FieldList(fields: seq<string>): string {
    JoinWith(FieldParts(fields), ',')
  }

  function FieldParts(fields: seq<string>): (parts: seq<string>)
    ensures parts != []
  {
    if fields == [] then ["", ""] else [fields[0]] + Spaced(fields[1..])
  }

  function Spaced(fields: seq<string>): seq<string> {
    if fields == [] then [] else [" " + fields[0]] + Spaced(fields[1..])
  }

  function RenderStatement(s: Statement): string {
    match s
    case Header(id) => Then("scope", Then(id, "{"))
    case Close => "}"
    case ResourceLine(kind, target) => "  " + Then("resource", Then(kind, Quote(target)))
    case CapabilityLine(name, pattern) => "  " + Then("capability", Then(name, Then("on", Quote(pattern))))
    case PolicyLine(effect, condition) => "  " + Then("policy", Then(effect, Then("if", condition)))
    case ApprovalLine(authority, condition) =>
      "  " + Then("approval", Then("require", Then(authority, Then("if", condition))))
    case AuditLine(fields) => "  " + Then("audit", Then("retain", FieldList(fields)))
    case _ => ""
  }

  // ----- Each printed line is read back ------------------------------------------------------

  predicate GoodWord(w: string) {
    w != "" && NoSpace(w) && NoComment(w)
  }

  /** Statements whose text fits the grammar and that the parser has no fault to find with. */
  predicate Printable(s: Statement) {
    match s
    case Header(id) => Identifier(id)
    case Close => true
    case ResourceLine(_, target) => FaultOf(s).None? && Quotable(target)
    case CapabilityLine(name, pattern) => FaultOf(s).None? && GoodWord(name) && Quotable(pattern)
    case PolicyLine(_, condition) => FaultOf(s).None? && Condition(condition)
    case ApprovalLine(_, condition) => FaultOf(s).None? && Condition(condition)
    case AuditLine(_) => FaultOf(s).None?
    case _ => false
  }

  predicate Plain(s: string) {
    s != "" && forall c :: c in s ==> 'a' <= c <= 'z' || c == '_'
  }

  lemma PlainIsGood(s: string)
    requires Plain(s)
    ensures GoodWord(s) && Condition(s) && '.' !in s && ',' !in s
  {
    assert s[0] in s && s[|s| - 1] in s;
    forall k | 0 <= k < |s| ensures s[k] != '/' {
      assert s[k] in s;
    }
  }

  lemma KeywordsArePlain(s: string)
    ensures s in RESOURCE_KINDS || s in POLICY_EFFECTS || s in AUTHORITIES || s in AUDIT_FIELDS ==> Plain(s)
  {
    KindsAndEffectsArePlain(s);
    AuthoritiesAndFieldsArePlain(s);
  }

  lemma KindsAndEffectsArePlain(s: string)
    ensures s in RESOURCE_KINDS || s in POLICY_EFFECTS ==> Plain(s)
  {
  }

  lemma AuthoritiesAndFieldsArePlain(s: string)
    ensures s in AUTHORITIES || s in AUDIT_FIELDS ==> Plain(s)
  {
  }

  lemma LiteralsAreGood()
    ensures GoodWord("resource") && GoodWord("capability") && GoodWord("on") && GoodWord("policy") && GoodWord("if")
    ensures GoodWord("approval") && GoodWord("require") && GoodWord("audit") && GoodWord("retain") && GoodWord("scope")
  {
    hide GoodWord;
    assert Plain("resource") && Plain("capability") && Plain("on") && Plain("policy") && Plain("if");
    assert Plain("approval") && Plain("require") && Plain("audit") && Plain("retain") && Plain("scope");
    PlainIsGood("resource");
    PlainIsGood("capability");
    PlainIsGood("on");
    PlainIsGood("policy");
    PlainIsGood("if");
    PlainIsGood("approval");
    PlainIsGood("require");
    PlainIsGood("audit");
    PlainIsGood("retain");
    PlainIsGood("scope");
  }

  lemma CleanConcat(a: string, b: string)
    requires Clean(a) && Clean(b) && (a != "" && b != "" ==> a[|a| - 1] != '/' || b[0] != '/')
    ensures Clean(a + b)
  {
  }

  lemma GoodWordIsClean(w: string)
    requires GoodWord(w)
    ensures Clean(w)
  {
  }

  lemma ThenReads(w: string, t: string)
    requires GoodWord(w) && Condition(t)
    ensures Condition(Then(w, t)) && Word(Then(w, t)) == w && AfterWord(Then(w, t)) == t
  {
    hide Word, AfterWord, Clean;
    GoodWordIsClean(w);
    CleanSpace();
    CleanConcat(w, " ");
    CleanConcat(w + " ", t);
    WordThenRest(w, t);
    assert w[0] in w;
  }

  lemma CleanSpace()
    ensures Clean(" ") && Clean("  ") && Clean("\"")
  {
  }

  lemma QuoteReads(s: string)
    requires Quotable(s)
    ensures Condition(Quote(s)) && Quoted(Quote(s)) && Unquote(Quote(s)) == s
  {
    hide Clean;
    CleanSpace();
    CleanConcat("\"", s);
    CleanConcat("\"" + s, "\"");
  }

  lemma {:induction false} CleanIsKept(s: string)
    requires NoComment(s)
    ensures Uncomment(s) == s
  {
    if |s| >= 2 {
      assert NoComment(s[1..]) by {
        forall k | 0 <= k < |s| - 2 ensures !(s[1..][k] == '/' && s[1..][k + 1] == '/') {
          assert s[1..][k] == s[k + 1] && s[1..][k + 1] == s[k + 2];
        }
      }
      CleanIsKept(s[1..]);
    }
  }

  /** A printed line is read as what stands on it, with or without indentation. */
  lemma LineReads(x: string)
    requires Condition(x)
    ensures Classify(x) == Recognize(x) && Classify("  " + x) == Recognize(x)
    ensures NoLineBreak(x) && NoLineBreak("  " + x)
  {
    hide Recognize, Uncomment;
    CleanSpace();
    CleanConcat("  ", x);
    CleanIsKept(x);
    CleanIsKept("  " + x);
    StripTrims(x);
    var indented := "  " + x;
    assert indented[1..][1..] == x && IsSpace(indented[0]) && IsSpace(indented[1..][0]);
    assert StripLeft(indented) == StripLeft(x);
  }

  lemma HeaderReads(id: string)
    requires Identifier(id)
    ensures Condition(Then("scope", Then(id, "{"))) && Recognize(Then("scope", Then(id, "{"))) == Header(id)
  {
    var rest := Then(id, "{");
    IdentifierIsGood(id);
    LiteralsAreGood();
    BraceIsGood();
    ThenReads(id, "{");
    ThenReads("scope", rest);
    assert rest[..|rest| - 1] == id + " ";
    StripRightSpace(id);
    HeaderApart(Then("scope", rest)) by {
      hide Recognize, Word, AfterWord, StripRight;
    }
  }

  lemma BraceIsGood()
    ensures Condition("{") && Condition("}")
  {
  }

  lemma StripRightSpace(s: string)
    requires s != "" && NoSpace(s)
    ensures StripRight(s + " ") == s
  {
    assert (s + " ")[..|s|] == s;
    assert s[|s| - 1] in s;
  }

  lemma IdentifierIsGood(id: string)
    requires Identifier(id)
    ensures GoodWord(id)
  {
    forall k | 0 <= k < |id| ensures id[k] != '/' {
      assert id[k] in id;
    }
  }

  lemma ResourceReads(kind: string, target: string)
    requires GoodWord(kind) && Quotable(target)
    ensures
      var x := Then("resource", Then(kind, Quote(target)));
      Condition(x) && Recognize(x) == ResourceLine(kind, target)
  {
    hide Condition, Quotable, Quoted, Word, AfterWord, GoodWord, Unquote, MatchCapability;
    LiteralsAreGood();
    QuoteReads(target);
    ThenReads(kind, Quote(target));
    ThenReads("resource", Then(kind, Quote(target)));
  }

  lemma CapabilityReads(name: string, pattern: string)
    requires GoodWord(name) && Quotable(pattern)
    ensures
      var x := Then("capability", Then(name, Then("on", Quote(pattern))));
      Condition(x) && Recognize(x) == CapabilityLine(name, pattern)
  {
    hide Condition, Quotable, Quoted, Word, AfterWord, GoodWord, Unquote;
    LiteralsAreGood();
    QuoteReads(pattern);
    ThenReads("on", Quote(pattern));
    ThenReads(name, Then("on", Quote(pattern)));
    ThenReads("capability", Then(name, Then("on", Quote(pattern))));
  }

  lemma RuleReads(word: string, condition: string)
    requires GoodWord(word) && Condition(condition)
    ensures
      var x := Then(word, Then("if", condition));
      Condition(x) && MatchRule(x) == Some(Pair(word, condition))
  {
    hide Word, AfterWord, GoodWord, Trimmed, Clean;
    LiteralsAreGood();
    ThenReads("if", condition);
    ThenReads(word, Then("if", condition));
  }

  lemma PolicyReads(effect: string, condition: string)
    requires GoodWord(effect) && Condition(condition)
    ensures
      var x := Then("policy", Then(effect, Then("if", condition)));
      Condition(x) && Recognize(x) == PolicyLine(effect, condition)
  {
    hide Condition, Word, AfterWord, GoodWord, MatchRule;
    LiteralsAreGood();
    RuleReads(effect, condition);
    ThenReads("policy", Then(effect, Then("if", condition)));
  }

  lemma ApprovalReads(authority: string, condition: string)
    requires GoodWord(authority) && Condition(condition)
    ensures
      var x := Then("approval", Then("require", Then(authority, Then("if", condition))));
      Condition(x) && Recognize(x) == ApprovalLine(authority, condition)
  {
    hide Condition, Word, AfterWord, GoodWord, MatchRule;
    LiteralsAreGood();
    RuleReads(authority, condition);
    ThenReads("require", Then(authority, Then("if", condition)));
    ThenReads("approval", Then("require", Then(authority, Then("if", condition))));
  }

  lemma {:induction false} SpacedReads(fields: seq<string>)
    requires AuditFields(fields)
    ensures Fields(Spaced(fields)) == fields
    ensures forall k :: 0 <= k < |Spaced(fields)| ==> ',' !in Spaced(fields)[k]
    ensures fields != [] ==> Spaced(fields) != [] && Clean(JoinWith(Spaced(fields), ','))
    ensures fields != [] ==>
      var s := JoinWith(Spaced(fields), ','); s != "" && s[0] == ' ' && !IsSpace(s[|s| - 1])
  {
    hide IsSpace, Clean, Strip;
    if fields != [] {
      var f := fields[0];
      KeywordsArePlain(f);
      PlainIsGood(f);
      SpacedReads(fields[1..]);
      CleanSpace();
      CleanConcat(" ", f);
      StripSpace(f);
      if |fields| > 1 {
        var tail := JoinWith(Spaced(fields[1..]), ',');
        CleanComma();
        CleanConcat(" " + f, ",");
        CleanConcat(" " + f + ",", tail);
      }
    }
  }

  lemma CleanComma()
    ensures Clean(",")
  {
  }

  lemma StripSpace(s: string)
    requires Trimmed(s) && s != ""
    ensures Strip(" " + s) == s && Strip(s) == s
  {
    hide IsSpace, StripRight;
    StripTrims(s);
    SpaceIsSpace();
    assert (" " + s)[1..] == s && (" " + s)[0] == ' ';
  }

  lemma FieldListReads(fields: seq<string>)
    requires AuditFields(fields)
    ensures FieldList(fields) != "" && Condition(FieldList(fields))
    ensures Fields(SplitOn(FieldList(fields), ',')) == fields
  {
    hide IsSpace, Clean, Strip, SplitOn;
    var parts := FieldParts(fields);
    if fields == [] {
      LoneComma();
    } else {
      var f := fields[0];
      KeywordsArePlain(f);
      PlainIsGood(f);
      StripSpace(f);
      SpacedReads(fields[1..]);
      assert parts[1..] == Spaced(fields[1..]);
      SplitJoin(parts, ',');
      if |fields| > 1 {
        var tail := JoinWith(parts[1..], ',');
        CleanComma();
        CleanConcat(f, ",");
        CleanConcat(f + ",", tail);
      }
    }
  }

  lemma LoneComma()
    ensures JoinWith(["", ""], ',') == "," && Condition(",") && Fields(SplitOn(",", ',')) == []
  {
    assert SplitOn("", ',') == [""];
    assert SplitOn(",", ',') == ["", ""];
    assert Strip("") == "";
    assert ["", ""][1..] == [""];
  }

  lemma AuditReads(fields: seq<string>)
    requires AuditFields(fields)
    ensures
      var x := Then("audit", Then("retain", FieldList(fields)));
      Condition(x) && Recognize(x) == AuditLine(fields)
  {
    hide Word, AfterWord, GoodWord, Condition, FieldList, FieldParts, MatchRule, SplitOn, Fields;
    LiteralsAreGood();
    FieldListReads(fields);
    ThenReads("retain", FieldList(fields));
    ThenReads("audit", Then("retain", FieldList(fields)));
  }

  lemma RenderReads(s: Statement)
    requires Printable(s)
    ensures Classify(RenderStatement(s)) == s && NoLineBreak(RenderStatement(s))
  {
    hide Classify, Recognize, Condition, Quotable, GoodWord, Identifier, Then, Quote, FieldList, NoLineBreak,
      AuditFields;
    match s {
      case Header(id) =>
        HeaderReads(id);
        LineReads(Then("scope", Then(id, "{")));
      case Close =>
        BraceIsGood();
        CloseReads();
        LineReads("}");
      case ResourceLine(kind, target) =>
        KeywordIsGood(kind);
        ResourceReads(kind, target);
        LineReads(Then("resource", Then(kind, Quote(target))));
      case CapabilityLine(name, pattern) =>
        CapabilityReads(name, pattern);
        LineReads(Then("capability", Then(name, Then("on", Quote(pattern)))));
      case PolicyLine(effect, condition) =>
        KeywordIsGood(effect);
        PolicyReads(effect, condition);
        LineReads(Then("policy", Then(effect, Then("if", condition))));
      case ApprovalLine(authority, condition) =>
        KeywordIsGood(authority);
        ApprovalReads(authority, condition);
        LineReads(Then("approval", Then("require", Then(authority, Then("if", condition)))));
      case AuditLine(fields) =>
        AuditReads(fields);
        LineReads(Then("audit", Then("retain", FieldList(fields))));
      case _ =>
    }
  }

  lemma CloseReads()
    ensures Recognize("}") == Close
  {
  }

  lemma KeywordIsGood(s: string)
    requires s in RESOURCE_KINDS || s in POLICY_EFFECTS || s in AUTHORITIES
    ensures GoodWord(s)
  {
    hide Plain, GoodWord;
    KeywordsArePlain(s);
    PlainIsGood(s);
  }

  // ----- Printing a record -------------------------------------------------------------------

  function ResourceLines(rs: seq<Resource>): seq<Statement> {
    seq(|rs|, k requires 0 <= k < |rs| => ResourceLine(rs[k].kind, rs[k].target))
  }

  function CapabilityLines(cs: seq<Capability>): seq<Statement> {
    seq(|cs|, k requires 0 <= k < |cs| => CapabilityLine(cs[k].name, if cs[k].allow == [] then "" else cs[k].allow[0]))
  }

  function PolicyLines(ps: seq<Policy>): seq<Statement> {
    seq(|ps|, k requires 0 <= k < |ps| => PolicyLine(ps[k].effect, ps[k].condition))
  }

  function ApprovalLines(approvals: seq<Approval>): seq<Statement> {
    seq(|approvals|, k requires 0 <= k < |approvals| => ApprovalLine(approvals[k].authority, approvals[k].condition))
  }

  function AuditLines(retain: Option<seq<string>>): seq<Statement> {
    if retain.None? then [] else [AuditLine(retain.value)]
  }

  function BodyLines(b: Body): seq<Statement> {
    ResourceLines(b.resources) + CapabilityLines(b.capabilities) + PolicyLines(b.policies) + ApprovalLines(b.approvals)
    + AuditLines(b.retain)
  }

  function BlockOf(r: ScopeRecord): seq<Statement> {
    [Header(r.scopeId)] + BodyLines(r.body) + [Close]
  }

  function Rendered(ss: seq<Statement>): seq<string> {
    seq(|ss|, k requires 0 <= k < |ss| => RenderStatement(ss[k]))
  }

  function Print(r: ScopeRecord): string {
    Unlines(Rendered(BlockOf(r)))
  }

  ghost predicate AllPrintable(ss: seq<Statement>) {
    forall k :: 0 <= k < |ss| ==> Printable(ss[k])
  }

  lemma RenderedFront(ss: seq<Statement>)
    requires ss != []
    ensures
      var lines := Rendered(ss);
      |lines| == |ss| && lines[..|ss| - 1] == Rendered(ss[..|ss| - 1])
        && lines[|ss| - 1] == RenderStatement(ss[|ss| - 1])
  {
    hide RenderStatement;
  }

  lemma {:induction false} StatementsOfRendered(ss: seq<Statement>)
    requires AllPrintable(ss)
    ensures Statements(Rendered(ss)) == ss
  {
    hide Classify, RenderStatement, Printable, Rendered, NoLineBreak, Statements;
    if ss == [] {
      NothingStated();
    } else {
      var front, s := ss[..|ss| - 1], ss[|ss| - 1];
      assert AllPrintable(front) && Printable(s);
      StatementsOfRendered(front);
      RenderReads(s);
      PrintableSpeaks(s);
      RenderedFront(ss);
      OneMoreLine(Rendered(ss));
      assert front + [s] == ss;
    }
  }

  lemma {:induction false} NothingStated()
    ensures Statements(Rendered([])) == []
  {
  }

  lemma PrintableSpeaks(s: Statement)
    requires Printable(s)
    ensures !s.Nothing?
  {
  }

  lemma {:induction false} OneMoreLine(lines: seq<string>)
    requires lines != []
    ensures
      var s := Classify(lines[|lines| - 1]);
      Statements(lines) == Statements(lines[..|lines| - 1]) + (if s.Nothing? then [] else [s])
  {
    hide Classify;
  }

  lemma {:induction false} CollectOneMore(pre: seq<Statement>, lines: seq<Statement>, s: Statement)
    requires AllBody(pre + lines) && FaultOf(s).None?
    ensures AllBody(pre + (lines + [s]))
    ensures Collected(pre + (lines + [s])) == Add(Collected(pre + lines), s)
  {
    CollectedStep(pre + lines, s);
    assert pre + (lines + [s]) == pre + lines + [s];
  }

  lemma {:induction false} CollectResources(pre: seq<Statement>, rs: seq<Resource>)
    requires AllBody(pre) && forall k :: 0 <= k < |rs| ==> GoodResource(rs[k])
    ensures AllBody(pre + ResourceLines(rs))
    ensures
      var b := Collected(pre);
      Collected(pre + ResourceLines(rs)) == b.(resources := b.resources + rs)
  {
    hide AllBody, Quotable, Collected;
    if rs == [] {
      assert pre + ResourceLines(rs) == pre && Collected(pre).resources + rs == Collected(pre).resources;
    } else {
      var front, r := rs[..|rs| - 1], rs[|rs| - 1];
      CollectResources(pre, front);
      CollectOneMore(pre, ResourceLines(front), ResourceLine(r.kind, r.target));
      assert ResourceLines(rs) == ResourceLines(front) + [ResourceLine(r.kind, r.target)];
      assert Collected(pre).resources + front + [r] == Collected(pre).resources + rs;
    }
  }

  lemma {:induction false} CollectCapabilities(pre: seq<Statement>, cs: seq<Capability>)
    requires AllBody(pre) && forall k :: 0 <= k < |cs| ==> GoodCapability(cs[k])
    ensures AllBody(pre + CapabilityLines(cs))
    ensures
      var b := Collected(pre);
      Collected(pre + CapabilityLines(cs)) == b.(capabilities := b.capabilities + cs)
  {
    hide AllBody, CapabilityOf, FaultOf, Collected;
    if cs == [] {
      assert pre + CapabilityLines(cs) == pre && Collected(pre).capabilities + cs == Collected(pre).capabilities;
    } else {
      var front, c := cs[..|cs| - 1], cs[|cs| - 1];
      CollectCapabilities(pre, front);
      CapabilityReadsBack(c);
      hide GoodCapability;
      var line := CapabilityLine(c.name, c.allow[0]);
      CollectOneMore(pre, CapabilityLines(front), line);
      assert CapabilityLines(cs) == CapabilityLines(front) + [line];
      assert Collected(pre).capabilities + front + [c] == Collected(pre).capabilities + cs;
    }
  }

  lemma CapabilityReadsBack(c: Capability)
    requires GoodCapability(c)
    ensures FaultOf(CapabilityLine(c.name, c.allow[0])).None? && CapabilityOf(c.name, c.allow[0]) == c
  {
    hide NoSpace, NoComment, Quotable, Before;
    KeywordsArePlain(c.resourceKind);
    PlainIsGood(c.resourceKind);
    assert c.name[|c.resourceKind|] == '.';
    BeforeSeparator(c.resourceKind, '.', c.mode);
    assert c.name[|c.resourceKind| + 1..] == c.mode;
  }

  lemma {:induction false} CollectPolicies(pre: seq<Statement>, ps: seq<Policy>)
    requires AllBody(pre) && Collected(pre).policies == [] && forall k :: 0 <= k < |ps| ==> GoodPolicy(ps[k], k + 1)
    ensures AllBody(pre + PolicyLines(ps))
    ensures Collected(pre + PolicyLines(ps)) == Collected(pre).(policies := ps)
  {
    hide AllBody, Collected, PolicyId, Condition;
    if ps == [] {
      assert pre + PolicyLines(ps) == pre;
    } else {
      var front, p := ps[..|ps| - 1], ps[|ps| - 1];
      CollectPolicies(pre, front);
      assert GoodPolicy(ps[|ps| - 1], |ps| - 1 + 1);
      var line := PolicyLine(p.effect, p.condition);
      CollectOneMore(pre, PolicyLines(front), line);
      assert PolicyLines(ps) == PolicyLines(front) + [line];
      assert front + [p] == ps;
    }
  }

  lemma {:induction false} CollectApprovals(pre: seq<Statement>, approvals: seq<Approval>)
    requires AllBody(pre) && forall k :: 0 <= k < |approvals| ==> GoodApproval(approvals[k])
    ensures AllBody(pre + ApprovalLines(approvals))
    ensures
      var b := Collected(pre);
      Collected(pre + ApprovalLines(approvals)) == b.(approvals := b.approvals + approvals)
  {
    hide AllBody, Collected, Condition;
    if approvals == [] {
      assert pre + ApprovalLines(approvals) == pre && Collected(pre).approvals + approvals == Collected(pre).approvals;
    } else {
      var front, a := approvals[..|approvals| - 1], approvals[|approvals| - 1];
      CollectApprovals(pre, front);
      var line := ApprovalLine(a.authority, a.condition);
      CollectOneMore(pre, ApprovalLines(front), line);
      assert ApprovalLines(approvals) == ApprovalLines(front) + [line];
      assert Collected(pre).approvals + front + [a] == Collected(pre).approvals + approvals;
    }
  }

  lemma CollectsBody(b: Body)
    requires GoodBody(b)
    ensures AllBody(BodyLines(b)) && Collected(BodyLines(b)) == b
  {
    hide AllBody, Collected, GoodResource, GoodCapability, GoodPolicy, GoodApproval, AuditFields;
    hide ResourceLines, CapabilityLines, PolicyLines, ApprovalLines;
    assert b.retain.None? ==> AuditLines(b.retain) == [];
    NothingCollected();
    CollectResources([], b.resources);
    var lines := [] + ResourceLines(b.resources);
    CollectCapabilities(lines, b.capabilities);
    lines := lines + CapabilityLines(b.capabilities);
    CollectPolicies(lines, b.policies);
    lines := lines + PolicyLines(b.policies);
    CollectApprovals(lines, b.approvals);
    lines := lines + ApprovalLines(b.approvals);
    assert lines + [] == lines;
    if b.retain.Some? {
      CollectOneMore(lines, [], AuditLine(b.retain.value));
      assert [] + [AuditLine(b.retain.value)] == AuditLines(b.retain);
    }
    assert lines + AuditLines(b.retain) == BodyLines(b);
    assert [] + b.resources == b.resources && [] + b.capabilities == b.capabilities && [] + b.approvals == b.approvals;
  }

  lemma BodyIsPrintable(b: Body)
    requires GoodBody(b)
    ensures AllPrintable(BodyLines(b))
  {
    hide Quotable, Condition, NoComment, NoSpace, FaultOf, AuditFields, PolicyId;
    forall k | 0 <= k < |b.resources| ensures Printable(ResourceLines(b.resources)[k]) {
      ResourceIsPrintable(b.resources[k]);
    }
    forall k | 0 <= k < |b.capabilities| ensures Printable(CapabilityLines(b.capabilities)[k]) {
      CapabilityReadsBack(b.capabilities[k]);
      KeywordIsGood(b.capabilities[k].resourceKind);
    }
    forall k | 0 <= k < |b.policies| ensures Printable(PolicyLines(b.policies)[k]) {
      assert GoodPolicy(b.policies[k], k + 1);
      RuleIsPrintable(b.policies[k], k + 1);
    }
    forall k | 0 <= k < |b.approvals| ensures Printable(ApprovalLines(b.approvals)[k]) {
      ApprovalIsPrintable(b.approvals[k]);
    }
    if b.retain.Some? {
      AuditIsPrintable(b.retain.value);
    }
  }

  lemma ResourceIsPrintable(r: Resource)
    requires GoodResource(r)
    ensures Printable(ResourceLine(r.kind, r.target))
  {
  }

  lemma RuleIsPrintable(p: Policy, n: nat)
    requires GoodPolicy(p, n)
    ensures Printable(PolicyLine(p.effect, p.condition))
  {
  }

  lemma ApprovalIsPrintable(a: Approval)
    requires GoodApproval(a)
    ensures Printable(ApprovalLine(a.authority, a.condition))
  {
  }

  lemma AuditIsPrintable(fields: seq<string>)
    requires AuditFields(fields)
    ensures Printable(AuditLine(fields))
  {
  }

  /** A well-formed record, printed and parsed, comes back as it was. */
  lemma ParsePrint(r: ScopeRecord)
    requires WellFormed(r)
    ensures Parse(Print(r)) == Ok(r)
  {
    hide AllBody, Collected, BodyLines, GoodResource, GoodCapability, GoodPolicy, GoodApproval, AuditFields, Classify;
    hide RenderStatement, FaultOf, Identifier, Parse, Statements, NoLineBreak, SplitLines, Unlines;
    var ss := BlockOf(r);
    BodyIsPrintable(r.body);
    assert AllPrintable(ss);
    forall k | 0 <= k < |ss| ensures NoLineBreak(Rendered(ss)[k]) {
      RenderReads(ss[k]);
    }
    SplitUnlines(Rendered(ss));
    StatementsOfRendered(ss);
    CollectsBody(r.body);
    assert ss[1..|ss| - 1] == BodyLines(r.body);
    AcceptsExactlyBlocks(Print(r), r);
  }

  // ----- What the parser produces is well-formed ---------------------------------------------

  lemma CleanPart(s: string, i: nat, j: nat)
    requires Clean(s) && i <= j <= |s|
    ensures Clean(s[i..j])
  {
    forall k | 0 <= k < j - i - 1 ensures !(s[i..j][k] == '/' && s[i..j][k + 1] == '/') {
      assert s[i..j][k] == s[i + k] && s[i..j][k + 1] == s[i + k + 1];
    }
  }

  lemma WordsAreClean(s: string)
    requires Clean(s)
    ensures Clean(Word(s)) && Clean(AfterWord(s))
  {
    hide Clean, Word, AfterWord;
    CleanPart(s, 0, |Word(s)|);
    CleanPart(s, |s| - |AfterWord(s)|, |s|);
    assert Word(s) == s[..|Word(s)|] && AfterWord(s) == s[|s| - |AfterWord(s)|..|s|];
  }

  /** What is left after a word starts and ends outside white space, if the line does. */
  lemma RestIsTrimmed(s: string)
    requires Trimmed(s)
    ensures Trimmed(AfterWord(s))
  {
    hide IsSpace, Word;
  }

  lemma LineIsCondition(raw: string)
    requires NoLineBreak(raw)
    ensures
      var line := Strip(Uncomment(raw));
      Trimmed(line) && Clean(line)
  {
    hide Strip, Trimmed, Uncomment, Clean, NoLineBreak;
    UncommentIsClean(raw);
    StripTrims(Uncomment(raw));
    StripIsClean(Uncomment(raw));
  }

  lemma UncommentIsClean(raw: string)
    requires NoLineBreak(raw)
    ensures Clean(Uncomment(raw))
  {
    hide IsLineBreak, NoComment;
  }

  lemma StripIsClean(s: string)
    requires Clean(s)
    ensures Clean(Strip(s))
  {
    hide Clean, StripLeft, StripRight;
    var left := StripLeft(s);
    CleanPart(s, |s| - |left|, |s|);
    assert left == s[|s| - |left|..|s|];
    CleanPart(left, 0, |Strip(s)|);
    assert Strip(s) == left[..|Strip(s)|];
  }

  lemma UnquotedIsQuotable(s: string)
    requires Quoted(s) && Clean(s)
    ensures Quotable(Unquote(s))
  {
    hide Clean;
    CleanPart(s, 1, |s| - 1);
  }

  lemma RuleIsClean(rest: string)
    requires Trimmed(rest) && Clean(rest) && MatchRule(rest).Some?
    ensures Condition(MatchRule(rest).value.second)
  {
    hide Word, AfterWord, Clean, Trimmed;
    WordsAreClean(rest);
    RestIsTrimmed(rest);
    WordsAreClean(AfterWord(rest));
    RestIsTrimmed(AfterWord(rest));
  }

  /** Every line that the parser takes is read as a statement that the printer can write. */
  lemma TakenLinesArePrintable(raw: string)
    requires NoLineBreak(raw)
    ensures
      var s := Classify(raw);
      s.Header? || s.Close? || FaultOf(s).None? ==> Printable(s)
  {
    hide Word, AfterWord, Clean, Trimmed, Strip, Uncomment, MatchRule, SplitOn, Fields, Quoted, Unquote, Quotable,
      Condition, Identifier, NoSpace;
    var line := Strip(Uncomment(raw));
    LineIsCondition(raw);
    var r1 := AfterWord(line);
    var r2 := AfterWord(r1);
    var r3 := AfterWord(r2);
    WordsAreClean(line);
    RestIsTrimmed(line);
    WordsAreClean(r1);
    RestIsTrimmed(r1);
    WordsAreClean(r2);
    if MatchResource(line).Some? {
      UnquotedIsQuotable(r2);
    } else if MatchCapability(line).Some? {
      CapabilityNameIsGood(line);
      UnquotedIsQuotable(r3);
    } else if MatchPolicy(line).Some? {
      RuleIsClean(r1);
    } else if MatchApproval(line).Some? {
      RuleIsClean(r2);
    }
  }

  lemma CapabilityNameIsGood(line: string)
    requires Clean(line) && MatchCapability(line).Some?
    ensures GoodWord(Word(AfterWord(line)))
  {
    hide AfterWord, NoSpace;
    WordsAreClean(line);
    WordsAreClean(AfterWord(line));
    assert |AfterWord(AfterWord(line))| >= |"on"|;
    FirstIsNotSpace(line);
  }

  lemma FirstIsNotSpace(s: string)
    ensures AfterWord(s) != [] ==> !IsSpace(AfterWord(s)[0])
  {
  }

  ghost predicate Taken(s: Statement) {
    (s.Header? || s.Close? || FaultOf(s).None?) ==> Printable(s)
  }

  lemma {:induction false} StatementsAreTaken(lines: seq<string>)
    requires forall k :: 0 <= k < |lines| ==> NoLineBreak(lines[k])
    ensures forall k :: 0 <= k < |Statements(lines)| ==> Taken(Statements(lines)[k])
  {
    if lines != [] {
      hide Classify, NoLineBreak, FaultOf, Printable;
      StatementsAreTaken(lines[..|lines| - 1]);
      TakenLinesArePrintable(lines[|lines| - 1]);
    }
  }

  lemma {:induction false} CollectedIsGood(ss: seq<Statement>)
    requires AllBody(ss) && AllPrintable(ss)
    ensures GoodBody(Collected(ss))
  {
    if ss != [] {
      var front, s := ss[..|ss| - 1], ss[|ss| - 1];
      assert AllBody(front) && AllPrintable(front);
      CollectedIsGood(front);
      assert FaultOf(s).None? && Printable(s);
      hide AllBody, AllPrintable;
      AddIsGood(Collected(front), s);
    }
  }

  lemma AddIsGood(b: Body, s: Statement)
    requires GoodBody(b) && FaultOf(s).None? && Printable(s)
    ensures GoodBody(Add(b, s))
  {
    hide AuditFields, GoodWord, Quotable, Condition, PolicyId;
    if s.CapabilityLine? {
      hide GoodResource, GoodPolicy, GoodApproval, GoodCapability;
      CapabilityIsGood(s.name, s.pattern);
    }
  }

  lemma CapabilityIsGood(name: string, pattern: string)
    requires Printable(CapabilityLine(name, pattern))
    ensures GoodCapability(CapabilityOf(name, pattern))
  {
    hide Quotable, NoSpace, NoComment, Before;
    var kind := Before(name, '.');
    assert |kind| == |name| ==> kind == name;
    assert name == name[..|kind|] + [name[|kind|]] + name[|kind| + 1..];
  }

  /** Whatever text is accepted, its record is one that the printer can write. */
  lemma ParsedIsWellFormed(text: string, r: ScopeRecord)
    requires Parse(text) == Ok(r)
    ensures WellFormed(r)
  {
    hide Parse, SplitLines, Statements, Collected, FaultOf, Identifier, NoLineBreak, GoodBody;
    var ss := Statements(SplitLines(text));
    AcceptsExactlyBlocks(text, r);
    StatementsAreTaken(SplitLines(text));
    var body := ss[1..|ss| - 1];
    assert Taken(ss[0]);
    assert AllPrintable(body) by {
      forall k | 0 <= k < |body| ensures Printable(body[k]) {
        assert body[k] == ss[k + 1] && Taken(ss[k + 1]);
      }
    }
    CollectedIsGood(body);
  }

  /** The round trip succeeds for the well-formed records and for no other. */
  lemma ParsePrintExactly(r: ScopeRecord)
    ensures Parse(Print(r)) == Ok(r) <==> WellFormed(r)
  {
    hide Parse, Print, WellFormed;
    if Parse(Print(r)) == Ok(r) {
      ParsedIsWellFormed(Print(r), r);
    } else if WellFormed(r) {
      ParsePrint(r);
    }
  }

  /**
   * A comment starts at `//` even inside quotes, so no text at all declares a resource or a capability
   * whose target holds a URL scheme.
   */
  lemma NoTextDeclaresUrl(text: string, r: ScopeRecord, k: nat)
    requires
      || (k < |r.body.resources| && !NoComment(r.body.resources[k].target))
      || (k < |r.body.capabilities| && r.body.capabilities[k].allow != []
        && !NoComment(r.body.capabilities[k].allow[0]))
    ensures Parse(text) != Ok(r)
  {
    hide Parse, NoComment, GoodBody, Identifier;
    if Parse(text) == Ok(r) {
      ParsedIsWellFormed(text, r);
      GoodTargets(r.body);
    }
  }

  lemma GoodTargets(b: Body)
    requires GoodBody(b)
    ensures forall k :: 0 <= k < |b.resources| ==> NoComment(b.resources[k].target)
    ensures forall k :: 0 <= k < |b.capabilities| && b.capabilities[k].allow != [] ==>
      NoComment(b.capabilities[k].allow[0])
  {
    hide NoComment, NoLineBreak, GoodPolicy, GoodApproval, AuditFields;
    forall k | 0 <= k < |b.capabilities|
      ensures |b.capabilities[k].allow| == 1 && NoComment(b.capabilities[k].allow[0])
    {
      assert GoodCapability(b.capabilities[k]);
    }
  }

  /** So printing normalizes: a text and its printed form stand for the same record. */
  lemma PrintNormalizes(text: string)
    ensures Parse(text).Ok? ==> Parse(Print(Parse(text).value)) == Parse(text)
  {
    hide Parse, Print, WellFormed;
    if Parse(text).Ok? {
      ParsedIsWellFormed(text, Parse(text).value);
      ParsePrint(Parse(text).value);
    }
  }

  // ----- Policy identifiers ------------------------------------------------------------------

  predicate IsDigit(c: char) {
    '0' <= c <= '9'
  }

  /** The number that a string of decimal digits stands for. */
  function NumberOf(digits: string): int {
    if digits == "" then 0 else 10 * NumberOf(digits[..|digits| - 1]) + (digits[|digits| - 1] as int - '0' as int)
  }

  lemma {:induction false} DecimalReads(n: nat)
    ensures NumberOf(Decimal(n)) == n
    ensures Decimal(n) != "" && forall c :: c in Decimal(n) ==> IsDigit(c)
    ensures n > 0 ==> Decimal(n)[0] != '0'
  {
    if n < 10 {
      assert Decimal(n)[..0] == "";
    } else {
      DecimalReads(n / 10);
      assert Decimal(n)[..|Decimal(n)| - 1] == Decimal(n / 10);
    }
  }

  lemma {:induction false} LeadingZero(digits: string)
    ensures NumberOf("0" + digits) == NumberOf(digits)
  {
    if digits == "" {
      assert ("0" + digits)[..0] == "";
      assert NumberOf("") == 0;
    } else {
      LeadingZero(digits[..|digits| - 1]);
      assert ("0" + digits)[..|digits|] == "0" + digits[..|digits| - 1];
    }
  }

  /**
   * The n-th policy id is "policy_" and the number n in decimal digits, at least three of them and no
   * more than n needs; so the ids of a record all differ.
   */
  lemma PolicyIdReads(n: nat)
    requires n > 0
    ensures
      var id := PolicyId(n);
      && id[..|"policy_"|] == "policy_"
      && var digits := id[|"policy_"|..];
      && NumberOf(digits) == n
      && (forall c :: c in digits ==> IsDigit(c))
      && |digits| >= 3 && (|digits| > 3 ==> digits[0] != '0')
  {
    hide NumberOf, Decimal;
    DecimalReads(n);
    var d := Decimal(n);
    LeadingZero(d);
    LeadingZero("0" + d);
    var digits := PolicyId(n)[|"policy_"|..];
    assert digits == (if |d| == 1 then "0" + ("0" + d) else if |d| == 2 then "0" + d else d);
  }

  lemma PolicyIdsDiffer(m: nat, n: nat)
    requires 0 < m < n
    ensures PolicyId(m) != PolicyId(n)
  {
    hide PolicyId, NumberOf;
    PolicyIdReads(m);
    PolicyIdReads(n);
  }
}
