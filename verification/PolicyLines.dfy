/**
 * What the lines of a policy block may say, written out: the text of each kind of line with any white
 * space in it, the words that are accepted, and which error a text gets at which line.
 */
module PolicyLines {
  import opened Wrappers
  import opened Text
  import opened PolicyParser
  import opened PolicyGrammar

  // ----- The text of a line ------------------------------------------------------------------

  /** White space, at least one character of it. */
  predicate Gap(b: string) {
    b != "" && Blank(b)
  }

  predicate Solid(w: string) {
    w != "" && NoSpace(w)
  }

  predicate StartsSolid(s: string) {
    s != "" && !IsSpace(s[0])
  }

  predicate Gapped(line: string, word: string, gap: string, tail: string) {
    Solid(word) && Gap(gap) && line == word + gap + tail
  }

  /** The line is these words, each with some white space behind it, and then `rest`. */
  ghost predicate Words(line: string, words: seq<string>, rest: string)
    decreases |words|
  {
    if words == [] then line == rest && StartsSolid(rest)
    else exists gap, tail :: Gapped(line, words[0], gap, tail) && Words(tail, words[1..], rest)
  }

  predicate InQuotes(s: string, inner: string) {
    s == "\"" + inner + "\"" && inner != "" && '"' !in inner
  }

  /** The text between the name of a block and its brace. */
  predicate NameAndBrace(s: string, id: string, blank: string) {
    Identifier(id) && Blank(blank) && s == id + blank + "{"
  }

  /** The line, without comment and outer white space, says this. */
  ghost predicate Reads(line: string, s: Statement) {
    match s
    case Nothing => line == ""
    case Close => line == "}"
    case Header(id) => exists rest, blank :: Words(line, ["scope"], rest) && NameAndBrace(rest, id, blank)
    case ResourceLine(kind, target) => exists rest :: Words(line, ["resource", kind], rest) && InQuotes(rest, target)
    case CapabilityLine(name, pattern) =>
      exists rest :: Words(line, ["capability", name, "on"], rest) && InQuotes(rest, pattern)
    case PolicyLine(effect, condition) => Words(line, ["policy", effect, "if"], condition)
    case ApprovalLine(authority, condition) => Words(line, ["approval", "require", authority, "if"], condition)
    case AuditLine(fields) =>
      exists list :: Words(line, ["audit", "retain"], list) && fields == Fields(SplitOn(list, ','))
    case Unknown => false
  }

  lemma {:induction false} StripGap(b: string, t: string)
    requires Blank(b) && StartsSolid(t)
    ensures StripLeft(b + t) == t
  {
    hide IsSpace;
    if b == "" {
      assert b + t == t;
    } else {
      assert b[0] in b && (b + t)[1..] == b[1..] + t;
      StripGap(b[1..], t);
    }
  }

  lemma WordAndGap(word: string, gap: string, t: string)
    requires Solid(word) && Gap(gap) && StartsSolid(t)
    ensures Word(word + gap + t) == word && AfterWord(word + gap + t) == t
  {
    hide IsSpace, Word, NoSpace, StripLeft;
    var s := word + gap + t;
    assert gap[0] in gap;
    assert s[..|word|] == word && s[|word|] == gap[0] && s[|word|..] == gap + t;
    WordIs(s, word);
    StripGap(gap, t);
  }

  lemma SplitWord(s: string) returns (gap: string)
    requires AfterWord(s) != "" && Word(s) != ""
    ensures Gapped(s, Word(s), gap, AfterWord(s)) && StartsSolid(AfterWord(s))
  {
    hide IsSpace, Word, StripLeft, NoSpace;
    var word, t := Word(s), AfterWord(s);
    var behind := s[|word|..];
    gap := behind[..|behind| - |t|];
    assert behind == gap + t;
    assert s == word + behind;
    assert s == word + gap + t;
    assert behind[|gap|] == t[0] && behind[0] == s[|word|];
  }

  /** The first word of a line and what follows the white space behind it. */
  lemma {:induction false} FirstWord(line: string, words: seq<string>, rest: string)
    requires words != [] && words[0] != ""
    ensures Words(line, words, rest) <==>
      Word(line) == words[0] && AfterWord(line) != "" && Words(AfterWord(line), words[1..], rest)
  {
    hide IsSpace, Word, AfterWord, NoSpace;
    if Words(line, words, rest) {
      var gap, tail :| Gapped(line, words[0], gap, tail) && Words(tail, words[1..], rest);
      TailIsSolid(tail, words[1..], rest);
      WordAndGap(words[0], gap, tail);
    }
    if Word(line) == words[0] && AfterWord(line) != "" && Words(AfterWord(line), words[1..], rest) {
      var gap := SplitWord(line);
    }
  }

  lemma {:induction false} TailIsSolid(line: string, words: seq<string>, rest: string)
    requires Words(line, words, rest)
    ensures StartsSolid(line) && StartsSolid(rest)
    decreases |words|
  {
    if words != [] {
      var gap, tail :| Gapped(line, words[0], gap, tail) && Words(tail, words[1..], rest);
      TailIsSolid(tail, words[1..], rest);
      assert words[0][0] in words[0];
    }
  }

  lemma NoWords(line: string, rest: string)
    ensures Words(line, [], rest) <==> line == rest && StartsSolid(rest)
  {
  }

  /** What follows a word has no white space in front, and may be nothing. */
  lemma AfterIsSolid(s: string)
    ensures AfterWord(s) != "" ==> StartsSolid(AfterWord(s))
  {
    hide IsSpace;
  }

  lemma {:induction false} NothingBehindNothing()
    ensures Word("") == "" && AfterWord("") == ""
  {
  }

  lemma NothingBehind(s: string)
    ensures AfterWord(s) == "" ==> Word(AfterWord(s)) == "" && AfterWord(AfterWord(s)) == ""
  {
    hide Word, AfterWord;
    NothingBehindNothing();
  }

  // ----- Each kind of line -------------------------------------------------------------------

  lemma QuotesAre(s: string)
    ensures Quoted(s) <==> |s| >= 2 && InQuotes(s, Unquote(s))
    ensures forall inner :: InQuotes(s, inner) ==> Quoted(s) && Unquote(s) == inner
  {
    forall inner | InQuotes(s, inner) ensures Quoted(s) && Unquote(s) == inner {
      assert s[1..|s| - 1] == inner;
    }
    if Quoted(s) {
      assert s == "\"" + s[1..|s| - 1] + "\"";
    }
  }

  lemma {:induction false} TwoWords(line: string, a: string, b: string, rest: string)
    requires a != "" && b != ""
    ensures Words(line, [a, b], rest) <==>
      && Word(line) == a && Word(AfterWord(line)) == b && AfterWord(AfterWord(line)) == rest && rest != ""
  {
    hide Word, AfterWord, Words, StartsSolid;
    var tail := AfterWord(line);
    FirstWord(line, [a, b], rest);
    FirstWord(tail, [b], rest);
    assert [a, b][1..] == [b] && [b][1..] == [];
    NoWords(AfterWord(tail), rest);
    NothingBehind(line);
    AfterIsSolid(tail);
  }

  lemma {:induction false} ThreeWords(line: string, a: string, b: string, c: string, rest: string)
    requires a != "" && b != "" && c != ""
    ensures Words(line, [a, b, c], rest) <==> Word(line) == a && Words(AfterWord(line), [b, c], rest)
  {
    hide Word, AfterWord, Words;
    FirstWord(line, [a, b, c], rest);
    assert [a, b, c][1..] == [b, c];
    TwoWords(AfterWord(line), b, c, rest);
    NothingBehind(line);
  }

  lemma {:induction false} FourWords(line: string, a: string, b: string, c: string, d: string, rest: string)
    requires a != "" && b != "" && c != "" && d != ""
    ensures Words(line, [a, b, c, d], rest) <==> Word(line) == a && Words(AfterWord(line), [b, c, d], rest)
  {
    hide Word, AfterWord, Words;
    FirstWord(line, [a, b, c, d], rest);
    assert [a, b, c, d][1..] == [b, c, d];
    ThreeWords(AfterWord(line), b, c, d, rest);
    TwoWords(AfterWord(AfterWord(line)), c, d, rest);
    NothingBehind(line);
  }

  lemma {:induction false} WordsAreSolid(line: string, words: seq<string>, rest: string, k: nat)
    requires Words(line, words, rest) && k < |words|
    ensures words[k] != ""
    decreases k
  {
    if k > 0 {
      var gap, tail :| Gapped(line, words[0], gap, tail) && Words(tail, words[1..], rest);
      WordsAreSolid(tail, words[1..], rest, k - 1);
    }
  }

  /** A line with something behind its first word has a first word, unless it starts with white space. */
  lemma FirstWordIsSome(s: string)
    requires StartsSolid(s)
    ensures Word(s) != ""
  {
  }

  lemma ResourceIff(line: string, kind: string, target: string)
    ensures MatchResource(line) == Some(Pair(kind, target)) <==> Reads(line, ResourceLine(kind, target))
  {
    hide Word, AfterWord, Words, StartsSolid, Quoted, InQuotes, Unquote;
    var rest := AfterWord(AfterWord(line));
    QuotesAre(rest);
    NothingQuoted();
    if MatchResource(line) == Some(Pair(kind, target)) {
      WordBeforeRest(line);
      TwoWords(line, "resource", kind, rest);
    }
    if Reads(line, ResourceLine(kind, target)) {
      var r :| Words(line, ["resource", kind], r) && InQuotes(r, target);
      WordsAreSolid(line, ["resource", kind], r, 1);
      TwoWords(line, "resource", kind, r);
    }
  }

  lemma NothingQuoted()
    ensures !Quoted("")
  {
  }

  /** If something follows the second word, there is a second word. */
  lemma WordBeforeRest(line: string)
    ensures AfterWord(AfterWord(line)) != "" ==> AfterWord(line) != "" && Word(AfterWord(line)) != ""
  {
    hide Word, AfterWord;
    NothingBehind(line);
    if AfterWord(line) != "" {
      AfterIsSolid(line);
      FirstWordIsSome(AfterWord(line));
    }
  }

  lemma CapabilityIff(line: string, name: string, pattern: string)
    ensures MatchCapability(line) == Some(Pair(name, pattern)) <==> Reads(line, CapabilityLine(name, pattern))
  {
    hide Word, AfterWord, Words, StartsSolid, Quoted, InQuotes, Unquote;
    var rest := AfterWord(AfterWord(AfterWord(line)));
    QuotesAre(rest);
    NothingQuoted();
    if MatchCapability(line) == Some(Pair(name, pattern)) {
      WordBeforeRest(AfterWord(line));
      WordBeforeRest(line);
      TwoWords(AfterWord(line), name, "on", rest);
      ThreeWords(line, "capability", name, "on", rest);
    }
    if Reads(line, CapabilityLine(name, pattern)) {
      var r :| Words(line, ["capability", name, "on"], r) && InQuotes(r, pattern);
      WordsAreSolid(line, ["capability", name, "on"], r, 1);
      ThreeWords(line, "capability", name, "on", r);
      TwoWords(AfterWord(line), name, "on", r);
    }
  }

  lemma RuleIff(line: string, word: string, condition: string)
    ensures MatchRule(line) == Some(Pair(word, condition)) && Word(line) != "" <==> Words(line, [word, "if"], condition)
  {
    hide Word, AfterWord, Words, StartsSolid;
    if Words(line, [word, "if"], condition) {
      WordsAreSolid(line, [word, "if"], condition, 0);
    }
    if word != "" {
      TwoWords(line, word, "if", condition);
    }
  }

  lemma PolicyIff(line: string, effect: string, condition: string)
    ensures MatchPolicy(line) == Some(Pair(effect, condition)) <==> Reads(line, PolicyLine(effect, condition))
  {
    hide Word, AfterWord, Words, StartsSolid, MatchRule;
    RuleIff(AfterWord(line), effect, condition);
    RuleHasWord(line);
    if Reads(line, PolicyLine(effect, condition)) {
      WordsAreSolid(line, ["policy", effect, "if"], condition, 1);
    }
    if effect != "" {
      ThreeWords(line, "policy", effect, "if", condition);
    }
  }

  /** A rule behind the first word of a line has a word of its own. */
  lemma RuleHasWord(line: string)
    ensures MatchRule(AfterWord(line)).Some? ==>
      MatchRule(AfterWord(line)).value.first != "" && Word(AfterWord(line)) != ""
  {
    hide Word, AfterWord;
    WordBeforeRest(line);
    NothingBehind(AfterWord(line));
  }

  lemma ApprovalIff(line: string, authority: string, condition: string)
    ensures MatchApproval(line) == Some(Pair(authority, condition)) <==> Reads(line, ApprovalLine(authority, condition))
  {
    hide Word, AfterWord, Words, StartsSolid, MatchRule;
    var rest := AfterWord(line);
    RuleIff(AfterWord(rest), authority, condition);
    RuleHasWord(rest);
    if Reads(line, ApprovalLine(authority, condition)) {
      WordsAreSolid(line, ["approval", "require", authority, "if"], condition, 2);
    }
    if authority != "" {
      FourWords(line, "approval", "require", authority, "if", condition);
      ThreeWords(rest, "require", authority, "if", condition);
    }
  }

  lemma AuditIff(line: string, fields: seq<string>)
    ensures MatchAudit(line) == Some(fields) <==> Reads(line, AuditLine(fields))
  {
    hide Word, AfterWord, Words, StartsSolid, Fields, SplitOn;
    var list := AfterWord(AfterWord(line));
    TwoWords(line, "audit", "retain", list);
    if Reads(line, AuditLine(fields)) {
      var l :| Words(line, ["audit", "retain"], l) && fields == Fields(SplitOn(l, ','));
      TwoWords(line, "audit", "retain", l);
    }
  }

  lemma {:induction false} OneWord(line: string, a: string, rest: string)
    requires a != ""
    ensures Words(line, [a], rest) <==> Word(line) == a && AfterWord(line) == rest && rest != ""
  {
    hide Word, AfterWord, Words, StartsSolid;
    FirstWord(line, [a], rest);
    assert [a][1..] == [];
    NoWords(AfterWord(line), rest);
    AfterIsSolid(line);
  }

  lemma HeaderIff(line: string, id: string)
    ensures MatchHeader(line) == Some(id) <==> Reads(line, Header(id))
  {
    hide Word, AfterWord, Words, StartsSolid, Identifier, StripRight, NameAndBrace;
    var rest := AfterWord(line);
    OneWord(line, "scope", rest);
    if MatchHeader(line) == Some(id) {
      var blank := BraceSplits(rest);
    }
    if Reads(line, Header(id)) {
      var r, blank :| Words(line, ["scope"], r) && NameAndBrace(r, id, blank);
      OneWord(line, "scope", r);
      BraceReads(r, id, blank);
    }
  }

  lemma BraceSplits(rest: string) returns (blank: string)
    requires rest != "" && rest[|rest| - 1] == '{' && Identifier(StripRight(rest[..|rest| - 1]))
    ensures NameAndBrace(rest, StripRight(rest[..|rest| - 1]), blank)
  {
    hide Identifier;
    var front := rest[..|rest| - 1];
    var id := StripRight(front);
    assert front == id + front[|id|..];
    assert rest == id + front[|id|..] + "{";
    blank := front[|id|..];
  }

  lemma BraceReads(rest: string, id: string, blank: string)
    requires NameAndBrace(rest, id, blank)
    ensures rest != "" && rest[|rest| - 1] == '{' && StripRight(rest[..|rest| - 1]) == id && Identifier(id)
  {
    hide IsSpace;
    assert rest[..|rest| - 1] == id + blank;
    IdentifierEnds(id);
    StripGapRight(id, blank);
  }

  lemma IdentifierEnds(id: string)
    requires Identifier(id)
    ensures id != "" && !IsSpace(id[|id| - 1])
  {
    assert id[|id| - 1] in id;
  }

  lemma {:induction false} StripGapRight(t: string, b: string)
    requires Blank(b) && t != "" && !IsSpace(t[|t| - 1])
    ensures StripRight(t + b) == t
  {
    hide IsSpace;
    if b == "" {
      assert t + b == t;
    } else {
      assert b[|b| - 1] in b && (t + b)[..|t + b| - 1] == t + b[..|b| - 1];
      StripGapRight(t, b[..|b| - 1]);
    }
  }

  /**
   * What each line says, read off its text alone: a line (without comment and outer white space) is
   * taken as a statement exactly if it has that statement's form, with any white space between its words,
   * and is unknown exactly if it has no form at all.
   */
  lemma {:induction false} RecognizedIff(line: string, s: Statement)
    ensures !s.Unknown? ==> (Recognize(line) == s <==> Reads(line, s))
    ensures Recognize(line).Unknown? <==> forall other: Statement :: !other.Unknown? ==> !Reads(line, other)
  {
    hide Reads, Recognize;
    RecognizedReads(line);
    forall t: Statement | Reads(line, t) ensures Recognize(line) == t {
      ReadsRecognized(line, t);
    }
  }

  lemma RecognizedReads(line: string)
    ensures !Recognize(line).Unknown? ==> Reads(line, Recognize(line))
  {
    hide Reads, MatchResource, MatchCapability, MatchPolicy, MatchApproval, MatchAudit, MatchHeader;
    match Recognize(line)
    case Nothing => NothingIff(line);
    case Close => NothingIff(line);
    case Header(id) => HeaderIff(line, id);
    case ResourceLine(kind, target) => ResourceIff(line, kind, target);
    case CapabilityLine(name, pattern) => CapabilityIff(line, name, pattern);
    case PolicyLine(effect, condition) => PolicyIff(line, effect, condition);
    case ApprovalLine(authority, condition) => ApprovalIff(line, authority, condition);
    case AuditLine(fields) => AuditIff(line, fields);
    case Unknown =>
  }

  lemma NothingIff(line: string)
    ensures Reads(line, Nothing) <==> line == ""
    ensures Reads(line, Close) <==> line == "}"
  {
  }

  lemma ReadsRecognized(line: string, s: Statement)
    requires Reads(line, s)
    ensures Recognize(line) == s
  {
    hide Reads, MatchResource, MatchCapability, MatchPolicy, MatchApproval, MatchAudit, MatchHeader, Word, AfterWord;
    MatchersApart(line);
    hide IsKeyword;
    forall j: nat, k: nat | IsKeyword(Word(line), j) && IsKeyword(Word(line), k) ensures j == k {
      KeywordsDiffer(Word(line), j, k);
    }
    KeywordNumbers(Word(line));
    match s
    case Nothing => NothingIff(line);
    case Close => NothingIff(line);
    case Header(id) => HeaderIff(line, id);
    case ResourceLine(kind, target) => ResourceIff(line, kind, target);
    case CapabilityLine(name, pattern) => CapabilityIff(line, name, pattern);
    case PolicyLine(effect, condition) => PolicyIff(line, effect, condition);
    case ApprovalLine(authority, condition) => ApprovalIff(line, authority, condition);
    case AuditLine(fields) => AuditIff(line, fields);
    case Unknown => UnknownIsNotRead(line);
  }

  lemma UnknownIsNotRead(line: string)
    ensures !Reads(line, Unknown)
  {
  }

  /** Each matcher takes lines of its own keyword only, and none of them an empty line or a lone brace. */
  lemma MatchersApart(line: string)
    ensures MatchResource(line).Some? ==> Word(line) == "resource"
    ensures MatchCapability(line).Some? ==> Word(line) == "capability"
    ensures MatchPolicy(line).Some? ==> Word(line) == "policy"
    ensures MatchApproval(line).Some? ==> Word(line) == "approval"
    ensures MatchAudit(line).Some? ==> Word(line) == "audit"
    ensures MatchHeader(line).Some? ==> Word(line) == "scope"
    ensures line == "" ==> Word(line) == ""
    ensures line == "}" ==> Word(line) == "}"
  {
    hide Word, AfterWord, Quoted, Unquote, MatchRule, Fields, SplitOn, Identifier, StripRight;
    NothingBehindNothing();
    LoneBrace();
  }

  predicate IsKeyword(w: string, k: nat) {
    match k
    case 0 => w == ""
    case 1 => w == "}"
    case 2 => w == "resource"
    case 3 => w == "capability"
    case 4 => w == "policy"
    case 5 => w == "approval"
    case 6 => w == "audit"
    case 7 => w == "scope"
    case _ => false
  }

  lemma KeywordsDiffer(w: string, j: nat, k: nat)
    requires IsKeyword(w, j) && IsKeyword(w, k)
    ensures j == k
  {
    assert |"resource"| == 8 && |"capability"| == 10 && |"policy"| == 6 && |"approval"| == 8 && |"audit"| == 5;
    assert |"scope"| == 5 && "resource"[0] == 'r' && "approval"[0] == 'a' && "audit"[0] == 'a' && "scope"[0] == 's';
  }

  lemma KeywordNumbers(w: string)
    ensures w == "" ==> IsKeyword(w, 0)
    ensures w == "}" ==> IsKeyword(w, 1)
    ensures w == "resource" ==> IsKeyword(w, 2)
    ensures w == "capability" ==> IsKeyword(w, 3)
    ensures w == "policy" ==> IsKeyword(w, 4)
    ensures w == "approval" ==> IsKeyword(w, 5)
    ensures w == "audit" ==> IsKeyword(w, 6)
    ensures w == "scope" ==> IsKeyword(w, 7)
  {
  }

  lemma LoneBrace()
    ensures Word("}") == "}"
  {
    assert !IsSpace('}');
    assert "}"[1..] == "";
  }

  // ----- From the raw line to its text -------------------------------------------------------

  /** A comment, or nothing: it begins at the first two slashes of the line. */
  predicate Commented(front: string, comment: string) {
    && NoComment(front)
    && (comment != "" ==> "//" <= comment && (front == "" || front[|front| - 1] != '/'))
  }

  predicate Laid(raw: string, line: string, a: string, b: string, comment: string) {
    && raw == a + line + b + comment
    && Blank(a) && Blank(b) && Trimmed(line) && Commented(a + line + b, comment)
  }

  lemma {:induction false} UncommentSplits(s: string)
    ensures s == Uncomment(s) + s[|Uncomment(s)|..] && Commented(Uncomment(s), s[|Uncomment(s)|..])
  {
    if |s| >= 2 && !(s[0] == '/' && s[1] == '/') {
      UncommentSplits(s[1..]);
      var t := Uncomment(s[1..]);
      assert Uncomment(s) == [s[0]] + t;
      assert s[|t| + 1..] == s[1..][|t|..];
    }
  }

  lemma {:induction false} UncommentReads(front: string, comment: string)
    requires Commented(front, comment)
    ensures Uncomment(front + comment) == front
  {
    var s := front + comment;
    if front == "" {
      assert s == comment;
    } else {
      assert s[1..] == front[1..] + comment;
      assert |s| >= 2 ==> !(s[0] == '/' && s[1] == '/');
      assert Commented(front[1..], comment);
      UncommentReads(front[1..], comment);
      assert [front[0]] + front[1..] == front;
    }
  }

  lemma StripReads(a: string, line: string, b: string)
    requires Blank(a) && Blank(b) && Trimmed(line)
    ensures Strip(a + line + b) == line
  {
    hide IsSpace, StripLeft, StripRight;
    if line == "" {
      assert a + line + b == a + b;
      StripsToNothing(a + b);
    } else {
      assert a + line + b == a + (line + b);
      StripGap(a, line + b);
      StripGapRight(line, b);
    }
  }

  lemma StripSplits(s: string) returns (a: string, b: string)
    ensures Blank(a) && Blank(b) && Trimmed(Strip(s)) && s == a + Strip(s) + b
  {
    hide IsSpace, StripLeft, StripRight, Trimmed, Blank;
    StripTrims(s);
    var t := StripLeft(s);
    a, b := s[..|s| - |t|], t[|Strip(s)|..];
    assert s == a + t && t == Strip(s) + b;
  }

  /** The text of a raw line is what stands between its outer white space, in front of any comment. */
  lemma LineIff(raw: string, line: string)
    ensures Strip(Uncomment(raw)) == line <==> exists a, b, comment :: Laid(raw, line, a, b, comment)
  {
    hide Strip, Uncomment, Commented, Blank, Trimmed;
    if Strip(Uncomment(raw)) == line {
      UncommentSplits(raw);
      var a, b := StripSplits(Uncomment(raw));
      var comment := raw[|Uncomment(raw)|..];
      assert raw == a + line + b + comment;
      assert Laid(raw, line, a, b, comment);
    }
    if exists a, b, comment :: Laid(raw, line, a, b, comment) {
      var a, b, comment :| Laid(raw, line, a, b, comment);
      UncommentReads(a + line + b, comment);
      StripReads(a, line, b);
    }
  }

  // ----- The accepted words, and the faults --------------------------------------------------

  predicate KnownKind(kind: string) {
    kind == "file" || kind == "db" || kind == "message" || kind == "memory" || kind == "network" || kind == "tool"
  }

  predicate KnownField(field: string) {
    || field == "trace" || field == "dry_run" || field == "approval" || field == "input_hash" || field == "output_hash"
    || field == "actor" || field == "scope" || field == "adapter_ack" || field == "verification"
  }

  /** A kind and a mode, joined by the first dot of the name. */
  predicate KindDotMode(name: string, kind: string, mode: string) {
    name == kind + "." + mode && '.' !in kind
  }

  lemma DotSplits(name: string)
    requires '.' in name
    ensures
      var kind := Before(name, '.');
      |kind| < |name| && KindDotMode(name, kind, name[|kind| + 1..])
  {
    hide Before;
    var kind := Before(name, '.');
    assert kind == name[..|kind|];
    assert name == name[..|kind|] + name[|kind|..];
    assert '.' in name[|kind|..];
    assert name == kind + name[|kind|..] && name[|kind|..] == "." + name[|kind| + 1..];
  }

  /**
   * Which words a statement inside a block may use, and which fault it has otherwise: exactly when a
   * kind, a capability, an effect, an authority or an audit field is not accepted.
   */
  lemma FaultsAre(s: Statement)
    ensures
      var fault := FaultOf(s);
      && (fault == Some(UnknownKind) <==> s.ResourceLine? && !KnownKind(s.kind))
      && (fault == Some(NotKindDotMode) <==> s.CapabilityLine? && '.' !in s.name)
      && (fault == Some(UnknownPrefix) <==>
            s.CapabilityLine? && exists kind, mode :: KindDotMode(s.name, kind, mode) && !KnownKind(kind))
      && (fault == Some(UnknownEffect) <==>
            && s.PolicyLine? && s.effect != "allow" && s.effect != "deny" && s.effect != "pause"
            && s.effect != "require_approval" && s.effect != "require_evidence")
      && (fault == Some(UnknownAuthority) <==>
            && s.ApprovalLine? && s.authority != "performer" && s.authority != "council"
            && s.authority != "runtime" && s.authority != "none")
      && (fault == Some(UnknownAuditField) <==> s.AuditLine? && exists field :: field in s.fields && !KnownField(field))
      && (fault == Some(Unrecognized) <==> s.Nothing? || s.Header? || s.Close? || s.Unknown?)
      && fault != Some(AfterClose) && fault != Some(ExpectedHeader)
  {
    hide Before, KnownKind, KnownField;
    KindsAre();
    if s.CapabilityLine? && '.' in s.name {
      DotSplits(s.name);
      forall kind, mode | KindDotMode(s.name, kind, mode) ensures kind == Before(s.name, '.') {
        BeforeSeparator(kind, '.', mode);
        assert kind + ['.'] + mode == s.name;
      }
    }
    if s.CapabilityLine? && '.' !in s.name {
      forall kind, mode ensures !KindDotMode(s.name, kind, mode) {
        assert "."[0] in kind + "." + mode;
      }
    }
    if s.AuditLine? {
      FieldsAreKnown(s.fields);
    }
  }

  lemma KindsAre()
    ensures forall kind :: kind in RESOURCE_KINDS <==> KnownKind(kind)
  {
  }

  lemma FieldsAreKnown(fields: seq<string>)
    ensures !AuditFields(fields) <==> exists field :: field in fields && !KnownField(field)
  {
    if !AuditFields(fields) {
      var k :| 0 <= k < |fields| && fields[k] !in AUDIT_FIELDS;
      assert fields[k] in fields && !KnownField(fields[k]);
    }
  }

  /** The fields of an audit line: the parts between commas, trimmed, without those that are blank. */
  lemma {:induction false} FieldsAre(parts: seq<string>, field: string)
    ensures field in Fields(parts) <==> field != "" && exists k :: 0 <= k < |parts| && Strip(parts[k]) == field
  {
    hide Strip;
    if parts != [] {
      FieldsAre(parts[1..], field);
      if exists k :: 0 <= k < |parts| - 1 && Strip(parts[1..][k]) == field {
        var k :| 0 <= k < |parts| - 1 && Strip(parts[1..][k]) == field;
        assert Strip(parts[k + 1]) == field;
      }
      if field != "" && exists k :: 0 < k < |parts| && Strip(parts[k]) == field {
        var k :| 0 < k < |parts| && Strip(parts[k]) == field;
        assert Strip(parts[1..][k - 1]) == field;
      }
    }
  }

  // ----- Which error, and where --------------------------------------------------------------

  /** Nothing is wrong so far: nothing said, or a header and faultless statements, closed or still open. */
  ghost predicate GoodSoFar(ss: seq<Statement>) {
    || ss == []
    || (ss[0].Header? && (AllBody(ss[1..]) || (ss[|ss| - 1].Close? && |ss| >= 2 && AllBody(ss[1..|ss| - 1]))))
  }

  /** Line `number` says something that cannot stand there, and nothing in front of it is wrong. */
  ghost predicate WrongAt(lines: seq<string>, number: nat, fault: Fault) {
    && 1 <= number <= |lines|
    && var before, s := Statements(lines[..number - 1]), Classify(lines[number - 1]);
    && GoodSoFar(before) && !s.Nothing?
    && if before == [] then !s.Header? && fault == ExpectedHeader
       else if before[|before| - 1].Close? then fault == AfterClose
       else !s.Close? && FaultOf(s) == Some(fault)
  }

  lemma SoFarIff(ss: seq<Statement>)
    ensures StateFor(ss).Some? <==> GoodSoFar(ss)
    ensures StateFor(ss).Some? ==>
      && (StateFor(ss).value.closed <==> ss != [] && ss[|ss| - 1].Close?)
      && (StateFor(ss).value.inScope <==> ss != [] && !ss[|ss| - 1].Close?)
      && (StateFor(ss).value.scopeId.Some? <==> ss != [])
  {
    hide Collected, FaultOf;
    if |ss| >= 2 && ss[|ss| - 1].Close? {
      assert ss[1..][|ss| - 2] == ss[|ss| - 1];
      CloseIsNoBody(ss[|ss| - 1]);
    }
  }

  lemma CloseIsNoBody(s: Statement)
    requires s.Close?
    ensures FaultOf(s).Some?
  {
  }

  /** The error of a text is at its first wrong line, and says what is wrong with it. */
  lemma {:induction false} ErrorIff(lines: seq<string>, number: nat, fault: Fault)
    ensures ReadLines(lines) == Err(AtLine(number, fault)) <==> WrongAt(lines, number, fault)
    decreases |lines|
  {
    hide Classify, FaultOf, StateFor, GoodSoFar, Add;
    if lines != [] {
      var front := lines[..|lines| - 1];
      MachineReadsLanguage(front);
      SoFarIff(Statements(front));
      if number == |lines| {
        ErrorIsInside(front, number, fault);
      } else {
        ErrorIff(front, number, fault);
        if 1 <= number < |lines| {
          assert front[..number - 1] == lines[..number - 1];
        }
      }
    }
  }

  lemma {:induction false} ErrorIsInside(lines: seq<string>, number: nat, fault: Fault)
    requires number > |lines|
    ensures ReadLines(lines) != Err(AtLine(number, fault))
  {
    hide Classify, FaultOf, Add;
    if lines != [] {
      ErrorIsInside(lines[..|lines| - 1], number, fault);
    }
  }

  predicate IsClosed(ss: seq<Statement>) {
    ss != [] && ss[|ss| - 1].Close?
  }

  /**
   * Every error of a text: a line that is wrong, and nothing wrong in front of it; or, with no wrong line,
   * a text that says nothing, a block that is not closed, or one that is closed but declares no resource
   * or no capability.
   */
  lemma ErrorsAre(text: string)
    ensures
      var lines := SplitLines(text);
      var ss := Statements(lines);
      var r := Parse(text);
      && (forall number: nat, fault :: r == Err(AtLine(number, fault)) <==> WrongAt(lines, number, fault))
      && (r == Err(NoScopeBlock) <==> ss == [])
      && (r == Err(NotClosed) <==> GoodSoFar(ss) && ss != [] && !IsClosed(ss))
      && (r == Err(NoResource) <==> GoodSoFar(ss) && IsClosed(ss) && forall s :: s in ss ==> !s.ResourceLine?)
      && (r == Err(NoCapability) <==>
            && GoodSoFar(ss) && IsClosed(ss) && (exists s :: s in ss && s.ResourceLine?)
            && forall s :: s in ss ==> !s.CapabilityLine?)
  {
    hide SplitLines, Statements, ReadLines, WrongAt, GoodSoFar;
    var lines := SplitLines(text);
    EndErrors(lines);
    forall number: nat, fault ensures Parse(text) == Err(AtLine(number, fault)) <==> WrongAt(lines, number, fault) {
      ErrorIff(lines, number, fault);
    }
    LineErrorsOnly(lines);
  }

  lemma EndErrors(lines: seq<string>)
    ensures
      var ss, r := Statements(lines), ParseLines(lines);
      && (r == Err(NoScopeBlock) <==> ss == [])
      && (r == Err(NotClosed) <==> GoodSoFar(ss) && ss != [] && !IsClosed(ss))
      && (r == Err(NoResource) <==> GoodSoFar(ss) && IsClosed(ss) && forall s :: s in ss ==> !s.ResourceLine?)
      && (r == Err(NoCapability) <==>
            && GoodSoFar(ss) && IsClosed(ss) && (exists s :: s in ss && s.ResourceLine?)
            && forall s :: s in ss ==> !s.CapabilityLine?)
  {
    hide Statements, ReadLines, GoodSoFar, StateFor;
    MachineReadsLanguage(lines);
    LineErrorsOnly(lines);
    var ss := Statements(lines);
    SoFarIff(ss);
    NothingIsGood();
    if GoodSoFar(ss) && IsClosed(ss) {
      ClosedDeclares(ss);
    }
  }

  lemma NothingIsGood()
    ensures GoodSoFar([]) && StateFor([]).Some?
  {
  }

  lemma {:induction false} LineErrorsOnly(lines: seq<string>)
    ensures ReadLines(lines).Err? ==> ReadLines(lines).error.AtLine?
  {
    hide Classify, FaultOf, Add;
    if lines != [] {
      LineErrorsOnly(lines[..|lines| - 1]);
    }
  }

  lemma ClosedDeclares(ss: seq<Statement>)
    requires GoodSoFar(ss) && IsClosed(ss) && StateFor(ss).Some?
    ensures
      var body := StateFor(ss).value.body;
      && (body.resources == [] <==> forall s :: s in ss ==> !s.ResourceLine?)
      && (body.capabilities == [] <==> forall s :: s in ss ==> !s.CapabilityLine?)
  {
    hide Collected, FaultOf;
    if |ss| >= 2 {
      assert ss[1..][|ss| - 2] == ss[|ss| - 1];
    }
    CloseIsNoBody(ss[|ss| - 1]);
    var inner := ss[1..|ss| - 1];
    CollectsSome(inner);
    assert ss == [ss[0]] + inner + [ss[|ss| - 1]];
  }

  lemma {:induction false} CollectsSome(ss: seq<Statement>)
    requires AllBody(ss)
    ensures Collected(ss).resources == [] <==> forall s :: s in ss ==> !s.ResourceLine?
    ensures Collected(ss).capabilities == [] <==> forall s :: s in ss ==> !s.CapabilityLine?
  {
    hide FaultOf, PolicyId, CapabilityOf;
    if ss != [] {
      var front, last := ss[..|ss| - 1], ss[|ss| - 1];
      CollectsSome(front);
      assert ss == front + [last];
    }
  }
}
