/**
 * The policy block parser (`policy_parser.py`), and a printer for the grammar that it documents. The
 * regular expressions are written out as matchers on a line whose comment and outer white space are gone.
 */
module PolicyParser {
  import opened Wrappers
  import opened Text

  const RESOURCE_KINDS := {"file", "db", "message", "memory", "network", "tool"}
  const POLICY_EFFECTS := {"allow", "deny", "pause", "require_approval", "require_evidence"}
  const AUTHORITIES := {"performer", "council", "runtime", "none"}
  const AUDIT_FIELDS :=
    {"trace", "dry_run", "approval", "input_hash", "output_hash", "actor", "scope", "adapter_ack", "verification"}

  // ----- Scope records -----------------------------------------------------------------------

  datatype Resource = Resource(kind: string, target: string)

  datatype Capability = Capability(name: string, resourceKind: string, mode: string, allow: seq<string>)

  datatype Policy = Policy(id: string, effect: string, condition: string)

  datatype Approval = Approval(authority: string, condition: string)

  /** The typed lists of a scope record; `retain` is the audit field, absent when no line declares it. */
  datatype Body = Body(
    resources: seq<Resource>,
    capabilities: seq<Capability>,
    policies: seq<Policy>,
    approvals: seq<Approval>,
    retain: Option<seq<string>>)

  datatype ScopeRecord = ScopeRecord(scopeId: string, body: Body)

  datatype Fault =
    | AfterClose
    | ExpectedHeader
    | UnknownKind
    | NotKindDotMode
    | UnknownPrefix
    | UnknownEffect
    | UnknownAuthority
    | UnknownAuditField
    | Unrecognized

  datatype Error = AtLine(number: nat, fault: Fault) | NoScopeBlock | NotClosed | NoResource | NoCapability

  // ----- Lines -------------------------------------------------------------------------------

  /** No `//` anywhere. */
  predicate NoComment(s: string) {
    forall k :: 0 <= k < |s| - 1 ==> !(s[k] == '/' && s[k + 1] == '/')
  }

  /** The text before the first `//`. */
  function Uncomment(s: string): (t: string)
    ensures t <= s && NoComment(t)
  {
    if |s| < 2 then s
    else if s[0] == '/' && s[1] == '/' then []
    else
      var t := Uncomment(s[1..]);
      assert ([s[0]] + t)[1..] == t;
      [s[0]] + t
  }

  predicate Identifier(s: string) {
    && s != ""
    && !('0' <= s[0] <= '9')
    && forall c :: c in s ==> 'a' <= c <= 'z' || 'A' <= c <= 'Z' || '0' <= c <= '9' || c == '_'
  }

  predicate Quoted(s: string) {
    |s| >= 3 && s[0] == '"' && s[|s| - 1] == '"' && '"' !in s[1..|s| - 1]
  }

  function Unquote(s: string): string
    requires |s| >= 2
  {
    s[1..|s| - 1]
  }

  datatype Pair = Pair(first: string, second: string)

  function MatchHeader(line: string): Option<string> {
    var rest := AfterWord(line);
    if Word(line) == "scope" && rest != "" && rest[|rest| - 1] == '{' && Identifier(StripRight(rest[..|rest| - 1])) then
      Some(StripRight(rest[..|rest| - 1]))
    else None
  }

  predicate MatchClose(line: string) {
    line == "}"
  }

  function MatchResource(line: string): Option<Pair> {
    var rest := AfterWord(line);
    var target := AfterWord(rest);
    if Word(line) == "resource" && Quoted(target) then Some(Pair(Word(rest), Unquote(target))) else None
  }

  function MatchCapability(line: string): Option<Pair> {
    var rest := AfterWord(line);
    var clause := AfterWord(rest);
    var pattern := AfterWord(clause);
    if Word(line) == "capability" && Word(clause) == "on" && Quoted(pattern) then
      Some(Pair(Word(rest), Unquote(pattern)))
    else None
  }

  /** A word, `if`, and a condition that runs to the end of the line. */
  function MatchRule(rest: string): Option<Pair> {
    var clause := AfterWord(rest);
    var condition := AfterWord(clause);
    if Word(clause) == "if" && condition != "" then Some(Pair(Word(rest), condition)) else None
  }

  function MatchPolicy(line: string): Option<Pair> {
    if Word(line) == "policy" then MatchRule(AfterWord(line)) else None
  }

  function MatchApproval(line: string): Option<Pair> {
    var rest := AfterWord(line);
    if Word(line) == "approval" && Word(rest) == "require" then MatchRule(AfterWord(rest)) else None
  }

  function MatchAudit(line: string): Option<seq<string>> {
    var rest := AfterWord(line);
    if Word(line) == "audit" && Word(rest) == "retain" && AfterWord(rest) != "" then
      Some(Fields(SplitOn(AfterWord(rest), ',')))
    else None
  }

  /** The stripped parts, without the empty ones. */
  function Fields(parts: seq<string>): seq<string> {
    if parts == [] then []
    else (if Strip(parts[0]) == "" then [] else [Strip(parts[0])]) + Fields(parts[1..])
  }

  datatype Statement =
    | Nothing
    | Header(id: string)
    | Close
    | ResourceLine(kind: string, target: string)
    | CapabilityLine(name: string, pattern: string)
    | PolicyLine(effect: string, condition: string)
    | ApprovalLine(authority: string, condition: string)
    | AuditLine(fields: seq<string>)
    | Unknown

  function Classify(raw: string): Statement {
    Recognize(Strip(Uncomment(raw)))
  }

  function Recognize(line: string): Statement {
    if line == "" then Nothing
    else if MatchClose(line) then Close
    else if MatchResource(line).Some? then
      ResourceLine(MatchResource(line).value.first, MatchResource(line).value.second)
    else if MatchCapability(line).Some? then
      CapabilityLine(MatchCapability(line).value.first, MatchCapability(line).value.second)
    else if MatchPolicy(line).Some? then PolicyLine(MatchPolicy(line).value.first, MatchPolicy(line).value.second)
    else if MatchApproval(line).Some? then
      ApprovalLine(MatchApproval(line).value.first, MatchApproval(line).value.second)
    else if MatchAudit(line).Some? then AuditLine(MatchAudit(line).value)
    else if MatchHeader(line).Some? then Header(MatchHeader(line).value)
    else Unknown
  }

  // ----- The line machine --------------------------------------------------------------------

  datatype State = State(scopeId: Option<string>, inScope: bool, closed: bool, body: Body)

  const EMPTY := Body([], [], [], [], None)

  const START := State(None, false, false, EMPTY)

  /** What is wrong with a statement inside the block, other than its closing line. */
  function FaultOf(s: Statement): Option<Fault> {
    match s
    case ResourceLine(kind, _) => if kind in RESOURCE_KINDS then None else Some(UnknownKind)
    case CapabilityLine(name, _) =>
      if '.' !in name then Some(NotKindDotMode)
      else if Before(name, '.') in RESOURCE_KINDS then None
      else Some(UnknownPrefix)
    case PolicyLine(effect, _) => if effect in POLICY_EFFECTS then None else Some(UnknownEffect)
    case ApprovalLine(authority, _) => if authority in AUTHORITIES then None else Some(UnknownAuthority)
    case AuditLine(fields) => if AuditFields(fields) then None else Some(UnknownAuditField)
    case _ => Some(Unrecognized)
  }

  predicate AuditFields(fields: seq<string>) {
    forall k :: 0 <= k < |fields| ==> fields[k] in AUDIT_FIELDS
  }

  function Digit(n: nat): char
    requires n < 10
  {
    "0123456789"[n]
  }

  function Decimal(n: nat): string {
    if n < 10 then [Digit(n)] else Decimal(n / 10) + [Digit(n % 10)]
  }

  /** The n-th policy identifier, padded to three digits. */
  function PolicyId(n: nat): string {
    var digits := Decimal(n);
    "policy_" + (if |digits| == 1 then "00" else if |digits| == 2 then "0" else "") + digits
  }

  function CapabilityOf(name: string, pattern: string): Capability
    requires '.' in name
  {
    var kind := Before(name, '.');
    Capability(name, kind, if |kind| < |name| then name[|kind| + 1..] else "", [pattern])
  }

  function Add(body: Body, s: Statement): Body
    requires FaultOf(s).None?
  {
    match s
    case ResourceLine(kind, target) => body.(resources := body.resources + [Resource(kind, target)])
    case CapabilityLine(name, pattern) => body.(capabilities := body.capabilities + [CapabilityOf(name, pattern)])
    case PolicyLine(effect, condition) =>
      body.(policies := body.policies + [Policy(PolicyId(|body.policies| + 1), effect, condition)])
    case ApprovalLine(authority, condition) => body.(approvals := body.approvals + [Approval(authority, condition)])
    case AuditLine(fields) => body.(retain := Some(fields))
  }

  function Step(st: State, number: nat, s: Statement): Result<State, Error> {
    if s.Nothing? then Ok(st)
    else if st.closed then Err(AtLine(number, AfterClose))
    else if !st.inScope then
      if s.Header? then Ok(st.(scopeId := Some(s.id), inScope := true)) else Err(AtLine(number, ExpectedHeader))
    else if s.Close? then Ok(st.(inScope := false, closed := true))
    else if FaultOf(s).Some? then Err(AtLine(number, FaultOf(s).value))
    else Ok(st.(body := Add(st.body, s)))
  }

  function ReadLines(lines: seq<string>): Result<State, Error> {
    if lines == [] then Ok(START)
    else
      match ReadLines(lines[..|lines| - 1])
      case Err(e) => Err(e)
      case Ok(st) => Step(st, |lines|, Classify(lines[|lines| - 1]))
  }

  function Finish(st: State): Result<ScopeRecord, Error> {
    if st.scopeId.None? then Err(NoScopeBlock)
    else if !st.closed then Err(NotClosed)
    else if st.body.resources == [] then Err(NoResource)
    else if st.body.capabilities == [] then Err(NoCapability)
    else Ok(ScopeRecord(st.scopeId.value, st.body))
  }

  function ParseLines(lines: seq<string>): Result<ScopeRecord, Error> {
    match ReadLines(lines)
    case Err(e) => Err(e)
    case Ok(st) => Finish(st)
  }

  function Parse(text: string): Result<ScopeRecord, Error> {
    ParseLines(SplitLines(text))
  }

  lemma {:induction false} FirstErrorStands(lines: seq<string>, n: nat)
    requires n <= |lines| && ReadLines(lines[..n]).Err?
    ensures ReadLines(lines) == ReadLines(lines[..n])
    decreases |lines|
  {
    if n < |lines| {
      assert lines[..|lines| - 1][..n] == lines[..n];
      FirstErrorStands(lines[..|lines| - 1], n);
    } else {
      assert lines[..n] == lines;
    }
  }

  /** The keyword of a line decides which matcher can take it. */
  lemma HeaderApart(line: string)
    requires MatchHeader(line).Some?
    ensures Recognize(line) == Header(MatchHeader(line).value)
  {
    hide Word, AfterWord, StripRight, SplitOn, Fields, Identifier, Quoted, MatchRule;
    assert Word(line) == "scope";
  }

  method ParsePolicyBlock(text: string) returns (r: Result<ScopeRecord, Error>)
    ensures r == Parse(text)
  {
    hide Classify, Uncomment, SplitLines, Strip, MatchHeader, MatchResource, MatchCapability, MatchPolicy,
      MatchApproval, MatchAudit, AuditFields, PolicyId, CapabilityOf, Before;
    var lines := SplitLines(text);
    var scopeId: Option<string> := None;
    var resources: seq<Resource> := [];
    var capabilities: seq<Capability> := [];
    var policies: seq<Policy> := [];
    var approvals: seq<Approval> := [];
    var retain: Option<seq<string>> := None;
    var inScope, closed := false, false;
    for n := 0 to |lines|
      invariant ReadLines(lines[..n])
             == Ok(State(scopeId, inScope, closed, Body(resources, capabilities, policies, approvals, retain)))
    {
      var number := n + 1;
      var line := Strip(Uncomment(lines[n]));
      ReadOneMore(lines, n, line);
      if line == "" {
        continue;
      }
      if closed {
        return Err(AtLine(number, AfterClose));
      }
      if !inScope {
        var id := MatchHeader(line);
        if id.None? {
          return Err(AtLine(number, ExpectedHeader));
        }
        HeaderApart(line);
        scopeId, inScope := id, true;
        continue;
      }
      if MatchClose(line) {
        inScope, closed := false, true;
        continue;
      }
      var m := MatchResource(line);
      if m.Some? {
        if m.value.first !in RESOURCE_KINDS {
          return Err(AtLine(number, UnknownKind));
        }
        resources := resources + [Resource(m.value.first, m.value.second)];
        continue;
      }
      m := MatchCapability(line);
      if m.Some? {
        if '.' !in m.value.first {
          return Err(AtLine(number, NotKindDotMode));
        }
        if Before(m.value.first, '.') !in RESOURCE_KINDS {
          return Err(AtLine(number, UnknownPrefix));
        }
        capabilities := capabilities + [CapabilityOf(m.value.first, m.value.second)];
        continue;
      }
      m := MatchPolicy(line);
      if m.Some? {
        if m.value.first !in POLICY_EFFECTS {
          return Err(AtLine(number, UnknownEffect));
        }
        policies := policies + [Policy(PolicyId(|policies| + 1), m.value.first, m.value.second)];
        continue;
      }
      m := MatchApproval(line);
      if m.Some? {
        if m.value.first !in AUTHORITIES {
          return Err(AtLine(number, UnknownAuthority));
        }
        approvals := approvals + [Approval(m.value.first, m.value.second)];
        continue;
      }
      var fields := MatchAudit(line);
      if fields.Some? {
        if !AuditFields(fields.value) {
          return Err(AtLine(number, UnknownAuditField));
        }
        retain := fields;
        continue;
      }
      return Err(AtLine(number, Unrecognized));
    }
    assert lines[..|lines|] == lines;
    if scopeId.None? {
      return Err(NoScopeBlock);
    }
    if !closed {
      return Err(NotClosed);
    }
    if resources == [] {
      return Err(NoResource);
    }
    if capabilities == [] {
      return Err(NoCapability);
    }
    return Ok(ScopeRecord(scopeId.value, Body(resources, capabilities, policies, approvals, retain)));
  }

  lemma ReadOneMore(lines: seq<string>, n: nat, line: string)
    requires n < |lines| && ReadLines(lines[..n]).Ok? && line == Strip(Uncomment(lines[n]))
    ensures
      var next := Step(ReadLines(lines[..n]).value, n + 1, Recognize(line));
      && ReadLines(lines[..n + 1]) == next
      && (next.Err? ==> ReadLines(lines) == Err(next.error))
  {
    hide Step, Recognize, Strip, Uncomment;
    var front := lines[..n + 1];
    assert front[..n] == lines[..n] && front[n] == lines[n];
    if ReadLines(front).Err? {
      hide ReadLines;
      FirstErrorStands(lines, n + 1);
    }
  }
}
