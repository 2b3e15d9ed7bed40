/**
 * From a policy to the gate (`scope_from_record` in `runtime_api.py`): how the approval rules of a
 * scope record become the set of effect kinds that the runtime will not commit without an approval.
 */
module ScopeLowering {
  import opened Wrappers
  import opened Text
  import Records
  import Evaluator
  import Runs
  import Dispatch
  import opened PolicyParser
  import opened PolicyGrammar

  datatype LoweringError =
    | NoCapabilities
    | EmptyCapabilityName
    | UnrecognizedCondition
    | UndeclaredCapability
    | BadBudget
    | BadWindow
    | EmptyScopeId
    | BadMaxBytes

  /** What a scope record carries beside the policy: explicitly gated kinds, the rate budget, the size limit. */
  datatype Limits = Limits(approvalRequiredFor: seq<string>, maxEffects: int, rateWindow: real, maxBytes: int)

  // ----- The one recognized condition --------------------------------------------------------

  const SUBJECT := "effect.kind"

  /** A name in quotes at the start of the text. */
  function QuotedName(s: string): Option<string> {
    if s == "" || s[0] != '"' then None
    else
      var name := Before(s[1..], '"');
      if name == "" || 1 + |name| == |s| then None else Some(name)
  }

  /** `effect.kind == "name"` at the start of the text: the name, and what follows the comparison. */
  function ComparisonAt(s: string): (m: Option<Pair>)
    ensures m.Some? ==> |m.value.second| < |s|
  {
    if !(SUBJECT <= s) then None
    else
      var rest := StripLeft(s[|SUBJECT|..]);
      if !("==" <= rest) then None
      else
        var value := StripLeft(rest[2..]);
        match QuotedName(value)
        case None => None
        case Some(name) => Some(Pair(name, value[|name| + 2..]))
  }

  /** re.findall: the names of all comparisons, from left to right, none overlapping another. */
  function FindAll(s: string): seq<string>
    decreases |s|
  {
    if s == "" then []
    else
      match ComparisonAt(s)
      case None => FindAll(s[1..])
      case Some(m) => [m.first] + FindAll(m.second)
  }

  predicate StandsAt(part: string, s: string, i: nat) {
    i + |part| <= |s| && s[i..i + |part|] == part
  }

  /** A text stands somewhere in another. */
  ghost predicate Within(part: string, s: string) {
    exists i :: StandsAt(part, s, i)
  }

  predicate IsSuffix(t: string, s: string) {
    |t| <= |s| && t == s[|s| - |t|..]
  }

  lemma WithinSuffix(part: string, t: string, s: string)
    requires IsSuffix(t, s) && Within(part, t)
    ensures Within(part, s)
  {
    var i :| StandsAt(part, t, i);
    assert StandsAt(part, s, |s| - |t| + i);
  }

  lemma SuffixOfSuffix(u: string, t: string, s: string)
    requires IsSuffix(u, t) && IsSuffix(t, s)
    ensures IsSuffix(u, s)
  {
  }

  /** What a condition enrolls it names verbatim, in quotes. */
  lemma {:induction false} FoundVerbatim(s: string, name: string)
    ensures name in FindAll(s) ==> name != "" && '"' !in name && Within(Quote(name), s)
    decreases |s|
  {
    hide ComparisonAt, Within, Quote, IsSuffix;
    if name in FindAll(s) {
      if ComparisonAt(s).None? {
        FoundVerbatim(s[1..], name);
        DropIsSuffix(s);
        WithinSuffix(Quote(name), s[1..], s);
      } else {
        ComparisonNames(s);
        var m := ComparisonAt(s).value;
        if name != m.first {
          FoundVerbatim(m.second, name);
          WithinSuffix(Quote(name), m.second, s);
        }
      }
    }
  }

  lemma DropIsSuffix(s: string)
    requires s != ""
    ensures IsSuffix(s[1..], s)
  {
  }

  lemma ComparisonNames(s: string)
    requires ComparisonAt(s).Some?
    ensures
      var m := ComparisonAt(s).value;
      m.first != "" && '"' !in m.first && Within(Quote(m.first), s) && IsSuffix(m.second, s)
  {
    hide StripLeft, IsSuffix, Within, QuotedName, Quote;
    var rest := StripLeft(s[|SUBJECT|..]);
    var value := StripLeft(rest[2..]);
    var name := ComparisonAt(s).value.first;
    StripsToSuffix(s, |SUBJECT|);
    StripsToSuffix(rest, 2);
    SuffixOfSuffix(value, rest, s);
    QuotedNameStands(value);
    WithinSuffix(Quote(name), value, s);
    SuffixOfSuffix(value[|name| + 2..], value, s);
  }

  lemma StripsToSuffix(s: string, n: nat)
    requires n <= |s|
    ensures IsSuffix(StripLeft(s[n..]), s)
  {
    var t := StripLeft(s[n..]);
    assert t == s[n..][|s[n..]| - |t|..];
  }

  lemma QuotedNameStands(s: string)
    requires QuotedName(s).Some?
    ensures
      var name := QuotedName(s).value;
      name != "" && '"' !in name && |name| + 2 <= |s| && Within(Quote(name), s) && IsSuffix(s[|name| + 2..], s)
  {
    var name := QuotedName(s).value;
    assert s[1..][..|name|] == name && s[1..][|name|] == '"';
    assert StandsAt(Quote(name), s, 0);
  }

  // ----- What is found, said of the text -----------------------------------------------------

  /** The whole text is a comparison with `name`: white space, or none, on either side of the two equals signs. */
  ghost predicate Comparison(text: string, name: string) {
    exists a, b :: ComparisonSpaced(text, name, a, b)
  }

  predicate ComparisonSpaced(text: string, name: string, a: string, b: string) {
    && Blank(a) && Blank(b) && name != "" && '"' !in name
    && text == "effect.kind" + a + "==" + b + "\"" + name + "\""
  }

  /** A comparison with `name` stands at `s[i..j]`. */
  ghost predicate ComparesAt(s: string, i: nat, j: nat, name: string) {
    i <= j <= |s| && Comparison(s[i..j], name)
  }

  lemma {:induction false} StripBlank(a: string, t: string)
    requires Blank(a) && t != "" && !IsSpace(t[0])
    ensures StripLeft(a + t) == t
  {
    hide IsSpace;
    if a == "" {
      assert a + t == t;
    } else {
      assert (a + t)[1..] == a[1..] + t;
      assert a[0] in a;
      StripBlank(a[1..], t);
    }
  }

  /** A name in quotes, and what follows it. */
  function QuotedThen(name: string, rest: string): string {
    "\"" + (name + ("\"" + rest))
  }

  /** A comparison and what follows it, taken apart from the left. */
  lemma {:induction false} Regroup(name: string, a: string, b: string, rest: string)
    ensures
      "effect.kind" + a + "==" + b + "\"" + name + "\"" + rest
      == SUBJECT + (a + ("==" + (b + QuotedThen(name, rest))))
  {
  }

  lemma {:induction false} QuotedNameIs(name: string, rest: string)
    requires name != "" && '"' !in name
    ensures
      var value := QuotedThen(name, rest);
      QuotedName(value) == Some(name) && value[|name| + 2..] == rest
  {
    hide Before;
    var value := QuotedThen(name, rest);
    assert value[1..] == name + ['"'] + rest;
    BeforeSeparator(name, '"', rest);
  }

  lemma {:induction false} QuotedNameSplits(value: string)
    requires QuotedName(value).Some?
    ensures
      var name := QuotedName(value).value;
      name != "" && '"' !in name && |name| + 2 <= |value| && value == QuotedThen(name, value[|name| + 2..])
  {
    hide Before;
    var name := QuotedName(value).value;
    var inner := value[1..];
    assert value == "\"" + inner;
    assert inner == name + inner[|name|..] && inner[|name|] == '"';
    assert inner[|name|..] == "\"" + value[|name| + 2..];
  }

  /** A comparison at the start of a text is matched with its name, up to its end. */
  lemma {:induction false} ComparisonIsMatched(text: string, name: string, rest: string)
    requires Comparison(text, name)
    ensures ComparisonAt(text + rest) == Some(Pair(name, rest))
  {
    hide StripLeft, IsSpace, QuotedName, Blank;
    var a, b :| ComparisonSpaced(text, name, a, b);
    var value := QuotedThen(name, rest);
    var equals := "==" + (b + value);
    Regroup(name, a, b, rest);
    assert text + rest == SUBJECT + (a + equals);
    MatchParts(text + rest, a, b, value);
    QuotedNameIs(name, rest);
  }

  lemma {:induction false} MatchParts(s: string, a: string, b: string, value: string)
    requires s == SUBJECT + (a + ("==" + (b + value))) && Blank(a) && Blank(b) && value != "" && value[0] == '"'
    ensures
      ComparisonAt(s)
      == match QuotedName(value)
         case None => None
         case Some(name) => Some(Pair(name, value[|name| + 2..]))
  {
    hide StripLeft, IsSpace, QuotedName, Blank;
    var equals := "==" + (b + value);
    assert s[|SUBJECT|..] == a + equals;
    PlainStarts();
    StripBlank(a, equals);
    assert equals[2..] == b + value;
    StripBlank(b, value);
    StripEmpty(a, equals);
    StripEmpty(b, value);
  }

  lemma StripEmpty(a: string, t: string)
    requires t != ""
    ensures a + t != ""
  {
  }

  /** What is matched at the start of a text is a comparison. */
  lemma {:induction false} MatchIsComparison(s: string)
    requires ComparisonAt(s).Some?
    ensures
      var m := ComparisonAt(s).value;
      |m.second| <= |s| && s == s[..|s| - |m.second|] + m.second && Comparison(s[..|s| - |m.second|], m.first)
  {
    hide StripLeft, IsSpace, Blank, QuotedName;
    var name, rest := ComparisonAt(s).value.first, ComparisonAt(s).value.second;
    var u := s[|SUBJECT|..];
    var equals := StripLeft(u);
    var v := equals[2..];
    var value := StripLeft(v);
    var a, b := u[..|u| - |equals|], v[..|v| - |value|];
    QuotedNameSplits(value);
    assert value == QuotedThen(name, rest);
    assert u == a + equals && equals == "==" + v && v == b + value && s == SUBJECT + u;
    Regroup(name, a, b, rest);
    SplitsOff(s, name, rest, a, b);
  }

  lemma {:induction false} SplitsOff(s: string, name: string, rest: string, a: string, b: string)
    requires s == "effect.kind" + a + "==" + b + "\"" + name + "\"" + rest
    requires Blank(a) && Blank(b) && name != "" && '"' !in name
    ensures |rest| <= |s| && s == s[..|s| - |rest|] + rest && Comparison(s[..|s| - |rest|], name)
  {
    hide Blank;
    var text := "effect.kind" + a + "==" + b + "\"" + name + "\"";
    assert s == text + rest;
    assert s[..|s| - |rest|] == text;
    assert ComparisonSpaced(text, name, a, b);
  }

  lemma MatchesWhereItStands(s: string, j: nat, name: string)
    requires ComparesAt(s, 0, j, name)
    ensures ComparisonAt(s) == Some(Pair(name, s[j..]))
  {
    hide Comparison, ComparisonAt;
    assert s == s[0..j] + s[j..];
    ComparisonIsMatched(s[0..j], name, s[j..]);
  }

  lemma MatchStands(s: string)
    requires ComparisonAt(s).Some?
    ensures exists j: nat, name :: ComparesAt(s, 0, j, name)
  {
    hide Comparison, ComparisonAt;
    MatchIsComparison(s);
    var m := ComparisonAt(s).value;
    assert ComparesAt(s, 0, |s| - |m.second|, m.first);
  }

  lemma ComparesFurther(s: string, i: nat, j: nat, name: string)
    requires s != ""
    ensures ComparesAt(s[1..], i, j, name) <==> ComparesAt(s, i + 1, j + 1, name)
  {
    hide Comparison;
    if i <= j <= |s| - 1 {
      assert s[1..][i..j] == s[i + 1..j + 1];
    }
  }

  lemma ComparisonStarts(s: string, i: nat, j: nat, name: string)
    ensures ComparesAt(s, i, j, name) ==> i < |s| && s[i] == 'e'
  {
    if ComparesAt(s, i, j, name) {
      var a, b :| ComparisonSpaced(s[i..j], name, a, b);
      assert ("effect.kind" + a + "==" + b + "\"" + name + "\"")[0] == 'e';
      assert s[i..j][0] == s[i];
    }
  }

  lemma EmptyIsNoComparison()
    ensures forall i: nat, j: nat, name :: !ComparesAt("", i, j, name)
  {
    hide Comparison;
    forall i: nat, j: nat, name ensures !ComparesAt("", i, j, name) {
      ComparisonStarts("", i, j, name);
    }
  }

  lemma HereOrBehind(s: string, i: nat, j: nat, name: string)
    requires s != "" && ComparesAt(s, i, j, name)
    ensures ComparisonAt(s).Some? || (i > 0 && j > 0 && ComparesAt(s[1..], i - 1, j - 1, name))
  {
    hide Comparison, ComparisonAt;
    if i == 0 {
      MatchesWhereItStands(s, j, name);
    } else {
      ComparesFurther(s, i - 1, j - 1, name);
    }
  }

  /** Nothing is found exactly if no comparison stands in the text. */
  lemma {:induction false} NothingFoundIff(s: string)
    ensures FindAll(s) == [] <==> forall i: nat, j: nat, name :: !ComparesAt(s, i, j, name)
    decreases |s|
  {
    hide ComparisonAt, ComparesAt;
    if s == "" {
      EmptyIsNoComparison();
    } else if ComparisonAt(s).Some? {
      MatchStands(s);
    } else {
      NothingFoundIff(s[1..]);
      if FindAll(s) == [] {
        forall i: nat, j: nat, name ensures !ComparesAt(s, i, j, name) {
          if ComparesAt(s, i, j, name) {
            HereOrBehind(s, i, j, name);
          }
        }
      } else {
        var i: nat, j: nat, name :| ComparesAt(s[1..], i, j, name);
        ComparesFurther(s, i, j, name);
      }
    }
  }

  lemma NotMatchedHere(s: string, i: nat)
    requires s != "" && i > 0 && forall h: nat, e: nat, other :: h < i ==> !ComparesAt(s, h, e, other)
    ensures ComparisonAt(s).None?
    ensures forall h: nat, e: nat, other :: h < i - 1 ==> !ComparesAt(s[1..], h, e, other)
  {
    hide ComparisonAt, ComparesAt;
    if ComparisonAt(s).Some? {
      MatchStands(s);
    }
    forall h: nat, e: nat, other | h < i - 1 ensures !ComparesAt(s[1..], h, e, other) {
      ComparesFurther(s, h, e, other);
    }
  }

  /** The leftmost comparison is found first, and the search goes on right behind it. */
  lemma {:induction false} LeftmostIsFound(s: string, i: nat, j: nat, name: string)
    requires ComparesAt(s, i, j, name)
    requires forall h: nat, e: nat, other :: h < i ==> !ComparesAt(s, h, e, other)
    ensures j <= |s| && FindAll(s) == [name] + FindAll(s[j..])
    decreases |s|
  {
    hide ComparisonAt, Comparison;
    ComparisonStarts(s, i, j, name);
    if i == 0 {
      MatchesWhereItStands(s, j, name);
    } else {
      NotMatchedHere(s, i);
      ComparesFurther(s, i - 1, j - 1, name);
      LeftmostIsFound(s[1..], i - 1, j - 1, name);
      assert s[1..][j - 1..] == s[j..];
    }
  }

  function ConditionFor(name: string): string {
    "effect.kind == " + Quote(name)
  }

  /** The documented condition enrolls exactly the name it compares with. */
  lemma ConditionEnrolls(name: string)
    requires name != "" && '"' !in name
    ensures FindAll(ConditionFor(name)) == [name]
  {
    hide ComparisonAt, Comparison;
    var s := ConditionFor(name);
    ConditionCompares(name);
    assert s[0..|s|] == s && s[|s|..] == "";
    LeftmostIsFound(s, 0, |s|, name);
  }

  lemma ConditionCompares(name: string)
    requires name != "" && '"' !in name
    ensures Comparison(ConditionFor(name), name)
  {
    SpaceIsSpace();
    assert ComparisonSpaced(ConditionFor(name), name, " ", " ");
  }

  /** A condition made of two comparisons enrolls both names. */
  lemma BothEnroll(a: string, b: string)
    requires a != "" && '"' !in a && b != "" && '"' !in b
    ensures FindAll(ConditionFor(a) + " or " + ConditionFor(b)) == [a, b]
  {
    hide ComparisonAt, Comparison, FindAll;
    var first := ConditionFor(a);
    var rest := " or " + ConditionFor(b);
    var s := first + rest;
    assert first + " or " + ConditionFor(b) == s;
    ConditionCompares(a);
    assert s[0..|first|] == first && s[|first|..] == rest;
    LeftmostIsFound(s, 0, |first|, a);
    ConditionCompares(b);
    assert rest[4..|rest|] == ConditionFor(b) && rest[|rest|..] == "";
    forall h: nat, e: nat, other | h < 4 ensures !ComparesAt(rest, h, e, other) {
      ComparisonStarts(rest, h, e, other);
    }
    LeftmostIsFound(rest, 4, |rest|, b);
    EmptyIsNoComparison();
    NothingFoundIff("");
  }

  lemma PlainStarts()
    ensures !IsSpace('=') && !IsSpace('"')
  {
  }

  // ----- Lowering ----------------------------------------------------------------------------

  ghost function Names(capabilities: seq<Capability>): set<string> {
    set k | 0 <= k < |capabilities| :: capabilities[k].name
  }

  ghost function Enrolled(approvals: seq<Approval>): set<string> {
    set k, c | 0 <= k < |approvals| && c in FindAll(approvals[k].condition) :: c
  }

  /** Each condition names something, and only capabilities that the scope declares. */
  ghost predicate Recognized(approvals: seq<Approval>, declared: set<string>) {
    forall k :: 0 <= k < |approvals| ==>
      && FindAll(approvals[k].condition) != []
      && forall c :: c in FindAll(approvals[k].condition) ==> c in declared
  }

  ghost predicate Lowerable(r: ScopeRecord, limits: Limits) {
    && r.body.capabilities != []
    && "" !in Names(r.body.capabilities)
    && Recognized(r.body.approvals, Names(r.body.capabilities))
    && limits.maxEffects >= 0
    && (limits.maxEffects > 0 ==> limits.rateWindow > 0.0)
    && r.scopeId != ""
    && limits.maxBytes > 0
  }

  /** Some rule's condition names this kind. */
  ghost predicate NamedByRule(kind: string, approvals: seq<Approval>) {
    exists k :: 0 <= k < |approvals| && kind in FindAll(approvals[k].condition)
  }

  /**
   * The scope is the one that a record stands for: it declares the record's capabilities, gates exactly
   * the kinds that are listed or that a rule names, and has the record's own id and limits.
   */
  ghost predicate StandsFor(s: Records.Scope, r: ScopeRecord, limits: Limits) {
    && s.scopeId == r.scopeId
    && (forall name :: name in s.capabilities <==>
          exists k :: 0 <= k < |r.body.capabilities| && r.body.capabilities[k].name == name)
    && (forall kind :: kind in s.approvalRequiredFor <==>
          kind in limits.approvalRequiredFor || NamedByRule(kind, r.body.approvals))
    && s.maxBytes == limits.maxBytes
    && s.maxEffectsPerWindow == limits.maxEffects && s.rateWindowSeconds == limits.rateWindow
  }

  /** The first thing that is wrong with a record. */
  ghost predicate WrongWith(e: LoweringError, r: ScopeRecord, limits: Limits) {
    var named := r.body.capabilities != [] && "" !in Names(r.body.capabilities);
    var sound := named && Recognized(r.body.approvals, Names(r.body.capabilities));
    match e
    case NoCapabilities => r.body.capabilities == []
    case EmptyCapabilityName => "" in Names(r.body.capabilities)
    case UnrecognizedCondition =>
      named && exists k :: 0 <= k < |r.body.approvals| && FindAll(r.body.approvals[k].condition) == []
    case UndeclaredCapability =>
      named && exists kind :: NamedByRule(kind, r.body.approvals) && kind !in Names(r.body.capabilities)
    case BadBudget => sound && limits.maxEffects < 0
    case BadWindow => sound && limits.maxEffects > 0 && limits.rateWindow <= 0.0
    case EmptyScopeId =>
      && sound && limits.maxEffects >= 0 && (limits.maxEffects > 0 ==> limits.rateWindow > 0.0)
      && r.scopeId == ""
    case BadMaxBytes =>
      && sound && limits.maxEffects >= 0 && (limits.maxEffects > 0 ==> limits.rateWindow > 0.0)
      && r.scopeId != "" && limits.maxBytes <= 0
  }

  method ScopeFromRecord(r: ScopeRecord, limits: Limits) returns (result: Result<Records.Scope, LoweringError>)
    ensures result.Ok? <==> Lowerable(r, limits)
    ensures result.Ok? ==> StandsFor(result.value, r, limits)
    ensures result.Err? ==> WrongWith(result.error, r, limits)
  {
    hide FindAll;
    if r.body.capabilities == [] {
      return Err(NoCapabilities);
    }
    var capabilities: set<string> := {};
    for n := 0 to |r.body.capabilities|
      invariant capabilities == Names(r.body.capabilities[..n]) && "" !in capabilities
    {
      var name := r.body.capabilities[n].name;
      OneMoreName(r.body.capabilities, n);
      if name == "" {
        NamesOfPrefix(r.body.capabilities, n + 1);
        return Err(EmptyCapabilityName);
      }
      capabilities := capabilities + {name};
    }
    assert r.body.capabilities[..|r.body.capabilities|] == r.body.capabilities;
    var required := set c | c in limits.approvalRequiredFor;
    var approvals := r.body.approvals;
    for n := 0 to |approvals|
      invariant required == (set c | c in limits.approvalRequiredFor) + Enrolled(approvals[..n])
      invariant Recognized(approvals[..n], capabilities)
    {
      var named := FindAll(approvals[n].condition);
      if named == [] {
        return Err(UnrecognizedCondition);
      }
      OneMoreApproval(approvals, n);
      for k := 0 to |named|
        invariant forall j :: 0 <= j < k ==> named[j] in capabilities
      {
        if named[k] !in capabilities {
          assert NamedByRule(named[k], approvals);
          return Err(UndeclaredCapability);
        }
      }
      required := required + set c | c in named;
      assert Recognized(approvals[..n + 1], capabilities);
    }
    assert approvals[..|approvals|] == approvals;
    if limits.maxEffects < 0 {
      return Err(BadBudget);
    }
    if limits.maxEffects > 0 && limits.rateWindow <= 0.0 {
      return Err(BadWindow);
    }
    if r.scopeId == "" {
      return Err(EmptyScopeId);
    }
    if limits.maxBytes <= 0 {
      return Err(BadMaxBytes);
    }
    return Ok(Records.Scope(r.scopeId, capabilities, required, limits.maxBytes, limits.maxEffects, limits.rateWindow));
  }

  lemma OneMoreName(capabilities: seq<Capability>, n: nat)
    requires n < |capabilities|
    ensures Names(capabilities[..n + 1]) == Names(capabilities[..n]) + {capabilities[n].name}
  {
    var more := capabilities[..n + 1];
    assert more[n] == capabilities[n];
    assert forall k :: 0 <= k < n ==> more[k] == capabilities[..n][k];
    forall name | name in Names(capabilities[..n]) ensures name in Names(more) {
      var k :| 0 <= k < n && capabilities[..n][k].name == name;
      assert more[k].name == name;
    }
  }

  lemma NamesOfPrefix(capabilities: seq<Capability>, n: nat)
    requires n <= |capabilities|
    ensures Names(capabilities[..n]) <= Names(capabilities)
  {
    forall name | name in Names(capabilities[..n]) ensures name in Names(capabilities) {
      var k :| 0 <= k < n && capabilities[..n][k].name == name;
      assert capabilities[k].name == name;
    }
  }

  lemma OneMoreApproval(approvals: seq<Approval>, n: nat)
    requires n < |approvals|
    ensures Enrolled(approvals[..n + 1]) == Enrolled(approvals[..n]) + set c | c in FindAll(approvals[n].condition)
  {
    hide FindAll;
    var more := approvals[..n + 1];
    assert more[n] == approvals[n];
    assert forall k :: 0 <= k < n ==> more[k] == approvals[..n][k];
  }

  // ----- From the text of a policy to the gate -----------------------------------------------

  /**
   * Take any record and any limits, and the scope that they lower to. Whenever a request of an effect of
   * a kind that is listed, or that an approval rule names, changes a ledger or the world, or authorizes an
   * outside actor, the caller brought a decision that had cleared the gate for that very intent: an
   * approval, or a record that says none is required.
   */
  lemma GatedKindsNeedDecisions(
    r: ScopeRecord, limits: Limits, scope: Records.Scope, mode: Dispatch.Mode, proposal: Records.Proposal,
    approval: Option<Records.Approval>, oracle: Evaluator.Oracle, st: Evaluator.Store)
    requires StandsFor(scope, r, limits)
    ensures
      var out := Dispatch.Evaluated(Dispatch.Request(mode, scope, proposal, approval, oracle), st);
      && oracle.preparation.Prepared?
      && (oracle.preparation.effectKind in limits.approvalRequiredFor
          || NamedByRule(oracle.preparation.effectKind, r.body.approvals))
      && (out.store != st || Runs.Authorized(out)) ==>
        && proposal.intent.Some? && approval.Some?
        && approval.value.status in {Records.Approved, Records.NotRequired}
        && Records.Cleared(scope, proposal.intent.value, approval.value, oracle.now)
  {
    hide NamedByRule, Dispatch.Evaluated, Runs.Authorized;
    var d := Dispatch.ChangeNeedsClearedDecision(Dispatch.Request(mode, scope, proposal, approval, oracle), st);
  }

  /**
   * So does an approval rule that is written in the text of a policy: wherever the condition of an
   * accepted rule compares with a kind, before any other comparison, that kind is gated.
   */
  lemma ApprovalRuleReachesTheGate(
    text: string, limits: Limits, scope: Records.Scope, k: nat, i: nat, j: nat, mode: Dispatch.Mode,
    proposal: Records.Proposal, approval: Option<Records.Approval>, oracle: Evaluator.Oracle, st: Evaluator.Store)
    requires Parse(text).Ok? && StandsFor(scope, Parse(text).value, limits) && k < |Parse(text).value.body.approvals|
    requires oracle.preparation.Prepared?
    requires
      var condition := Parse(text).value.body.approvals[k].condition;
      && ComparesAt(condition, i, j, oracle.preparation.effectKind)
      && forall h: nat, e: nat, other :: h < i ==> !ComparesAt(condition, h, e, other)
    ensures
      var out := Dispatch.Evaluated(Dispatch.Request(mode, scope, proposal, approval, oracle), st);
      out.store != st || Runs.Authorized(out) ==>
        && proposal.intent.Some? && approval.Some?
        && approval.value.status in {Records.Approved, Records.NotRequired}
        && Records.Cleared(scope, proposal.intent.value, approval.value, oracle.now)
  {
    hide Parse, Dispatch.Evaluated, Runs.Authorized, Records.Cleared, StandsFor, ComparesAt, FindAll;
    var r := Parse(text).value;
    LeftmostIsFound(r.body.approvals[k].condition, i, j, oracle.preparation.effectKind);
    assert oracle.preparation.effectKind in FindAll(r.body.approvals[k].condition);
    assert NamedByRule(oracle.preparation.effectKind, r.body.approvals);
    GatedKindsNeedDecisions(r, limits, scope, mode, proposal, approval, oracle, st);
  }

  /**
   * A declared capability can be gated by a rule in a policy text exactly if its name holds no quote:
   * then the printed rule is read back and enrolls just that name; otherwise no rule at all enrolls it.
   */
  lemma GateableIff(r: ScopeRecord, k: nat)
    requires WellFormed(r) && k < |r.body.capabilities|
    ensures
      var name := r.body.capabilities[k].name;
      var gated := r.(body := r.body.(approvals := [Approval("performer", ConditionFor(name))]));
      if '"' !in name then Parse(Print(gated)) == Ok(gated) && Enrolled(gated.body.approvals) == {name}
      else forall approvals: seq<Approval> :: name !in Enrolled(approvals)
  {
    hide Parse, Print, WellFormed, Enrolled;
    var name := r.body.capabilities[k].name;
    if '"' !in name {
      var gated := r.(body := r.body.(approvals := [Approval("performer", ConditionFor(name))]));
      GatedIsWellFormed(r, k);
      ParsePrint(gated);
      ConditionEnrolls(name);
      OneRule(gated.body.approvals, name);
    } else {
      forall approvals: seq<Approval> ensures name !in Enrolled(approvals) {
        NoRuleNamesQuote(approvals, name);
      }
    }
  }

  lemma NoRuleNamesQuote(approvals: seq<Approval>, name: string)
    requires '"' in name
    ensures name !in Enrolled(approvals)
  {
    hide FindAll;
    forall k | 0 <= k < |approvals| ensures name !in FindAll(approvals[k].condition) {
      FoundVerbatim(approvals[k].condition, name);
    }
  }

  lemma OneRule(approvals: seq<Approval>, name: string)
    requires |approvals| == 1 && FindAll(approvals[0].condition) == [name]
    ensures Enrolled(approvals) == {name}
  {
    hide FindAll;
    assert name in FindAll(approvals[0].condition);
  }

  lemma GatedIsWellFormed(r: ScopeRecord, k: nat)
    requires WellFormed(r) && k < |r.body.capabilities| && '"' !in r.body.capabilities[k].name
    ensures
      var name := r.body.capabilities[k].name;
      && name != ""
      && WellFormed(r.(body := r.body.(approvals := [Approval("performer", ConditionFor(name))])))
  {
    hide Condition, GoodResource, GoodCapability, GoodPolicy, AuditFields, Identifier, ConditionFor;
    NameCanBeCondition(r.body.capabilities[k]);
  }

  lemma NameCanBeCondition(c: Capability)
    requires GoodCapability(c) && '"' !in c.name
    ensures c.name != "" && Condition(ConditionFor(c.name))
  {
    hide Condition, Clean, Quotable, GoodCapability, Word, AfterWord, Quoted, Unquote, GoodWord;
    NameIsQuotable(c);
    QuoteReads(c.name);
    SubjectIsGood();
    ThenReads("==", Quote(c.name));
    ThenReads(SUBJECT, Then("==", Quote(c.name)));
    assert ConditionFor(c.name) == Then(SUBJECT, Then("==", Quote(c.name)));
  }

  lemma NameIsQuotable(c: Capability)
    requires GoodCapability(c) && '"' !in c.name
    ensures c.name != "" && Quotable(c.name)
  {
    hide NoComment, NoLineBreak, NoSpace;
    assert GoodWord(c.name);
    GoodWordIsClean(c.name);
  }

  lemma SubjectIsGood()
    ensures GoodWord(SUBJECT) && GoodWord("==")
  {
  }
}
