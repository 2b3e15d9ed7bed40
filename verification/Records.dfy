/**
 * The records of the runtime (`runtime_ir.py`) and the approval gate.
 *
 * A SHA-256 digest is modelled as the canonical value it was taken of, so two digests are
 * equal exactly when the hashed values are. Clocks and identifiers are arguments.
 */
module Records {
  import opened Wrappers

  /** JSON values, as far as the runtime looks at them. */
  datatype Json =
    | Null
    | Str(text: string)
    | Num(number: int)
    | Arr(items: seq<Json>)
    | Obj(fields: map<string, Json>)

  datatype Custody = RecordOnly | Execute

  datatype Intent = Intent(
    intentId: string,
    proposalId: string,
    adapter: string,
    operation: string,
    target: Json,
    input: Json,
    requiredCapability: string,
    idempotencyKey: Option<string>,
    custodyMode: Option<Custody>)
  {
    /** The key is used only when it is present and not empty (a falsy string is "no key"). */
    predicate HasKey() {
      idempotencyKey.Some? && idempotencyKey.value != ""
    }

    predicate IsRecordOnly() {
      custodyMode == Some(RecordOnly)
    }
  }

  datatype SpeechAct = Need | Claim | Doubt | Intend | Remember | Boundary

  datatype Proposal = Proposal(
    proposalId: string,
    actor: string,
    speechAct: SpeechAct,
    evidence: seq<string>,
    intent: Option<Intent>)

  datatype Scope = Scope(
    scopeId: string,
    capabilities: set<string>,
    approvalRequiredFor: set<string>,
    maxBytes: int,
    maxEffectsPerWindow: int,
    rateWindowSeconds: real)

  // ----- Hashes --------------------------------------------------------------------------

  datatype IntentField =
    | FIntentId | FProposalId | FAdapter | FOperation | FTarget | FInput | FCapability | FKey | FCustody

  datatype Digest =
    | OfIntent(fields: map<IntentField, Json>)
    | OfText(text: string)

  function CustodyName(c: Custody): string {
    match c
    case RecordOnly => "record_only"
    case Execute => "execute"
  }

  /** The canonical record of an intent: the two optional fields are left out when unset. */
  function CanonicalIntent(i: Intent): map<IntentField, Json> {
    map[FIntentId := Str(i.intentId),
        FProposalId := Str(i.proposalId),
        FAdapter := Str(i.adapter),
        FOperation := Str(i.operation),
        FTarget := i.target,
        FInput := i.input,
        FCapability := Str(i.requiredCapability)]
    + (if i.idempotencyKey.Some? then map[FKey := Str(i.idempotencyKey.value)] else map[])
    + (if i.custodyMode.Some? then map[FCustody := Str(CustodyName(i.custodyMode.value))] else map[])
  }

  function IntentSha256(i: Intent): Digest {
    OfIntent(CanonicalIntent(i))
  }

  /** Dropping unset fields loses nothing: equal hashes mean equal intents, custody and key included. */
  lemma IntentHashInjective(a: Intent, b: Intent)
    ensures IntentSha256(a) == IntentSha256(b) <==> a == b
  {
    FieldsRecovered(a);
    FieldsRecovered(b);
  }

  /** Every field of an intent can be read back from its canonical record. */
  lemma FieldsRecovered(i: Intent)
    ensures
      var c := CanonicalIntent(i);
      && {FIntentId, FProposalId, FAdapter, FOperation, FTarget, FInput, FCapability} <= c.Keys
      && i == Intent(
        TextOf(c[FIntentId]), TextOf(c[FProposalId]), TextOf(c[FAdapter]), TextOf(c[FOperation]),
        c[FTarget], c[FInput], TextOf(c[FCapability]),
        if FKey in c then Some(TextOf(c[FKey])) else None,
        if FCustody !in c then None else if c[FCustody] == Str("execute") then Some(Execute) else Some(RecordOnly))
  {
    assert CustodyName(RecordOnly)[0] != CustodyName(Execute)[0];
  }

  function TextOf(j: Json): string {
    if j.Str? then j.text else ""
  }

  // ----- Approval ------------------------------------------------------------------------

  datatype ApprovalStatus = NotRequired | Requested | Approved | Denied | Expired

  datatype ApprovalAuthority = Performer | Council | RuntimeAuthority | NoAuthority

  datatype Expiry = Never | Unparseable | At(time: real)

  datatype Approval = Approval(
    status: ApprovalStatus,
    authority: ApprovalAuthority,
    approvalId: Option<string>,
    approver: Option<string>,
    decidedAt: Option<string>,
    expiresAt: Expiry,
    scopeId: Option<string>,
    intentId: Option<string>,
    intentSha256: Option<Digest>,
    reason: Option<string>)

  datatype Reason =
    | ProposalIsNotAnIntent
    | UnsupportedAdapterOperation
    | UnsupportedAdapterForInterpret
    | UnsupportedCapabilityForOperation
    | MissingCapability
    | TargetMissingOrNotString
    | InputMissingOrNotObject
    | AdapterCommitFailed
    | IdempotencyKeyConflict
    | ScopeRateLimitExceeded
    | ApprovalDenied
    | ApprovalExpired
    | ApprovalScopeMismatch
    | ApprovalIntentMismatch
    | ApprovalIntentHashMismatch
    | ApprovalNotDecided
    | ApprovalUnbound
    | AdapterReason(code: string)

  function MakeApprovalDecision(
    scope: Scope, intent: Intent, approver: string, status: ApprovalStatus,
    authority: ApprovalAuthority, approvalId: string, decidedAt: string, expiresAt: Expiry, reason: Option<string>)
    : Approval
  {
    Approval(status, authority, Some(approvalId), Some(approver), Some(decidedAt), expiresAt,
             Some(scope.scopeId), Some(intent.intentId), Some(IntentSha256(intent)), reason)
  }

  function ApprovalFor(
    scope: Scope, intent: Intent, effectKind: string, approval: Option<Approval>, granted: bool,
    approvalId: string, stamp: string)
    : Approval
  {
    if approval.Some? then
      approval.value
    else if effectKind in scope.approvalRequiredFor && !granted then
      Approval(Requested, Performer, None, None, None, Never, Some(scope.scopeId), Some(intent.intentId),
               Some(IntentSha256(intent)), Some("approval_required_before_commit"))
    else if effectKind in scope.approvalRequiredFor then
      MakeApprovalDecision(scope, intent, "legacy:approval_granted", Approved, Performer, approvalId, stamp, Never,
                           Some("legacy_boolean_approval_granted"))
    else
      Approval(NotRequired, RuntimeAuthority, None, None, Some(stamp), Never, Some(scope.scopeId),
               Some(intent.intentId), Some(IntentSha256(intent)), None)
  }

  /** Why a decision does not clear the gate, or None when it does. */
  function ApprovalRejectionReason(scope: Scope, intent: Intent, a: Approval, now: real): Option<Reason> {
    if a.scopeId.Some? && a.scopeId.value != scope.scopeId then Some(ApprovalScopeMismatch)
    else if a.intentId.Some? && a.intentId.value != intent.intentId then Some(ApprovalIntentMismatch)
    else if a.intentSha256.Some? && a.intentSha256.value != IntentSha256(intent) then Some(ApprovalIntentHashMismatch)
    else if a.status == Denied then Some(ApprovalDenied)
    else if a.status == Expired then Some(ApprovalExpired)
    else if a.status == Requested then Some(ApprovalNotDecided)
    else if a.status == Approved && a.intentId.None? && a.intentSha256.None? then Some(ApprovalUnbound)
    else match a.expiresAt
      case Never => None
      case Unparseable => Some(ApprovalExpired)
      case At(t) => if t <= now then Some(ApprovalExpired) else None
  }

  predicate Cleared(scope: Scope, intent: Intent, a: Approval, now: real) {
    ApprovalRejectionReason(scope, intent, a, now).None?
  }

  /**
   * Without a record the runtime makes its own: a request where an approval is required and not granted,
   * a release otherwise, always bound to the scope, the intent and the intent's hash.
   */
  lemma OwnDecisionIsBound(
    scope: Scope, intent: Intent, kind: string, approval: Option<Approval>, granted: bool,
    approvalId: string, stamp: string)
    ensures
      var d := ApprovalFor(scope, intent, kind, approval, granted, approvalId, stamp);
      if approval.Some? then d == approval.value
      else
        && d.scopeId == Some(scope.scopeId) && d.intentId == Some(intent.intentId)
        && d.intentSha256 == Some(IntentSha256(intent)) && d.expiresAt == Never
        && (d.status == Requested <==> kind in scope.approvalRequiredFor && !granted)
        && (d.status == Approved <==> kind in scope.approvalRequiredFor && granted)
        && (d.status == NotRequired <==> kind !in scope.approvalRequiredFor)
        && (d.authority == RuntimeAuthority <==> d.status == NotRequired)
  {
  }

  /** What is bound, if it is bound, is bound to this scope and this intent. */
  predicate BoundTo(scope: Scope, intent: Intent, a: Approval) {
    && (a.scopeId.None? || a.scopeId.value == scope.scopeId)
    && (a.intentId.None? || a.intentId.value == intent.intentId)
    && (a.intentSha256.None? || a.intentSha256.value == IntentSha256(intent))
  }

  predicate PastExpiry(a: Approval, now: real) {
    match a.expiresAt
    case Never => false
    case Unparseable => true
    case At(t) => t <= now
  }

  /**
   * When the gate opens, and why it does not: the bindings are looked at first, then the status, then
   * whether an approval is bound to any intent at all, and the expiry last.
   */
  lemma GateDecides(scope: Scope, intent: Intent, a: Approval, now: real)
    ensures
      var reason := ApprovalRejectionReason(scope, intent, a, now);
      var bound := BoundTo(scope, intent, a);
      var unbound := a.status == Approved && a.intentId.None? && a.intentSha256.None?;
      && (reason.None? <==> bound && a.status in {Approved, NotRequired} && !unbound && !PastExpiry(a, now))
      && (reason == Some(ApprovalScopeMismatch) <==> a.scopeId.Some? && a.scopeId.value != scope.scopeId)
      && (reason == Some(ApprovalIntentMismatch) <==>
            && (a.scopeId.None? || a.scopeId.value == scope.scopeId)
            && a.intentId.Some? && a.intentId.value != intent.intentId)
      && (reason == Some(ApprovalIntentHashMismatch) <==>
            && (a.scopeId.None? || a.scopeId.value == scope.scopeId)
            && (a.intentId.None? || a.intentId.value == intent.intentId)
            && a.intentSha256.Some? && a.intentSha256.value != IntentSha256(intent))
      && (reason == Some(ApprovalDenied) <==> bound && a.status == Denied)
      && (reason == Some(ApprovalNotDecided) <==> bound && a.status == Requested)
      && (reason == Some(ApprovalUnbound) <==> bound && unbound)
      && (reason == Some(ApprovalExpired) <==>
            bound && (a.status == Expired || (a.status in {Approved, NotRequired} && !unbound && PastExpiry(a, now))))
  {
  }

  /**
   * A recorded decision releases one intent in one scope: of all intents and scopes it clears
   * only the pair it was made for, and that pair exactly when it says yes and has not expired.
   */
  lemma DecisionReleasesOneIntent(
    scope: Scope, intent: Intent, approver: string, status: ApprovalStatus, authority: ApprovalAuthority,
    approvalId: string, decidedAt: string, expiresAt: Expiry, reason: Option<string>,
    otherScope: Scope, other: Intent, now: real)
    ensures
      var d := MakeApprovalDecision(scope, intent, approver, status, authority, approvalId, decidedAt, expiresAt,
        reason);
      Cleared(otherScope, other, d, now)
      <==>
      && otherScope.scopeId == scope.scopeId
      && other == intent
      && status in {Approved, NotRequired}
      && (expiresAt == Never || (expiresAt.At? && now < expiresAt.time))
  {
    IntentHashInjective(intent, other);
  }

  /**
   * An "approved" record that clears two different intents was bound by intent id alone, and the
   * two intents share that id: this is the whole family the hash binding would have shut out.
   */
  lemma ApprovalClearsTwoIntentsOnlyById(scope: Scope, a: Intent, b: Intent, d: Approval, now: real)
    requires a != b && d.status == Approved
    ensures Cleared(scope, a, d, now) && Cleared(scope, b, d, now)
      <==>
      && (d.scopeId.None? || d.scopeId.value == scope.scopeId)
      && d.intentSha256.None?
      && d.intentId == Some(a.intentId)
      && a.intentId == b.intentId
      && (d.expiresAt == Never || (d.expiresAt.At? && now < d.expiresAt.time))
  {
    IntentHashInjective(a, b);
  }

  /**
   * What the gate guarantees about the decision that cleared it. For a kind that requires approval
   * it was either an actual approval or a "not required" record that the caller brought along.
   */
  lemma ClearedDecisionForRequiredKind(
    scope: Scope, intent: Intent, kind: string, approval: Option<Approval>, granted: bool,
    approvalId: string, stamp: string, now: real)
    requires kind in scope.approvalRequiredFor
    ensures
      var d := ApprovalFor(scope, intent, kind, approval, granted, approvalId, stamp);
      && (Cleared(scope, intent, d, now) && d.status != Approved
          <==> approval.Some? && approval.value.status == NotRequired && Cleared(scope, intent, approval.value, now))
      && (approval.None? ==> (Cleared(scope, intent, d, now) <==> granted))
  {
  }
}
