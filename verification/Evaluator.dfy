/**
 * The shared evaluator (`runtime_core.py`): admission, lock, replay or conflict check, prepare,
 * approval, rate budget, custody stop or adapter commit, idempotency record, rate record.
 *
 * `Evaluate` says what one evaluation does to the persistent ledgers, which effect it returns and
 * which trace it leaves; `Sandbox` is the runtime that updates its ledgers in place. Everything the
 * runtime does not decide (clocks, identifiers, I/O failures, what the adapter answers) is in an
 * `Oracle`, so a statement about all oracles is a statement about all of these.
 */
module Evaluator {
  import opened Wrappers
  import opened Records
  import opened RateBudget

  // ----- Results and traces --------------------------------------------------------------

  datatype EffectState = StateApproved | StateCommitted | StateRejected | StatePaused

  datatype Effect = Effect(
    state: EffectState,
    traceId: string,
    effectId: string,
    intentId: Option<string>,
    scopeId: string,
    acknowledgement: Option<Json>,
    verification: Option<Json>,
    approval: Option<Approval>,
    rejectionReason: Option<Reason>,
    requiredInput: Option<string>,
    committedAt: Option<string>,
    custodyMode: Option<Custody>)

  datatype Event =
    | ProposalReceived
    | IntentCreated
    | CustodyDeclared(mode: Custody)
    | IdempotencyConflict
    | IdempotentReplay(effectId: string)
    | PolicyChecked
    | DryRunRendered
    | ApprovalRequested
    | ApprovalRejected
    | ApprovalGranted
    | RateLimited(recent: nat)
    | CustodyRecordOnly(effectId: string)
    | CommitStarted
    | AdapterNote(note: string)
    | EffectCommitted(evidence: Evidence)
    | IdempotencyRecordFailed
    | RateRecordFailed
    | EffectRejected(reason: Reason)
    | EffectPaused

  /** What an adapter returns from a commit that it verified. */
  datatype Evidence = Evidence(acknowledgement: Json, verification: Json, committedAt: string)

  datatype Adapter = Adapter(adapter: string, operation: string, capability: string)

  datatype Preparation = Prepared(effectKind: string) | PrepareRefused(reason: Reason)

  /** A refused commit traces the adapter's own notes before the rejection. */
  datatype Commit = Wrote(evidence: Evidence) | CommitRefused(notes: seq<string>, reason: Reason)

  datatype Oracle = Oracle(
    traceId: string,
    freshId: string,
    approvalId: string,
    stamp: string,
    now: real,
    lockFails: bool,
    lookupFails: bool,
    preparation: Preparation,
    rateNow: real,
    rateReadFails: bool,
    commit: Commit,
    idempotencyWriteFails: bool,
    rateWriteFails: bool)

  datatype Call = Call(
    proposal: Proposal,
    adapter: Adapter,
    approval: Option<Approval>,
    approvalGranted: bool,
    stopAtApproval: bool,
    oracle: Oracle)

  // ----- Persistent state ----------------------------------------------------------------

  datatype IdemRecord = IdemRecord(scopeId: string, key: string, intentSha256: Digest, effect: Effect)

  /** One call of `adapter.commit`; `wrote` tells whether it returned evidence. */
  datatype AdapterCall = AdapterCall(intent: Intent, wrote: bool)

  datatype Store = Store(idem: seq<IdemRecord>, rate: seq<RateLine>, calls: seq<AdapterCall>)

  const EMPTY_STORE := Store([], [], [])

  /** The latest record under (scope, key). */
  function LastEntry(idem: seq<IdemRecord>, scopeId: string, key: string): (found: Option<IdemRecord>)
    ensures found.Some? ==> found.value in idem && found.value.scopeId == scopeId && found.value.key == key
    ensures found.None? ==> forall r :: r in idem ==> r.scopeId != scopeId || r.key != key
  {
    if idem == [] then None
    else
      var last := idem[|idem| - 1];
      assert idem == idem[..|idem| - 1] + [last];
      if last.scopeId == scopeId && last.key == key then Some(last)
      else LastEntry(idem[..|idem| - 1], scopeId, key)
  }

  // ----- One evaluation ------------------------------------------------------------------

  datatype Outcome = Outcome(store: Store, effect: Effect, events: seq<Event>)

  function EffectId(o: Oracle): string {
    "effect_" + o.freshId
  }

  function Bare(state: EffectState, scope: Scope, o: Oracle, intentId: Option<string>): Effect {
    Effect(state, o.traceId, EffectId(o), intentId, scope.scopeId, None, None, None, None, None, None, None)
  }

  function RejectedEffect(
    scope: Scope, o: Oracle, intentId: Option<string>, reason: Reason, approval: Option<Approval>): Effect
  {
    Bare(StateRejected, scope, o, intentId).(rejectionReason := Some(reason), approval := approval)
  }

  function PausedEffect(scope: Scope, o: Oracle, intentId: string, approval: Approval): Effect {
    Bare(StatePaused, scope, o, Some(intentId)).(requiredInput := Some("approval_decision"), approval := Some(approval))
  }

  function ApprovedEffect(scope: Scope, o: Oracle, i: Intent, approval: Approval): Effect {
    Bare(StateApproved, scope, o, Some(i.intentId)).(approval := Some(approval), custodyMode := i.custodyMode)
  }

  function CommittedEffect(scope: Scope, o: Oracle, i: Intent, approval: Approval, e: Evidence): Effect {
    Bare(StateCommitted, scope, o, Some(i.intentId)).(
      acknowledgement := Some(e.acknowledgement), verification := Some(e.verification),
      approval := Some(approval), committedAt := Some(e.committedAt), custodyMode := i.custodyMode)
  }

  function ReplayedEffect(scope: Scope, o: Oracle, i: Intent, prior: Effect): Effect {
    Bare(StateCommitted, scope, o, Some(i.intentId)).(
      effectId := if prior.effectId != "" then prior.effectId else EffectId(o),
      acknowledgement := prior.acknowledgement, verification := prior.verification,
      approval := prior.approval, committedAt := prior.committedAt)
  }

  function Rejected(
    scope: Scope, o: Oracle, intentId: Option<string>, reason: Reason, approval: Option<Approval>,
    st: Store, events: seq<Event>): Outcome
  {
    Outcome(st, RejectedEffect(scope, o, intentId, reason, approval), events + [EffectRejected(reason)])
  }

  /** Why an intent is not admitted to this adapter under this scope. */
  function AdmissionRejection(scope: Scope, i: Intent, a: Adapter): Option<Reason> {
    if i.adapter != a.adapter || i.operation != a.operation then Some(UnsupportedAdapterOperation)
    else if i.requiredCapability != a.capability then Some(UnsupportedCapabilityForOperation)
    else if a.capability !in scope.capabilities then Some(MissingCapability)
    else if !i.target.Str? then Some(TargetMissingOrNotString)
    else if !i.input.Obj? then Some(InputMissingOrNotObject)
    else None
  }

  function Opening(i: Intent): seq<Event> {
    [ProposalReceived, IntentCreated] + (if i.custodyMode.Some? then [CustodyDeclared(i.custodyMode.value)] else [])
  }

  /** The whole evaluation; every terminal effect carries the custody the intent declared. */
  function Evaluate(scope: Scope, c: Call, st: Store): Outcome {
    var inner := EvaluateUnstamped(scope, c, st);
    inner.(effect := Stamp(c.proposal, inner.effect))
  }

  function Stamp(p: Proposal, e: Effect): Effect {
    if p.intent.Some? && e.custodyMode.None? then e.(custodyMode := p.intent.value.custodyMode) else e
  }

  function EvaluateUnstamped(scope: Scope, c: Call, st: Store): Outcome {
    if c.proposal.speechAct != Intend || c.proposal.intent.None? then
      Rejected(scope, c.oracle, None, ProposalIsNotAnIntent, None, st, [ProposalReceived])
    else
      var i := c.proposal.intent.value;
      var admission := AdmissionRejection(scope, i, c.adapter);
      if admission.Some? then
        Rejected(scope, c.oracle, Some(i.intentId), admission.value, None, st, Opening(i))
      else if Keyed(c, i) && c.oracle.lockFails then
        Rejected(scope, c.oracle, Some(i.intentId), AdapterCommitFailed, None, st, Opening(i))
      else
        RunCommittable(scope, c, i, st, Opening(i))
  }

  /** A dry run takes no lock and never looks at the key. */
  predicate Keyed(c: Call, i: Intent) {
    !c.stopAtApproval && i.HasKey()
  }

  function RunCommittable(scope: Scope, c: Call, i: Intent, st: Store, events: seq<Event>): Outcome {
    if Keyed(c, i) then
      var prior := LastEntry(st.idem, scope.scopeId, i.idempotencyKey.value);
      if c.oracle.lookupFails then
        Rejected(scope, c.oracle, Some(i.intentId), AdapterCommitFailed, None, st, events)
      else if prior.None? then
        PrepareAndApprove(scope, c, i, st, events)
      else if prior.value.intentSha256 != IntentSha256(i) then
        Rejected(scope, c.oracle, Some(i.intentId), IdempotencyKeyConflict, None, st, events + [IdempotencyConflict])
      else
        Outcome(st, ReplayedEffect(scope, c.oracle, i, prior.value.effect),
                events + [IdempotentReplay(prior.value.effect.effectId)])
    else
      PrepareAndApprove(scope, c, i, st, events)
  }

  function Decision(scope: Scope, c: Call, i: Intent, kind: string): Approval {
    ApprovalFor(scope, i, kind, c.approval, c.approvalGranted, "approval_" + c.oracle.approvalId, c.oracle.stamp)
  }

  function PrepareAndApprove(scope: Scope, c: Call, i: Intent, st: Store, events: seq<Event>): Outcome {
    match c.oracle.preparation
    case PrepareRefused(reason) => Rejected(scope, c.oracle, Some(i.intentId), reason, None, st, events)
    case Prepared(kind) =>
      Decide(scope, c, i, Decision(scope, c, i, kind), st, events + [PolicyChecked] + [DryRunRendered])
  }

  function Decide(scope: Scope, c: Call, i: Intent, decision: Approval, st: Store, events: seq<Event>): Outcome {
    var gate := ApprovalRejectionReason(scope, i, decision, c.oracle.now);
    if decision.status == Requested then
      Outcome(st, PausedEffect(scope, c.oracle, i.intentId, decision), events + [ApprovalRequested] + [EffectPaused])
    else if gate.Some? then
      Rejected(scope, c.oracle, Some(i.intentId), gate.value, Some(decision), st, events + [ApprovalRejected])
    else if c.stopAtApproval then
      Outcome(st, ApprovedEffect(scope, c.oracle, i, decision), events + [ApprovalGranted])
    else
      Spend(scope, c, i, decision, st, events + [ApprovalGranted])
  }

  /** The rate budget, and then the effect: recorded only, or committed through the adapter. */
  function Spend(scope: Scope, c: Call, i: Intent, decision: Approval, st: Store, events: seq<Event>): Outcome {
    var recent := |Keep(st.rate, c.oracle.rateNow - scope.rateWindowSeconds)|;
    if scope.maxEffectsPerWindow > 0 && c.oracle.rateReadFails then
      Rejected(scope, c.oracle, Some(i.intentId), AdapterCommitFailed, None, st, events)
    else if scope.maxEffectsPerWindow > 0 && recent >= scope.maxEffectsPerWindow then
      Rejected(scope, c.oracle, Some(i.intentId), ScopeRateLimitExceeded, None, st, events + [RateLimited(recent)])
    else if i.IsRecordOnly() then
      RecordRateEntry(scope, c.oracle, st, ApprovedEffect(scope, c.oracle, i, decision),
                      events + [CustodyRecordOnly(EffectId(c.oracle))])
    else
      CommitThroughAdapter(scope, c, i, decision, st, events + [CommitStarted])
  }

  function CommitThroughAdapter(
    scope: Scope, c: Call, i: Intent, decision: Approval, st: Store, events: seq<Event>): Outcome
  {
    match c.oracle.commit
    case CommitRefused(notes, reason) =>
      Rejected(scope, c.oracle, Some(i.intentId), reason, None,
               st.(calls := st.calls + [AdapterCall(i, false)]), events + Notes(notes))
    case Wrote(evidence) =>
      var effect := CommittedEffect(scope, c.oracle, i, decision, evidence);
      var called := st.(calls := st.calls + [AdapterCall(i, true)]);
      var committed := events + [EffectCommitted(evidence)];
      if !i.HasKey() then
        RecordRateEntry(scope, c.oracle, called, effect, committed)
      else if c.oracle.idempotencyWriteFails then
        RecordRateEntry(scope, c.oracle, called, effect, committed + [IdempotencyRecordFailed])
      else
        var record := IdemRecord(scope.scopeId, i.idempotencyKey.value, IntentSha256(i), effect);
        RecordRateEntry(scope, c.oracle, called.(idem := called.idem + [record]), effect, committed)
  }

  function Notes(notes: seq<string>): (events: seq<Event>)
    ensures |events| == |notes| && forall k :: 0 <= k < |notes| ==> events[k] == AdapterNote(notes[k])
  {
    seq(|notes|, k requires 0 <= k < |notes| => AdapterNote(notes[k]))
  }

  function RateEntry(scope: Scope, o: Oracle): RateLine {
    Entry(Some(o.rateNow), scope.scopeId, EffectId(o))
  }

  function RecordRateEntry(scope: Scope, o: Oracle, st: Store, effect: Effect, events: seq<Event>): Outcome {
    if scope.maxEffectsPerWindow <= 0 then
      Outcome(st, effect, events)
    else if o.rateWriteFails then
      Outcome(st, effect, events + [RateRecordFailed])
    else
      Outcome(st.(rate := Keep(st.rate, o.rateNow - scope.rateWindowSeconds) + [RateEntry(scope, o)]), effect, events)
  }

  // ----- The runtime that updates its ledgers in place -------------------------------------

  class Trace {
    const traceId: string
    var events: seq<Event>

    constructor (traceId: string)
      ensures this.traceId == traceId && events == []
    {
      this.traceId := traceId;
      events := [];
    }

    method Add(event: Event)
      modifies this
      ensures events == old(events) + [event]
    {
      events := events + [event];
    }
  }

  class Sandbox {
    const scope: Scope
    var idem: seq<IdemRecord>
    var rate: seq<RateLine>
    var calls: seq<AdapterCall>
    /** The keys whose advisory lock this runtime holds. */
    var locked: set<string>

    constructor (scope: Scope)
      ensures this.scope == scope && Contents() == EMPTY_STORE && locked == {}
    {
      this.scope := scope;
      idem, rate, calls, locked := [], [], [], {};
    }

    ghost function Contents(): Store
      reads this
    {
      Store(idem, rate, calls)
    }

    /** The lock is given back on every path, and the evaluation is the specified one. */
    method EvaluateWithAdapter(c: Call) returns (effect: Effect, trace: Trace)
      requires locked == {}
      modifies this
      ensures fresh(trace) && trace.traceId == c.oracle.traceId
      ensures locked == {}
      ensures Outcome(Contents(), effect, trace.events) == Evaluate(scope, c, old(Contents()))
    {
      trace := new Trace(c.oracle.traceId);
      effect := Run(c, trace);
      if c.proposal.intent.Some? && c.proposal.intent.value.custodyMode.Some? && effect.custodyMode.None? {
        effect := effect.(custodyMode := c.proposal.intent.value.custodyMode);
      }
    }

    method Run(c: Call, trace: Trace) returns (effect: Effect)
      requires locked == {} && trace.events == [] && trace.traceId == c.oracle.traceId
      modifies this, trace
      ensures locked == {}
      ensures Outcome(Contents(), effect, trace.events) == EvaluateUnstamped(scope, c, old(Contents()))
    {
      trace.Add(ProposalReceived);
      if c.proposal.speechAct != Intend || c.proposal.intent.None? {
        effect := Reject(c, trace, None, ProposalIsNotAnIntent, None);
        return;
      }
      var i := c.proposal.intent.value;
      trace.Add(IntentCreated);
      if i.custodyMode.Some? {
        trace.Add(CustodyDeclared(i.custodyMode.value));
      }
      assert trace.events == Opening(i);
      if i.adapter != c.adapter.adapter || i.operation != c.adapter.operation {
        effect := Reject(c, trace, Some(i.intentId), UnsupportedAdapterOperation, None);
        return;
      }
      if i.requiredCapability != c.adapter.capability {
        effect := Reject(c, trace, Some(i.intentId), UnsupportedCapabilityForOperation, None);
        return;
      }
      if c.adapter.capability !in scope.capabilities {
        effect := Reject(c, trace, Some(i.intentId), MissingCapability, None);
        return;
      }
      if !i.target.Str? {
        effect := Reject(c, trace, Some(i.intentId), TargetMissingOrNotString, None);
        return;
      }
      if !i.input.Obj? {
        effect := Reject(c, trace, Some(i.intentId), InputMissingOrNotObject, None);
        return;
      }
      if !c.stopAtApproval && i.HasKey() {
        if c.oracle.lockFails {
          effect := Reject(c, trace, Some(i.intentId), AdapterCommitFailed, None);
          return;
        }
        locked := locked + {i.idempotencyKey.value};
      }
      effect := Committable(c, i, trace);
      locked := {};
    }

    method Reject(c: Call, trace: Trace, intentId: Option<string>, reason: Reason, approval: Option<Approval>)
      returns (effect: Effect)
      requires trace.traceId == c.oracle.traceId
      modifies trace
      ensures trace.events == old(trace.events) + [EffectRejected(reason)]
      ensures effect == RejectedEffect(scope, c.oracle, intentId, reason, approval)
    {
      trace.Add(EffectRejected(reason));
      effect := Effect(StateRejected, trace.traceId, "effect_" + c.oracle.freshId, intentId, scope.scopeId,
                       None, None, approval, Some(reason), None, None, None);
    }

    /** Scans the whole ledger and keeps the last match. */
    method IdempotencyLookup(key: string) returns (found: Option<IdemRecord>)
      ensures found == LastEntry(idem, scope.scopeId, key)
    {
      found := None;
      for n := 0 to |idem|
        invariant found == LastEntry(idem[..n], scope.scopeId, key)
      {
        assert idem[..n + 1][..n] == idem[..n];
        if idem[n].key == key && idem[n].scopeId == scope.scopeId {
          found := Some(idem[n]);
        }
      }
      assert idem[..|idem|] == idem;
    }

    method Committable(c: Call, i: Intent, trace: Trace) returns (effect: Effect)
      requires trace.traceId == c.oracle.traceId
      requires Keyed(c, i) ==> i.idempotencyKey.value in locked
      modifies this`idem, this`rate, this`calls, trace
      ensures Outcome(Contents(), effect, trace.events)
           == RunCommittable(scope, c, i, old(Contents()), old(trace.events))
    {
      if !c.stopAtApproval && i.HasKey() {
        if c.oracle.lookupFails {
          effect := Reject(c, trace, Some(i.intentId), AdapterCommitFailed, None);
          return;
        }
        var prior := IdempotencyLookup(i.idempotencyKey.value);
        if prior.Some? {
          if prior.value.intentSha256 != IntentSha256(i) {
            trace.Add(IdempotencyConflict);
            effect := Reject(c, trace, Some(i.intentId), IdempotencyKeyConflict, None);
            return;
          }
          trace.Add(IdempotentReplay(prior.value.effect.effectId));
          effect := ReplayedEffect(scope, c.oracle, i, prior.value.effect);
          return;
        }
      }
      if c.oracle.preparation.PrepareRefused? {
        effect := Reject(c, trace, Some(i.intentId), c.oracle.preparation.reason, None);
        return;
      }
      trace.Add(PolicyChecked);
      trace.Add(DryRunRendered);
      var decision := Decision(scope, c, i, c.oracle.preparation.effectKind);
      if decision.status == Requested {
        trace.Add(ApprovalRequested);
        trace.Add(EffectPaused);
        effect := PausedEffect(scope, c.oracle, i.intentId, decision);
        return;
      }
      var gate := ApprovalRejectionReason(scope, i, decision, c.oracle.now);
      if gate.Some? {
        trace.Add(ApprovalRejected);
        effect := Reject(c, trace, Some(i.intentId), gate.value, Some(decision));
        return;
      }
      trace.Add(ApprovalGranted);
      if c.stopAtApproval {
        effect := ApprovedEffect(scope, c.oracle, i, decision);
        return;
      }
      effect := SpendAndCommit(c, i, decision, trace);
    }

    method SpendAndCommit(c: Call, i: Intent, decision: Approval, trace: Trace) returns (effect: Effect)
      requires trace.traceId == c.oracle.traceId
      modifies this`idem, this`rate, this`calls, trace
      ensures Outcome(Contents(), effect, trace.events)
           == Spend(scope, c, i, decision, old(Contents()), old(trace.events))
    {
      if scope.maxEffectsPerWindow > 0 {
        if c.oracle.rateReadFails {
          effect := Reject(c, trace, Some(i.intentId), AdapterCommitFailed, None);
          return;
        }
        var recent := RateCountRecent(rate, c.oracle.rateNow, scope.rateWindowSeconds);
        if recent >= scope.maxEffectsPerWindow {
          trace.Add(RateLimited(recent));
          effect := Reject(c, trace, Some(i.intentId), ScopeRateLimitExceeded, None);
          return;
        }
      }
      if i.IsRecordOnly() {
        effect := ApprovedEffect(scope, c.oracle, i, decision);
        trace.Add(CustodyRecordOnly(effect.effectId));
        RecordRate(c.oracle, trace);
        return;
      }
      trace.Add(CommitStarted);
      calls := calls + [AdapterCall(i, c.oracle.commit.Wrote?)];
      if c.oracle.commit.CommitRefused? {
        ghost var started := trace.events;
        for n := 0 to |c.oracle.commit.notes|
          invariant trace.events == started + Notes(c.oracle.commit.notes)[..n]
          modifies trace
        {
          trace.Add(AdapterNote(c.oracle.commit.notes[n]));
        }
        assert trace.events == started + Notes(c.oracle.commit.notes);
        effect := Reject(c, trace, Some(i.intentId), c.oracle.commit.reason, None);
        return;
      }
      trace.Add(EffectCommitted(c.oracle.commit.evidence));
      effect := CommittedEffect(scope, c.oracle, i, decision, c.oracle.commit.evidence);
      if i.HasKey() {
        if c.oracle.idempotencyWriteFails {
          trace.Add(IdempotencyRecordFailed);
        } else {
          idem := idem + [IdemRecord(scope.scopeId, i.idempotencyKey.value, IntentSha256(i), effect)];
        }
      }
      RecordRate(c.oracle, trace);
    }

    method RecordRate(o: Oracle, trace: Trace)
      modifies this`rate, trace
      ensures forall effect ::
        Outcome(Contents(), effect, trace.events)
        == RecordRateEntry(scope, o, old(Contents()), effect, old(trace.events))
    {
      if scope.maxEffectsPerWindow <= 0 {
        return;
      }
      if o.rateWriteFails {
        trace.Add(RateRecordFailed);
      } else {
        rate := RateRecord(rate, RateEntry(scope, o), o.rateNow - scope.rateWindowSeconds);
      }
    }
  }
}
