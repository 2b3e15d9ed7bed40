/**
 * What an evaluation comes to, said without following its steps: for every scope, call and ledger,
 * exactly when it pauses, approves, commits, replays or rejects, with which reason, what the effect
 * says and what is written.
 */
module Outcomes {
  import opened Wrappers
  import opened Records
  import opened RateBudget
  import opened Evaluator

  // ----- The conditions ----------------------------------------------------------------------

  predicate IsIntent(c: Call) {
    c.proposal.speechAct == Intend && c.proposal.intent.Some?
  }

  predicate FitsAdapter(c: Call) {
    && IsIntent(c)
    && var i := c.proposal.intent.value;
    i.adapter == c.adapter.adapter && i.operation == c.adapter.operation
  }

  predicate Capable(scope: Scope, c: Call) {
    && FitsAdapter(c)
    && c.proposal.intent.value.requiredCapability == c.adapter.capability
    && c.proposal.intent.value.requiredCapability in scope.capabilities
  }

  /** An intent for this adapter, of a declared capability, with a target and an input of the right types. */
  predicate Admitted(scope: Scope, c: Call) {
    Capable(scope, c) && c.proposal.intent.value.target.Str? && c.proposal.intent.value.input.Obj?
  }

  predicate Keys(c: Call) {
    && IsIntent(c) && !c.stopAtApproval
    && c.proposal.intent.value.idempotencyKey.Some? && c.proposal.intent.value.idempotencyKey.value != ""
  }

  /** The record stands under the scope id and the key of the call. */
  predicate Under(r: IdemRecord, scope: Scope, c: Call) {
    Keys(c) && r.scopeId == scope.scopeId && r.key == c.proposal.intent.value.idempotencyKey.value
  }

  /** The key can be locked and looked up. */
  predicate KeyWorks(scope: Scope, c: Call) {
    Admitted(scope, c) && (Keys(c) ==> !c.oracle.lockFails && !c.oracle.lookupFails)
  }

  /** The k-th record is the last one under the key. */
  ghost predicate LastUnder(scope: Scope, c: Call, idem: seq<IdemRecord>, k: nat) {
    && k < |idem| && Under(idem[k], scope, c)
    && forall j :: k < j < |idem| ==> !Under(idem[j], scope, c)
  }

  ghost predicate Replays(scope: Scope, c: Call, st: Store) {
    && KeyWorks(scope, c) && Keys(c)
    && exists k: nat ::
         LastUnder(scope, c, st.idem, k) && st.idem[k].intentSha256 == IntentSha256(c.proposal.intent.value)
  }

  ghost predicate Conflicts(scope: Scope, c: Call, st: Store) {
    && KeyWorks(scope, c) && Keys(c)
    && exists k: nat ::
         LastUnder(scope, c, st.idem, k) && st.idem[k].intentSha256 != IntentSha256(c.proposal.intent.value)
  }

  /** The adapter has prepared an effect for an intent whose key, if any, is not taken. */
  ghost predicate Reaches(scope: Scope, c: Call, st: Store) {
    && KeyWorks(scope, c)
    && (forall r :: r in st.idem ==> !Under(r, scope, c))
    && c.oracle.preparation.Prepared?
  }

  /** An approval is still to be asked for. */
  predicate Asks(scope: Scope, c: Call)
    requires c.oracle.preparation.Prepared?
  {
    if c.approval.Some? then c.approval.value.status == Requested
    else c.oracle.preparation.effectKind in scope.approvalRequiredFor && !c.approvalGranted
  }

  /** The gate is passed. */
  ghost predicate Opens(scope: Scope, c: Call, st: Store) {
    && Reaches(scope, c, st) && !Asks(scope, c)
    && (c.approval.Some? ==> Cleared(scope, c.proposal.intent.value, c.approval.value, c.oracle.now))
  }

  predicate Affords(scope: Scope, c: Call, st: Store) {
    scope.maxEffectsPerWindow > 0 ==>
      && !c.oracle.rateReadFails
      && CountSince(st.rate, c.oracle.rateNow - scope.rateWindowSeconds) < scope.maxEffectsPerWindow
  }

  predicate HandsOff(c: Call) {
    IsIntent(c) && c.proposal.intent.value.custodyMode == Some(RecordOnly)
  }

  /** The adapter's commit is called. */
  ghost predicate Performs(scope: Scope, c: Call, st: Store) {
    Opens(scope, c, st) && !c.stopAtApproval && Affords(scope, c, st) && !HandsOff(c)
  }

  // ----- The state of the effect -------------------------------------------------------------

  lemma {:induction false} LastEntryIs(scope: Scope, c: Call, idem: seq<IdemRecord>)
    requires Keys(c)
    ensures
      match LastEntry(idem, scope.scopeId, c.proposal.intent.value.idempotencyKey.value)
      case None => forall r :: r in idem ==> !Under(r, scope, c)
      case Some(r) => exists k: nat :: LastUnder(scope, c, idem, k) && idem[k] == r
  {
    if idem != [] {
      var front, last := idem[..|idem| - 1], idem[|idem| - 1];
      if Under(last, scope, c) {
        assert LastUnder(scope, c, idem, |idem| - 1);
      } else {
        LastEntryIs(scope, c, front);
        if LastEntry(front, scope.scopeId, c.proposal.intent.value.idempotencyKey.value).Some? {
          var r := LastEntry(front, scope.scopeId, c.proposal.intent.value.idempotencyKey.value).value;
          var k: nat :| LastUnder(scope, c, front, k) && front[k] == r;
          assert LastUnder(scope, c, idem, k);
        }
      }
    }
  }

  lemma LastUnderIsOne(scope: Scope, c: Call, idem: seq<IdemRecord>, j: nat, k: nat)
    requires LastUnder(scope, c, idem, j) && LastUnder(scope, c, idem, k)
    ensures j == k
  {
  }

  /** Which way a key sends the evaluation: on, to a replay, or to a conflict. */
  lemma KeyDecides(scope: Scope, c: Call, st: Store)
    requires KeyWorks(scope, c) && Keys(c)
    ensures
      var i := c.proposal.intent.value;
      match LastEntry(st.idem, scope.scopeId, i.idempotencyKey.value)
      case None =>
        (forall r :: r in st.idem ==> !Under(r, scope, c)) && !Replays(scope, c, st) && !Conflicts(scope, c, st)
      case Some(r) =>
        && !(forall r :: r in st.idem ==> !Under(r, scope, c))
        && (Replays(scope, c, st) <==> r.intentSha256 == IntentSha256(i))
        && (Conflicts(scope, c, st) <==> r.intentSha256 != IntentSha256(i))
  {
    hide IntentSha256, LastEntry, Admitted;
    LastEntryIs(scope, c, st.idem);
    var found := LastEntry(st.idem, scope.scopeId, c.proposal.intent.value.idempotencyKey.value);
    if found.Some? {
      var k: nat :| LastUnder(scope, c, st.idem, k) && st.idem[k] == found.value;
      forall j: nat | LastUnder(scope, c, st.idem, j) ensures j == k {
        LastUnderIsOne(scope, c, st.idem, j, k);
      }
    }
  }

  /** The state, the adapter calls and the reason of an outcome from the spending step on. */
  ghost predicate SpentAs(scope: Scope, c: Call, i: Intent, st: Store, out: Outcome) {
    var affords := Affords(scope, c, st);
    var counted := CountSince(st.rate, c.oracle.rateNow - scope.rateWindowSeconds);
    var recordOnly := i.custodyMode == Some(RecordOnly);
    && out.store.calls == st.calls + (if affords && !recordOnly then [AdapterCall(i, c.oracle.commit.Wrote?)] else [])
    && out.effect.state == (if !affords then StateRejected
                            else if recordOnly then StateApproved
                            else if c.oracle.commit.Wrote? then StateCommitted
                            else StateRejected)
    && out.effect.rejectionReason == (if affords && (recordOnly || c.oracle.commit.Wrote?) then None
                                      else if affords then Some(c.oracle.commit.reason)
                                      else if c.oracle.rateReadFails then Some(AdapterCommitFailed)
                                      else Some(ScopeRateLimitExceeded))
  }

  lemma SpendComesTo(scope: Scope, c: Call, i: Intent, decision: Approval, st: Store, events: seq<Event>)
    ensures SpentAs(scope, c, i, st, Spend(scope, c, i, decision, st, events))
  {
    hide Keep, Notes, IntentSha256;
    KeepCounts(st.rate, c.oracle.rateNow - scope.rateWindowSeconds);
  }

  /** What an outcome is, given the decision. */
  ghost predicate DecidedAs(scope: Scope, c: Call, i: Intent, d: Approval, st: Store, out: Outcome) {
    var gate := ApprovalRejectionReason(scope, i, d, c.oracle.now);
    if d.status == Requested then
      out.store == st && out.effect.state == StatePaused && out.effect.rejectionReason.None?
    else if gate.Some? then
      out.store == st && out.effect.state == StateRejected && out.effect.rejectionReason == gate
    else if c.stopAtApproval then
      out.store == st && out.effect.state == StateApproved && out.effect.rejectionReason.None?
    else
      SpentAs(scope, c, i, st, out)
  }

  lemma DecideComesTo(scope: Scope, c: Call, i: Intent, d: Approval, st: Store, events: seq<Event>)
    ensures DecidedAs(scope, c, i, d, st, Decide(scope, c, i, d, st, events))
  {
    hide Spend, SpentAs, ApprovalRejectionReason;
    SpendComesTo(scope, c, i, d, st, events + [ApprovalGranted]);
  }

  /** The decision the gate looks at: the one that was brought, or one that clears by itself, or a request. */
  lemma DecisionComesTo(scope: Scope, c: Call, i: Intent, kind: string)
    ensures
      var d := Decision(scope, c, i, kind);
      if c.approval.Some? then d == c.approval.value
      else if kind in scope.approvalRequiredFor && !c.approvalGranted then d.status == Requested
      else d.status != Requested && Cleared(scope, i, d, c.oracle.now)
  {
    hide IntentSha256;
  }

  /** Nothing done, and the reason why. */
  predicate Refuses(out: Outcome, st: Store, reason: Reason) {
    out.store == st && out.effect.state == StateRejected && out.effect.rejectionReason == Some(reason)
  }

  /** The reasons that come before any adapter or ledger, the first that applies. */
  lemma AdmissionDecides(scope: Scope, c: Call, st: Store)
    requires !Admitted(scope, c)
    ensures
      var out := Evaluate(scope, c, st);
      && (!IsIntent(c) ==> Refuses(out, st, ProposalIsNotAnIntent))
      && (IsIntent(c) && !FitsAdapter(c) ==> Refuses(out, st, UnsupportedAdapterOperation))
      && (FitsAdapter(c) && c.proposal.intent.value.requiredCapability != c.adapter.capability ==>
            Refuses(out, st, UnsupportedCapabilityForOperation))
      && (FitsAdapter(c) && c.proposal.intent.value.requiredCapability == c.adapter.capability && !Capable(scope, c) ==>
            Refuses(out, st, MissingCapability))
      && (Capable(scope, c) && !c.proposal.intent.value.target.Str? ==> Refuses(out, st, TargetMissingOrNotString))
      && (Capable(scope, c) && c.proposal.intent.value.target.Str? ==> Refuses(out, st, InputMissingOrNotObject))
  {
    hide RunCommittable, Opening;
  }

  /** What happens to an admitted call before the gate: on to the decision, a replay, or a rejection. */
  lemma AdmittedComesTo(scope: Scope, c: Call, st: Store)
    requires Admitted(scope, c)
    ensures
      var out, i := Evaluate(scope, c, st), c.proposal.intent.value;
      if !KeyWorks(scope, c) then Refuses(out, st, AdapterCommitFailed)
      else if Replays(scope, c, st) then
        out.store == st && out.effect.state == StateCommitted && out.effect.rejectionReason.None?
      else if Conflicts(scope, c, st) then Refuses(out, st, IdempotencyKeyConflict)
      else if c.oracle.preparation.PrepareRefused? then Refuses(out, st, c.oracle.preparation.reason)
      else
        && Reaches(scope, c, st)
        && DecidedAs(scope, c, i, Decision(scope, c, i, c.oracle.preparation.effectKind), st, out)
  {
    hide Decide, DecidedAs, LastEntry, IntentSha256, Decision, Replays, Conflicts, Opening;
    var i := c.proposal.intent.value;
    if Keys(c) && KeyWorks(scope, c) {
      KeyDecides(scope, c, st);
    } else {
      NoKeyNoReplay(scope, c, st);
    }
    if c.oracle.preparation.Prepared? {
      var d := Decision(scope, c, i, c.oracle.preparation.effectKind);
      var before := Opening(i) + [PolicyChecked] + [DryRunRendered];
      DecideComesTo(scope, c, i, d, st, before);
      StampKeeps(scope, c, i, d, st, Decide(scope, c, i, d, st, before));
    }
  }

  lemma NoKeyNoReplay(scope: Scope, c: Call, st: Store)
    requires !(Keys(c) && KeyWorks(scope, c))
    ensures !Replays(scope, c, st) && !Conflicts(scope, c, st)
    ensures !Keys(c) ==> forall r :: r in st.idem ==> !Under(r, scope, c)
  {
    hide IntentSha256, Admitted, LastUnder;
  }

  /** A replay or a conflict has a record under the key, and only one of the two. */
  lemma ReplayOrConflict(scope: Scope, c: Call, st: Store)
    ensures Replays(scope, c, st) || Conflicts(scope, c, st) ==> !Reaches(scope, c, st)
    ensures !(Replays(scope, c, st) && Conflicts(scope, c, st))
  {
    hide IntentSha256, LastEntry, Admitted, Replays, Conflicts;
    if Keys(c) && KeyWorks(scope, c) {
      KeyDecides(scope, c, st);
    } else {
      NoKeyNoReplay(scope, c, st);
    }
  }

  lemma StampKeeps(scope: Scope, c: Call, i: Intent, d: Approval, st: Store, out: Outcome)
    requires DecidedAs(scope, c, i, d, st, out)
    ensures DecidedAs(scope, c, i, d, st, out.(effect := Stamp(c.proposal, out.effect)))
  {
    hide ApprovalRejectionReason;
  }

  /**
   * Exactly when each state is the result, for every scope, call and ledger; and exactly when the
   * adapter's commit is called, for which intent.
   */
  lemma StatesAre(scope: Scope, c: Call, st: Store)
    ensures
      var out := Evaluate(scope, c, st);
      && (out.effect.state == StatePaused <==> Reaches(scope, c, st) && Asks(scope, c))
      && (out.effect.state == StateApproved <==>
            Opens(scope, c, st) && (c.stopAtApproval || (Affords(scope, c, st) && HandsOff(c))))
      && (out.effect.state == StateCommitted <==>
            Replays(scope, c, st) || (Performs(scope, c, st) && c.oracle.commit.Wrote?))
      && out.store.calls == st.calls + (if Performs(scope, c, st)
                                        then [AdapterCall(c.proposal.intent.value, c.oracle.commit.Wrote?)] else [])
  {
    hide Evaluate, Decision, Conflicts, Replays, ApprovalRejectionReason, IntentSha256, Affords;
    ReplayOrConflict(scope, c, st);
    if !Admitted(scope, c) {
      AdmissionDecides(scope, c, st);
      NoKeyNoReplay(scope, c, st);
      assert st.calls + [] == st.calls;
    } else {
      AdmittedComesTo(scope, c, st);
      assert st.calls + [] == st.calls;
      if !KeyWorks(scope, c) {
        NoKeyNoReplay(scope, c, st);
      }
      if Reaches(scope, c, st) {
        DecisionComesTo(scope, c, c.proposal.intent.value, c.oracle.preparation.effectKind);
      }
    }
  }

  /**
   * So whatever comes of a proposal other than a rejection, and whatever is written, was an intent that
   * fits the adapter, of a capability that the scope declares, with a target and an input.
   */
  lemma OnlyAdmittedIntents(scope: Scope, c: Call, st: Store)
    ensures
      var out := Evaluate(scope, c, st);
      out.store != st || out.effect.state != StateRejected ==>
        && c.proposal.speechAct == Intend && c.proposal.intent.Some?
        && var i := c.proposal.intent.value;
        && i.adapter == c.adapter.adapter && i.operation == c.adapter.operation
        && i.requiredCapability == c.adapter.capability && i.requiredCapability in scope.capabilities
        && i.target.Str? && i.input.Obj?
  {
    hide Evaluate;
    if !Admitted(scope, c) {
      AdmissionDecides(scope, c, st);
    }
  }

  /** Adapters give reasons of their own, or that a commit failed. */
  predicate AdapterSpeaks(o: Oracle) {
    && (o.preparation.PrepareRefused? ==> o.preparation.reason.AdapterReason?)
    && (o.commit.CommitRefused? ==> o.commit.reason.AdapterReason? || o.commit.reason == AdapterCommitFailed)
  }

  /** Exactly when each reason of the evaluator's own is the one given. */
  lemma ReasonsAre(scope: Scope, c: Call, st: Store)
    requires AdapterSpeaks(c.oracle)
    ensures
      var why := Evaluate(scope, c, st).effect.rejectionReason;
      && (why == Some(ProposalIsNotAnIntent) <==> !IsIntent(c))
      && (why == Some(UnsupportedAdapterOperation) <==> IsIntent(c) && !FitsAdapter(c))
      && (why == Some(UnsupportedCapabilityForOperation) <==>
            FitsAdapter(c) && c.proposal.intent.value.requiredCapability != c.adapter.capability)
      && (why == Some(MissingCapability) <==>
            && FitsAdapter(c) && c.proposal.intent.value.requiredCapability == c.adapter.capability
            && c.adapter.capability !in scope.capabilities)
      && (why == Some(TargetMissingOrNotString) <==> Capable(scope, c) && !c.proposal.intent.value.target.Str?)
      && (why == Some(InputMissingOrNotObject) <==>
            Capable(scope, c) && c.proposal.intent.value.target.Str? && !c.proposal.intent.value.input.Obj?)
      && (why == Some(IdempotencyKeyConflict) <==> Conflicts(scope, c, st))
      && (why == Some(ScopeRateLimitExceeded) <==>
            Opens(scope, c, st) && !c.stopAtApproval && !Affords(scope, c, st) && !c.oracle.rateReadFails)
      && (forall gate :: gate in {ApprovalScopeMismatch, ApprovalIntentMismatch, ApprovalIntentHashMismatch,
                                  ApprovalDenied, ApprovalExpired, ApprovalUnbound} ==>
            (why == Some(gate) <==>
               && Reaches(scope, c, st) && !Asks(scope, c) && c.approval.Some?
               && ApprovalRejectionReason(scope, c.proposal.intent.value, c.approval.value, c.oracle.now)
                 == Some(gate)))
  {
    hide Evaluate, Decision, Conflicts, Replays, ApprovalRejectionReason, IntentSha256, Affords;
    ReplayOrConflict(scope, c, st);
    if !Admitted(scope, c) {
      AdmissionDecides(scope, c, st);
      NoKeyNoReplay(scope, c, st);
    } else {
      AdmittedComesTo(scope, c, st);
      if !KeyWorks(scope, c) {
        NoKeyNoReplay(scope, c, st);
      }
      if Reaches(scope, c, st) {
        var i := c.proposal.intent.value;
        DecisionComesTo(scope, c, i, c.oracle.preparation.effectKind);
        GateDecides(scope, i, Decision(scope, c, i, c.oracle.preparation.effectKind), c.oracle.now);
      }
    }
  }

  // ----- What the effect says and what is written --------------------------------------------

  /** An effect is authorized: committed now, or left to an outside actor. */
  ghost predicate Spends(scope: Scope, c: Call, st: Store) {
    && Opens(scope, c, st) && !c.stopAtApproval && Affords(scope, c, st)
    && (HandsOff(c) || c.oracle.commit.Wrote?)
  }

  /** The fields that every effect has, whatever its state. */
  predicate Names(scope: Scope, c: Call, e: Effect) {
    && e.traceId == c.oracle.traceId
    && e.scopeId == scope.scopeId
    && e.intentId == (if IsIntent(c) then Some(c.proposal.intent.value.intentId) else None)
    && e.custodyMode == (if c.proposal.intent.Some? then c.proposal.intent.value.custodyMode else None)
  }

  /** The fields that only a commit fills. */
  predicate Evidenced(e: Effect, evidence: Option<Evidence>) {
    match evidence
    case None => e.acknowledgement.None? && e.verification.None? && e.committedAt.None?
    case Some(v) =>
      && e.acknowledgement == Some(v.acknowledgement) && e.verification == Some(v.verification)
      && e.committedAt == Some(v.committedAt)
  }

  /** What is written from the spending step on, and what the effect says. */
  ghost predicate SpentSo(scope: Scope, c: Call, i: Intent, d: Approval, st: Store, out: Outcome) {
    var o := c.oracle;
    var affords, recordOnly := Affords(scope, c, st), i.custodyMode == Some(RecordOnly);
    var spends := affords && (recordOnly || o.commit.Wrote?);
    && Evidenced(out.effect, if affords && !recordOnly && o.commit.Wrote? then Some(o.commit.evidence) else None)
    && out.effect.effectId == "effect_" + o.freshId
    && out.effect.approval == (if spends then Some(d) else None)
    && out.effect.requiredInput.None?
    && (spends ==> out.effect.custodyMode == i.custodyMode)
    && out.store.idem == st.idem + (
         if spends && !recordOnly && i.HasKey() && !o.idempotencyWriteFails
         then [IdemRecord(scope.scopeId, i.idempotencyKey.value, IntentSha256(i), out.effect)] else [])
    && out.store.rate == (
         if spends && scope.maxEffectsPerWindow > 0 && !o.rateWriteFails
         then Keep(st.rate, o.rateNow - scope.rateWindowSeconds)
              + [Entry(Some(o.rateNow), scope.scopeId, "effect_" + o.freshId)]
         else st.rate)
  }

  lemma SpendWrites(scope: Scope, c: Call, i: Intent, d: Approval, st: Store, events: seq<Event>)
    ensures SpentSo(scope, c, i, d, st, Spend(scope, c, i, d, st, events))
  {
    hide Keep, Notes, IntentSha256, CountSince;
    KeepCounts(st.rate, c.oracle.rateNow - scope.rateWindowSeconds);
    assert st.idem + [] == st.idem;
  }

  /** What the effect says at the gate, and what is written from there on. */
  ghost predicate DecidedSo(scope: Scope, c: Call, i: Intent, d: Approval, st: Store, out: Outcome) {
    var passes := d.status != Requested && Cleared(scope, i, d, c.oracle.now);
    if passes && !c.stopAtApproval then SpentSo(scope, c, i, d, st, out)
    else
      && Evidenced(out.effect, None)
      && out.effect.effectId == "effect_" + c.oracle.freshId
      && out.effect.approval == Some(d)
      && out.effect.requiredInput == (if d.status == Requested then Some("approval_decision") else None)
  }

  /** The names of an effect before the outer wrapper adds the custody. */
  predicate Named(scope: Scope, c: Call, i: Intent, e: Effect) {
    && e.traceId == c.oracle.traceId && e.scopeId == scope.scopeId && e.intentId == Some(i.intentId)
    && e.custodyMode in {None, i.custodyMode}
  }

  lemma SpendNames(scope: Scope, c: Call, i: Intent, d: Approval, st: Store, events: seq<Event>)
    ensures Named(scope, c, i, Spend(scope, c, i, d, st, events).effect)
  {
    hide Keep, Notes, IntentSha256;
  }

  lemma DecideSays(scope: Scope, c: Call, i: Intent, d: Approval, st: Store, events: seq<Event>)
    ensures DecidedSo(scope, c, i, d, st, Decide(scope, c, i, d, st, events))
    ensures Named(scope, c, i, Decide(scope, c, i, d, st, events).effect)
  {
    hide SpentSo, Spend, ApprovalRejectionReason;
    SpendWrites(scope, c, i, d, st, events + [ApprovalGranted]);
    SpendNames(scope, c, i, d, st, events + [ApprovalGranted]);
  }

  /** The stamp of the outer wrapper adds the declared custody, and nothing else. */
  lemma StampSays(scope: Scope, c: Call, i: Intent, d: Approval, st: Store, out: Outcome)
    requires IsIntent(c) && c.proposal.intent == Some(i) && DecidedSo(scope, c, i, d, st, out)
    requires Named(scope, c, i, out.effect)
    ensures
      var stamped := out.(effect := Stamp(c.proposal, out.effect));
      DecidedSo(scope, c, i, d, st, stamped) && Names(scope, c, stamped.effect)
  {
    hide ApprovalRejectionReason, Affords, Keep, IntentSha256;
  }

  /** What a replay says of the record that it gives back. */
  predicate GivesBack(e: Effect, prior: Effect, o: Oracle) {
    && e.effectId == (if prior.effectId != "" then prior.effectId else "effect_" + o.freshId)
    && e.acknowledgement == prior.acknowledgement && e.verification == prior.verification
    && e.approval == prior.approval && e.committedAt == prior.committedAt && e.requiredInput.None?
  }

  ghost predicate Replayed(scope: Scope, c: Call, st: Store, e: Effect) {
    exists k: nat :: LastUnder(scope, c, st.idem, k) && GivesBack(e, st.idem[k].effect, c.oracle)
  }

  /** An effect that says no more than its names, its own id and its reason. */
  predicate SaysNoMore(e: Effect, o: Oracle) {
    Evidenced(e, None) && e.effectId == "effect_" + o.freshId && e.approval.None? && e.requiredInput.None?
  }

  /**
   * What every effect says, and what is written: from the gate on as the decision goes; for a replay
   * what the last record under the key holds; and no more than the names otherwise.
   */
  lemma EffectsSay(scope: Scope, c: Call, st: Store)
    ensures
      var out := Evaluate(scope, c, st);
      && Names(scope, c, out.effect)
      && if Reaches(scope, c, st) then
           var i := c.proposal.intent.value;
           DecidedSo(scope, c, i, Decision(scope, c, i, c.oracle.preparation.effectKind), st, out)
         else if Replays(scope, c, st) then out.store == st && Replayed(scope, c, st, out.effect)
         else out.store == st && SaysNoMore(out.effect, c.oracle)
  {
    hide Evaluate, Reaches, Replays, DecidedSo, Replayed;
    if Admitted(scope, c) {
      AdmittedSays(scope, c, st);
    } else {
      UnadmittedSays(scope, c, st);
    }
  }

  lemma UnadmittedSays(scope: Scope, c: Call, st: Store)
    requires !Admitted(scope, c)
    ensures
      var out := Evaluate(scope, c, st);
      Names(scope, c, out.effect) && !Reaches(scope, c, st) && !Replays(scope, c, st)
      && out.store == st && SaysNoMore(out.effect, c.oracle)
  {
    hide RunCommittable, Opening;
    NoKeyNoReplay(scope, c, st);
  }

  lemma AdmittedSays(scope: Scope, c: Call, st: Store)
    requires Admitted(scope, c)
    ensures
      var out := Evaluate(scope, c, st);
      && Names(scope, c, out.effect)
      && if Reaches(scope, c, st) then
           var i := c.proposal.intent.value;
           DecidedSo(scope, c, i, Decision(scope, c, i, c.oracle.preparation.effectKind), st, out)
         else if Replays(scope, c, st) then out.store == st && Replayed(scope, c, st, out.effect)
         else out.store == st && SaysNoMore(out.effect, c.oracle)
  {
    hide Decide, DecidedSo, LastEntry, IntentSha256, Decision, Replays, Conflicts, Opening, Replayed;
    var i := c.proposal.intent.value;
    if Keys(c) && KeyWorks(scope, c) {
      KeyDecides(scope, c, st);
      ReplaySays(scope, c, st);
    } else {
      NoKeyNoReplay(scope, c, st);
    }
    if c.oracle.preparation.Prepared? {
      var d := Decision(scope, c, i, c.oracle.preparation.effectKind);
      var before := Opening(i) + [PolicyChecked] + [DryRunRendered];
      DecideSays(scope, c, i, d, st, before);
      StampSays(scope, c, i, d, st, Decide(scope, c, i, d, st, before));
    }
  }

  lemma ReplaySays(scope: Scope, c: Call, st: Store)
    requires Keys(c)
    ensures
      var i := c.proposal.intent.value;
      var r := LastEntry(st.idem, scope.scopeId, i.idempotencyKey.value);
      r.Some? ==> Replayed(scope, c, st, Stamp(c.proposal, ReplayedEffect(scope, c.oracle, i, r.value.effect)))
  {
    hide LastEntry, IntentSha256;
    LastEntryIs(scope, c, st.idem);
  }

  // ----- The trace, event by event -----------------------------------------------------------

  /** A rate record that could not be written leaves a mark. */
  function RateMark(scope: Scope, o: Oracle): seq<Event> {
    if scope.maxEffectsPerWindow > 0 && o.rateWriteFails then [RateRecordFailed] else []
  }

  function KeyMark(i: Intent, o: Oracle): seq<Event> {
    if i.HasKey() && o.idempotencyWriteFails then [IdempotencyRecordFailed] else []
  }

  /** The events from the spending step on. */
  ghost function SpentTrace(scope: Scope, c: Call, i: Intent, st: Store): seq<Event> {
    var o := c.oracle;
    if !Affords(scope, c, st) then
      if o.rateReadFails then [EffectRejected(AdapterCommitFailed)]
      else
        [RateLimited(CountSince(st.rate, o.rateNow - scope.rateWindowSeconds)), EffectRejected(ScopeRateLimitExceeded)]
    else if i.custodyMode == Some(RecordOnly) then
      [CustodyRecordOnly("effect_" + o.freshId)] + RateMark(scope, o)
    else if o.commit.Wrote? then
      [CommitStarted, EffectCommitted(o.commit.evidence)] + KeyMark(i, o) + RateMark(scope, o)
    else
      [CommitStarted] + Notes(o.commit.notes) + [EffectRejected(o.commit.reason)]
  }

  lemma SpendTrace(scope: Scope, c: Call, i: Intent, d: Approval, st: Store, events: seq<Event>)
    ensures Spend(scope, c, i, d, st, events).events == events + SpentTrace(scope, c, i, st)
  {
    hide Keep, Notes, IntentSha256, CountSince;
    KeepCounts(st.rate, c.oracle.rateNow - scope.rateWindowSeconds);
  }

  /** The events from the decision on. */
  ghost function DecidedTrace(scope: Scope, c: Call, i: Intent, d: Approval, st: Store): seq<Event> {
    var gate := ApprovalRejectionReason(scope, i, d, c.oracle.now);
    if d.status == Requested then [ApprovalRequested, EffectPaused]
    else if gate.Some? then [ApprovalRejected, EffectRejected(gate.value)]
    else if c.stopAtApproval then [ApprovalGranted]
    else [ApprovalGranted] + SpentTrace(scope, c, i, st)
  }

  lemma DecideTrace(scope: Scope, c: Call, i: Intent, d: Approval, st: Store, events: seq<Event>)
    ensures Decide(scope, c, i, d, st, events).events == events + DecidedTrace(scope, c, i, d, st)
  {
    hide Spend, SpentTrace, ApprovalRejectionReason;
    SpendTrace(scope, c, i, d, st, events + [ApprovalGranted]);
  }

  /** What every trace of an intent begins with. */
  function Beginning(i: Intent): seq<Event> {
    match i.custodyMode
    case None => [ProposalReceived, IntentCreated]
    case Some(mode) => [ProposalReceived, IntentCreated, CustodyDeclared(mode)]
  }

  /**
   * The whole trace of every evaluation: nothing but the rejection for what is no intent; otherwise the
   * beginning, and then the rejection, the replay of the last record under the key, or the events of the
   * gate and of what lies behind it.
   */
  lemma TracesAre(scope: Scope, c: Call, st: Store)
    ensures
      var out := Evaluate(scope, c, st);
      if !IsIntent(c) then out.events == [ProposalReceived, EffectRejected(ProposalIsNotAnIntent)]
      else
        var i := c.proposal.intent.value;
        if Reaches(scope, c, st) then
          out.events == Beginning(i) + [PolicyChecked, DryRunRendered]
            + DecidedTrace(scope, c, i, Decision(scope, c, i, c.oracle.preparation.effectKind), st)
        else if Conflicts(scope, c, st) then
          out.events == Beginning(i) + [IdempotencyConflict, EffectRejected(IdempotencyKeyConflict)]
        else if Replays(scope, c, st) then
          exists k: nat ::
            && LastUnder(scope, c, st.idem, k)
            && out.events == Beginning(i) + [IdempotentReplay(st.idem[k].effect.effectId)]
        else
          && out.effect.rejectionReason.Some?
          && out.events == Beginning(i) + [EffectRejected(out.effect.rejectionReason.value)]
  {
    hide Evaluate, Reaches, Conflicts, Replays, DecidedTrace, Decision, LastUnder;
    if IsIntent(c) {
      ReplayOrConflict(scope, c, st);
      if Admitted(scope, c) {
        AdmittedTrace(scope, c, st);
      } else {
        UnadmittedTrace(scope, c, st);
      }
    } else {
      UnadmittedTrace(scope, c, st);
    }
  }

  lemma OpeningIs(i: Intent)
    ensures Opening(i) == Beginning(i)
  {
  }

  lemma UnadmittedTrace(scope: Scope, c: Call, st: Store)
    requires !Admitted(scope, c)
    ensures
      var out := Evaluate(scope, c, st);
      && !Reaches(scope, c, st) && !Replays(scope, c, st) && !Conflicts(scope, c, st)
      && out.effect.rejectionReason.Some?
      && out.events == (if IsIntent(c) then Beginning(c.proposal.intent.value) else [ProposalReceived])
                       + [EffectRejected(out.effect.rejectionReason.value)]
      && (!IsIntent(c) ==> out.effect.rejectionReason.value == ProposalIsNotAnIntent)
  {
    hide RunCommittable, Opening;
    NoKeyNoReplay(scope, c, st);
    if c.proposal.intent.Some? {
      OpeningIs(c.proposal.intent.value);
    }
  }

  lemma AdmittedTrace(scope: Scope, c: Call, st: Store)
    requires Admitted(scope, c)
    ensures
      var out, i := Evaluate(scope, c, st), c.proposal.intent.value;
      if Reaches(scope, c, st) then
        out.events == Beginning(i) + [PolicyChecked, DryRunRendered]
          + DecidedTrace(scope, c, i, Decision(scope, c, i, c.oracle.preparation.effectKind), st)
      else if Conflicts(scope, c, st) then
        out.events == Beginning(i) + [IdempotencyConflict, EffectRejected(IdempotencyKeyConflict)]
      else if Replays(scope, c, st) then
        exists k: nat ::
          && LastUnder(scope, c, st.idem, k)
          && out.events == Beginning(i) + [IdempotentReplay(st.idem[k].effect.effectId)]
      else
        && out.effect.rejectionReason.Some?
        && out.events == Beginning(i) + [EffectRejected(out.effect.rejectionReason.value)]
  {
    hide Decide, DecidedTrace, LastEntry, IntentSha256, Decision, Replays, Conflicts, Opening, LastUnder, Beginning;
    var i := c.proposal.intent.value;
    OpeningIs(i);
    if Keys(c) && KeyWorks(scope, c) {
      KeyDecides(scope, c, st);
      LastEntryIs(scope, c, st.idem);
    } else {
      NoKeyNoReplay(scope, c, st);
    }
    if c.oracle.preparation.Prepared? {
      var d := Decision(scope, c, i, c.oracle.preparation.effectKind);
      var before := Opening(i) + [PolicyChecked] + [DryRunRendered];
      DecideTrace(scope, c, i, d, st, before);
      assert before == Beginning(i) + [PolicyChecked, DryRunRendered];
    }
  }
}
