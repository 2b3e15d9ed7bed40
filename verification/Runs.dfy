/**
 * Serial runs: any number of evaluations, one after the other, in one sandbox that starts empty, each
 * under a scope of its own. What the ledgers hold after every such run, and what follows for replays,
 * for record_only custody, for dry runs and for the rate budget.
 */
module Runs {
  import opened Wrappers
  import opened Records
  import opened RateBudget
  import opened Evaluator
  import opened TraceLanguage

  /** One evaluation of a run: the scope it is made under, and the call. */
  datatype Turn = Turn(scope: Scope, call: Call)

  function StoreAfter(turns: seq<Turn>): Store {
    if turns == [] then EMPTY_STORE
    else
      var last := turns[|turns| - 1];
      Evaluate(last.scope, last.call, StoreAfter(turns[..|turns| - 1])).store
  }

  /** The outcome of the k-th evaluation of a run. */
  function OutcomeAt(turns: seq<Turn>, k: nat): Outcome
    requires k < |turns|
  {
    Evaluate(turns[k].scope, turns[k].call, StoreAfter(turns[..k]))
  }

  function EndingAt(turns: seq<Turn>, k: nat): Ending
    requires k < |turns|
  {
    EndingOf(Read(OutcomeAt(turns, k).events))
  }

  // ----- Where an evaluation can change anything -----------------------------------------------

  /** The evaluation authorized an effect: committed by the runtime, or left to an external actor. */
  ghost predicate Authorized(out: Outcome) {
    EndingOf(Read(out.events)) == FreshCommit || EndingOf(Read(out.events)) == RecordedOnly
  }

  /** The evaluation got past the gate: an admitted intent, no record under its key, a cleared decision. */
  ghost predicate PastTheGate(scope: Scope, c: Call, st: Store, i: Intent, decision: Approval) {
    && c.proposal.intent == Some(i)
    && !c.stopAtApproval
    && (i.HasKey() ==> LastEntry(st.idem, scope.scopeId, i.idempotencyKey.value).None?)
    && c.oracle.preparation.Prepared?
    && decision == Decision(scope, c, i, c.oracle.preparation.effectKind)
    && decision.status != Requested
    && Cleared(scope, i, decision, c.oracle.now)
  }

  /** What an evaluation brings to `Spend`. */
  datatype Passage = Passage(intent: Intent, decision: Approval, events: seq<Event>)

  /** Either nothing was authorized and no ledger changed, or the rest is what `Spend` does. */
  lemma OnlySpendChangesAnything(scope: Scope, c: Call, st: Store) returns (p: Option<Passage>)
    ensures p.None? ==> Evaluate(scope, c, st).store == st && !Authorized(Evaluate(scope, c, st))
    ensures p.Some? ==>
      && PastTheGate(scope, c, st, p.value.intent, p.value.decision)
      && Read(p.value.events) == Granted
      && var spent := Spend(scope, c, p.value.intent, p.value.decision, st, p.value.events);
      && Evaluate(scope, c, st) == spent.(effect := Stamp(c.proposal, spent.effect))
  {
    hide Read, Rejected, Spend, LastEntry, AdmissionRejection, ApprovalRejectionReason, Decision, IntentSha256, Opening;
    hide RunCommittable;
    if c.proposal.speechAct != Intend || c.proposal.intent.None? {
      StartIsRead();
      RejectionTells(scope, c.oracle, None, ProposalIsNotAnIntent, None, st, [ProposalReceived]);
      return None;
    }
    var i := c.proposal.intent.value;
    var events := Opening(i);
    OpeningIsRead(i);
    var admission := AdmissionRejection(scope, i, c.adapter);
    if admission.Some? {
      RejectionTells(scope, c.oracle, Some(i.intentId), admission.value, None, st, events);
      return None;
    }
    if Keyed(c, i) && c.oracle.lockFails {
      RejectionTells(scope, c.oracle, Some(i.intentId), AdapterCommitFailed, None, st, events);
      return None;
    }
    p := CheckOrNothing(scope, c, i, st, events);
  }

  lemma CheckOrNothing(scope: Scope, c: Call, i: Intent, st: Store, events: seq<Event>) returns (p: Option<Passage>)
    requires Opened(Read(events))
    ensures p.None? ==>
      var out := RunCommittable(scope, c, i, st, events);
      out.store == st && !Authorized(out)
    ensures p.Some? ==>
      && (Keyed(c, i) ==> LastEntry(st.idem, scope.scopeId, i.idempotencyKey.value).None?)
      && c.oracle.preparation.Prepared?
      && Passes(scope, c, i, Decision(scope, c, i, c.oracle.preparation.effectKind), p.value)
      && RunCommittable(scope, c, i, st, events) == Spend(scope, c, i, p.value.decision, st, p.value.events)
  {
    hide Read, Rejected, Spend, LastEntry, ApprovalRejectionReason, Decision, IntentSha256, PrepareAndApprove;
    if Keyed(c, i) {
      var prior := LastEntry(st.idem, scope.scopeId, i.idempotencyKey.value);
      if c.oracle.lookupFails {
        RejectionTells(scope, c.oracle, Some(i.intentId), AdapterCommitFailed, None, st, events);
        return None;
      }
      if prior.Some? {
        ReadAppend(events, IdempotencyConflict);
        RejectionTells(scope, c.oracle, Some(i.intentId), IdempotencyKeyConflict, None, st,
          events + [IdempotencyConflict]);
        ReadAppend(events, IdempotentReplay(prior.value.effect.effectId));
        return None;
      }
    }
    p := GateOrNothing(scope, c, i, st, events);
  }

  lemma GateOrNothing(scope: Scope, c: Call, i: Intent, st: Store, before: seq<Event>) returns (p: Option<Passage>)
    requires Opened(Read(before))
    ensures p.None? ==>
      var out := PrepareAndApprove(scope, c, i, st, before);
      out.store == st && !Authorized(out)
    ensures p.Some? ==>
      && c.oracle.preparation.Prepared?
      && Passes(scope, c, i, Decision(scope, c, i, c.oracle.preparation.effectKind), p.value)
      && PrepareAndApprove(scope, c, i, st, before) == Spend(scope, c, i, p.value.decision, st, p.value.events)
  {
    hide Read, Rejected, Decide, ApprovalRejectionReason, Decision;
    if c.oracle.preparation.PrepareRefused? {
      RejectionTells(scope, c.oracle, Some(i.intentId), c.oracle.preparation.reason, None, st, before);
      return None;
    }
    ReadAppend(before, PolicyChecked);
    ReadAppend(before + [PolicyChecked], DryRunRendered);
    p := DecideOrNothing(scope, c, i, Decision(scope, c, i, c.oracle.preparation.effectKind), st,
                         before + [PolicyChecked] + [DryRunRendered]);
  }

  ghost predicate Passes(scope: Scope, c: Call, i: Intent, decision: Approval, p: Passage) {
    && !c.stopAtApproval
    && p.intent == i
    && p.decision == decision
    && decision.status != Requested
    && Cleared(scope, i, decision, c.oracle.now)
    && Read(p.events) == Granted
  }

  lemma DecideOrNothing(scope: Scope, c: Call, i: Intent, decision: Approval, st: Store, events: seq<Event>)
    returns (p: Option<Passage>)
    requires Read(events) == Rendered
    ensures p.None? ==>
      var out := Decide(scope, c, i, decision, st, events);
      out.store == st && !Authorized(out)
    ensures p.Some? ==>
      && Passes(scope, c, i, decision, p.value)
      && Decide(scope, c, i, decision, st, events) == Spend(scope, c, i, decision, st, p.value.events)
  {
    hide Read, Rejected, Spend, ApprovalRejectionReason;
    var gate := ApprovalRejectionReason(scope, i, decision, c.oracle.now);
    if decision.status == Requested {
      ReadAppend(events, ApprovalRequested);
      ReadAppend(events + [ApprovalRequested], EffectPaused);
      return None;
    }
    if gate.Some? {
      ReadAppend(events, ApprovalRejected);
      RejectionTells(scope, c.oracle, Some(i.intentId), gate.value, Some(decision), st, events + [ApprovalRejected]);
      return None;
    }
    ReadAppend(events, ApprovalGranted);
    return if c.stopAtApproval then None else Some(Passage(i, decision, events + [ApprovalGranted]));
  }

  // ----- The idempotency ledger --------------------------------------------------------------

  /** What a fresh, keyed commit that was recorded adds to the ledger: its own cleared effect. */
  ghost predicate Writes(scope: Scope, c: Call, st: Store, out: Outcome, r: IdemRecord) {
    && EndingOf(Read(out.events)) == FreshCommit
    && c.proposal.intent.Some?
    && c.oracle.preparation.Prepared?
    && c.oracle.commit.Wrote?
    && var i := c.proposal.intent.value;
    && var decision := Decision(scope, c, i, c.oracle.preparation.effectKind);
    && i.HasKey()
    && LastEntry(st.idem, scope.scopeId, i.idempotencyKey.value).None?
    && r == IdemRecord(scope.scopeId, i.idempotencyKey.value, IntentSha256(i), out.effect)
    && out.effect == CommittedEffect(scope, c.oracle, i, decision, c.oracle.commit.evidence)
    && Cleared(scope, i, decision, c.oracle.now)
  }

  lemma IdemStep(scope: Scope, c: Call, st: Store) returns (written: Option<IdemRecord>)
    ensures
      var out := Evaluate(scope, c, st);
      if written.None? then out.store.idem == st.idem
      else Writes(scope, c, st, out, written.value) && out.store.idem == st.idem + [written.value]
  {
    hide Read, Evaluate, LastEntry, IntentSha256, Keep, ApprovalRejectionReason, Decision;
    var p := OnlySpendChangesAnything(scope, c, st);
    var out := Evaluate(scope, c, st);
    written := None;
    if out.store.idem != st.idem {
      var i := p.value.intent;
      var q := SpendTells(scope, c, i, p.value.decision, st, p.value.events);
      written := Some(IdemRecord(scope.scopeId, i.idempotencyKey.value, IntentSha256(i), out.effect));
    }
  }

  /** Record r was written by the k-th evaluation. */
  ghost predicate WrittenBy(turns: seq<Turn>, r: IdemRecord, k: nat) {
    && k < |turns|
    && Writes(turns[k].scope, turns[k].call, StoreAfter(turns[..k]), OutcomeAt(turns, k), r)
  }

  /**
   * After every run, each record was written by a fresh commit of the intent it hashes, under the
   * scope id it names, whose approval had cleared the gate for that scope and intent.
   */
  lemma {:induction false} LedgerProvenance(turns: seq<Turn>)
    ensures forall r :: r in StoreAfter(turns).idem ==> exists k: nat :: WrittenBy(turns, r, k)
  {
    if turns != [] {
      hide Evaluate, Read, Writes;
      var n := |turns| - 1;
      var front, st := turns[..n], StoreAfter(turns[..n]);
      LedgerProvenance(front);
      forall r | r in st.idem ensures exists k: nat :: WrittenBy(turns, r, k) {
        var k: nat :| WrittenBy(front, r, k);
        assert front[..k] == turns[..k];
        assert WrittenBy(turns, r, k);
      }
      var written := IdemStep(turns[n].scope, turns[n].call, st);
      if written.Some? {
        assert WrittenBy(turns, written.value, n);
      }
    }
  }

  lemma WrittenKeyIsNew(scope: Scope, c: Call, st: Store, out: Outcome, r: IdemRecord)
    requires Writes(scope, c, st, out, r)
    ensures r.scopeId == scope.scopeId
    ensures forall e :: e in st.idem ==> e.scopeId != r.scopeId || e.key != r.key
  {
    hide Read, Evaluate, Decision, ApprovalRejectionReason, IntentSha256;
  }

  ghost predicate UniqueKeys(idem: seq<IdemRecord>) {
    forall a, b :: 0 <= a < b < |idem| ==> idem[a].scopeId != idem[b].scopeId || idem[a].key != idem[b].key
  }

  /** After every run, no two records share both scope id and key. */
  lemma {:induction false} KeysAreUnique(turns: seq<Turn>)
    ensures UniqueKeys(StoreAfter(turns).idem)
  {
    hide Evaluate, Read, Writes;
    if turns != [] {
      hide UniqueKeys;
      var last, st := turns[|turns| - 1], StoreAfter(turns[..|turns| - 1]);
      KeysAreUnique(turns[..|turns| - 1]);
      var written := IdemStep(last.scope, last.call, st);
      if written.Some? {
        WrittenKeyIsNew(last.scope, last.call, st, Evaluate(last.scope, last.call, st), written.value);
        UniqueKeysGrow(st.idem, written.value);
      }
    }
  }

  lemma UniqueKeysGrow(idem: seq<IdemRecord>, r: IdemRecord)
    requires UniqueKeys(idem) && forall e :: e in idem ==> e.scopeId != r.scopeId || e.key != r.key
    ensures UniqueKeys(idem + [r])
  {
    assert forall a :: 0 <= a < |idem| ==> idem[a] in idem;
  }

  lemma ReplayStep(scope: Scope, c: Call, st: Store)
    requires EndingOf(Read(Evaluate(scope, c, st).events)) == Replay
    ensures c.proposal.intent.Some?
    ensures
      var i := c.proposal.intent.value;
      && i.HasKey()
      && var prior := LastEntry(st.idem, scope.scopeId, i.idempotencyKey.value);
      && prior.Some?
      && prior.value.intentSha256 == IntentSha256(i)
      && Evaluate(scope, c, st).effect == Stamp(c.proposal, ReplayedEffect(scope, c.oracle, i, prior.value.effect))
  {
    hide Read, LastEntry, IntentSha256, PrepareAndApprove;
    var i := ReplayIsKeyed(scope, c, st);
  }

  lemma ReplayIsKeyed(scope: Scope, c: Call, st: Store) returns (i: Intent)
    requires EndingOf(Read(Evaluate(scope, c, st).events)) == Replay
    ensures c.proposal.intent == Some(i) && c.proposal.speechAct == Intend
    ensures AdmissionRejection(scope, i, c.adapter).None? && Keyed(c, i) && !c.oracle.lockFails && !c.oracle.lookupFails
    ensures
      var prior := LastEntry(st.idem, scope.scopeId, i.idempotencyKey.value);
      prior.Some? && prior.value.intentSha256 == IntentSha256(i)
  {
    hide Read, LastEntry, IntentSha256, RunCommittable, AdmissionRejection, Opening, Rejected;
    var q := TraceDeterminesResult(scope, c, st);
    StartIsRead();
    RejectionTells(scope, c.oracle, None, ProposalIsNotAnIntent, None, st, [ProposalReceived]);
    i := c.proposal.intent.value;
    var admission := AdmissionRejection(scope, i, c.adapter);
    OpeningIsRead(i);
    RejectionTells(scope, c.oracle, Some(i.intentId), AdapterCommitFailed, None, st, Opening(i));
    if admission.Some? {
      RejectionTells(scope, c.oracle, Some(i.intentId), admission.value, None, st, Opening(i));
    } else {
      ReplayCheck(scope, c, i, st, Opening(i));
    }
  }

  lemma ReplayCheck(scope: Scope, c: Call, i: Intent, st: Store, events: seq<Event>)
    requires Opened(Read(events))
    ensures EndingOf(Read(RunCommittable(scope, c, i, st, events).events)) == Replay ==>
      && Keyed(c, i) && !c.oracle.lookupFails
      && var prior := LastEntry(st.idem, scope.scopeId, i.idempotencyKey.value);
      && prior.Some? && prior.value.intentSha256 == IntentSha256(i)
  {
    hide Read, LastEntry, IntentSha256, PrepareAndApprove, Rejected;
    RejectionTells(scope, c.oracle, Some(i.intentId), AdapterCommitFailed, None, st, events);
    ReadAppend(events, IdempotencyConflict);
    RejectionTells(scope, c.oracle, Some(i.intentId), IdempotencyKeyConflict, None, st, events + [IdempotencyConflict]);
    var p := PrepareTells(scope, c, i, st, events);
  }

  /**
   * In every run, a replay returns the effect of an earlier fresh commit of the same intent under the
   * same scope id, equal in every field but the trace id (custody included, which only the outer
   * wrapper restores), and the approval it carries had cleared the gate for that intent, under the
   * scope as it was when it was committed.
   */
  lemma ReplayRepeatsTheCommit(turns: seq<Turn>, j: nat) returns (k: nat)
    requires j < |turns|
    ensures EndingAt(turns, j) == Replay ==> k < j && Repeats(turns, k, j)
  {
    hide Evaluate, Read, IntentSha256, LastEntry, Decision, ApprovalRejectionReason;
    k := 0;
    if EndingAt(turns, j) == Replay {
      var front, st := turns[..j], StoreAfter(turns[..j]);
      ReplayStep(turns[j].scope, turns[j].call, st);
      var i := turns[j].call.proposal.intent.value;
      var r := LastEntry(st.idem, turns[j].scope.scopeId, i.idempotencyKey.value).value;
      LedgerProvenance(front);
      k :| WrittenBy(front, r, k);
      assert front[..k] == turns[..k];
      IntentHashInjective(i, turns[k].call.proposal.intent.value);
    }
  }

  /** The j-th evaluation gave back what the k-th, a fresh commit of the same intent, had committed. */
  ghost predicate Repeats(turns: seq<Turn>, k: nat, j: nat)
    requires k < |turns| && j < |turns|
  {
    var first, again := turns[k], turns[j];
    var original := OutcomeAt(turns, k).effect;
    && EndingAt(turns, k) == FreshCommit
    && first.scope.scopeId == again.scope.scopeId
    && first.call.proposal.intent.Some? && first.call.proposal.intent == again.call.proposal.intent
    && OutcomeAt(turns, j).effect == original.(traceId := again.call.oracle.traceId)
    && original.approval.Some?
    && Cleared(first.scope, first.call.proposal.intent.value, original.approval.value, first.call.oracle.now)
  }

  /**
   * In every run, an intent under record_only custody never comes back committed and never reaches
   * the adapter, also when its key already belongs to a commit.
   */
  lemma RecordOnlyNeverCommits(turns: seq<Turn>, j: nat)
    requires j < |turns|
    requires
      var intent := turns[j].call.proposal.intent;
      intent.Some? && intent.value.IsRecordOnly()
    ensures OutcomeAt(turns, j).effect.state != StateCommitted
    ensures OutcomeAt(turns, j).store.calls == StoreAfter(turns[..j]).calls
  {
    hide Evaluate, Read;
    var q := TraceDeterminesResult(turns[j].scope, turns[j].call, StoreAfter(turns[..j]));
    if EndingAt(turns, j) == Replay {
      var k := ReplayRepeatsTheCommit(turns, j);
      var p := TraceDeterminesResult(turns[k].scope, turns[k].call, StoreAfter(turns[..k]));
      assert false;
    }
  }

  // ----- Dry runs ----------------------------------------------------------------------------

  /**
   * A dry run changes no ledger and calls no adapter. Without a key it foretells the real run with
   * the same inputs: a rejection or a pause is the real result, and the trace of a dry approval is
   * the beginning of the real trace.
   */
  lemma DryRunForetells(scope: Scope, c: Call, st: Store)
    requires c.stopAtApproval
    ensures Evaluate(scope, c, st).store == st
    ensures c.proposal.intent.None? || !c.proposal.intent.value.HasKey() ==>
      var dry := Evaluate(scope, c, st);
      var live := Evaluate(scope, c.(stopAtApproval := false), st);
      if dry.effect.state == StateApproved then dry.events <= live.events else live == dry
  {
    hide Decide, ApprovalFor, IntentSha256, LastEntry, AdmissionRejection, Opening;
    if c.proposal.intent.Some? && c.oracle.preparation.Prepared? {
      var i := c.proposal.intent.value;
      var decision := Decision(scope, c, i, c.oracle.preparation.effectKind);
      DryDecisionForetells(scope, c, i, decision, st, Opening(i) + [PolicyChecked] + [DryRunRendered]);
    }
  }

  lemma DryDecisionForetells(scope: Scope, c: Call, i: Intent, decision: Approval, st: Store, events: seq<Event>)
    requires c.stopAtApproval
    ensures
      var dry := Decide(scope, c, i, decision, st, events);
      var live := Decide(scope, c.(stopAtApproval := false), i, decision, st, events);
      && dry.store == st
      && if dry.effect.state == StateApproved then dry.events <= live.events else live == dry
  {
    hide Spend, ApprovalRejectionReason;
    SpendExtends(scope, c.(stopAtApproval := false), i, decision, st, events + [ApprovalGranted]);
  }

  lemma SpendExtends(scope: Scope, c: Call, i: Intent, decision: Approval, st: Store, events: seq<Event>)
    ensures events <= Spend(scope, c, i, decision, st, events).events
  {
    hide Keep, IntentSha256;
  }

  // ----- The rate budget ---------------------------------------------------------------------

  /** The evaluation counts against a budget: its scope has one, and an effect was authorized. */
  ghost predicate Spends(turns: seq<Turn>, k: nat)
    requires k < |turns|
  {
    turns[k].scope.maxEffectsPerWindow > 0 && Authorized(OutcomeAt(turns, k))
  }

  function EntryAt(turns: seq<Turn>, k: nat): RateLine
    requires k < |turns|
  {
    RateEntry(turns[k].scope, turns[k].call.oracle)
  }

  /** The events that a run recorded (or failed to record), in order and never pruned. */
  ghost function History(turns: seq<Turn>, recorded: bool): seq<RateLine> {
    if turns == [] then []
    else
      var n := |turns| - 1;
      History(turns[..n], recorded)
      + (if Spends(turns, n) && turns[n].call.oracle.rateWriteFails == !recorded then [EntryAt(turns, n)] else [])
  }

  predicate ClockedUpTo(turns: seq<Turn>, now: real) {
    && (forall k :: 0 <= k < |turns| ==> turns[k].call.oracle.rateNow <= now)
    && (forall k, l :: 0 <= k < l < |turns| ==> turns[k].call.oracle.rateNow <= turns[l].call.oracle.rateNow)
  }

  /** Every budget of the run looks back at least `window`, and none is above `max`. */
  predicate Budgets(turns: seq<Turn>, window: real, max: int) {
    && max >= 0
    && forall k :: 0 <= k < |turns| && turns[k].scope.maxEffectsPerWindow > 0 ==>
         window <= turns[k].scope.rateWindowSeconds && turns[k].scope.maxEffectsPerWindow <= max
  }

  lemma RateStep(scope: Scope, c: Call, st: Store)
    ensures
      var out := Evaluate(scope, c, st);
      var kept := Keep(st.rate, c.oracle.rateNow - scope.rateWindowSeconds);
      var spends := scope.maxEffectsPerWindow > 0 && Authorized(out);
      && (spends ==> |kept| < scope.maxEffectsPerWindow)
      && out.store.rate == if spends && !c.oracle.rateWriteFails then kept + [RateEntry(scope, c.oracle)] else st.rate
  {
    hide Read, Evaluate, Keep, ApprovalRejectionReason, Decision, LastEntry, IntentSha256;
    var p := OnlySpendChangesAnything(scope, c, st);
    if p.Some? {
      var q := SpendTells(scope, c, p.value.intent, p.value.decision, st, p.value.events);
    }
  }

  /**
   * Pruning is invisible and the budget is a sliding window. For every run whose clock does not go
   * back, over scopes that share the sandbox and all look back at least `window`: any count of at most
   * that far agrees with the unpruned history; the compacted ledger never outgrows the largest budget;
   * and every closed window of that length holds at most the largest budget, commits and record_only
   * approvals together. With one scope that is its own window and its own budget.
   */
  lemma {:induction false} RateBudgetHolds(turns: seq<Turn>, window: real, max: int, now: real)
    requires Budgets(turns, window, max) && ClockedUpTo(turns, now)
    ensures Keep(StoreAfter(turns).rate, now - window) == Keep(History(turns, true), now - window)
    ensures |StoreAfter(turns).rate| <= max
    ensures WindowBounded(History(turns, true), window, max)
  {
    hide Evaluate, Authorized, Keep, WindowBounded, RateEntry, History;
    if turns == [] {
      NothingCounted(window, max);
    } else {
      var n := |turns| - 1;
      var front, scope, c := turns[..n], turns[n].scope, turns[n].call;
      var st := StoreAfter(front);
      RateBudgetHolds(front, window, max, now);
      RateBudgetHolds(front, window, max, c.oracle.rateNow);
      RateStep(scope, c, st);
      HistoryStep(turns);
      if Spends(turns, n) && !c.oracle.rateWriteFails {
        EntryIsAtItsTime(scope, c.oracle);
        EventIsCounted(st.rate, History(front, true), EntryAt(turns, n), now, window, scope.rateWindowSeconds,
                       scope.maxEffectsPerWindow, max);
      }
    }
  }

  lemma {:induction false} HistoryStep(turns: seq<Turn>)
    requires turns != []
    ensures
      var n := |turns| - 1;
      History(turns, true)
        == if Spends(turns, n) && !turns[n].call.oracle.rateWriteFails then
          History(turns[..n], true) + [EntryAt(turns, n)]
           else History(turns[..n], true)
  {
    hide Spends, EntryAt;
    assert History(turns[..|turns| - 1], true) + [] == History(turns[..|turns| - 1], true);
  }

  lemma NothingCounted(window: real, max: int)
    requires max >= 0
    ensures WindowBounded(History([], true), window, max)
    ensures History([], true) == []
  {
  }

  lemma EntryIsAtItsTime(scope: Scope, o: Oracle)
    ensures
      var e := RateEntry(scope, o);
      e.Entry? && e.ts == Some(o.rateNow) && e.scopeId == scope.scopeId
  {
  }

  /**
   * An event that is recorded on a ledger compacted to `own` counts as on the history for every shorter
   * look back, and keeps the shorter window.
   */
  lemma EventIsCounted(
    ledger: seq<RateLine>, history: seq<RateLine>, e: RateLine, now: real,
    window: real, own: real, budget: int, max: int)
    requires e.Entry? && e.ts.Some? && e.ts.value <= now
    requires window <= own && budget <= max && |Keep(ledger, e.ts.value - own)| < budget
    requires Keep(ledger, e.ts.value - window) == Keep(history, e.ts.value - window)
    requires Keep(ledger, now - window) == Keep(history, now - window)
    requires WindowBounded(history, window, max)
    ensures Keep(Keep(ledger, e.ts.value - own) + [e], now - window) == Keep(history + [e], now - window)
    ensures WindowBounded(history + [e], window, max)
  {
    hide Keep, WindowBounded, Live;
    var t := e.ts.value;
    KeepLater(ledger, t - own, t - window);
    SpendKeepsWindowBounded(history, e, window, max);
    KeepLater(ledger, t - own, now - window);
    KeepAppend(Keep(ledger, t - own), e, now - window);
    KeepAppend(history, e, now - window);
  }

  /** How many effects a run authorized against a budget in a closed window, recorded or not. */
  ghost function AuthorizedIn(turns: seq<Turn>, lo: real, window: real): nat {
    if turns == [] then 0
    else
      var n := |turns| - 1;
      var t := turns[n].call.oracle.rateNow;
      AuthorizedIn(turns[..n], lo, window) + (if Spends(turns, n) && lo <= t <= lo + window then 1 else 0)
  }

  /** What a failed rate write costs: at most the one effect it did not record. */
  lemma AuthorizedEffectsBounded(turns: seq<Turn>, window: real, max: int, now: real, lo: real)
    requires Budgets(turns, window, max) && ClockedUpTo(turns, now)
    ensures AuthorizedIn(turns, lo, window) <= max + CountIn(History(turns, false), lo, window)
  {
    RateBudgetHolds(turns, window, max, now);
    AuthorizedSplits(turns, lo, window);
  }

  lemma {:induction false} AuthorizedSplits(turns: seq<Turn>, lo: real, window: real)
    ensures AuthorizedIn(turns, lo, window)
         == CountIn(History(turns, true), lo, window) + CountIn(History(turns, false), lo, window)
  {
    if turns != [] {
      hide Evaluate, Spends, CountIn, History;
      AuthorizedSplits(turns[..|turns| - 1], lo, window);
      HistorySplits(turns, lo, window, true);
      HistorySplits(turns, lo, window, false);
    } else {
      assert History([], true) == [] && History([], false) == [];
    }
  }

  lemma {:induction false} HistorySplits(turns: seq<Turn>, lo: real, window: real, recorded: bool)
    requires turns != []
    ensures
      var n := |turns| - 1;
      var t := turns[n].call.oracle.rateNow;
      CountIn(History(turns, recorded), lo, window)
      == CountIn(History(turns[..n], recorded), lo, window)
       + (if && Spends(turns, n) && turns[n].call.oracle.rateWriteFails == !recorded
             && lo <= t <= lo + window then 1 else 0)
  {
    hide Evaluate, Spends, CountIn;
    var n := |turns| - 1;
    var before, e := History(turns[..n], recorded), EntryAt(turns, n);
    CountInAppend(before, e, lo, window);
    if Spends(turns, n) && turns[n].call.oracle.rateWriteFails == !recorded {
      assert History(turns, recorded) == before + [e];
    } else {
      assert History(turns, recorded) == before;
    }
  }

  // ----- Scopes that share a sandbox ---------------------------------------------------------

  /** The events of one scope. */
  function Own(history: seq<RateLine>, scopeId: string): seq<RateLine> {
    if history == [] then []
    else
      var last := history[|history| - 1];
      Own(history[..|history| - 1], scopeId) + (if last.Entry? && last.scopeId == scopeId then [last] else [])
  }

  lemma {:induction false} OwnAppend(history: seq<RateLine>, e: RateLine, scopeId: string)
    ensures Own(history + [e], scopeId)
         == Own(history, scopeId) + (if e.Entry? && e.scopeId == scopeId then [e] else [])
  {
    assert (history + [e])[..|history|] == history;
  }

  lemma {:induction false} OwnAreFewer(history: seq<RateLine>, scopeId: string, since: real)
    ensures |Keep(Own(history, scopeId), since)| <= |Keep(history, since)|
  {
    if history != [] {
      var front, last := history[..|history| - 1], history[|history| - 1];
      OwnAreFewer(front, scopeId, since);
      KeepAppend(Own(front, scopeId), last, since);
      assert Own(front, scopeId) + [] == Own(front, scopeId);
    }
  }

  /** Every budget given out under a scope id is at most `max`. */
  predicate OwnBudget(turns: seq<Turn>, scopeId: string, max: int) {
    max >= 0 && forall k :: 0 <= k < |turns| && turns[k].scope.scopeId == scopeId ==>
      turns[k].scope.maxEffectsPerWindow <= max
  }

  /**
   * Although the ledger counts the events of all scopes, each scope keeps to its own budget in windows
   * that no budget of the sandbox falls short of.
   */
  lemma {:induction false} OwnBudgetHolds(
    turns: seq<Turn>, window: real, all: int, scopeId: string, max: int, now: real)
    requires Budgets(turns, window, all) && ClockedUpTo(turns, now) && OwnBudget(turns, scopeId, max)
    ensures WindowBounded(Own(History(turns, true), scopeId), window, max)
  {
    hide Evaluate, Authorized, Keep, WindowBounded, RateEntry, History, Own;
    if turns == [] {
      NoneOwned(scopeId, window, max);
    } else {
      var n := |turns| - 1;
      var front, scope, c := turns[..n], turns[n].scope, turns[n].call;
      var t := c.oracle.rateNow;
      OwnBudgetHolds(front, window, all, scopeId, max, now);
      HistoryStep(turns);
      if Spends(turns, n) && !c.oracle.rateWriteFails {
        EntryIsAtItsTime(scope, c.oracle);
        RateBudgetHolds(front, window, all, t);
        RateStep(scope, c, StoreAfter(front));
        OwnEventIsCounted(StoreAfter(front).rate, History(front, true), EntryAt(turns, n), scopeId, window,
                          scope.rateWindowSeconds, scope.maxEffectsPerWindow, max);
      }
    }
  }

  lemma NoneOwned(scopeId: string, window: real, max: int)
    requires max >= 0
    ensures WindowBounded(Own(History([], true), scopeId), window, max)
  {
  }

  lemma OwnEventIsCounted(
    ledger: seq<RateLine>, history: seq<RateLine>, e: RateLine, scopeId: string,
    window: real, own: real, budget: int, max: int)
    requires e.Entry? && e.ts.Some?
    requires window <= own && |Keep(ledger, e.ts.value - own)| < budget && (e.scopeId == scopeId ==> budget <= max)
    requires Keep(ledger, e.ts.value - window) == Keep(history, e.ts.value - window)
    requires WindowBounded(Own(history, scopeId), window, max)
    ensures WindowBounded(Own(history + [e], scopeId), window, max)
  {
    hide Keep, WindowBounded, Live, Own;
    OwnAppend(history, e, scopeId);
    assert Own(history, scopeId) + [] == Own(history, scopeId);
    if e.scopeId == scopeId {
      KeepLater(ledger, e.ts.value - own, e.ts.value - window);
      OwnAreFewer(history, scopeId, e.ts.value - window);
      SpendKeepsWindowBounded(Own(history, scopeId), e, window, max);
    }
  }

  /** A scope that needs no approval, with the given budget. */
  function BudgetScope(scopeId: string, max: int, window: real): Scope {
    Scope(scopeId, {"file.write"}, {}, 1, max, window)
  }

  /** A keyless file write at time `t` that goes through unless the budget is spent. */
  function Demand(t: real): Call {
    var intent := Intent("intent", "proposal", "file", "write", Str("note"), Obj(map[]), "file.write", None, None);
    var oracle :=
      Oracle("trace", "fresh", "approval", "now", t, false, false, Prepared("file.write"), t, false,
             Wrote(Evidence(Obj(map[]), Obj(map[]), "now")), false, false);
    var proposal := Proposal("proposal", "agent", Intend, [], Some(intent));
    Call(proposal, Adapter("file", "write", "file.write"), None, false, false, oracle)
  }

  function DemandTurn(scopeId: string, max: int, window: real, t: real): Turn {
    Turn(BudgetScope(scopeId, max, window), Demand(t))
  }

  lemma DemandIsMet(scopeId: string, max: int, window: real, t: real, st: Store)
    requires 0 < max && |Keep(st.rate, t - window)| < max
    ensures Authorized(Evaluate(BudgetScope(scopeId, max, window), Demand(t), st))
  {
    var scope, c := BudgetScope(scopeId, max, window), Demand(t);
    var q := TraceDeterminesResult(scope, c, st);
    DemandCommits(scopeId, max, window, t, st);
    if EndingOf(q) == Replay {
      hide Evaluate, Read;
      ReplayStep(scope, c, st);
      assert false;
    }
  }

  lemma DemandCommits(scopeId: string, max: int, window: real, t: real, st: Store)
    requires 0 < max && |Keep(st.rate, t - window)| < max
    ensures Evaluate(BudgetScope(scopeId, max, window), Demand(t), st).effect.state == StateCommitted
  {
    hide Keep, IntentSha256;
  }

  /** One more met demand in a run. */
  lemma DemandTurnStep(turns: seq<Turn>, scopeId: string, max: int, window: real, t: real)
    requires 0 < max && |Keep(StoreAfter(turns).rate, t - window)| < max
    ensures
      var next := turns + [DemandTurn(scopeId, max, window, t)];
      var e := Entry(Some(t), scopeId, "effect_fresh");
      && StoreAfter(next).rate == Keep(StoreAfter(turns).rate, t - window) + [e]
      && History(next, true) == History(turns, true) + [e]
  {
    hide Evaluate, Authorized, Keep, History;
    var turn := DemandTurn(scopeId, max, window, t);
    var next := turns + [turn];
    assert next[..|turns|] == turns && next[|turns|] == turn;
    assert "effect_" + "fresh" == "effect_fresh";
    DemandIsMet(scopeId, max, window, t, StoreAfter(turns));
    RateStep(turn.scope, turn.call, StoreAfter(turns));
    HistoryStep(next);
  }

  function Copies(n: nat, e: RateLine): (s: seq<RateLine>)
    ensures |s| == n && forall k :: 0 <= k < n ==> s[k] == e
  {
    if n == 0 then [] else Copies(n - 1, e) + [e]
  }

  lemma {:induction false} KeepCopies(n: nat, e: RateLine, since: real)
    ensures Keep(Copies(n, e), since) == if Live(e, since) then Copies(n, e) else []
  {
    if n > 0 {
      KeepCopies(n - 1, e, since);
      KeepAppend(Copies(n - 1, e), e, since);
    }
  }

  /** The first `n` demands under a budget that allows for them. */
  function Burst(n: nat, max: int, window: real): seq<Turn> {
    if n == 0 then [] else Burst(n - 1, max, window) + [DemandTurn("a", max, window, 0.0)]
  }

  lemma {:induction false} BurstIsMet(n: nat, max: int, window: real)
    requires n <= max && 0.0 < window
    ensures
      var all := Copies(n, Entry(Some(0.0), "a", "effect_fresh"));
      StoreAfter(Burst(n, max, window)).rate == all && History(Burst(n, max, window), true) == all
  {
    hide StoreAfter, History, DemandTurn, Keep;
    if n == 0 {
      NothingStored();
    } else {
      BurstIsMet(n - 1, max, window);
      KeepCopies(n - 1, Entry(Some(0.0), "a", "effect_fresh"), 0.0 - window);
      DemandTurnStep(Burst(n - 1, max, window), "a", max, window, 0.0);
    }
  }

  /** A burst under a long window, a demand under a shorter one when that has passed, and one more under the long. */
  function SharedRun(max: nat, long: real, short: real): seq<Turn> {
    Burst(max, max, long) + [DemandTurn("b", 1, short, long)] + [DemandTurn("a", max, long, long)]
  }

  lemma SharedRunOverspends(max: nat, long: real, short: real)
    requires 2 <= max && 0.0 < short < long
    ensures
      History(SharedRun(max, long, short), true)
      == Copies(max, Entry(Some(0.0), "a", "effect_fresh"))
       + [Entry(Some(long), "b", "effect_fresh")] + [Entry(Some(long), "a", "effect_fresh")]
  {
    hide StoreAfter, History, DemandTurn, Keep;
    var burst, f := Burst(max, max, long), Entry(Some(long), "b", "effect_fresh");
    BurstIsMet(max, max, long);
    KeepCopies(max, Entry(Some(0.0), "a", "effect_fresh"), long - short);
    DemandTurnStep(burst, "b", 1, short, long);
    assert [] + [f] == [f];
    KeepCopies(1, f, long - long);
    assert Copies(1, f) == [f];
    DemandTurnStep(burst + [DemandTurn("b", 1, short, long)], "a", max, long, long);
  }

  lemma NothingStored()
    ensures StoreAfter([]).rate == [] && History([], true) == []
  {
  }

  /** All turns are made under one of two scopes: "a" with a budget of `max`, "b" with a budget of 1. */
  ghost predicate Shares(turns: seq<Turn>, max: int, long: real, short: real) {
    forall k :: 0 <= k < |turns| ==> turns[k].scope in {BudgetScope("a", max, long), BudgetScope("b", 1, short)}
  }

  /**
   * A scope with a budget of two or more that shares its sandbox with another keeps to that budget in
   * every run exactly if its window is no longer than the other's: the other's writes prune what only
   * the longer window needs.
   */
  lemma SharedBudgetHoldsIff(max: nat, long: real, short: real)
    requires 2 <= max && 0.0 < long && 0.0 < short
    ensures
      (forall turns, now :: Shares(turns, max, long, short) && ClockedUpTo(turns, now) ==>
         WindowBounded(Own(History(turns, true), "a"), long, max))
      <==> long <= short
  {
    hide History, WindowBounded, Own;
    if long <= short {
      forall turns, now | Shares(turns, max, long, short) && ClockedUpTo(turns, now)
        ensures WindowBounded(Own(History(turns, true), "a"), long, max)
      {
        OwnBudgetHolds(turns, long, max, "a", max, now);
      }
    } else {
      var turns := SharedRun(max, long, short);
      BurstIsClocked(max, max, long, short);
      SharedRunOverspends(max, long, short);
      OneTooMany(max, long);
      assert Shares(turns, max, long, short) && ClockedUpTo(turns, long);
    }
  }

  lemma {:induction false} BurstIsClocked(n: nat, max: int, long: real, short: real)
    ensures Shares(Burst(n, max, long), max, long, short)
    ensures forall k :: 0 <= k < |Burst(n, max, long)| ==> Burst(n, max, long)[k].call.oracle.rateNow == 0.0
  {
    if n > 0 {
      BurstIsClocked(n - 1, max, long, short);
    }
  }

  lemma OneTooMany(max: nat, long: real)
    requires 0.0 < long
    ensures
      var e, l := Entry(Some(0.0), "a", "effect_fresh"), Entry(Some(long), "a", "effect_fresh");
      var f := Entry(Some(long), "b", "effect_fresh");
      !WindowBounded(Own(Copies(max, e) + [f] + [l], "a"), long, max)
  {
    hide CountIn, Own;
    var e, l := Entry(Some(0.0), "a", "effect_fresh"), Entry(Some(long), "a", "effect_fresh");
    var f := Entry(Some(long), "b", "effect_fresh");
    CopiesCounted(max, e, long);
    OwnAppend(Copies(max, e), f, "a");
    OwnAppend(Copies(max, e) + [f], l, "a");
    assert Own(Copies(max, e) + [f] + [l], "a") == Copies(max, e) + [l];
    CountInAppend(Copies(max, e), l, 0.0, long);
    assert CountIn(Own(Copies(max, e) + [f] + [l], "a"), 0.0, long) == max + 1;
  }

  lemma {:induction false} CopiesCounted(n: nat, e: RateLine, window: real)
    requires e == Entry(Some(0.0), "a", "effect_fresh") && 0.0 < window
    ensures Own(Copies(n, e), "a") == Copies(n, e) && CountIn(Copies(n, e), 0.0, window) == n
  {
    if n > 0 {
      CopiesCounted(n - 1, e, window);
      OwnAppend(Copies(n - 1, e), e, "a");
      CountInAppend(Copies(n - 1, e), e, 0.0, window);
    }
  }
}
