/**
 * The event language of the evaluator. A finite automaton reads a trace; the phase it stops in
 * says how the evaluation ended, without looking at the effect that was returned.
 */
module TraceLanguage {
  import opened Wrappers
  import opened Records
  import opened RateBudget
  import opened Evaluator

  datatype Phase =
    | Start
    | Received
    | Created
    | Declared(mode: Custody)
    | Conflicted
    | Replayed
    | Checked
    | Rendered
    | Asked
    | Refused
    | Granted
    | Limited
    | Stopped
    | StoppedUncounted
    | Started
    | Committed
    | CommittedUnkeyed
    | CommittedUncounted
    | PausedEnd
    | RejectedEnd(afterStart: bool)
    | NotATrace

  function Step(q: Phase, e: Event): Phase {
    match e
    case ProposalReceived => if q == Start then Received else NotATrace
    case IntentCreated => if q == Received then Created else NotATrace
    case CustodyDeclared(mode) => if q == Created then Declared(mode) else NotATrace
    case IdempotencyConflict => if Opened(q) then Conflicted else NotATrace
    case IdempotentReplay(_) => if Opened(q) then Replayed else NotATrace
    case PolicyChecked => if Opened(q) then Checked else NotATrace
    case DryRunRendered => if q == Checked then Rendered else NotATrace
    case ApprovalRequested => if q == Rendered then Asked else NotATrace
    case EffectPaused => if q == Asked then PausedEnd else NotATrace
    case ApprovalRejected => if q == Rendered then Refused else NotATrace
    case ApprovalGranted => if q == Rendered then Granted else NotATrace
    case RateLimited(_) => if q == Granted then Limited else NotATrace
    case CustodyRecordOnly(_) => if q == Granted then Stopped else NotATrace
    case CommitStarted => if q == Granted then Started else NotATrace
    case AdapterNote(_) => if q == Started then Started else NotATrace
    case EffectCommitted(_) => if q == Started then Committed else NotATrace
    case IdempotencyRecordFailed => if q == Committed then CommittedUnkeyed else NotATrace
    case RateRecordFailed =>
      if q == Stopped then StoppedUncounted
      else if q == Committed || q == CommittedUnkeyed then CommittedUncounted
      else NotATrace
    case EffectRejected(_) =>
      if q == Received || Opened(q) || q == Conflicted || q == Refused || q == Granted || q == Limited then
        RejectedEnd(false)
      else if q == Started then RejectedEnd(true)
      else NotATrace
  }

  predicate Opened(q: Phase) {
    q == Created || q.Declared?
  }

  function Read(trace: seq<Event>): Phase {
    if trace == [] then Start else Step(Read(trace[..|trace| - 1]), trace[|trace| - 1])
  }

  // ----- How an evaluation ended -----------------------------------------------------------

  datatype Ending = Rejection | Pause | DryApproval | RecordedOnly | Replay | FreshCommit | Unfinished

  function EndingOf(q: Phase): Ending {
    match q
    case RejectedEnd(_) => Rejection
    case PausedEnd => Pause
    case Granted => DryApproval
    case Stopped | StoppedUncounted => RecordedOnly
    case Replayed => Replay
    case Committed | CommittedUnkeyed | CommittedUncounted => FreshCommit
    case _ => Unfinished
  }

  function StateOf(ending: Ending): Option<EffectState> {
    match ending
    case Rejection => Some(StateRejected)
    case Pause => Some(StatePaused)
    case DryApproval | RecordedOnly => Some(StateApproved)
    case Replay | FreshCommit => Some(StateCommitted)
    case Unfinished => None
  }

  lemma ReadAppend(trace: seq<Event>, e: Event)
    ensures Read(trace + [e]) == Step(Read(trace), e)
  {
    assert (trace + [e])[..|trace|] == trace;
  }

  lemma {:induction false} ReadNotes(trace: seq<Event>, notes: seq<string>, n: nat)
    requires Read(trace) == Started && n <= |notes|
    ensures Read(trace + Notes(notes)[..n]) == Started
  {
    hide Read;
    if n == 0 {
      assert trace + Notes(notes)[..0] == trace;
    } else {
      ReadNotes(trace, notes, n - 1);
      ReadAppend(trace + Notes(notes)[..n - 1], AdapterNote(notes[n - 1]));
      assert trace + Notes(notes)[..n] == (trace + Notes(notes)[..n - 1]) + [AdapterNote(notes[n - 1])];
    }
  }

  predicate CalledAdapter(q: Phase) {
    EndingOf(q) == FreshCommit || q == RejectedEnd(true)
  }

  /** The trace ends in phase `q`, which tells the state of the effect and whether the adapter was called. */
  ghost predicate Tells(q: Phase, o: Outcome, st: Store) {
    && Read(o.events) == q
    && StateOf(EndingOf(q)) == Some(o.effect.state)
    && (if CalledAdapter(q) then
          && |o.store.calls| == |st.calls| + 1
          && o.store.calls[..|st.calls|] == st.calls
          && (o.store.calls[|st.calls|].wrote <==> EndingOf(q) == FreshCommit)
        else
          o.store.calls == st.calls)
  }

  lemma StartIsRead()
    ensures Read([ProposalReceived]) == Received
  {
    ReadAppend([], ProposalReceived);
  }

  lemma OpeningIsRead(i: Intent)
    ensures Read(Opening(i)) == if i.custodyMode.Some? then Declared(i.custodyMode.value) else Created
  {
    StartIsRead();
    ReadAppend([ProposalReceived], IntentCreated);
    assert [ProposalReceived] + [IntentCreated] == [ProposalReceived, IntentCreated];
    if i.custodyMode.Some? {
      ReadAppend([ProposalReceived, IntentCreated], CustodyDeclared(i.custodyMode.value));
    } else {
      assert Opening(i) == [ProposalReceived, IntentCreated];
    }
  }

  lemma RejectionTells(
    scope: Scope, o: Oracle, intentId: Option<string>, reason: Reason, approval: Option<Approval>, st: Store,
      events: seq<Event>)
    requires
      var q := Read(events);
      q == Received || Opened(q) || q == Conflicted || q == Refused || q == Granted || q == Limited
    ensures Tells(RejectedEnd(false), Rejected(scope, o, intentId, reason, approval, st, events), st)
    ensures Rejected(scope, o, intentId, reason, approval, st, events).store == st
  {
    hide Read;
    ReadAppend(events, EffectRejected(reason));
  }

  lemma RateEntryTells(q: Phase, scope: Scope, o: Oracle, before: Store, st: Store, effect: Effect, events: seq<Event>)
    returns (q': Phase)
    requires q == Stopped || q == Committed || q == CommittedUnkeyed
    requires Tells(q, Outcome(st, effect, events), before)
    ensures Tells(q', RecordRateEntry(scope, o, st, effect, events), before)
    ensures EndingOf(q') == EndingOf(q)
  {
    hide Read;
    ReadAppend(events, RateRecordFailed);
    q' := if scope.maxEffectsPerWindow > 0 && o.rateWriteFails then Step(q, RateRecordFailed) else q;
  }

  lemma CommitTells(scope: Scope, c: Call, i: Intent, decision: Approval, st: Store, events: seq<Event>)
    returns (q: Phase)
    requires Read(events) == Started
    ensures Tells(q, CommitThroughAdapter(scope, c, i, decision, st, events), st)
    ensures EndingOf(q) == if c.oracle.commit.Wrote? then FreshCommit else Rejection
  {
    hide Read;
    match c.oracle.commit
    case CommitRefused(notes, reason) =>
      ReadNotes(events, notes, |notes|);
      assert Notes(notes)[..|notes|] == Notes(notes);
      ReadAppend(events + Notes(notes), EffectRejected(reason));
      q := RejectedEnd(true);
    case Wrote(evidence) =>
      ReadAppend(events, EffectCommitted(evidence));
      var committed := events + [EffectCommitted(evidence)];
      var effect := CommittedEffect(scope, c.oracle, i, decision, evidence);
      var called := st.(calls := st.calls + [AdapterCall(i, true)]);
      if !i.HasKey() {
        q := RateEntryTells(Committed, scope, c.oracle, st, called, effect, committed);
      } else if c.oracle.idempotencyWriteFails {
        ReadAppend(committed, IdempotencyRecordFailed);
        q := RateEntryTells(CommittedUnkeyed, scope, c.oracle, st, called, effect,
          committed + [IdempotencyRecordFailed]);
      } else {
        var record := IdemRecord(scope.scopeId, i.idempotencyKey.value, IntentSha256(i), effect);
        q := RateEntryTells(Committed, scope, c.oracle, st, called.(idem := called.idem + [record]), effect, committed);
      }
  }

  lemma SpendTells(scope: Scope, c: Call, i: Intent, decision: Approval, st: Store, events: seq<Event>)
    returns (q: Phase)
    requires Read(events) == Granted
    ensures Tells(q, Spend(scope, c, i, decision, st, events), st)
    ensures EndingOf(q) == Rejection || EndingOf(q) == if i.IsRecordOnly() then RecordedOnly else FreshCommit
    ensures i.IsRecordOnly() ==> !CalledAdapter(q)
  {
    hide Read, Rejected, Keep, CommitThroughAdapter, RecordRateEntry;
    var recent := |Keep(st.rate, c.oracle.rateNow - scope.rateWindowSeconds)|;
    if scope.maxEffectsPerWindow > 0 && c.oracle.rateReadFails {
      RejectionTells(scope, c.oracle, Some(i.intentId), AdapterCommitFailed, None, st, events);
      q := RejectedEnd(false);
    } else if scope.maxEffectsPerWindow > 0 && recent >= scope.maxEffectsPerWindow {
      ReadAppend(events, RateLimited(recent));
      RejectionTells(scope, c.oracle, Some(i.intentId), ScopeRateLimitExceeded, None, st,
        events + [RateLimited(recent)]);
      q := RejectedEnd(false);
    } else if i.IsRecordOnly() {
      var stopped := CustodyRecordOnly(EffectId(c.oracle));
      ReadAppend(events, stopped);
      q := RateEntryTells(Stopped, scope, c.oracle, st, st, ApprovedEffect(scope, c.oracle, i, decision),
        events + [stopped]);
    } else {
      ReadAppend(events, CommitStarted);
      q := CommitTells(scope, c, i, decision, st, events + [CommitStarted]);
    }
  }

  lemma DecideTells(scope: Scope, c: Call, i: Intent, decision: Approval, st: Store, events: seq<Event>)
    returns (q: Phase)
    requires Read(events) == Rendered
    ensures Tells(q, Decide(scope, c, i, decision, st, events), st)
    ensures EndingOf(q) == Rejection || EndingOf(q) == Pause
         || EndingOf(q)
            == if c.stopAtApproval then DryApproval else if i.IsRecordOnly() then RecordedOnly else FreshCommit
    ensures i.IsRecordOnly() ==> !CalledAdapter(q)
    ensures c.stopAtApproval ==> Decide(scope, c, i, decision, st, events).store == st
  {
    hide Read, Rejected, Spend, ApprovalRejectionReason;
    var gate := ApprovalRejectionReason(scope, i, decision, c.oracle.now);
    if decision.status == Requested {
      ReadAppend(events, ApprovalRequested);
      ReadAppend(events + [ApprovalRequested], EffectPaused);
      return PausedEnd;
    }
    if gate.Some? {
      ReadAppend(events, ApprovalRejected);
      RejectionTells(scope, c.oracle, Some(i.intentId), gate.value, Some(decision), st, events + [ApprovalRejected]);
      return RejectedEnd(false);
    }
    ReadAppend(events, ApprovalGranted);
    if c.stopAtApproval {
      return Granted;
    }
    q := SpendTells(scope, c, i, decision, st, events + [ApprovalGranted]);
  }

  lemma PrepareTells(scope: Scope, c: Call, i: Intent, st: Store, events: seq<Event>)
    returns (q: Phase)
    requires Opened(Read(events))
    ensures Tells(q, PrepareAndApprove(scope, c, i, st, events), st)
    ensures EndingOf(q) == Rejection || EndingOf(q) == Pause
         || EndingOf(q)
            == if c.stopAtApproval then DryApproval else if i.IsRecordOnly() then RecordedOnly else FreshCommit
    ensures i.IsRecordOnly() ==> !CalledAdapter(q)
    ensures c.stopAtApproval ==> PrepareAndApprove(scope, c, i, st, events).store == st
  {
    hide Read, Rejected, Decide, Decision;
    match c.oracle.preparation
    case PrepareRefused(reason) =>
      RejectionTells(scope, c.oracle, Some(i.intentId), reason, None, st, events);
      q := RejectedEnd(false);
    case Prepared(kind) =>
      ReadAppend(events, PolicyChecked);
      ReadAppend(events + [PolicyChecked], DryRunRendered);
      q := DecideTells(scope, c, i, Decision(scope, c, i, kind), st, events + [PolicyChecked] + [DryRunRendered]);
  }

  lemma CommittableTells(scope: Scope, c: Call, i: Intent, st: Store, events: seq<Event>)
    returns (q: Phase)
    requires Opened(Read(events))
    ensures Tells(q, RunCommittable(scope, c, i, st, events), st)
    ensures EndingOf(q) == Rejection || EndingOf(q) == Pause || (EndingOf(q) == Replay && !c.stopAtApproval)
         || EndingOf(q)
            == if c.stopAtApproval then DryApproval else if i.IsRecordOnly() then RecordedOnly else FreshCommit
    ensures i.IsRecordOnly() ==> !CalledAdapter(q)
    ensures c.stopAtApproval ==> RunCommittable(scope, c, i, st, events).store == st
  {
    hide Read, Rejected, PrepareAndApprove, LastEntry, IntentSha256;
    if Keyed(c, i) {
      if c.oracle.lookupFails {
        RejectionTells(scope, c.oracle, Some(i.intentId), AdapterCommitFailed, None, st, events);
        return RejectedEnd(false);
      }
      var prior := LastEntry(st.idem, scope.scopeId, i.idempotencyKey.value);
      if prior.Some? {
        if prior.value.intentSha256 != IntentSha256(i) {
          ReadAppend(events, IdempotencyConflict);
          RejectionTells(scope, c.oracle, Some(i.intentId), IdempotencyKeyConflict, None, st,
            events + [IdempotencyConflict]);
          return RejectedEnd(false);
        }
        ReadAppend(events, IdempotentReplay(prior.value.effect.effectId));
        return Replayed;
      }
    }
    q := PrepareTells(scope, c, i, st, events);
  }

  /**
   * Whatever the ledgers, the proposal and the oracle: the trace is in the language, the phase it
   * ends in determines the state of the effect, and the adapter was called exactly when the trace
   * says so. Only a real run of a record_only intent is recorded only; such an intent never reaches
   * the adapter; a dry run ends in a dry approval at most and changes nothing.
   */
  lemma TraceDeterminesResult(scope: Scope, c: Call, st: Store)
    returns (q: Phase)
    ensures Tells(q, Evaluate(scope, c, st), st)
    ensures EndingOf(q) == DryApproval ==> c.stopAtApproval
    ensures EndingOf(q) in {FreshCommit, Replay, RecordedOnly} ==> !c.stopAtApproval && c.proposal.intent.Some?
    ensures EndingOf(q) == RecordedOnly ==> c.proposal.intent.value.IsRecordOnly()
    ensures EndingOf(q) == FreshCommit ==> !c.proposal.intent.value.IsRecordOnly()
    ensures c.proposal.intent.Some? && c.proposal.intent.value.IsRecordOnly() ==> !CalledAdapter(q)
    ensures c.stopAtApproval ==> Evaluate(scope, c, st).store == st
  {
    hide Read, RunCommittable, AdmissionRejection, Opening;
    if c.proposal.speechAct != Intend || c.proposal.intent.None? {
      StartIsRead();
      RejectionTells(scope, c.oracle, None, ProposalIsNotAnIntent, None, st, [ProposalReceived]);
      return RejectedEnd(false);
    }
    var i := c.proposal.intent.value;
    OpeningIsRead(i);
    var admission := AdmissionRejection(scope, i, c.adapter);
    if admission.Some? {
      RejectionTells(scope, c.oracle, Some(i.intentId), admission.value, None, st, Opening(i));
      return RejectedEnd(false);
    }
    if Keyed(c, i) && c.oracle.lockFails {
      RejectionTells(scope, c.oracle, Some(i.intentId), AdapterCommitFailed, None, st, Opening(i));
      return RejectedEnd(false);
    }
    q := CommittableTells(scope, c, i, st, Opening(i));
  }

  // ----- What every word of the language looks like -----------------------------------------

  function CountStarted(trace: seq<Event>): nat {
    if trace == [] then 0
    else CountStarted(trace[..|trace| - 1]) + (if trace[|trace| - 1].CommitStarted? then 1 else 0)
  }

  predicate Mentions(trace: seq<Event>, p: Event -> bool) {
    exists k :: 0 <= k < |trace| && p(trace[k])
  }

  predicate HasStarted(q: Phase) {
    q == Started || EndingOf(q) == FreshCommit || q == RejectedEnd(true)
  }

  predicate HasGranted(q: Phase) {
    HasStarted(q) || q == Granted || q == Limited || EndingOf(q) == RecordedOnly
  }

  /**
   * A word ends in effect.rejected exactly when it is a rejection, and in approval.requested followed
   * by effect.paused exactly when it is a pause.
   */
  lemma EndOfWord(trace: seq<Event>)
    requires Read(trace) != NotATrace
    ensures Read(trace).RejectedEnd? <==> |trace| > 0 && trace[|trace| - 1].EffectRejected?
    ensures Read(trace) == PausedEnd
      <==> |trace| > 1 && trace[|trace| - 1].EffectPaused? && trace[|trace| - 2].ApprovalRequested?
  {
    if trace != [] {
      var front := trace[..|trace| - 1];
      assert Read(front) == Asked ==> front != [] && front[|front| - 1].ApprovalRequested?;
    }
  }

  /** The adapter is started at most once. */
  lemma {:induction false} StartedOnce(trace: seq<Event>)
    requires Read(trace) != NotATrace
    ensures CountStarted(trace) == if HasStarted(Read(trace)) then 1 else 0
  {
    if trace != [] {
      StartedOnce(trace[..|trace| - 1]);
    }
  }

  /** effect.committed occurs exactly in a fresh commit. */
  lemma {:induction false} CommitMark(trace: seq<Event>)
    requires Read(trace) != NotATrace
    ensures Mentions(trace, (e: Event) => e.EffectCommitted?) <==> EndingOf(Read(trace)) == FreshCommit
  {
    if trace != [] {
      CommitMark(trace[..|trace| - 1]);
      MentionsLast(trace, (e: Event) => e.EffectCommitted?);
    }
  }

  /** custody.record_only occurs exactly where an approval was only recorded. */
  lemma {:induction false} CustodyMark(trace: seq<Event>)
    requires Read(trace) != NotATrace
    ensures Mentions(trace, (e: Event) => e.CustodyRecordOnly?) <==> EndingOf(Read(trace)) == RecordedOnly
  {
    if trace != [] {
      CustodyMark(trace[..|trace| - 1]);
      MentionsLast(trace, (e: Event) => e.CustodyRecordOnly?);
    }
  }

  /** effect.idempotent_replay occurs exactly in a replay. */
  lemma {:induction false} ReplayMark(trace: seq<Event>)
    requires Read(trace) != NotATrace
    ensures Mentions(trace, (e: Event) => e.IdempotentReplay?) <==> EndingOf(Read(trace)) == Replay
  {
    if trace != [] {
      ReplayMark(trace[..|trace| - 1]);
      MentionsLast(trace, (e: Event) => e.IdempotentReplay?);
    }
  }

  /** Whatever starts the adapter was granted before. */
  lemma {:induction false} GrantedBeforeStarted(trace: seq<Event>)
    requires Read(trace) != NotATrace
    ensures HasGranted(Read(trace)) ==> Mentions(trace, (e: Event) => e.ApprovalGranted?)
    ensures forall k :: 0 <= k < |trace| && trace[k].CommitStarted? ==>
      Mentions(trace[..k], (e: Event) => e.ApprovalGranted?)
  {
    if trace != [] {
      var front := trace[..|trace| - 1];
      GrantedBeforeStarted(front);
      MentionsLast(trace, (e: Event) => e.ApprovalGranted?);
      forall k | 0 <= k < |trace| && trace[k].CommitStarted?
        ensures Mentions(trace[..k], (e: Event) => e.ApprovalGranted?)
      {
        if k < |front| {
          assert front[..k] == trace[..k] && front[k] == trace[k];
        }
      }
    }
  }

  lemma MentionsLast(trace: seq<Event>, p: Event -> bool)
    requires trace != []
    ensures Mentions(trace, p) <==> Mentions(trace[..|trace| - 1], p) || p(trace[|trace| - 1])
  {
    var front := trace[..|trace| - 1];
    forall k | 0 <= k < |front| ensures front[k] == trace[k] {}
    if Mentions(front, p) {
      var k :| 0 <= k < |front| && p(front[k]);
      assert p(trace[k]);
    }
  }

  /** The same, read off the list of events alone, for every evaluation. */
  lemma EventsDecideTheEffect(scope: Scope, c: Call, st: Store)
    ensures
      var out := Evaluate(scope, c, st);
      var t := out.events;
      var n := |t|;
      && (out.effect.state == StateRejected <==> n > 0 && t[n - 1].EffectRejected?)
      && (out.effect.state == StatePaused <==> n > 1 && t[n - 1].EffectPaused? && t[n - 2].ApprovalRequested?)
      && (out.effect.state == StateCommitted
          <==> Mentions(t, (e: Event) => e.EffectCommitted?) || Mentions(t, (e: Event) => e.IdempotentReplay?))
      && (out.effect.state == StateApproved && !c.stopAtApproval
          <==> Mentions(t, (e: Event) => e.CustodyRecordOnly?))
      && |out.store.calls| == |st.calls| + CountStarted(t) <= |st.calls| + 1
      && (Mentions(t, (e: Event) => e.EffectCommitted?) ==> CountStarted(t) == 1)
      && (forall k :: 0 <= k < n && t[k].CommitStarted? ==> Mentions(t[..k], (e: Event) => e.ApprovalGranted?))
  {
    hide Read, Evaluate, CountStarted, Step, Mentions;
    var q := TraceDeterminesResult(scope, c, st);
    var t := Evaluate(scope, c, st).events;
    EndOfWord(t);
    StartedOnce(t);
    CommitMark(t);
    CustodyMark(t);
    ReplayMark(t);
    GrantedBeforeStarted(t);
  }
}
