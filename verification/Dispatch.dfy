/**
 * Which evaluator a proposal goes to (`evaluate` in `runtime_api.py`, `interpret` in `interpreter.py`):
 * the adapter that serves its intent, for real or as a dry run, or a rejection of the interpreter's own.
 */
module Dispatch {
  import opened Wrappers
  import opened Records
  import opened Evaluator
  import opened TraceLanguage
  import opened Runs
  import Outcomes

  datatype Mode = Interpret | Run

  const FILE := Adapter("file", "write", "file.write")
  const MEMORY := Adapter("memory", "write", "memory.write")
  const NETWORK := Adapter("network", "fetch", "network.fetch")

  predicate Serves(a: Adapter, i: Intent) {
    i.adapter == a.adapter && i.operation == a.operation
  }

  function AdapterFor(i: Intent): Option<Adapter> {
    if Serves(FILE, i) then Some(FILE)
    else if Serves(MEMORY, i) then Some(MEMORY)
    else if Serves(NETWORK, i) then Some(NETWORK)
    else None
  }

  /** A proposal to be evaluated; the legacy flag is never passed on by the public entry points. */
  datatype Request = Request(mode: Mode, scope: Scope, proposal: Proposal, approval: Option<Approval>, oracle: Oracle)
  {
    function CallOn(a: Adapter, dry: bool): Call {
      Call(proposal, a, approval, false, dry, oracle)
    }
  }

  /** A real run needs an adapter that serves the intent; everything else is interpreted. */
  function Evaluated(q: Request, st: Store): Outcome {
    if q.mode == Run && q.proposal.intent.Some? && AdapterFor(q.proposal.intent.value).Some? then
      Evaluate(q.scope, q.CallOn(AdapterFor(q.proposal.intent.value).value, false), st)
    else
      Interpreted(q, st)
  }

  /** The interpreter's own rejections say nothing about custody, in the trace or on the effect. */
  function Interpreted(q: Request, st: Store): Outcome {
    if q.proposal.speechAct != Intend || q.proposal.intent.None? then
      Rejected(q.scope, q.oracle, None, ProposalIsNotAnIntent, None, st, [ProposalReceived])
    else
      var i := q.proposal.intent.value;
      match AdapterFor(i)
      case Some(a) => Evaluate(q.scope, q.CallOn(a, true), st)
      case None =>
        Rejected(q.scope, q.oracle, Some(i.intentId), UnsupportedAdapterForInterpret, None, st,
                 [ProposalReceived, IntentCreated])
  }

  /** The dispatch on a sandbox that keeps its own ledgers. */
  method RunEffect(sandbox: Sandbox, q: Request) returns (effect: Effect, trace: Trace)
    requires sandbox.locked == {} && sandbox.scope == q.scope
    modifies sandbox
    ensures sandbox.locked == {} && fresh(trace) && trace.traceId == q.oracle.traceId
    ensures Outcome(sandbox.Contents(), effect, trace.events) == Evaluated(q, old(sandbox.Contents()))
  {
    hide Evaluate;
    var intent := q.proposal.intent;
    if q.mode == Run && intent.Some? {
      var adapter := AdapterFor(intent.value);
      if adapter.Some? {
        effect, trace := sandbox.EvaluateWithAdapter(q.CallOn(adapter.value, false));
        return;
      }
    }
    effect, trace := InterpretEffect(sandbox, q);
  }

  method InterpretEffect(sandbox: Sandbox, q: Request) returns (effect: Effect, trace: Trace)
    requires sandbox.locked == {} && sandbox.scope == q.scope
    modifies sandbox
    ensures sandbox.locked == {} && fresh(trace) && trace.traceId == q.oracle.traceId
    ensures Outcome(sandbox.Contents(), effect, trace.events) == Interpreted(q, old(sandbox.Contents()))
  {
    hide Evaluate;
    if q.proposal.speechAct != Intend || q.proposal.intent.None? {
      trace := new Trace(q.oracle.traceId);
      trace.Add(ProposalReceived);
      effect := sandbox.Reject(q.CallOn(FILE, true), trace, None, ProposalIsNotAnIntent, None);
      return;
    }
    var i := q.proposal.intent.value;
    var adapter := AdapterFor(i);
    if adapter.Some? {
      effect, trace := sandbox.EvaluateWithAdapter(q.CallOn(adapter.value, true));
      return;
    }
    trace := new Trace(q.oracle.traceId);
    trace.Add(ProposalReceived);
    trace.Add(IntentCreated);
    effect := sandbox.Reject(q.CallOn(FILE, true), trace, Some(i.intentId), UnsupportedAdapterForInterpret, None);
  }

  /**
   * Every trace of the public entry points is in the language too, and tells the result. What commits,
   * replays or records an approval is a real run; interpreting leaves every ledger alone.
   */
  lemma DispatchTells(q: Request, st: Store) returns (p: Phase)
    ensures Tells(p, Evaluated(q, st), st)
    ensures EndingOf(p) in {FreshCommit, Replay, RecordedOnly} ==> q.mode == Run && q.proposal.intent.Some?
    ensures q.mode == Interpret ==> Evaluated(q, st).store == st
    ensures q.proposal.intent.Some? && q.proposal.intent.value.IsRecordOnly() ==> !CalledAdapter(p)
  {
    hide Read, Evaluate, AdapterFor, Rejected;
    var intent := q.proposal.intent;
    if q.mode == Run && intent.Some? && AdapterFor(intent.value).Some? {
      p := TraceDeterminesResult(q.scope, q.CallOn(AdapterFor(intent.value).value, false), st);
    } else if q.proposal.speechAct != Intend || intent.None? {
      StartIsRead();
      RejectionTells(q.scope, q.oracle, None, ProposalIsNotAnIntent, None, st, [ProposalReceived]);
      p := RejectedEnd(false);
    } else if AdapterFor(intent.value).Some? {
      p := TraceDeterminesResult(q.scope, q.CallOn(AdapterFor(intent.value).value, true), st);
    } else {
      StartIsRead();
      ReadAppend([ProposalReceived], IntentCreated);
      assert [ProposalReceived] + [IntentCreated] == [ProposalReceived, IntentCreated];
      RejectionTells(q.scope, q.oracle, Some(intent.value.intentId), UnsupportedAdapterForInterpret, None, st,
                     [ProposalReceived, IntentCreated]);
      p := RejectedEnd(false);
    }
  }

  /** What changes anything, or authorizes anything, went past the gate with a decision that cleared. */
  lemma ChangeNeedsClearedDecision(q: Request, st: Store) returns (d: Option<Approval>)
    ensures Evaluated(q, st).store != st || Authorized(Evaluated(q, st)) ==>
      && q.mode == Run && q.proposal.intent.Some? && q.oracle.preparation.Prepared? && d.Some?
      && d.value == ApprovalFor(q.scope, q.proposal.intent.value, q.oracle.preparation.effectKind, q.approval, false,
                                "approval_" + q.oracle.approvalId, q.oracle.stamp)
      && d.value.status != Requested
      && Cleared(q.scope, q.proposal.intent.value, d.value, q.oracle.now)
      && var i := q.proposal.intent.value;
      && q.proposal.speechAct == Intend && i.requiredCapability in q.scope.capabilities && i.target.Str? && i.input.Obj?
      && (i.adapter, i.operation, i.requiredCapability) in
         {("file", "write", "file.write"), ("memory", "write", "memory.write"), ("network", "fetch", "network.fetch")}
  {
    hide Read, Evaluate, AdapterFor, ApprovalFor, ApprovalRejectionReason, Spend, IntentSha256, LastEntry;
    var phase := DispatchTells(q, st);
    d := None;
    var intent := q.proposal.intent;
    if q.mode == Run && intent.Some? && AdapterFor(intent.value).Some? {
      var p := OnlySpendChangesAnything(q.scope, q.CallOn(AdapterFor(intent.value).value, false), st);
      if p.Some? {
        d := Some(p.value.decision);
        AuthorizedIsNotRejected(q.scope, q.CallOn(AdapterFor(intent.value).value, false), st);
        Outcomes.OnlyAdmittedIntents(q.scope, q.CallOn(AdapterFor(intent.value).value, false), st);
        AdapterTable(intent.value);
      }
    }
  }

  lemma AuthorizedIsNotRejected(scope: Scope, c: Call, st: Store)
    ensures Authorized(Evaluate(scope, c, st)) ==> Evaluate(scope, c, st).effect.state != StateRejected
  {
    hide Evaluate, Read;
    var q := TraceDeterminesResult(scope, c, st);
  }

  /** The pairs of adapter and operation that are served, and the capability each of them needs. */
  lemma AdapterTable(i: Intent)
    ensures AdapterFor(i)
         == if i.adapter == "file" && i.operation == "write" then Some(Adapter("file", "write", "file.write"))
            else if i.adapter == "memory" && i.operation == "write" then
              Some(Adapter("memory", "write", "memory.write"))
            else if i.adapter == "network" && i.operation == "fetch" then
              Some(Adapter("network", "fetch", "network.fetch"))
            else None
  {
  }

  /**
   * Where a request goes: a served intent to its adapter, for real exactly in a real run, as a dry run
   * when it is interpreted; an intent that is not served, or a proposal that is none, to a rejection
   * that leaves everything alone and whose trace says no more than what was received.
   */
  lemma RequestsGoTo(q: Request, st: Store)
    ensures
      var out, intent := Evaluated(q, st), q.proposal.intent;
      var isIntent := q.proposal.speechAct == Intend && intent.Some?;
      if intent.Some? && AdapterFor(intent.value).Some? && (q.mode == Run || isIntent) then
        var call := Call(q.proposal, AdapterFor(intent.value).value, q.approval, false, q.mode == Interpret, q.oracle);
        out == Evaluate(q.scope, call, st)
      else
        && out.store == st && out.effect.state == StateRejected
        && out.effect.custodyMode.None? && out.effect.approval.None?
        && if isIntent then
             && out.effect.rejectionReason == Some(UnsupportedAdapterForInterpret)
             && out.events == [ProposalReceived, IntentCreated, EffectRejected(UnsupportedAdapterForInterpret)]
           else
             && out.effect.rejectionReason == Some(ProposalIsNotAnIntent)
             && out.events == [ProposalReceived, EffectRejected(ProposalIsNotAnIntent)]
  {
    hide Evaluate, AdapterFor;
  }
}
