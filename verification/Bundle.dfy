/**
 * The bundle commands (`cli.py`): `bundle run`, which refuses to overwrite evidence, and `approve`,
 * which records a decision and runs the bundle again. The scope and the proposal stay as they are.
 */
module Bundle {
  import opened Wrappers
  import opened Records
  import opened RateBudget
  import opened Evaluator
  import opened TraceLanguage
  import opened Dispatch
  import opened Runs
  import Outcomes

  /** A JSON file: not there, not readable as what it should be, or holding a record. */
  datatype File<T> = Missing | Garbled | Holds(value: T)

  /** How writing a file went; a write that fails may leave the old file or a torn one. */
  datatype FileWrite = Written | Torn | Unchanged

  function Overwritten<T>(file: File<T>, value: T, w: FileWrite): File<T> {
    match w
    case Written => Holds(value)
    case Torn => Garbled
    case Unchanged => file
  }

  datatype Files = Files(approval: File<Approval>, effect: File<Effect>, trace: File<seq<Event>>)

  datatype Error = AlreadyExists | NotFound | Unreadable | NotAwaitingApproval | NoIntentToApprove | Raised

  datatype Setup = Setup(scope: Scope, proposal: Proposal)

  /** What one command meets: how its writes go, whether evaluating raises, and the evaluation's own oracle. */
  datatype Fate = Fate(
    approvalWrite: FileWrite, raises: bool, oracle: Oracle, effectWrite: FileWrite, traceWrite: FileWrite)

  function RunRequest(s: Setup, approval: Option<Approval>, o: Oracle): Request {
    Request(Run, s.scope, s.proposal, approval, o)
  }

  // ----- The two commands --------------------------------------------------------------------

  datatype State = State(files: Files, store: Store)

  datatype Command =
    | RunCommand(fate: Fate)
    | ApproveCommand(approve: bool, approver: string, approvalId: string, decidedAt: string, fate: Fate)

  function ReadApproval(file: File<Approval>): Result<Option<Approval>, Error> {
    match file
    case Missing => Ok(None)
    case Garbled => Err(Unreadable)
    case Holds(a) => Ok(Some(a))
  }

  /** `run_bundle`: the new state and what the command answers. */
  function RunStep(s: Setup, st: State, overwrite: bool, f: Fate): (State, Result<Effect, Error>) {
    if !overwrite && (!st.files.effect.Missing? || !st.files.trace.Missing?) then (st, Err(AlreadyExists))
    else if ReadApproval(st.files.approval).Err? then (st, Err(ReadApproval(st.files.approval).error))
    else if f.raises then (st, Err(Raised))
    else
      var out := Evaluated(RunRequest(s, ReadApproval(st.files.approval).value, f.oracle), st.store);
      var files := st.files.(effect := Overwritten(st.files.effect, out.effect, f.effectWrite));
      if !f.effectWrite.Written? then (State(files, out.store), Err(Raised))
      else
        (State(files.(trace := Overwritten(files.trace, out.events, f.traceWrite)), out.store),
         if f.traceWrite.Written? then Ok(out.effect) else Err(Raised))
  }

  predicate AwaitsApproval(e: Effect) {
    e.state == StatePaused && e.requiredInput == Some("approval_decision")
  }

  /** `read_pending_approval`: why there is nothing to approve, if so. */
  function NothingPending(s: Setup, files: Files): Option<Error> {
    match files.effect
    case Missing => Some(NotFound)
    case Garbled => Some(Unreadable)
    case Holds(e) =>
      if !AwaitsApproval(e) then Some(NotAwaitingApproval)
      else if s.proposal.intent.None? then Some(NoIntentToApprove)
      else None
  }

  function DecisionOf(s: Setup, c: Command): Approval
    requires c.ApproveCommand? && s.proposal.intent.Some?
  {
    var status := if c.approve then Approved else Denied;
    var reason := if c.approve then "operator_approve" else "operator_deny";
    MakeApprovalDecision(s.scope, s.proposal.intent.value, c.approver, status, Performer, c.approvalId,
                         c.decidedAt, Never, Some(reason))
  }

  /** `approve_bundle`: write the decision, then run again and replace the evidence. */
  function ApproveStep(s: Setup, st: State, c: Command): (State, Result<Effect, Error>)
    requires c.ApproveCommand?
  {
    if NothingPending(s, st.files).Some? then (st, Err(NothingPending(s, st.files).value))
    else
      var decided := st.(files := st.files.(
        approval := Overwritten(st.files.approval, DecisionOf(s, c), c.fate.approvalWrite)));
      if !c.fate.approvalWrite.Written? then (decided, Err(Raised)) else RunStep(s, decided, true, c.fate)
  }

  function CommandStep(s: Setup, st: State, c: Command): State {
    if c.RunCommand? then RunStep(s, st, false, c.fate).0 else ApproveStep(s, st, c).0
  }

  // ----- The commands as they run ------------------------------------------------------------

  class BundleDir {
    const setup: Setup
    const sandbox: Sandbox
    var approval: File<Approval>
    var effect: File<Effect>
    var trace: File<seq<Event>>

    constructor (setup: Setup, sandbox: Sandbox)
      ensures this.setup == setup && this.sandbox == sandbox
      ensures approval.Missing? && effect.Missing? && trace.Missing?
    {
      this.setup, this.sandbox := setup, sandbox;
      approval, effect, trace := Missing, Missing, Missing;
    }

    ghost function Contents(): State
      reads this, sandbox
    {
      State(Files(approval, effect, trace), sandbox.Contents())
    }

    ghost predicate Valid()
      reads sandbox
    {
      sandbox.scope == setup.scope && sandbox.locked == {}
    }

    method RunBundle(overwrite: bool, f: Fate) returns (r: Result<Effect, Error>)
      requires Valid()
      modifies this, sandbox
      ensures Valid()
      ensures (Contents(), r) == RunStep(setup, old(Contents()), overwrite, f)
    {
      if !overwrite {
        if !effect.Missing? {
          return Err(AlreadyExists);
        }
        if !trace.Missing? {
          return Err(AlreadyExists);
        }
      }
      if approval.Garbled? {
        return Err(Unreadable);
      }
      var decision: Option<Approval> := if approval.Holds? then Some(approval.value) else None;
      if f.raises {
        return Err(Raised);
      }
      var result, events := RunEffect(sandbox, RunRequest(setup, decision, f.oracle));
      effect := Overwritten(effect, result, f.effectWrite);
      if !f.effectWrite.Written? {
        return Err(Raised);
      }
      trace := Overwritten(trace, events.events, f.traceWrite);
      if !f.traceWrite.Written? {
        return Err(Raised);
      }
      return Ok(result);
    }

    method ApproveBundle(c: Command) returns (r: Result<Effect, Error>)
      requires Valid() && c.ApproveCommand?
      modifies this, sandbox
      ensures Valid()
      ensures (Contents(), r) == ApproveStep(setup, old(Contents()), c)
    {
      if effect.Missing? {
        return Err(NotFound);
      }
      if effect.Garbled? {
        return Err(Unreadable);
      }
      if effect.value.state != StatePaused || effect.value.requiredInput != Some("approval_decision") {
        return Err(NotAwaitingApproval);
      }
      if setup.proposal.intent.None? {
        return Err(NoIntentToApprove);
      }
      approval := Overwritten(approval, DecisionOf(setup, c), c.fate.approvalWrite);
      if !c.fate.approvalWrite.Written? {
        return Err(Raised);
      }
      r := RunBundle(true, c.fate);
    }
  }

  // ----- What a command answers --------------------------------------------------------------

  /** The approval record that a rerun finds. */
  function Found(file: File<Approval>): Option<Approval> {
    if file.Holds? then Some(file.value) else None
  }

  /**
   * What `bundle run` does: it refuses to replace evidence that stands, or to go by an approval that it
   * cannot read; otherwise, when its calls work, the files hold the effect and the trace of a real run
   * of the bundle's own proposal under its own scope, and the effect is the answer.
   */
  lemma RunAnswers(s: Setup, st: State, overwrite: bool, f: Fate)
    ensures
      var (next, r) := RunStep(s, st, overwrite, f);
      var stands := !overwrite && !(st.files.effect.Missing? && st.files.trace.Missing?);
      var out := Evaluated(Request(Run, s.scope, s.proposal, Found(st.files.approval), f.oracle), st.store);
      && next.files.approval == st.files.approval
      && (r == Err(AlreadyExists) <==> stands)
      && (r == Err(Unreadable) <==> !stands && st.files.approval.Garbled?)
      && (r == Err(AlreadyExists) || r == Err(Unreadable) || f.raises ==> next == st && r.Err?)
      && (r.Ok? <==>
            !stands && !st.files.approval.Garbled? && !f.raises && f.effectWrite.Written? && f.traceWrite.Written?)
      && (r.Ok? ==>
            && r.value == out.effect && next.store == out.store
            && next.files.effect == Holds(out.effect) && next.files.trace == Holds(out.events))
  {
    hide Evaluated;
  }

  /** The effect on file is paused for a decision, and there is an intent to decide about. */
  predicate Pending(s: Setup, files: Files) {
    && files.effect.Holds? && files.effect.value.state == StatePaused
    && files.effect.value.requiredInput == Some("approval_decision")
    && s.proposal.intent.Some?
  }

  /** `approve` refuses exactly when nothing is pending, says why, and then leaves everything alone. */
  lemma ApproveRefuses(s: Setup, st: State, c: Command)
    requires c.ApproveCommand?
    ensures
      var (next, r) := ApproveStep(s, st, c);
      var effect := st.files.effect;
      && (!Pending(s, st.files) ==> next == st)
      && (r == Err(NotFound) <==> effect.Missing?)
      && (r == Err(NotAwaitingApproval) <==>
            && effect.Holds?
            && (effect.value.state != StatePaused || effect.value.requiredInput != Some("approval_decision")))
      && (r == Err(NoIntentToApprove) <==>
            && effect.Holds? && effect.value.state == StatePaused
            && effect.value.requiredInput == Some("approval_decision") && s.proposal.intent.None?)
      && (Pending(s, st.files) && !c.fate.approvalWrite.Written? ==>
            r == Err(Raised) && next.store == st.store && next.files.effect == st.files.effect)
  {
    hide Evaluated;
  }

  /**
   * A written decision: the approval file holds a record in the approver's name, and that record clears
   * the gate for the bundle's own scope and intent, and no others, exactly if the approver said yes.
   */
  lemma DecisionOnFile(s: Setup, st: State, c: Command, scope: Scope, intent: Intent, now: real)
    requires c.ApproveCommand? && Pending(s, st.files) && c.fate.approvalWrite.Written?
    ensures
      var file := ApproveStep(s, st, c).0.files.approval;
      && file.Holds?
      && (Cleared(scope, intent, file.value, now) <==>
            c.approve && scope.scopeId == s.scope.scopeId && s.proposal.intent == Some(intent))
      && file.value.status == (if c.approve then Approved else Denied)
      && file.value.approver == Some(c.approver) && file.value.approvalId == Some(c.approvalId)
      && file.value.decidedAt == Some(c.decidedAt) && file.value.authority == Performer
      && file.value.reason == Some(if c.approve then "operator_approve" else "operator_deny")
  {
    hide Evaluated, IntentSha256, ApprovalRejectionReason, Cleared;
    var i := s.proposal.intent.value;
    DecisionReleasesOneIntent(
      s.scope, i, c.approver, if c.approve then Approved else Denied, Performer, c.approvalId, c.decidedAt, Never,
      Some(if c.approve then "operator_approve" else "operator_deny"), scope, intent, now);
  }

  /** All writes of the command work, and evaluating does not raise. */
  predicate Works(f: Fate) {
    f.approvalWrite.Written? && !f.raises && f.effectWrite.Written? && f.traceWrite.Written?
  }

  /** The intent is served by an adapter, the scope declares its capability, and it has a target and an input. */
  predicate Sound(s: Setup) {
    && s.proposal.speechAct == Intend && s.proposal.intent.Some?
    && var i := s.proposal.intent.value;
    && (i.adapter, i.operation, i.requiredCapability) in
       {("file", "write", "file.write"), ("memory", "write", "memory.write"), ("network", "fetch", "network.fetch")}
    && i.requiredCapability in s.scope.capabilities && i.target.Str? && i.input.Obj?
  }

  /** The intent has no key, or one that can be looked up and is not taken. */
  predicate KeyIsFree(s: Setup, st: Store, o: Oracle)
    requires s.proposal.intent.Some?
  {
    var key := s.proposal.intent.value.idempotencyKey;
    key.Some? && key.value != "" ==>
      && !o.lockFails && !o.lookupFails
      && forall r :: r in st.idem ==> r.scopeId != s.scope.scopeId || r.key != key.value
  }

  /** The rate ledger leaves room for one more effect, or the scope sets no budget. */
  predicate BudgetLeft(s: Setup, st: Store, o: Oracle) {
    s.scope.maxEffectsPerWindow > 0 ==>
      !o.rateReadFails && CountSince(st.rate, o.rateNow - s.scope.rateWindowSeconds) < s.scope.maxEffectsPerWindow
  }

  /** The call that the rerun after a decision makes. */
  function Rerun(s: Setup, decision: Approval, o: Oracle): Call
    requires s.proposal.intent.Some? && AdapterFor(s.proposal.intent.value).Some?
  {
    Call(s.proposal, AdapterFor(s.proposal.intent.value).value, Some(decision), false, false, o)
  }

  lemma SoundIsServed(s: Setup)
    requires Sound(s)
    ensures
      var i := s.proposal.intent.value;
      && AdapterFor(i).Some?
      && AdapterFor(i).value == Adapter(i.adapter, i.operation, i.requiredCapability)
  {
    AdapterTable(s.proposal.intent.value);
  }

  lemma RerunReaches(s: Setup, decision: Approval, st: Store, o: Oracle)
    requires Sound(s) && KeyIsFree(s, st, o) && o.preparation.Prepared? && AdapterFor(s.proposal.intent.value).Some?
    ensures Outcomes.Reaches(s.scope, Rerun(s, decision, o), st)
  {
    SoundIsServed(s);
  }

  /** What a pending decision comes to: the rerun is evaluated with the new record, and is the answer. */
  lemma RerunAnswers(s: Setup, st: State, c: Command)
    requires c.ApproveCommand? && Pending(s, st.files) && Works(c.fate) && Sound(s)
    ensures
      var (next, r) := ApproveStep(s, st, c);
      var d := DecisionOf(s, c);
      && AdapterFor(s.proposal.intent.value).Some?
      && var out := Evaluate(s.scope, Rerun(s, d, c.fate.oracle), st.store);
      && r == Ok(out.effect) && next.store == out.store
      && next.files == Files(Holds(d), Holds(out.effect), Holds(out.events))
  {
    hide Evaluate, Evaluated, MakeApprovalDecision, AdapterFor;
    SoundIsServed(s);
    var d := DecisionOf(s, c);
    RunAnswers(s, st.(files := st.files.(approval := Holds(d))), true, c.fate);
    RequestsGoTo(RunRequest(s, Some(d), c.fate.oracle), st.store);
  }

  /**
   * A yes is carried out: for a sound intent whose key is free, with a prepared effect and budget left,
   * the adapter is called once more and the effect is committed; or, if the intent is record-only, the
   * approval is recorded and the adapter left alone. The answer is what the effect file then holds.
   */
  lemma YesIsCarriedOut(s: Setup, st: State, c: Command)
    requires c.ApproveCommand? && c.approve && Pending(s, st.files) && Works(c.fate)
    requires Sound(s) && KeyIsFree(s, st.store, c.fate.oracle)
    requires c.fate.oracle.preparation.Prepared? && c.fate.oracle.commit.Wrote?
    requires BudgetLeft(s, st.store, c.fate.oracle)
    ensures
      var (next, r) := ApproveStep(s, st, c);
      var i := s.proposal.intent.value;
      && r.Ok? && next.files.effect == Holds(r.value) && next.files.trace.Holds?
      && if i.custodyMode == Some(RecordOnly) then
           r.value.state == StateApproved && next.store.calls == st.store.calls
         else
           r.value.state == StateCommitted && next.store.calls == st.store.calls + [AdapterCall(i, true)]
  {
    hide Evaluate, Evaluated, MakeApprovalDecision, AdapterFor, ApprovalRejectionReason, CountSince;
    hide Outcomes.Reaches, Outcomes.Replays, ApproveStep, Sound, KeyIsFree, Cleared;
    SoundIsIntent(s);
    var o := c.fate.oracle;
    var d := DecisionOf(s, c);
    RerunAnswers(s, st, c);
    RerunReaches(s, d, st.store, o);
    DecisionOnFile(s, st, c, s.scope, s.proposal.intent.value, o.now);
    Outcomes.StatesAre(s.scope, Rerun(s, d, o), st.store);
    Outcomes.ReplayOrConflict(s.scope, Rerun(s, d, o), st.store);
  }

  lemma SoundIsIntent(s: Setup)
    requires Sound(s)
    ensures s.proposal.speechAct == Intend && s.proposal.intent.Some?
  {
  }

  /**
   * A no is kept: whatever the bundle holds, no ledger is written and no adapter called; and an effect
   * that would have been reached is rejected because the approval was denied.
   */
  lemma NoIsKept(s: Setup, st: State, c: Command)
    requires c.ApproveCommand? && !c.approve && Pending(s, st.files)
    ensures
      var (next, r) := ApproveStep(s, st, c);
      && next.store == st.store
      && (Works(c.fate) && Sound(s) && KeyIsFree(s, st.store, c.fate.oracle) && c.fate.oracle.preparation.Prepared? ==>
            && r.Ok? && r.value.state == StateRejected && r.value.rejectionReason == Some(ApprovalDenied)
            && next.files.effect == Holds(r.value) && next.files.trace.Holds?)
  {
    hide Evaluate, Evaluated, AdapterFor, IntentSha256, KeyIsFree, Sound;
    if c.fate.approvalWrite.Written? {
      DeniedChangesNothing(s, st, c);
      if Works(c.fate) && Sound(s) && KeyIsFree(s, st.store, c.fate.oracle) && c.fate.oracle.preparation.Prepared? {
        RerunAnswers(s, st, c);
        DeniedIsRejected(s, DecisionOf(s, c), st.store, c.fate.oracle);
      }
    }
  }

  lemma DeniedChangesNothing(s: Setup, st: State, c: Command)
    requires c.ApproveCommand? && !c.approve && Pending(s, st.files) && c.fate.approvalWrite.Written?
    ensures ApproveStep(s, st, c).0.store == st.store
  {
    hide Evaluated, Read, IntentSha256;
    var d := DecisionOf(s, c);
    var cleared := ChangeNeedsClearedDecision(RunRequest(s, Some(d), c.fate.oracle), st.store);
  }

  lemma DeniedIsRejected(s: Setup, d: Approval, st: Store, o: Oracle)
    requires Sound(s) && KeyIsFree(s, st, o) && o.preparation.Prepared? && AdapterFor(s.proposal.intent.value).Some?
    requires ApprovalRejectionReason(s.scope, s.proposal.intent.value, d, o.now) == Some(ApprovalDenied)
    requires d.status == Denied
    ensures
      var e := Evaluate(s.scope, Rerun(s, d, o), st).effect;
      e.state == StateRejected && e.rejectionReason == Some(ApprovalDenied)
  {
    hide Evaluate, AdapterFor, ApprovalRejectionReason, Outcomes.Reaches, Outcomes.Replays, Outcomes.Conflicts;
    RerunReaches(s, d, st, o);
    SoundIsIntent(s);
    var call := Rerun(s, d, o);
    Outcomes.ReplayOrConflict(s.scope, call, st);
    Outcomes.StatesAre(s.scope, call, st);
    AdmittedByReach(s.scope, call, st);
    Outcomes.AdmittedComesTo(s.scope, call, st);
  }

  lemma AdmittedByReach(scope: Scope, c: Call, st: Store)
    requires Outcomes.Reaches(scope, c, st)
    ensures Outcomes.Admitted(scope, c) && Outcomes.KeyWorks(scope, c)
  {
    hide Outcomes.Admitted;
  }

  // ----- Runs of commands --------------------------------------------------------------------

  function StateAfterCommands(s: Setup, start: State, commands: seq<Command>): State {
    if commands == [] then start
    else
      CommandStep(s, StateAfterCommands(s, start, commands[..|commands| - 1]), commands[|commands| - 1])
  }

  /** The command is one that decides: a pending effect, and the decision gets written. */
  predicate Decides(s: Setup, st: State, c: Command) {
    c.ApproveCommand? && NothingPending(s, st.files).None? && c.fate.approvalWrite.Written?
  }

  /** The command gets as far as evaluating, and yet leaves the effect file as it was. */
  predicate LeavesNoEffect(s: Setup, st: State, c: Command) {
    && (if c.RunCommand? then st.files.effect.Missing? && st.files.trace.Missing? && !st.files.approval.Garbled?
        else Decides(s, st, c))
    && (c.fate.raises || c.fate.effectWrite.Unchanged?)
  }

  function CountDecisions(s: Setup, start: State, commands: seq<Command>): nat {
    if commands == [] then 0
    else
      var front, c := commands[..|commands| - 1], commands[|commands| - 1];
      CountDecisions(s, start, front) + (if Decides(s, StateAfterCommands(s, start, front), c) then 1 else 0)
  }

  function CountLost(s: Setup, start: State, commands: seq<Command>): nat {
    if commands == [] then 0
    else
      var front, c := commands[..|commands| - 1], commands[|commands| - 1];
      CountLost(s, start, front) + (if LeavesNoEffect(s, StateAfterCommands(s, start, front), c) then 1 else 0)
  }

  /** The effect file stands, and is not one that awaits a decision. */
  predicate Settled(files: Files) {
    files.effect.Garbled? || (files.effect.Holds? && !AwaitsApproval(files.effect.value))
  }

  /** With a decision in hand an evaluation never pauses, and whatever called the adapter did not pause. */
  lemma DecidedNeverPauses(q: Request, st: Store)
    ensures
      var out := Evaluated(q, st);
      && |st.calls| <= |out.store.calls| <= |st.calls| + 1
      && (|out.store.calls| > |st.calls| ==> out.effect.state != StatePaused)
      && (q.approval.Some? && q.approval.value.status != Requested ==> out.effect.state != StatePaused)
  {
    hide Read, Evaluate, AdapterFor;
    var p := DispatchTells(q, st);
    if q.approval.Some? && q.approval.value.status != Requested && q.proposal.intent.Some? {
      var adapter := AdapterFor(q.proposal.intent.value);
      if adapter.Some? {
        PauseNeedsRequest(q.scope, q.CallOn(adapter.value, false), st);
        PauseNeedsRequest(q.scope, q.CallOn(adapter.value, true), st);
      }
    }
  }

  lemma PauseNeedsRequest(scope: Scope, c: Call, st: Store)
    requires c.approval.Some? && c.approval.value.status != Requested
    ensures Evaluate(scope, c, st).effect.state != StatePaused
  {
    hide LastEntry, IntentSha256, AdmissionRejection, Opening, Decide;
    if c.proposal.intent.Some? && c.oracle.preparation.Prepared? {
      var i := c.proposal.intent.value;
      DecideNeverPauses(scope, c, i, c.approval.value, st, Opening(i) + [PolicyChecked] + [DryRunRendered]);
    }
  }

  lemma DecideNeverPauses(scope: Scope, c: Call, i: Intent, decision: Approval, st: Store, events: seq<Event>)
    requires decision.status != Requested
    ensures Decide(scope, c, i, decision, st, events).effect.state != StatePaused
  {
    hide Keep, Notes, IntentSha256, ApprovalRejectionReason;
  }

  /**
   * One command: the adapter is called, or a decision is made, at most once, and then the bundle is
   * settled or the effect lost.
   */
  lemma CommandSettles(s: Setup, st: State, c: Command)
    ensures
      var next := CommandStep(s, st, c);
      var calls := |next.store.calls| - |st.store.calls|;
      && 0 <= calls <= 1
      && (Settled(st.files) ==> Settled(next.files) && calls == 0 && !Decides(s, st, c))
      && (calls == 1 || Decides(s, st, c) ==> Settled(next.files) || LeavesNoEffect(s, st, c))
  {
    hide Evaluate, Evaluated;
    if c.RunCommand? {
      EvaluationSettles(s, st, c.fate);
    } else if Decides(s, st, c) {
      EvaluationSettles(s, st.(files := st.files.(approval := Holds(DecisionOf(s, c)))), c.fate);
    }
  }

  lemma EvaluationSettles(s: Setup, st: State, f: Fate)
    ensures
      var next := RunStep(s, st, true, f).0;
      var calls := |next.store.calls| - |st.store.calls|;
      && 0 <= calls <= 1
      && (calls == 1 && !f.effectWrite.Unchanged? ==> Settled(next.files))
      && (&& st.files.approval.Holds? && st.files.approval.value.status != Requested
          && !f.raises && !f.effectWrite.Unchanged?
          ==> Settled(next.files))
  {
    hide Evaluated;
    if ReadApproval(st.files.approval).Ok? {
      DecidedNeverPauses(RunRequest(s, ReadApproval(st.files.approval).value, f.oracle), st.store);
    }
  }

  /**
   * Over any sequence of `bundle run` (without overwriting) and `approve`, from any bundle, for intents
   * with or without a key: the adapter is called at most once, and at most one decision is recorded,
   * apart from the commands whose evaluation left no effect behind.
   */
  lemma {:induction false} BundleCommitsOnce(s: Setup, start: State, commands: seq<Command>)
    ensures
      var end := StateAfterCommands(s, start, commands);
      var allowed := CountLost(s, start, commands) + (if Settled(end.files) then 1 else 0);
      && |start.store.calls| <= |end.store.calls| <= |start.store.calls| + allowed
      && CountDecisions(s, start, commands) <= allowed
  {
    if commands != [] {
      hide CommandStep, Settled, Decides, LeavesNoEffect;
      var front, c := commands[..|commands| - 1], commands[|commands| - 1];
      BundleCommitsOnce(s, start, front);
      CommandSettles(s, StateAfterCommands(s, start, front), c);
    }
  }

  /** With no lost effect: one adapter call and one decision at most. */
  lemma OneCommitOneDecision(s: Setup, start: State, commands: seq<Command>)
    requires forall k :: 0 <= k < |commands| ==> !commands[k].fate.raises && !commands[k].fate.effectWrite.Unchanged?
    ensures |StateAfterCommands(s, start, commands).store.calls| <= |start.store.calls| + 1
    ensures CountDecisions(s, start, commands) <= 1
  {
    BundleCommitsOnce(s, start, commands);
    NothingLost(s, start, commands);
  }

  lemma {:induction false} NothingLost(s: Setup, start: State, commands: seq<Command>)
    requires forall k :: 0 <= k < |commands| ==> !commands[k].fate.raises && !commands[k].fate.effectWrite.Unchanged?
    ensures CountLost(s, start, commands) == 0
  {
    if commands != [] {
      NothingLost(s, start, commands[..|commands| - 1]);
    }
  }

  // ----- Nothing before an approve -----------------------------------------------------------

  /** Every effect the adapter would prepare needs an approval in this scope. */
  predicate ApprovalRequired(s: Setup, f: Fate) {
    f.oracle.preparation.Prepared? ==> f.oracle.preparation.effectKind in s.scope.approvalRequiredFor
  }

  predicate NoYesYet(files: Files) {
    files.approval.Holds? ==> files.approval.value.status == Denied || files.approval.value.status == Requested
  }

  lemma GateHolds(scope: Scope, c: Call, st: Store)
    requires !c.approvalGranted
    requires c.oracle.preparation.Prepared? ==> c.oracle.preparation.effectKind in scope.approvalRequiredFor
    requires c.approval.Some? ==> c.approval.value.status == Denied || c.approval.value.status == Requested
    ensures Evaluate(scope, c, st).store == st
  {
    hide Evaluate, LastEntry, IntentSha256;
    var p := OnlySpendChangesAnything(scope, c, st);
    if p.Some? {
      hide Spend;
      assert PastTheGate(scope, c, st, p.value.intent, p.value.decision);
    }
  }

  /** So does every request that reaches the same gate, or none. */
  lemma GateHoldsForRequests(q: Request, st: Store)
    requires q.oracle.preparation.Prepared? ==> q.oracle.preparation.effectKind in q.scope.approvalRequiredFor
    requires q.approval.Some? ==> q.approval.value.status == Denied || q.approval.value.status == Requested
    ensures Evaluated(q, st).store == st
  {
    hide Evaluate, AdapterFor;
    if q.proposal.intent.Some? && AdapterFor(q.proposal.intent.value).Some? {
      var adapter := AdapterFor(q.proposal.intent.value).value;
      GateHolds(q.scope, q.CallOn(adapter, false), st);
      GateHolds(q.scope, q.CallOn(adapter, true), st);
    }
  }

  lemma RunWithoutYes(s: Setup, st: State, overwrite: bool, f: Fate)
    requires ApprovalRequired(s, f) && NoYesYet(st.files)
    ensures RunStep(s, st, overwrite, f).0.store == st.store
    ensures RunStep(s, st, overwrite, f).0.files.approval == st.files.approval
  {
    hide Evaluated;
    if ReadApproval(st.files.approval).Ok? {
      GateHoldsForRequests(RunRequest(s, ReadApproval(st.files.approval).value, f.oracle), st.store);
    }
  }

  /**
   * When the approval is required and the bundle holds no yes, nothing but an `approve` that says yes
   * lets the adapter be called or any ledger be written, whatever else is done with the bundle.
   */
  lemma {:induction false} NoCommitBeforeYes(s: Setup, start: State, commands: seq<Command>)
    requires NoYesYet(start.files)
    requires forall k :: 0 <= k < |commands| ==> ApprovalRequired(s, commands[k].fate)
    requires forall k :: 0 <= k < |commands| ==> commands[k].ApproveCommand? ==> !commands[k].approve
    ensures
      var end := StateAfterCommands(s, start, commands);
      end.store == start.store && NoYesYet(end.files)
  {
    if commands != [] {
      hide RunStep, ApprovalRequired;
      var front, c := commands[..|commands| - 1], commands[|commands| - 1];
      NoCommitBeforeYes(s, start, front);
      var st := StateAfterCommands(s, start, front);
      assert ApprovalRequired(s, commands[|commands| - 1].fate);
      if c.RunCommand? {
        RunWithoutYes(s, st, false, c.fate);
      } else if Decides(s, st, c) {
        RunWithoutYes(s, st.(files := st.files.(approval := Holds(DecisionOf(s, c)))), true, c.fate);
      }
    }
  }
}
