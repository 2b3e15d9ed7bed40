/**
 * The per-key advisory lock and at-most-once commit for any number of processes
 * (`_acquire_idempotency_lock` and the critical section it guards in `runtime_core.py`).
 *
 * Each process evaluates one keyed submission. Its system calls are atomic steps, interleaved by an
 * arbitrary schedule; any of them may fail, and a process may die anywhere except between the commit
 * and the append of its record. What happens inside the critical section is what `Evaluate` says for
 * the idempotency ledger that the process read and for any rate ledger at all: the rate ledger is
 * not under this lock, so nothing is supposed about what a process finds in it.
 */
module LockProtocol {
  import opened Wrappers
  import opened Records
  import opened RateBudget
  import opened Evaluator
  import opened TraceLanguage
  import opened Runs
  import Outcomes

  datatype Submission = Submission(scope: Scope, call: Call)
  {
    /** A real, admitted run of an intent that carries a key. */
    predicate Valid() {
      && call.proposal.speechAct == Intend
      && call.proposal.intent.Some?
      && call.proposal.intent.value.HasKey()
      && !call.stopAtApproval
      && !call.oracle.lockFails
      && AdmissionRejection(scope, call.proposal.intent.value, call.adapter).None?
    }

    function Intent(): Intent
      requires call.proposal.intent.Some?
    {
      call.proposal.intent.value
    }

    function Key(): string
      requires call.proposal.intent.Some? && Intent().HasKey()
    {
      Intent().idempotencyKey.value
    }
  }

  type Submissions = subs: seq<Submission> | forall p :: 0 <= p < |subs| ==> subs[p].Valid()

  // ----- State -------------------------------------------------------------------------------

  /** Names in the lock directory: a stable lock name per hashed (scope, key) text, and temp names. */
  datatype Name = Stable(hashed: string) | Temp(pid: nat)

  datatype Pc =
    | Entering | Creating | Linking | Unlinking | Reopening | Locking
    | Checking | Calling | Appending | Releasing | Finished

  datatype Process = Process(pc: Pc, fd: Option<nat>, outcome: Option<Outcome>)

  datatype State = State(
    dir: map<Name, nat>,
    nextInode: nat,
    holder: map<nat, nat>,
    idem: seq<IdemRecord>,
    committed: seq<nat>,
    unrecorded: seq<nat>,
    procs: seq<Process>)

  const NUL: char := '\0'

  function LockName(scopeId: string, key: string): (n: Name)
    ensures n.Stable?
  {
    Stable(scopeId + [NUL] + key)
  }

  function NameOf(sub: Submission): (n: Name)
    requires sub.Valid()
    ensures n.Stable?
  {
    LockName(sub.scope.scopeId, sub.Key())
  }

  predicate SameKey(a: Submission, b: Submission)
    requires a.Valid() && b.Valid()
  {
    a.scope.scopeId == b.scope.scopeId && a.Key() == b.Key()
  }

  function Init(subs: Submissions): State {
    State(map[], 0, map[], [], [], [], seq(|subs|, p => Process(Entering, None, None)))
  }

  // ----- Steps -------------------------------------------------------------------------------

  datatype Action =
    | Open | Create | Link | Unlink(works: bool) | Reopen | Flock
    | Check(rate: seq<RateLine>) | CallAdapter | Append | Release
    | Fail(cleanedUp: bool)

  predicate Enabled(subs: Submissions, s: State, p: nat, a: Action) {
    && p < |subs| == |s.procs|
    && var q := s.procs[p];
    match a
    case Open => q.pc == Entering
    case Create => q.pc == Creating
    case Link => q.pc == Linking && Temp(p) in s.dir
    case Unlink(_) => q.pc == Unlinking
    case Reopen => q.pc == Reopening && NameOf(subs[p]) in s.dir
    case Flock => q.pc == Locking && q.fd.Some? && q.fd.value !in s.holder
    case Check(_) => q.pc == Checking
    case CallAdapter => q.pc == Calling && q.outcome.Some?
    case Append => q.pc == Appending && q.outcome.Some?
    case Release => q.pc == Releasing && q.fd.Some?
    case Fail(_) => q.pc != Appending && q.pc != Finished
  }

  /** What the process finds out from the idempotency ledger `idem` and the rate ledger `rate`. */
  function Verdict(sub: Submission, idem: seq<IdemRecord>, rate: seq<RateLine>): Outcome {
    Evaluate(sub.scope, sub.call, Store(idem, rate, []))
  }

  function RecordFor(sub: Submission, o: Outcome): IdemRecord
    requires sub.Valid()
  {
    IdemRecord(sub.scope.scopeId, sub.Key(), IntentSha256(sub.Intent()), o.effect)
  }

  function Apply(subs: Submissions, s: State, p: nat, a: Action): State
    requires Enabled(subs, s, p, a)
  {
    var q := s.procs[p];
    var name := NameOf(subs[p]);
    match a
    case Open =>
      if name in s.dir then Goto(s, p, q.(pc := Locking, fd := Some(s.dir[name]))) else Goto(s, p, q.(pc := Creating))
    case Create =>
      Goto(s.(dir := s.dir[Temp(p) := s.nextInode], nextInode := s.nextInode + 1), p, q.(pc := Linking))
    case Link =>
      Goto(if name in s.dir then s else s.(dir := s.dir[name := s.dir[Temp(p)]]), p, q.(pc := Unlinking))
    case Unlink(works) =>
      Goto(if works then s.(dir := s.dir - {Temp(p)}) else s, p, q.(pc := Reopening))
    case Reopen =>
      Goto(s, p, q.(pc := Locking, fd := Some(s.dir[name])))
    case Flock =>
      Goto(s.(holder := s.holder[q.fd.value := p]), p, q.(pc := Checking))
    case Check(rate) =>
      var o := Verdict(subs[p], s.idem, rate);
      Goto(s, p, q.(outcome := Some(o), pc := if o.store.calls == [] then Releasing else Calling))
    case CallAdapter =>
      if q.outcome.value.effect.state == StateCommitted
      then Goto(s.(committed := s.committed + [p]), p, q.(pc := Appending))
      else Goto(s, p, q.(pc := Releasing))
    case Append =>
      if subs[p].call.oracle.idempotencyWriteFails
      then Goto(s.(unrecorded := s.unrecorded + [p]), p, q.(pc := Releasing))
      else Goto(s.(idem := s.idem + [RecordFor(subs[p], q.outcome.value)]), p, q.(pc := Releasing))
    case Release =>
      Goto(s.(holder := s.holder - {q.fd.value}), p, q.(pc := Finished))
    case Fail(cleanedUp) =>
      Goto(s.(dir := if cleanedUp then s.dir - {Temp(p)} else s.dir,
              holder := WithoutLocksOf(s.holder, p)),
           p, q.(pc := Finished))
  }

  /** The kernel drops every lock of a process that is gone. */
  function WithoutLocksOf(holder: map<nat, nat>, p: nat): (kept: map<nat, nat>)
    ensures forall i :: i in kept <==> i in holder && holder[i] != p
    ensures forall i :: i in kept ==> kept[i] == holder[i]
  {
    map i | i in holder && holder[i] != p :: holder[i]
  }

  function Goto(s: State, p: nat, q: Process): State
    requires p < |s.procs|
  {
    s.(procs := s.procs[p := q])
  }

  /** The state after a schedule; a step that is not enabled when its turn comes does nothing. */
  function After(subs: Submissions, schedule: seq<(nat, Action)>): State {
    if schedule == [] then Init(subs)
    else
      var s := After(subs, schedule[..|schedule| - 1]);
      var (p, a) := schedule[|schedule| - 1];
      if Enabled(subs, s, p, a) then Apply(subs, s, p, a) else s
  }

  // ----- The lock ----------------------------------------------------------------------------

  predicate Holding(pc: Pc) {
    pc == Checking || pc == Calling || pc == Appending || pc == Releasing
  }

  /**
   * Every descriptor a process is about to lock, or has locked, is on the inode that the stable name
   * of its key is bound to; the kernel's lock table and the program counters agree.
   */
  ghost predicate LockInv(subs: Submissions, s: State) {
    DescriptorsInv(subs, s) && HolderInv(subs, s)
  }

  ghost predicate DescriptorsInv(subs: Submissions, s: State) {
    && |s.procs| == |subs|
    && (forall n :: n in s.dir ==> s.dir[n] < s.nextInode)
    && (forall p :: 0 <= p < |subs| && (s.procs[p].pc == Locking || Holding(s.procs[p].pc)) ==>
          NameOf(subs[p]) in s.dir && s.procs[p].fd == Some(s.dir[NameOf(subs[p])]))
  }

  ghost predicate HolderInv(subs: Submissions, s: State) {
    && |s.procs| == |subs|
    && (forall p :: 0 <= p < |subs| && Holding(s.procs[p].pc) ==>
          s.procs[p].fd.Some? && s.procs[p].fd.value in s.holder && s.holder[s.procs[p].fd.value] == p)
    && (forall i :: i in s.holder ==>
          && s.holder[i] < |subs|
          && Holding(s.procs[s.holder[i]].pc)
          && s.procs[s.holder[i]].fd == Some(i))
  }

  /** A step of p that leaves the stable names bound as they are. */
  lemma DescriptorsFrame(subs: Submissions, s: State, s': State, p: nat, q: Process)
    requires DescriptorsInv(subs, s) && p < |subs|
    requires s'.procs == s.procs[p := q]
    requires forall n: Name :: n.Stable? && n in s.dir ==> n in s'.dir && s'.dir[n] == s.dir[n]
    requires forall n :: n in s'.dir ==> s'.dir[n] < s'.nextInode
    requires q.pc == Locking || Holding(q.pc) ==>
      NameOf(subs[p]) in s'.dir && q.fd == Some(s'.dir[NameOf(subs[p])])
    ensures DescriptorsInv(subs, s')
  {
    hide NameOf;
  }

  /** A step of p that neither locks nor unlocks. */
  lemma HolderFrame(subs: Submissions, s: State, s': State, p: nat, q: Process)
    requires HolderInv(subs, s) && p < |subs|
    requires s'.procs == s.procs[p := q] && s'.holder == s.holder
    requires Holding(q.pc) <==> Holding(s.procs[p].pc)
    requires Holding(q.pc) ==> q.fd == s.procs[p].fd
    ensures HolderInv(subs, s')
  {
  }

  /** A step of p that neither locks nor unlocks, and leaves the stable names bound as they are. */
  lemma LockInvFrame(subs: Submissions, s: State, s': State, p: nat, q: Process)
    requires LockInv(subs, s) && p < |subs|
    requires s'.procs == s.procs[p := q] && s'.holder == s.holder
    requires forall n: Name :: n.Stable? && n in s.dir ==> n in s'.dir && s'.dir[n] == s.dir[n]
    requires forall n :: n in s'.dir ==> s'.dir[n] < s'.nextInode
    requires Holding(q.pc) <==> Holding(s.procs[p].pc)
    requires Holding(q.pc) ==> q.fd == s.procs[p].fd
    requires q.pc == Locking ==> NameOf(subs[p]) in s'.dir && q.fd == Some(s'.dir[NameOf(subs[p])])
    ensures LockInv(subs, s')
  {
    hide NameOf, HolderInv;
    DescriptorsFrame(subs, s, s', p, q);
    HolderFrame(subs, s, s', p, q);
  }

  /** p takes the lock on an inode that nobody holds. */
  lemma HolderTake(subs: Submissions, s: State, s': State, p: nat, q: Process, i: nat)
    requires HolderInv(subs, s) && p < |subs| && i !in s.holder && Holding(q.pc) && q.fd == Some(i)
    requires !Holding(s.procs[p].pc)
    requires s'.procs == s.procs[p := q] && s'.holder == s.holder[i := p]
    ensures HolderInv(subs, s')
  {
  }

  lemma LockInvFlock(subs: Submissions, s: State, p: nat)
    requires LockInv(subs, s) && Enabled(subs, s, p, Flock)
    ensures LockInv(subs, Apply(subs, s, p, Flock))
  {
    hide Verdict, RecordFor, NameOf, HolderInv;
    var s' := Apply(subs, s, p, Flock);
    DescriptorsFrame(subs, s, s', p, s'.procs[p]);
    HolderTake(subs, s, s', p, s'.procs[p], s.procs[p].fd.value);
  }

  lemma LockInvRelease(subs: Submissions, s: State, p: nat)
    requires LockInv(subs, s) && Enabled(subs, s, p, Release)
    ensures LockInv(subs, Apply(subs, s, p, Release))
  {
    hide Verdict, RecordFor, NameOf, HolderInv, WithoutLocksOf;
    var s' := Apply(subs, s, p, Release);
    DescriptorsFrame(subs, s, s', p, s'.procs[p]);
    ItsOnlyLock(subs, s, p);
    HolderLeave(subs, s, s', p, s'.procs[p]);
  }

  lemma ItsOnlyLock(subs: Submissions, s: State, p: nat)
    requires HolderInv(subs, s) && p < |subs| && Holding(s.procs[p].pc)
    ensures s.procs[p].fd.Some? && s.holder - {s.procs[p].fd.value} == WithoutLocksOf(s.holder, p)
  {
  }

  /** A step of p out of the critical section, after which the kernel has dropped its locks. */
  lemma HolderLeave(subs: Submissions, s: State, s': State, p: nat, q: Process)
    requires HolderInv(subs, s) && p < |subs| && q.pc == Finished
    requires s'.procs == s.procs[p := q] && s'.holder == WithoutLocksOf(s.holder, p)
    ensures HolderInv(subs, s')
  {
    hide WithoutLocksOf;
  }

  lemma LockInvFail(subs: Submissions, s: State, p: nat, cleanedUp: bool)
    requires LockInv(subs, s) && Enabled(subs, s, p, Fail(cleanedUp))
    ensures LockInv(subs, Apply(subs, s, p, Fail(cleanedUp)))
  {
    hide Verdict, RecordFor, NameOf, WithoutLocksOf, HolderInv;
    var s' := Apply(subs, s, p, Fail(cleanedUp));
    DescriptorsFrame(subs, s, s', p, s'.procs[p]);
    HolderLeave(subs, s, s', p, s'.procs[p]);
  }

  lemma LockInvBind(subs: Submissions, s: State, p: nat, a: Action)
    requires LockInv(subs, s) && Enabled(subs, s, p, a) && (a.Create? || a.Link?)
    ensures LockInv(subs, Apply(subs, s, p, a))
  {
    hide NameOf;
    var s' := Apply(subs, s, p, a);
    LockInvFrame(subs, s, s', p, s'.procs[p]);
  }

  lemma LockInvDir(subs: Submissions, s: State, p: nat, a: Action)
    requires LockInv(subs, s) && Enabled(subs, s, p, a) && (a.Open? || a.Unlink? || a.Reopen?)
    ensures LockInv(subs, Apply(subs, s, p, a))
  {
    hide NameOf;
    var s' := Apply(subs, s, p, a);
    LockInvFrame(subs, s, s', p, s'.procs[p]);
  }

  lemma LockInvWork(subs: Submissions, s: State, p: nat, a: Action)
    requires LockInv(subs, s) && Enabled(subs, s, p, a)
    requires a.Check? || a.CallAdapter? || a.Append?
    ensures LockInv(subs, Apply(subs, s, p, a))
  {
    hide Verdict, RecordFor, NameOf;
    var s' := Apply(subs, s, p, a);
    LockInvFrame(subs, s, s', p, s'.procs[p]);
  }

  lemma LockInvStep(subs: Submissions, s: State, p: nat, a: Action)
    requires LockInv(subs, s) && Enabled(subs, s, p, a)
    ensures LockInv(subs, Apply(subs, s, p, a))
  {
    hide LockInv, Apply, Enabled;
    match a
    case Flock => LockInvFlock(subs, s, p);
    case Release => LockInvRelease(subs, s, p);
    case Fail(cleanedUp) => LockInvFail(subs, s, p, cleanedUp);
    case Check(_) | CallAdapter | Append => LockInvWork(subs, s, p, a);
    case Create | Link => LockInvBind(subs, s, p, a);
    case Open | Unlink(_) | Reopen => LockInvDir(subs, s, p, a);
  }

  lemma {:induction false} LockInvAlways(subs: Submissions, schedule: seq<(nat, Action)>)
    ensures LockInv(subs, After(subs, schedule))
  {
    if schedule != [] {
      var s := After(subs, schedule[..|schedule| - 1]);
      var (p, a) := schedule[|schedule| - 1];
      LockInvAlways(subs, schedule[..|schedule| - 1]);
      if Enabled(subs, s, p, a) {
        LockInvStep(subs, s, p, a);
      }
    }
  }

  lemma Exclusive(subs: Submissions, s: State, p: nat, q: nat)
    requires LockInv(subs, s) && p < |subs| && q < |subs| && p != q
    requires Holding(s.procs[p].pc) && Holding(s.procs[q].pc)
    ensures !SameKey(subs[p], subs[q])
  {
  }

  /** In every reachable state, no two processes in the critical section work under the same (scope, key). */
  lemma MutualExclusion(subs: Submissions, schedule: seq<(nat, Action)>, p: nat, q: nat)
    requires p < |subs| && q < |subs| && p != q
    ensures
      var s := After(subs, schedule);
      |s.procs| == |subs| &&
      (Holding(s.procs[p].pc) && Holding(s.procs[q].pc) ==> !SameKey(subs[p], subs[q]))
  {
    LockInvAlways(subs, schedule);
    var s := After(subs, schedule);
    if Holding(s.procs[p].pc) && Holding(s.procs[q].pc) {
      Exclusive(subs, s, p, q);
    }
  }

  /**
   * In every reachable state, whoever is in the critical section holds the kernel's lock on the inode
   * that the stable name of its key is bound to, and so does whoever is about to lock: nobody waits on
   * an inode that no one else would look at.
   */
  lemma LocksAreOnTheStableInode(subs: Submissions, schedule: seq<(nat, Action)>, p: nat)
    requires p < |subs|
    ensures
      var s := After(subs, schedule);
      && |s.procs| == |subs|
      && (s.procs[p].pc == Locking || Holding(s.procs[p].pc) ==>
            NameOf(subs[p]) in s.dir && s.procs[p].fd == Some(s.dir[NameOf(subs[p])]))
      && (Holding(s.procs[p].pc) ==>
            s.dir[NameOf(subs[p])] in s.holder && s.holder[s.dir[NameOf(subs[p])]] == p)
  {
    hide After, NameOf;
    LockInvAlways(subs, schedule);
  }

  /** Once bound, a stable lock name stays bound to the same inode, whatever happens next. */
  lemma {:induction false} LockNeverRebound(subs: Submissions, schedule: seq<(nat, Action)>, k: nat, text: string)
    requires k <= |schedule| && Stable(text) in After(subs, schedule[..k]).dir
    ensures Stable(text) in After(subs, schedule).dir
    ensures After(subs, schedule).dir[Stable(text)] == After(subs, schedule[..k]).dir[Stable(text)]
  {
    if k == |schedule| {
      assert schedule[..k] == schedule;
    } else {
      var front := schedule[..|schedule| - 1];
      assert front[..k] == schedule[..k];
      LockNeverRebound(subs, front, k, text);
    }
  }

  // ----- The ledger --------------------------------------------------------------------------

  /** The effect of a fresh commit of this submission. */
  predicate FreshEffect(sub: Submission, e: Effect)
    requires sub.Valid()
  {
    && e.state == StateCommitted
    && e.effectId == EffectId(sub.call.oracle)
    && e.intentId == Some(sub.Intent().intentId)
    && e.scopeId == sub.scope.scopeId
    && e.custodyMode == sub.Intent().custodyMode
    && e.rejectionReason.None? && e.requiredInput.None?
  }

  /** The adapter is called only if nothing was recorded under the key. */
  lemma CallNeedsFreeKey(sub: Submission, idem: seq<IdemRecord>, rate: seq<RateLine>)
    requires sub.Valid() && Verdict(sub, idem, rate).store.calls != []
    ensures LastEntry(idem, sub.scope.scopeId, sub.Key()).None?
    ensures Verdict(sub, idem, rate).effect.state == StateCommitted ==>
      FreshEffect(sub, Verdict(sub, idem, rate).effect)
  {
    hide Read, Evaluate, LastEntry, Decision, ApprovalRejectionReason, IntentSha256, Keep;
    var p := OnlySpendChangesAnything(sub.scope, sub.call, Store(idem, rate, []));
  }

  /**
   * What a check that completes finds out once the key is taken: the recorded effect again, for the
   * intent that was recorded, and a conflict for every other intent.
   */
  lemma TakenKeyDecides(sub: Submission, idem: seq<IdemRecord>, rate: seq<RateLine>, first: Submission, e: Effect)
    requires sub.Valid() && first.Valid() && SameKey(sub, first) && FreshEffect(first, e)
    requires
      LastEntry(idem, sub.scope.scopeId, sub.Key())
      == Some(IdemRecord(first.scope.scopeId, first.Key(), IntentSha256(first.Intent()), e))
    requires !sub.call.oracle.lookupFails
    ensures
      var o := Verdict(sub, idem, rate);
      && o.store == Store(idem, rate, [])
      && if sub.Intent() == first.Intent() then
           o.effect == e.(traceId := sub.call.oracle.traceId)
         else
           o.effect.state == StateRejected && o.effect.rejectionReason == Some(IdempotencyKeyConflict)
  {
    hide LastEntry, IntentSha256, PrepareAndApprove, AdmissionRejection, Opening;
    IntentHashInjective(sub.Intent(), first.Intent());
  }

  ghost predicate LedgerInv(subs: Submissions, s: State) {
    && |s.procs| == |subs|
    && (forall i, j :: 0 <= i < j < |s.idem| ==>
          s.idem[i].scopeId != s.idem[j].scopeId || s.idem[i].key != s.idem[j].key)
    && (forall p :: 0 <= p < |subs| && (s.procs[p].pc == Calling || s.procs[p].pc == Appending) ==>
          && s.procs[p].outcome.Some?
          && LastEntry(s.idem, subs[p].scope.scopeId, subs[p].Key()).None?
          && (s.procs[p].outcome.value.effect.state == StateCommitted || s.procs[p].pc == Appending ==>
                FreshEffect(subs[p], s.procs[p].outcome.value.effect)))
    && (forall p :: p in s.committed ==> p < |subs| && Settled(subs, s, p))
  }

  /** A process that committed is about to record it, failed to, or left its record in the ledger. */
  ghost predicate Settled(subs: Submissions, s: State, p: nat)
    requires p < |subs| == |s.procs|
  {
    && s.procs[p].pc in {Appending, Releasing, Finished}
    && s.procs[p].outcome.Some?
    && FreshEffect(subs[p], s.procs[p].outcome.value.effect)
    && (s.procs[p].pc == Appending || p in s.unrecorded || RecordFor(subs[p], s.procs[p].outcome.value) in s.idem)
  }

  lemma LastEntryAppend(idem: seq<IdemRecord>, r: IdemRecord, scopeId: string, key: string)
    ensures LastEntry(idem + [r], scopeId, key)
         == if r.scopeId == scopeId && r.key == key then Some(r) else LastEntry(idem, scopeId, key)
  {
    assert (idem + [r])[..|idem|] == idem;
  }

  lemma LedgerInvCheck(subs: Submissions, s: State, p: nat, rate: seq<RateLine>)
    requires LedgerInv(subs, s) && Enabled(subs, s, p, Check(rate))
    ensures LedgerInv(subs, Apply(subs, s, p, Check(rate)))
  {
    hide Verdict, RecordFor, NameOf, LastEntry, FreshEffect;
    if Verdict(subs[p], s.idem, rate).store.calls != [] {
      CallNeedsFreeKey(subs[p], s.idem, rate);
    }
  }

  lemma LedgerInvUnrecorded(subs: Submissions, s: State, p: nat)
    requires LedgerInv(subs, s) && Enabled(subs, s, p, Append) && subs[p].call.oracle.idempotencyWriteFails
    ensures LedgerInv(subs, Apply(subs, s, p, Append))
  {
    hide Verdict, RecordFor, NameOf, LastEntry, FreshEffect;
  }

  lemma LedgerInvRecorded(subs: Submissions, s: State, p: nat)
    requires LockInv(subs, s) && LedgerInv(subs, s) && Enabled(subs, s, p, Append)
    requires !subs[p].call.oracle.idempotencyWriteFails
    ensures LedgerInv(subs, Apply(subs, s, p, Append))
  {
    hide Verdict, NameOf, LastEntry, FreshEffect, LockInv, IntentSha256;
    var s' := Apply(subs, s, p, Append);
    var r := RecordFor(subs[p], s.procs[p].outcome.value);
    forall q | 0 <= q < |subs| && q != p && (s.procs[q].pc == Calling || s.procs[q].pc == Appending)
      ensures LastEntry(s'.idem, subs[q].scope.scopeId, subs[q].Key()).None?
    {
      Exclusive(subs, s, p, q);
      LastEntryAppend(s.idem, r, subs[q].scope.scopeId, subs[q].Key());
    }
    assert forall i :: 0 <= i < |s.idem| ==> s.idem[i] in s.idem;
  }

  /** A step of p that touches no ledger and does not bring p to the adapter. */
  lemma LedgerInvFrame(subs: Submissions, s: State, s': State, p: nat, q: Process)
    requires LedgerInv(subs, s) && p < |subs|
    requires s'.procs == s.procs[p := q]
    requires s'.idem == s.idem && s'.committed == s.committed && s'.unrecorded == s.unrecorded
    requires q.outcome == s.procs[p].outcome && q.pc != Calling && q.pc != Appending && s.procs[p].pc != Appending
    requires s.procs[p].pc == Releasing || s.procs[p].pc == Finished ==> q.pc == Finished
    ensures LedgerInv(subs, s')
  {
    hide LastEntry, FreshEffect;
  }

  lemma LedgerInvCall(subs: Submissions, s: State, p: nat)
    requires LedgerInv(subs, s) && Enabled(subs, s, p, CallAdapter)
    ensures LedgerInv(subs, Apply(subs, s, p, CallAdapter))
  {
    hide Verdict, RecordFor, NameOf, LastEntry, FreshEffect;
  }

  lemma LedgerInvQuiet(subs: Submissions, s: State, p: nat, a: Action)
    requires LedgerInv(subs, s) && Enabled(subs, s, p, a) && !a.Check? && !a.CallAdapter? && !a.Append?
    ensures LedgerInv(subs, Apply(subs, s, p, a))
  {
    hide NameOf, LedgerInv;
    var s' := Apply(subs, s, p, a);
    LedgerInvFrame(subs, s, s', p, s'.procs[p]);
  }

  lemma {:induction false} LedgerInvAlways(subs: Submissions, schedule: seq<(nat, Action)>)
    ensures LedgerInv(subs, After(subs, schedule))
  {
    if schedule != [] {
      hide LedgerInv, Apply, Enabled;
      var s := After(subs, schedule[..|schedule| - 1]);
      var (p, a) := schedule[|schedule| - 1];
      LedgerInvAlways(subs, schedule[..|schedule| - 1]);
      LockInvAlways(subs, schedule[..|schedule| - 1]);
      if Enabled(subs, s, p, a) {
        match a
        case Check(rate) => LedgerInvCheck(subs, s, p, rate);
        case CallAdapter => LedgerInvCall(subs, s, p);
        case Append =>
          if subs[p].call.oracle.idempotencyWriteFails {
            LedgerInvUnrecorded(subs, s, p);
          } else {
            LedgerInvRecorded(subs, s, p);
          }
        case _ => LedgerInvQuiet(subs, s, p, a);
      }
    }
  }

  // ----- At most once ------------------------------------------------------------------------

  /** How many entries of a log of processes submit under the given (scope, key). */
  function CountKey(subs: Submissions, log: seq<nat>, scopeId: string, key: string): nat {
    if log == [] then 0
    else
      var last := log[|log| - 1];
      CountKey(subs, log[..|log| - 1], scopeId, key)
      + (if last < |subs| && subs[last].scope.scopeId == scopeId && subs[last].Key() == key then 1 else 0)
  }

  lemma CountKeyAppend(subs: Submissions, log: seq<nat>, p: nat, scopeId: string, key: string)
    requires p < |subs|
    ensures CountKey(subs, log + [p], scopeId, key)
         == CountKey(subs, log, scopeId, key)
          + (if subs[p].scope.scopeId == scopeId && subs[p].Key() == key then 1 else 0)
  {
    assert (log + [p])[..|log|] == log;
  }

  /** The key is recorded, or a process is about to record it. */
  ghost predicate Taken(subs: Submissions, s: State, scopeId: string, key: string)
    requires |subs| == |s.procs|
  {
    || LastEntry(s.idem, scopeId, key).Some?
    || exists p ::
         0 <= p < |subs| && s.procs[p].pc == Appending && subs[p].scope.scopeId == scopeId && subs[p].Key() == key
  }

  ghost predicate AtMostOnceInv(subs: Submissions, s: State, scopeId: string, key: string)
    requires |subs| == |s.procs|
  {
    CountKey(subs, s.committed, scopeId, key)
    <= CountKey(subs, s.unrecorded, scopeId, key) + (if Taken(subs, s, scopeId, key) then 1 else 0)
  }

  predicate Under(sub: Submission, scopeId: string, key: string)
    requires sub.Valid()
  {
    sub.scope.scopeId == scopeId && sub.Key() == key
  }

  lemma AtMostOnceCall(subs: Submissions, s: State, p: nat, scopeId: string, key: string)
    requires LockInv(subs, s) && LedgerInv(subs, s) && Enabled(subs, s, p, CallAdapter)
    requires AtMostOnceInv(subs, s, scopeId, key)
    ensures AtMostOnceInv(subs, Apply(subs, s, p, CallAdapter), scopeId, key)
  {
    hide Verdict, NameOf, LastEntry, LockInv, LedgerInv, FreshEffect, CountKey;
    var s' := Apply(subs, s, p, CallAdapter);
    CountKeyAppend(subs, s.committed, p, scopeId, key);
    CallingIsFree(subs, s, p);
    if Under(subs[p], scopeId, key) {
      NobodyElseAppends(subs, s, p);
      assert !Taken(subs, s, scopeId, key);
      assert s'.committed != s.committed ==> s'.procs[p].pc == Appending;
    } else if Taken(subs, s, scopeId, key) && LastEntry(s.idem, scopeId, key).None? {
      var q :| 0 <= q < |subs| && s.procs[q].pc == Appending && Under(subs[q], scopeId, key);
      assert s'.procs[q].pc == Appending;
    }
  }

  lemma CallingIsFree(subs: Submissions, s: State, p: nat)
    requires LedgerInv(subs, s) && p < |subs| && s.procs[p].pc == Calling
    ensures LastEntry(s.idem, subs[p].scope.scopeId, subs[p].Key()).None?
  {
    hide LastEntry, FreshEffect, Settled;
  }

  lemma NobodyElseAppends(subs: Submissions, s: State, p: nat)
    requires LockInv(subs, s) && p < |subs| && s.procs[p].pc == Calling
    ensures forall q :: 0 <= q < |subs| && s.procs[q].pc == Appending ==> !SameKey(subs[p], subs[q])
  {
    forall q | 0 <= q < |subs| && s.procs[q].pc == Appending ensures !SameKey(subs[p], subs[q]) {
      Exclusive(subs, s, p, q);
    }
  }

  lemma AtMostOnceAppend(subs: Submissions, s: State, p: nat, scopeId: string, key: string)
    requires LedgerInv(subs, s) && Enabled(subs, s, p, Append)
    requires AtMostOnceInv(subs, s, scopeId, key)
    ensures AtMostOnceInv(subs, Apply(subs, s, p, Append), scopeId, key)
  {
    hide Verdict, NameOf, LastEntry, LedgerInv, FreshEffect, CountKey;
    var s' := Apply(subs, s, p, Append);
    CountKeyAppend(subs, s.unrecorded, p, scopeId, key);
    LastEntryAppend(s.idem, RecordFor(subs[p], s.procs[p].outcome.value), scopeId, key);
    if Taken(subs, s, scopeId, key) && LastEntry(s.idem, scopeId, key).None? && !Under(subs[p], scopeId, key) {
      var q :| 0 <= q < |subs| && s.procs[q].pc == Appending && Under(subs[q], scopeId, key);
      assert s'.procs[q].pc == Appending;
    }
  }

  /** A step of p that touches no ledger and leaves p out of the append. */
  lemma AtMostOnceFrame(subs: Submissions, s: State, s': State, p: nat, q: Process, scopeId: string, key: string)
    requires |subs| == |s.procs| && p < |subs| && AtMostOnceInv(subs, s, scopeId, key)
    requires s'.procs == s.procs[p := q]
    requires s'.idem == s.idem && s'.committed == s.committed && s'.unrecorded == s.unrecorded
    requires s.procs[p].pc != Appending
    ensures AtMostOnceInv(subs, s', scopeId, key)
  {
    hide LastEntry, CountKey;
    if Taken(subs, s, scopeId, key) && LastEntry(s.idem, scopeId, key).None? {
      var k :| 0 <= k < |subs| && s.procs[k].pc == Appending && Under(subs[k], scopeId, key);
      assert s'.procs[k].pc == Appending;
    }
  }

  lemma AtMostOnceQuiet(subs: Submissions, s: State, p: nat, a: Action, scopeId: string, key: string)
    requires Enabled(subs, s, p, a) && !a.CallAdapter? && !a.Append?
    requires AtMostOnceInv(subs, s, scopeId, key)
    ensures AtMostOnceInv(subs, Apply(subs, s, p, a), scopeId, key)
  {
    hide Verdict, NameOf, AtMostOnceInv;
    var s' := Apply(subs, s, p, a);
    AtMostOnceFrame(subs, s, s', p, s'.procs[p], scopeId, key);
  }

  /**
   * For any number of processes and every schedule: the fresh commits under one (scope, key) number
   * at most one more than the appends that failed under it.
   */
  lemma {:induction false} AtMostOnce(subs: Submissions, schedule: seq<(nat, Action)>, scopeId: string, key: string)
    ensures
      var s := After(subs, schedule);
      CountKey(subs, s.committed, scopeId, key) <= 1 + CountKey(subs, s.unrecorded, scopeId, key)
    ensures |After(subs, schedule).procs| == |subs| && AtMostOnceInv(subs, After(subs, schedule), scopeId, key)
  {
    if schedule != [] {
      hide LockInv, LedgerInv, Apply, Enabled, CountKey;
      var front := schedule[..|schedule| - 1];
      var s := After(subs, front);
      var (p, a) := schedule[|schedule| - 1];
      AtMostOnce(subs, front, scopeId, key);
      LockInvAlways(subs, front);
      LedgerInvAlways(subs, front);
      ProcsKept(subs, schedule);
      if Enabled(subs, s, p, a) {
        match a
        case CallAdapter => AtMostOnceCall(subs, s, p, scopeId, key);
        case Append => AtMostOnceAppend(subs, s, p, scopeId, key);
        case _ => AtMostOnceQuiet(subs, s, p, a, scopeId, key);
      }
    }
  }

  lemma ProcsKept(subs: Submissions, schedule: seq<(nat, Action)>)
    ensures |After(subs, schedule).procs| == |subs|
  {
    hide After;
    LedgerInvAlways(subs, schedule);
  }

  /**
   * In every reachable state, once a process has committed and its append did not fail, whichever
   * process next completes its replay check under that (scope, key) gets that very effect back if it
   * submits the same intent (all but the trace id, which is its own), and a conflict if not.
   */
  lemma FirstCommitDecides(subs: Submissions, schedule: seq<(nat, Action)>, p: nat, q: nat, rate: seq<RateLine>)
    requires p < |subs| && q < |subs| && SameKey(subs[p], subs[q])
    requires p in After(subs, schedule).committed && p !in After(subs, schedule).unrecorded
    requires Enabled(subs, After(subs, schedule), q, Check(rate)) && !subs[q].call.oracle.lookupFails
    ensures
      var s := After(subs, schedule);
      var after := Apply(subs, s, q, Check(rate)).procs[q];
      && s.procs[p].outcome.Some? && after.outcome.Some?
      && after.pc == Releasing
      && var first, second := s.procs[p].outcome.value.effect, after.outcome.value.effect;
      && first.state == StateCommitted
      && if subs[p].Intent() == subs[q].Intent() then second == first.(traceId := subs[q].call.oracle.traceId)
         else second.state == StateRejected && second.rejectionReason == Some(IdempotencyKeyConflict)
  {
    hide After, LockInv, LedgerInv, Enabled, Apply, LastEntry, NameOf, IntentSha256;
    var s := After(subs, schedule);
    LockInvAlways(subs, schedule);
    LedgerInvAlways(subs, schedule);
    CommittedIsSettled(subs, s, p);
    CheckingHolds(subs, s, q, rate);
    if s.procs[p].pc == Appending {
      Exclusive(subs, s, p, q);
      assert false;
    }
    UniqueEntryIsLast(s.idem, RecordFor(subs[p], s.procs[p].outcome.value));
    CheckDecides(subs, s, q, rate, subs[p], s.procs[p].outcome.value.effect);
  }

  lemma CheckingHolds(subs: Submissions, s: State, q: nat, rate: seq<RateLine>)
    requires Enabled(subs, s, q, Check(rate))
    ensures q < |subs| == |s.procs| && s.procs[q].pc == Checking
  {
  }

  /** The check of a process under a key that `first` has taken. */
  lemma CheckDecides(subs: Submissions, s: State, q: nat, rate: seq<RateLine>, first: Submission, e: Effect)
    requires Enabled(subs, s, q, Check(rate)) && !subs[q].call.oracle.lookupFails
    requires first.Valid() && SameKey(subs[q], first) && FreshEffect(first, e)
    requires
      LastEntry(s.idem, subs[q].scope.scopeId, subs[q].Key())
      == Some(IdemRecord(first.scope.scopeId, first.Key(), IntentSha256(first.Intent()), e))
    ensures
      var after := Apply(subs, s, q, Check(rate)).procs[q];
      && after.outcome == Some(Verdict(subs[q], s.idem, rate))
      && after.pc == Releasing
      && var second := after.outcome.value.effect;
      if subs[q].Intent() == first.Intent() then second == e.(traceId := subs[q].call.oracle.traceId)
      else second.state == StateRejected && second.rejectionReason == Some(IdempotencyKeyConflict)
  {
    hide Verdict, LastEntry, FreshEffect, NameOf, RecordFor, IntentSha256;
    TakenKeyDecides(subs[q], s.idem, rate, first, e);
  }

  lemma CommittedIsSettled(subs: Submissions, s: State, p: nat)
    requires LedgerInv(subs, s) && p in s.committed
    ensures p < |subs| == |s.procs| && Settled(subs, s, p)
    ensures forall i, j :: 0 <= i < j < |s.idem| ==>
      s.idem[i].scopeId != s.idem[j].scopeId || s.idem[i].key != s.idem[j].key
  {
    hide Settled, LastEntry, FreshEffect;
  }

  lemma {:induction false} UniqueEntryIsLast(idem: seq<IdemRecord>, r: IdemRecord)
    requires forall i, j :: 0 <= i < j < |idem| ==> idem[i].scopeId != idem[j].scopeId || idem[i].key != idem[j].key
    requires r in idem
    ensures LastEntry(idem, r.scopeId, r.key) == Some(r)
  {
    var front, last := idem[..|idem| - 1], idem[|idem| - 1];
    if last != r {
      assert r in front;
      UniqueEntryIsLast(front, r);
    }
  }

  // ----- Distinct keys never contend ---------------------------------------------------------

  /**
   * The lock names of two (scope, key) pairs differ exactly when the texts hashed for them do; for
   * scope ids without a NUL character that is whenever the pairs differ.
   */
  lemma LockNameInjective(scopeA: string, keyA: string, scopeB: string, keyB: string)
    requires NUL !in scopeA && NUL !in scopeB
    ensures LockName(scopeA, keyA) == LockName(scopeB, keyB) <==> scopeA == scopeB && keyA == keyB
  {
    var a, b := scopeA + [NUL] + keyA, scopeB + [NUL] + keyB;
    if a == b {
      assert a[|scopeA|] == NUL && b[|scopeB|] == NUL;
      assert a[..|scopeA|] == scopeA && b[..|scopeB|] == scopeB;
      assert a[|scopeA| + 1..] == keyA && b[|scopeB| + 1..] == keyB;
    }
  }

  /** With a NUL in a scope id two different pairs can share a lock: they wait for each other needlessly. */
  lemma LockNameCollision()
    ensures LockName("a" + [NUL] + "b", "c") == LockName("a", "b" + [NUL] + "c")
  {
    assert ("a" + [NUL] + "b") + [NUL] + "c" == "a" + [NUL] + ("b" + [NUL] + "c");
  }

  /** Name `m` is the temp name of a process that has linked its inode to the stable name `n`. */
  predicate Linked(s: State, m: Name, n: Name) {
    m.Temp? && n.Stable? && m.pid < |s.procs| && s.procs[m.pid].pc != Linking
  }

  /** Two names of one inode are a temp name and the stable name that it was linked to. */
  predicate Apart(s: State, m: Name, n: Name) {
    m in s.dir && n in s.dir && m != n && s.dir[m] == s.dir[n] ==> Linked(s, m, n) || Linked(s, n, m)
  }

  predicate NameInv(s: State, n: Name) {
    n in s.dir ==>
      && s.dir[n] < s.nextInode
      && (n.Temp? ==> n.pid < |s.procs| && s.procs[n.pid].pc != Entering && s.procs[n.pid].pc != Creating)
  }

  /** A temp name is bound to an inode of its own until its process links it to the stable name. */
  ghost predicate ApartInv(subs: Submissions, s: State) {
    && |s.procs| == |subs|
    && (forall n :: NameInv(s, n))
    && (forall m, n :: Apart(s, m, n))
  }

  lemma ApartInvCreate(subs: Submissions, s: State, p: nat)
    requires ApartInv(subs, s) && Enabled(subs, s, p, Create)
    ensures ApartInv(subs, Apply(subs, s, p, Create))
  {
    hide Verdict, RecordFor, NameOf;
    var s' := Apply(subs, s, p, Create);
    forall n ensures NameInv(s', n) {
      assert NameInv(s, n);
    }
    forall m, n ensures Apart(s', m, n) {
      assert NameInv(s, m) && NameInv(s, n) && Apart(s, m, n);
    }
  }

  lemma ApartInvLink(subs: Submissions, s: State, p: nat)
    requires ApartInv(subs, s) && Enabled(subs, s, p, Link)
    ensures ApartInv(subs, Apply(subs, s, p, Link))
  {
    hide Verdict, RecordFor, NameOf;
    var s' := Apply(subs, s, p, Link);
    forall n ensures NameInv(s', n) {
      assert NameInv(s, n) && NameInv(s, Temp(p));
    }
    forall m, n ensures Apart(s', m, n) {
      assert Apart(s, m, n) && Apart(s, Temp(p), m) && Apart(s, Temp(p), n);
    }
  }

  /** A step of p that binds no name. */
  lemma ApartInvFrame(subs: Submissions, s: State, s': State, p: nat, q: Process)
    requires ApartInv(subs, s) && p < |subs|
    requires s'.procs == s.procs[p := q] && s'.nextInode == s.nextInode
    requires forall n :: n in s'.dir ==> n in s.dir && s'.dir[n] == s.dir[n]
    requires q.pc != Entering && q.pc != Linking && (q.pc == Creating ==> s.procs[p].pc == Entering)
    ensures ApartInv(subs, s')
  {
    forall n ensures NameInv(s', n) {
      assert NameInv(s, n);
    }
    forall m, n ensures Apart(s', m, n) {
      assert Apart(s, m, n);
    }
  }

  lemma ApartInvStep(subs: Submissions, s: State, p: nat, a: Action)
    requires ApartInv(subs, s) && Enabled(subs, s, p, a)
    ensures ApartInv(subs, Apply(subs, s, p, a))
  {
    hide Verdict, RecordFor, NameOf, ApartInv;
    if a.Create? {
      ApartInvCreate(subs, s, p);
    } else if a.Link? {
      ApartInvLink(subs, s, p);
    } else {
      var s' := Apply(subs, s, p, a);
      ApartInvFrame(subs, s, s', p, s'.procs[p]);
    }
  }

  /** In every reachable state, different stable names are different locks. */
  lemma {:induction false} LocksApart(subs: Submissions, schedule: seq<(nat, Action)>)
    ensures ApartInv(subs, After(subs, schedule))
    ensures
      var dir := After(subs, schedule).dir;
      forall m: Name, n: Name :: m.Stable? && n.Stable? && m in dir && n in dir && m != n ==> dir[m] != dir[n]
  {
    if schedule != [] {
      hide ApartInv, Apply, Enabled;
      var s := After(subs, schedule[..|schedule| - 1]);
      var (p, a) := schedule[|schedule| - 1];
      LocksApart(subs, schedule[..|schedule| - 1]);
      if Enabled(subs, s, p, a) {
        ApartInvStep(subs, s, p, a);
      }
    }
    ApartStable(subs, After(subs, schedule));
  }

  lemma ApartStable(subs: Submissions, s: State)
    requires ApartInv(subs, s)
    ensures forall m: Name, n: Name :: m.Stable? && n.Stable? && m in s.dir && n in s.dir && m != n ==>
      s.dir[m] != s.dir[n]
  {
    forall m: Name, n: Name | m.Stable? && n.Stable? && m in s.dir && n in s.dir && m != n
      ensures s.dir[m] != s.dir[n]
    {
      assert Apart(s, m, n);
    }
  }

  // ----- Progress ----------------------------------------------------------------------------

  /** From `schedule` on to `longer`, only p acts, every step is possible and none of its calls fails. */
  ghost predicate Alone(subs: Submissions, schedule: seq<(nat, Action)>, longer: seq<(nat, Action)>, p: nat) {
    && schedule <= longer
    && forall k :: |schedule| <= k < |longer| ==>
         && longer[k].0 == p && !longer[k].1.Fail? && longer[k].1 != Unlink(false)
         && Enabled(subs, After(subs, longer[..k]), p, longer[k].1)
  }

  /** One more possible step of p. */
  lemma StepAlone(
    subs: Submissions, schedule: seq<(nat, Action)>, so: seq<(nat, Action)>, p: nat, a: Action)
    returns (longer: seq<(nat, Action)>)
    requires Alone(subs, schedule, so, p) && Enabled(subs, After(subs, so), p, a)
    requires !a.Fail? && a != Unlink(false)
    ensures Alone(subs, schedule, longer, p)
    ensures After(subs, longer) == Apply(subs, After(subs, so), p, a)
  {
    hide Enabled, Apply;
    longer := so + [(p, a)];
    assert longer[..|longer| - 1] == so;
    forall k | |schedule| <= k < |so| ensures longer[..k] == so[..k] && longer[k] == so[k] {
    }
  }

  /** The lock of p's key is free, and p has not begun. */
  predicate MayBegin(subs: Submissions, s: State, p: nat) {
    && p < |subs| == |s.procs|
    && s.procs[p].pc == Entering
    && (NameOf(subs[p]) in s.dir ==> s.dir[NameOf(subs[p])] !in s.holder)
  }

  /** The steps up to the lock: opening what is there, or creating, linking, unlinking and reopening. */
  lemma {:induction false} ReachesLock(subs: Submissions, schedule: seq<(nat, Action)>, p: nat)
    returns (longer: seq<(nat, Action)>)
    requires MayBegin(subs, After(subs, schedule), p)
    ensures Alone(subs, schedule, longer, p)
    ensures
      var s, t := After(subs, schedule), After(subs, longer);
      && |t.procs| == |subs| && t.procs[p].pc == Checking
      && t.idem == s.idem && t.committed == s.committed && t.unrecorded == s.unrecorded
  {
    hide After, NameOf, Alone, Verdict, RecordFor, WithoutLocksOf;
    longer := schedule;
    AloneNot(subs, schedule, p);
    longer := StepAlone(subs, schedule, longer, p, Open);
    if After(subs, longer).procs[p].pc == Creating {
      HeldInodesAreBound(subs, schedule);
      longer := StepAlone(subs, schedule, longer, p, Create);
      longer := StepAlone(subs, schedule, longer, p, Link);
      longer := StepAlone(subs, schedule, longer, p, Unlink(true));
      longer := StepAlone(subs, schedule, longer, p, Reopen);
    }
    longer := StepAlone(subs, schedule, longer, p, Flock);
  }

  lemma AloneNot(subs: Submissions, schedule: seq<(nat, Action)>, p: nat)
    ensures Alone(subs, schedule, schedule, p)
  {
  }

  /** A lock is held only on an inode that has been handed out. */
  lemma HeldInodesAreBound(subs: Submissions, schedule: seq<(nat, Action)>)
    ensures var s := After(subs, schedule); s.nextInode !in s.holder
  {
    hide After, NameOf;
    LockInvAlways(subs, schedule);
  }

  /**
   * In every reachable state, a process that has not begun and whose lock is free can finish on its own,
   * without a failing call; and then it has done what its evaluation of the ledger, as it stands, says:
   * if the adapter is called and the effect commits, the process is among the committed and its record
   * is in the ledger, unless the append fails; otherwise nothing is committed or recorded.
   */
  lemma {:induction false} LoneProcessFinishes(
    subs: Submissions, schedule: seq<(nat, Action)>, p: nat, rate: seq<RateLine>)
    returns (longer: seq<(nat, Action)>)
    requires MayBegin(subs, After(subs, schedule), p)
    ensures Alone(subs, schedule, longer, p)
    ensures
      var s, t, o := After(subs, schedule), After(subs, longer), Verdict(subs[p], After(subs, schedule).idem, rate);
      && |t.procs| == |subs| && t.procs[p].pc == Finished && t.procs[p].outcome == Some(o)
      && (forall i :: i in t.holder ==> t.holder[i] != p)
      && if o.store.calls == [] || o.effect.state != StateCommitted then
           t.committed == s.committed && t.idem == s.idem && t.unrecorded == s.unrecorded
         else
           && t.committed == s.committed + [p]
           && if subs[p].call.oracle.idempotencyWriteFails then t.idem == s.idem && t.unrecorded == s.unrecorded + [p]
              else t.idem == s.idem + [RecordFor(subs[p], o)] && t.unrecorded == s.unrecorded
  {
    hide After, NameOf, Verdict, RecordFor, Alone, WithoutLocksOf;
    longer := ReachesLock(subs, schedule, p);
    longer := WorksAlone(subs, schedule, longer, p, rate);
    HoldersAreHolding(subs, longer);
    longer := StepAlone(subs, schedule, longer, p, Release);
    HoldersAreHolding(subs, longer);
  }

  /** The steps under the lock: the check, and the adapter and the record if it comes to that. */
  lemma {:induction false} WorksAlone(
    subs: Submissions, schedule: seq<(nat, Action)>, so: seq<(nat, Action)>, p: nat, rate: seq<RateLine>)
    returns (longer: seq<(nat, Action)>)
    requires p < |subs| == |After(subs, so).procs| && After(subs, so).procs[p].pc == Checking
    requires Alone(subs, schedule, so, p)
    ensures Alone(subs, schedule, longer, p)
    ensures
      var s, t, o := After(subs, so), After(subs, longer), Verdict(subs[p], After(subs, so).idem, rate);
      && |t.procs| == |subs| && t.procs[p].pc == Releasing && t.procs[p].outcome == Some(o)
      && if o.store.calls == [] || o.effect.state != StateCommitted then
           t.committed == s.committed && t.idem == s.idem && t.unrecorded == s.unrecorded
         else
           && t.committed == s.committed + [p]
           && if subs[p].call.oracle.idempotencyWriteFails then t.idem == s.idem && t.unrecorded == s.unrecorded + [p]
              else t.idem == s.idem + [RecordFor(subs[p], o)] && t.unrecorded == s.unrecorded
  {
    hide After, NameOf, Verdict, RecordFor, Alone, WithoutLocksOf;
    longer := StepAlone(subs, schedule, so, p, Check(rate));
    if After(subs, longer).procs[p].pc == Calling {
      longer := StepAlone(subs, schedule, longer, p, CallAdapter);
      if After(subs, longer).procs[p].pc == Appending {
        longer := StepAlone(subs, schedule, longer, p, Append);
      }
    }
  }

  lemma HoldersAreHolding(subs: Submissions, schedule: seq<(nat, Action)>)
    ensures
      var s := After(subs, schedule);
      && |s.procs| == |subs|
      && (forall p :: 0 <= p < |subs| && Holding(s.procs[p].pc) ==> s.procs[p].fd.Some?)
      && (forall i :: i in s.holder ==> s.holder[i] < |subs| && Holding(s.procs[s.holder[i]].pc))
  {
    hide After, NameOf;
    LockInvAlways(subs, schedule);
  }

  /**
   * So a lone process on a fresh key commits: if the lock is free, no record stands under its scope and
   * key, and the evaluation goes through to an adapter that writes, then there is a run of it alone after
   * which it is among the committed and its record, a committed effect under its own scope, key and
   * hash, is in the ledger.
   */
  lemma LoneProcessCommits(subs: Submissions, schedule: seq<(nat, Action)>, p: nat, rate: seq<RateLine>)
    returns (longer: seq<(nat, Action)>)
    requires MayBegin(subs, After(subs, schedule), p)
    requires Outcomes.Performs(subs[p].scope, subs[p].call, Store(After(subs, schedule).idem, rate, []))
    requires subs[p].call.oracle.commit.Wrote? && !subs[p].call.oracle.idempotencyWriteFails
    ensures Alone(subs, schedule, longer, p)
    ensures
      var s, t, sub := After(subs, schedule), After(subs, longer), subs[p];
      && t.committed == s.committed + [p]
      && |t.idem| == |s.idem| + 1 && t.idem[..|s.idem|] == s.idem
      && var r := t.idem[|s.idem|];
      && r.scopeId == sub.scope.scopeId && r.key == sub.Key() && r.intentSha256 == IntentSha256(sub.Intent())
      && r.effect.state == StateCommitted && r.effect.effectId == "effect_" + sub.call.oracle.freshId
  {
    hide After, NameOf, Verdict, Alone, Outcomes.Performs, IntentSha256;
    longer := LoneProcessFinishes(subs, schedule, p, rate);
    VerdictCommits(subs[p], After(subs, schedule).idem, rate);
  }

  lemma VerdictCommits(sub: Submission, idem: seq<IdemRecord>, rate: seq<RateLine>)
    requires sub.Valid() && sub.call.oracle.commit.Wrote?
    requires Outcomes.Performs(sub.scope, sub.call, Store(idem, rate, []))
    ensures
      var o := Verdict(sub, idem, rate);
      && o.store.calls != [] && o.effect.state == StateCommitted
      && o.effect.effectId == "effect_" + sub.call.oracle.freshId
  {
    hide Evaluate, Outcomes.Performs, AdmissionRejection;
    Outcomes.StatesAre(sub.scope, sub.call, Store(idem, rate, []));
    CallNeedsFreeKey(sub, idem, rate);
  }
}
