/**
 * The local service (`service.py`): every accepted request stores its own request, response, trace and
 * error records while other requests do the same. The theorem is about what the export
 * (`ServiceRecords`) makes of a log that was written in any interleaving and stopped at any point.
 */
module ServiceLog {
  import opened Wrappers
  import opened Records
  import opened Evaluator
  import opened TraceLanguage
  import Dispatch
  import Export = ServiceRecords

  /** The operation of a request is the mode in which the runtime is called. */
  type Operation = Dispatch.Mode

  /** A posted body: an envelope that validates, or one that does not. */
  datatype Post = Envelope(requestId: string, operation: Operation) | Malformed

  /** One call of the runtime: what it was asked, and the ledgers that it found. */
  datatype Evaluation = Evaluation(asked: Dispatch.Request, ledgers: Store) {
    function Result(): Outcome {
      Dispatch.Evaluated(asked, ledgers)
    }

    /** The adapter was called by this evaluation, and returned evidence. */
    predicate CommittedFreshly() {
      var after := Result().store.calls;
      |after| > |ledgers.calls| && after[|ledgers.calls|].wrote
    }
  }

  datatype Pc =
    | Arrived
    | Accepted
    | Resolved
    | Evaluated(evaluation: Evaluation)
    | Answered(evaluation: Evaluation)
    | Failing(known: bool)
    | Ended

  /** What a handler has stored so far. */
  datatype Kept = Kept(request: bool, response: Option<Evaluation>, trace: Option<Evaluation>, error: bool)

  const NOTHING := Kept(false, None, None, false)

  datatype Handler = Handler(post: Post, pc: Pc, kept: Kept)

  datatype World = World(log: Export.Log, handlers: seq<Handler>)

  /** An append is stored and verified, or fails verification, or dies with an I/O error. */
  datatype Append = Verified | Unverified(stored: bool) | Died(stored: bool)

  datatype Act =
    | Refuse
    | StoreRequest(append: Append)
    | ResolveSandbox(inside: bool)
    | ReturnEffect(evaluation: Evaluation)
    | RaiseApiError
    | StoreResponse(append: Append)
    | StoreTrace(append: Append)
    | StoreError(append: Append)
    | Stop

  datatype Move = Move(handler: nat, act: Act)

  // ----- The stored records ------------------------------------------------------------------

  function StateName(s: EffectState): string {
    match s
    case StateApproved => "approved"
    case StateCommitted => "committed"
    case StateRejected => "rejected"
    case StatePaused => "paused"
  }

  function TypeName(e: Event): string {
    match e
    case ProposalReceived => "proposal.received"
    case IntentCreated => "intent.created"
    case CustodyDeclared(_) => "custody.declared"
    case IdempotencyConflict => "effect.idempotency_conflict"
    case IdempotentReplay(_) => "effect.idempotent_replay"
    case PolicyChecked => "policy.checked"
    case DryRunRendered => "dry_run.rendered"
    case ApprovalRequested => "approval.requested"
    case ApprovalRejected => "approval.rejected"
    case ApprovalGranted => "approval.granted"
    case RateLimited(_) => "effect.rate_limited"
    case CustodyRecordOnly(_) => "custody.record_only"
    case CommitStarted => "adapter.commit.started"
    case AdapterNote(note) => note
    case EffectCommitted(_) => "effect.committed"
    case IdempotencyRecordFailed => "effect.idempotency_record_failed"
    case RateRecordFailed => "effect.rate_record_failed"
    case EffectRejected(_) => "effect.rejected"
    case EffectPaused => "effect.paused"
  }

  function IsObject(j: Option<Json>): bool {
    j.Some? && j.value.Obj?
  }

  function EffectPayload(effect: Effect): Export.Payload {
    Export.Payload(Some(Export.EffectView(
      Some(StateName(effect.state)), IsObject(effect.acknowledgement), IsObject(effect.verification))), [])
  }

  function TracePayload(events: seq<Event>): Export.Payload {
    Export.Payload(None, seq(|events|, k requires 0 <= k < |events| => Some(TypeName(events[k]))))
  }

  function OperationName(o: Operation): string {
    if o == Dispatch.Run then "run" else "interpret"
  }

  /** `service_record`: the payload hash is taken of the payload that is stored. */
  function ServiceRecord(requestId: string, operation: string, payload: Export.Payload): Export.Item {
    Export.Item(Some(requestId), Some(operation), true, payload)
  }

  function Appended(log: Export.Log, stream: Export.Stream, item: Export.Item): Export.Log {
    log.Append(stream, [Export.Ref(stream, |log.At(stream)| + 1, item)])
  }

  predicate Stores(a: Append) {
    match a
    case Verified => true
    case Unverified(stored) => stored
    case Died(stored) => stored
  }

  /** Where the handler goes after an append inside its `try`. */
  function Next(a: Append, success: Pc): Pc {
    match a
    case Verified => success
    case Unverified(_) => Failing(true)
    case Died(_) => Ended
  }

  // ----- The protocol ------------------------------------------------------------------------

  predicate Enabled(h: Handler, act: Act) {
    match act
    case Refuse => h.pc.Arrived? && h.post.Malformed?
    case StoreRequest(_) => h.pc.Arrived? && h.post.Envelope?
    case ResolveSandbox(_) => h.pc.Accepted?
    case ReturnEffect(e) => h.pc.Resolved? && h.post.Envelope? && e.asked.mode == h.post.operation
    case RaiseApiError => h.pc.Resolved?
    case StoreResponse(_) => h.pc.Evaluated?
    case StoreTrace(_) => h.pc.Answered?
    case StoreError(_) => h.pc.Failing?
    case Stop => true
  }

  function RequestId(h: Handler): string {
    if h.post.Envelope? then h.post.requestId else "unknown"
  }

  function Item(h: Handler, payload: Export.Payload): Export.Item {
    ServiceRecord(RequestId(h), if h.post.Envelope? then OperationName(h.post.operation) else "unknown", payload)
  }

  /** One step of one handler: its new state, and what it adds to the log. */
  function Acted(h: Handler, act: Act): (next: (Handler, Option<(Export.Stream, Export.Item)>))
    requires Enabled(h, act)
  {
    match act
    case Refuse => (h.(pc := Failing(false)), None)
    case StoreRequest(a) =>
      (h.(pc := Next(a, Accepted), kept := h.kept.(request := Stores(a))),
       if Stores(a) then Some((Export.Requests, Item(h, Export.NO_PAYLOAD))) else None)
    case ResolveSandbox(inside) => (h.(pc := if inside then Resolved else Failing(true)), None)
    case ReturnEffect(e) => (h.(pc := Evaluated(e)), None)
    case RaiseApiError => (h.(pc := Failing(true)), None)
    case StoreResponse(a) =>
      var e := h.pc.evaluation;
      (h.(pc := Next(a, Answered(e)), kept := h.kept.(response := if Stores(a) then Some(e) else None)),
       if Stores(a) then Some((Export.Responses, Item(h, EffectPayload(e.Result().effect)))) else None)
    case StoreTrace(a) =>
      var e := h.pc.evaluation;
      (h.(pc := Next(a, Ended), kept := h.kept.(trace := if Stores(a) then Some(e) else None)),
       if Stores(a) then Some((Export.Traces, Item(h, TracePayload(e.Result().events)))) else None)
    case StoreError(a) =>
      (h.(pc := Ended, kept := h.kept.(error := Stores(a))),
       if Stores(a) then Some((Export.Errors, Item(h, Export.NO_PAYLOAD))) else None)
    case Stop => (h.(pc := Ended), None)
  }

  /** A move that is not possible changes nothing. */
  function Apply(w: World, m: Move): World {
    if m.handler < |w.handlers| && Enabled(w.handlers[m.handler], m.act) then
      var (next, added) := Acted(w.handlers[m.handler], m.act);
      World(if added.Some? then Appended(w.log, added.value.0, added.value.1) else w.log,
            w.handlers[m.handler := next])
    else w
  }

  function Begin(posts: seq<Post>): World {
    World(Export.NO_RECORDS, seq(|posts|, k requires 0 <= k < |posts| => Handler(posts[k], Arrived, NOTHING)))
  }

  /** The world after any interleaving of the handlers' steps. */
  function After(posts: seq<Post>, schedule: seq<Move>): World {
    if schedule == [] then Begin(posts)
    else Apply(After(posts, schedule[..|schedule| - 1]), schedule[|schedule| - 1])
  }

  /** Accepted request ids have a fixed prefix; the requests under consideration use distinct ones. */
  ghost predicate DistinctIds(posts: seq<Post>) {
    && (forall k :: 0 <= k < |posts| && posts[k].Envelope? ==> "svc_req_" <= posts[k].requestId)
    && (forall j, k :: 0 <= j < k < |posts| && posts[j].Envelope? && posts[k].Envelope? ==>
          posts[j].requestId != posts[k].requestId)
  }

  // ----- What the log holds of one request ---------------------------------------------------

  /** At most one record, and which. */
  ghost predicate Holds(refs: seq<Export.Ref>, item: Option<Export.Item>) {
    match item
    case None => refs == []
    case Some(i) => |refs| == 1 && refs[0].item == i
  }

  function ResponseItem(h: Handler): Option<Export.Item> {
    match h.kept.response
    case None => None
    case Some(e) => Some(Item(h, EffectPayload(e.Result().effect)))
  }

  function TraceItem(h: Handler): Option<Export.Item> {
    match h.kept.trace
    case None => None
    case Some(e) => Some(Item(h, TracePayload(e.Result().events)))
  }

  ghost predicate GroupMatches(h: Handler, g: Export.Group) {
    && Holds(g.requests, if h.kept.request then Some(Item(h, Export.NO_PAYLOAD)) else None)
    && Holds(g.responses, ResponseItem(h))
    && Holds(g.traces, TraceItem(h))
    && Holds(g.errors, if h.kept.error then Some(Item(h, Export.NO_PAYLOAD)) else None)
  }

  /** What a handler in a given state can have stored. */
  predicate Consistent(h: Handler) {
    && (h.pc.Arrived? ==> h.kept == NOTHING)
    && (h.pc.Accepted? || h.pc.Resolved? || h.pc.Evaluated? ==> h.kept == NOTHING.(request := true))
    && (h.pc.Answered? ==> h.kept == NOTHING.(request := true, response := Some(h.pc.evaluation)))
    && (h.pc.Failing? ==> !h.kept.error)
    && (h.kept.trace.Some? ==> h.kept.response == h.kept.trace)
    && (h.kept.response.Some? ==> h.kept.request)
    && (h.kept.response.Some? && h.post.Envelope? ==> h.kept.response.value.asked.mode == h.post.operation)
    && (h.pc.Evaluated? && h.post.Envelope? ==> h.pc.evaluation.asked.mode == h.post.operation)
  }

  ghost predicate Inv(posts: seq<Post>, w: World) {
    && |w.handlers| == |posts|
    && forall k :: 0 <= k < |posts| ==> HandlerInv(posts[k], w, k)
  }

  ghost predicate HandlerInv(post: Post, w: World, k: nat) {
    && k < |w.handlers|
    && w.handlers[k].post == post
    && Consistent(w.handlers[k])
    && (post.Envelope? ==> GroupMatches(w.handlers[k], Export.GroupFor(w.log, post.requestId)))
  }

  /** A new record joins the group of its own request and no other. */
  lemma AppendedGroup(log: Export.Log, stream: Export.Stream, item: Export.Item, id: string)
    requires item.requestId.Some?
    ensures
      var r := Export.Ref(stream, |log.At(stream)| + 1, item);
      Export.GroupFor(Appended(log, stream, item), id)
        == Export.GroupFor(log, id).Append(stream, if item.requestId.value == id then [r] else [])
  {
    var r := Export.Ref(stream, |log.At(stream)| + 1, item);
    var refs := log.At(stream);
    assert (refs + [r])[..|refs|] == refs;
    assert Export.OwnedBy(refs + [r], id) == Export.OwnedBy(refs, id) + (if Export.Owner(r) == id then [r] else []);
    var g := Export.GroupFor(log, id);
    assert g.requests + [] == g.requests && g.responses + [] == g.responses;
    assert g.traces + [] == g.traces && g.errors + [] == g.errors;
  }

  lemma ActKeepsInv(posts: seq<Post>, w: World, m: Move)
    requires DistinctIds(posts) && Inv(posts, w)
    ensures Inv(posts, Apply(w, m))
  {
    if m.handler < |w.handlers| && Enabled(w.handlers[m.handler], m.act) {
      hide Inv, Consistent, GroupMatches, Acted, Enabled;
      forall k | 0 <= k < |posts| ensures HandlerInv(posts[k], Apply(w, m), k) {
        OneHandler(posts, w, m, k);
      }
      SameHandlers(posts, w, m);
    }
  }

  lemma SameHandlers(posts: seq<Post>, w: World, m: Move)
    requires Inv(posts, w) && forall k :: 0 <= k < |posts| ==> HandlerInv(posts[k], Apply(w, m), k)
    ensures Inv(posts, Apply(w, m))
  {
    hide HandlerInv, Acted, Enabled, Appended;
  }

  lemma OneHandler(posts: seq<Post>, w: World, m: Move, k: nat)
    requires DistinctIds(posts) && Inv(posts, w) && k < |posts|
    requires m.handler < |w.handlers| && Enabled(w.handlers[m.handler], m.act)
    ensures HandlerInv(posts[k], Apply(w, m), k)
  {
    var h := w.handlers[m.handler];
    assert HandlerInv(posts[k], w, k) && HandlerInv(posts[m.handler], w, m.handler);
    var (next, added) := Acted(h, m.act);
    if k == m.handler {
      OwnStep(h, m.act, w.log);
    } else if added.Some? && posts[k].Envelope? {
      hide Acted, Consistent, Inv, GroupMatches, Enabled;
      ItemNamesItsRequest(h, m.act);
      AppendedGroup(w.log, added.value.0, added.value.1, posts[k].requestId);
      IdsDiffer(posts, k, m.handler);
      AppendNothing(Export.GroupFor(w.log, posts[k].requestId), added.value.0);
    }
  }

  lemma AppendNothing(g: Export.Group, stream: Export.Stream)
    ensures g.Append(stream, []) == g
  {
    assert g.At(stream) + [] == g.At(stream);
  }

  lemma ItemNamesItsRequest(h: Handler, act: Act)
    requires Enabled(h, act)
    ensures
      var added := Acted(h, act).1;
      added.Some? ==> added.value.1.requestId == Some(RequestId(h))
  {
    hide Dispatch.Evaluated;
  }

  lemma IdsDiffer(posts: seq<Post>, k: nat, j: nat)
    requires DistinctIds(posts) && k < |posts| && j < |posts| && j != k && posts[k].Envelope?
    ensures posts[k].requestId != (if posts[j].Envelope? then posts[j].requestId else "unknown")
  {
    assert "svc_req_"[0] == 's' && "unknown"[0] == 'u';
  }

  /** A handler's own step keeps its records and its state in line. */
  lemma OwnStep(h: Handler, act: Act, log: Export.Log)
    requires Enabled(h, act) && Consistent(h)
    requires h.post.Envelope? ==> GroupMatches(h, Export.GroupFor(log, h.post.requestId))
    ensures
      var (next, added) := Acted(h, act);
      var after := if added.Some? then Appended(log, added.value.0, added.value.1) else log;
      && next.post == h.post
      && Consistent(next)
      && (h.post.Envelope? ==> GroupMatches(next, Export.GroupFor(after, h.post.requestId)))
  {
    StaysConsistent(h, act);
    if h.post.Envelope? {
      hide Consistent, GroupMatches, Acted, Enabled;
      GroupStep(h, act, log);
    }
  }

  lemma StaysConsistent(h: Handler, act: Act)
    requires Enabled(h, act) && Consistent(h)
    ensures Consistent(Acted(h, act).0) && Acted(h, act).0.post == h.post
  {
    hide Dispatch.Evaluated, TracePayload, EffectPayload;
  }

  lemma GroupStep(h: Handler, act: Act, log: Export.Log)
    requires Enabled(h, act) && Consistent(h) && h.post.Envelope?
    requires GroupMatches(h, Export.GroupFor(log, h.post.requestId))
    ensures
      var (next, added) := Acted(h, act);
      var after := if added.Some? then Appended(log, added.value.0, added.value.1) else log;
      GroupMatches(next, Export.GroupFor(after, h.post.requestId))
  {
    hide Dispatch.Evaluated, Appended, TracePayload, EffectPayload, Export.GroupFor, OperationName;
    ItemNamesItsRequest(h, act);
    var added := Acted(h, act).1;
    if added.Some? {
      AppendedGroup(log, added.value.0, added.value.1, h.post.requestId);
    }
  }

  lemma {:induction false} InvAlways(posts: seq<Post>, schedule: seq<Move>)
    requires DistinctIds(posts)
    ensures Inv(posts, After(posts, schedule))
  {
    if schedule == [] {
      BeginInv(posts);
    } else {
      hide Inv, Apply;
      InvAlways(posts, schedule[..|schedule| - 1]);
      ActKeepsInv(posts, After(posts, schedule[..|schedule| - 1]), schedule[|schedule| - 1]);
    }
  }

  lemma BeginInv(posts: seq<Post>)
    ensures Inv(posts, Begin(posts))
  {
    forall k | 0 <= k < |posts| ensures HandlerInv(posts[k], Begin(posts), k) {
    }
  }

  // ----- The log is readable -----------------------------------------------------------------

  function Lines(refs: seq<Export.Ref>): seq<Export.Line> {
    seq(|refs|, k requires 0 <= k < |refs| => Export.ItemLine(refs[k].item))
  }

  ghost predicate Numbered(stream: Export.Stream, refs: seq<Export.Ref>) {
    forall k :: 0 <= k < |refs| ==> refs[k].stream == stream && refs[k].line == k + 1
  }

  lemma {:induction false} NumberedReadsBack(stream: Export.Stream, refs: seq<Export.Ref>)
    requires Numbered(stream, refs)
    ensures Export.Refs(stream, Lines(refs)) == Ok(refs)
  {
    if refs != [] {
      var front := refs[..|refs| - 1];
      NumberedReadsBack(stream, front);
      assert Lines(refs)[..|refs| - 1] == Lines(front);
      assert front + [refs[|refs| - 1]] == refs;
    }
  }

  /** After any interleaving, every stream reads back as exactly the records that were stored in it. */
  lemma {:induction false} LogReadsBack(posts: seq<Post>, schedule: seq<Move>, stream: Export.Stream)
    ensures
      var log := After(posts, schedule).log;
      Numbered(stream, log.At(stream)) && Export.Refs(stream, Lines(log.At(stream))) == Ok(log.At(stream))
  {
    hide Acted, Enabled, Apply, Begin, Numbered;
    if schedule == [] {
      NothingNumbered(posts, stream);
    } else {
      LogReadsBack(posts, schedule[..|schedule| - 1], stream);
      NumberedStep(After(posts, schedule[..|schedule| - 1]), schedule[|schedule| - 1], stream);
    }
    NumberedReadsBack(stream, After(posts, schedule).log.At(stream));
  }

  lemma NothingNumbered(posts: seq<Post>, stream: Export.Stream)
    ensures Numbered(stream, Begin(posts).log.At(stream))
  {
  }

  lemma NumberedStep(w: World, m: Move, stream: Export.Stream)
    requires Numbered(stream, w.log.At(stream))
    ensures Numbered(stream, Apply(w, m).log.At(stream))
  {
    hide Acted, Enabled;
  }

  // ----- What the export makes of it ---------------------------------------------------------

  /** The class of a request, from what its handler stored and how its evaluation ended. */
  function Verdict(kept: Kept): Export.Class {
    if kept.error then Export.ServiceError
    else if kept.response.None? then Export.Incomplete
    else
      var result := kept.response.value.Result();
      match EndingOf(Read(result.events))
      case Rejection => Export.Rejected
      case Pause => Export.Paused
      case FreshCommit =>
        if kept.trace.Some? && IsObject(result.effect.acknowledgement) && IsObject(result.effect.verification) then
          Export.Committed
        else Export.NeedsReview
      case _ => Export.NeedsReview
  }

  lemma {:induction false} TypesAre(events: seq<Event>)
    ensures
      Export.Types(TracePayload(events).events)
      == seq(|events|, k requires 0 <= k < |events| => TypeName(events[k]))
  {
    hide TypeName;
    if events != [] {
      TypesAre(events[..|events| - 1]);
      assert TracePayload(events).events[..|events| - 1] == TracePayload(events[..|events| - 1]).events;
    }
  }

  predicate Quiet(e: Event) {
    !e.CommitStarted? && !e.AdapterNote? && !e.EffectCommitted?
  }

  lemma QuietStep(q: Phase, e: Event)
    requires Step(q, e) != NotATrace && !HasStarted(Step(q, e))
    ensures q != NotATrace && !HasStarted(q) && Quiet(e)
  {
  }

  /** Before the adapter is started, a trace holds none of its events. */
  lemma {:induction false} QuietBeforeStart(trace: seq<Event>)
    requires Read(trace) != NotATrace && !HasStarted(Read(trace))
    ensures forall k :: 0 <= k < |trace| ==> Quiet(trace[k])
  {
    hide Step, HasStarted, Quiet;
    if trace != [] {
      QuietStep(Read(trace[..|trace| - 1]), trace[|trace| - 1]);
      QuietBeforeStart(trace[..|trace| - 1]);
    }
  }

  lemma {:induction false} StartedIsNoted(trace: seq<Event>) returns (k: nat)
    requires Read(trace) != NotATrace && HasStarted(Read(trace))
    ensures k < |trace| && trace[k].CommitStarted?
  {
    var front := trace[..|trace| - 1];
    if HasStarted(Read(front)) {
      k := StartedIsNoted(front);
    } else {
      k := |trace| - 1;
    }
  }

  lemma {:induction false} CommitIsNoted(trace: seq<Event>) returns (k: nat)
    requires Read(trace) != NotATrace && EndingOf(Read(trace)) == FreshCommit
    ensures k < |trace| && trace[k].EffectCommitted?
  {
    var front := trace[..|trace| - 1];
    if EndingOf(Read(front)) == FreshCommit {
      k := CommitIsNoted(front);
    } else {
      k := |trace| - 1;
    }
  }

  /** The event types tell a fresh commit from a replay. */
  lemma NamesTellFreshCommit(e: Evaluation)
    requires e.Result().effect.state == StateCommitted
    ensures
      var names := Export.Types(TracePayload(e.Result().events).events);
      ("adapter.commit.started" in names && "effect.committed" in names)
        <==> EndingOf(Read(e.Result().events)) == FreshCommit
  {
    hide Read, Dispatch.Evaluated, TypeName;
    var q := Dispatch.DispatchTells(e.asked, e.ledgers);
    var events := e.Result().events;
    TypesAre(events);
    if EndingOf(q) == FreshCommit {
      FreshCommitNames(events);
    } else {
      QuietBeforeStart(events);
      QuietNames(events);
    }
  }

  lemma FreshCommitNames(events: seq<Event>)
    requires Read(events) != NotATrace && EndingOf(Read(events)) == FreshCommit
    ensures
      var names := seq(|events|, k requires 0 <= k < |events| => TypeName(events[k]));
      "adapter.commit.started" in names && "effect.committed" in names
  {
    hide Read, Step, TypeName, EndingOf;
    var started := StartedIsNoted(events);
    var committed := CommitIsNoted(events);
    var names := seq(|events|, k requires 0 <= k < |events| => TypeName(events[k]));
    NamesOfCommit(events[started], events[committed]);
    assert names[started] == TypeName(events[started]) && names[committed] == TypeName(events[committed]);
  }

  lemma NamesOfCommit(a: Event, b: Event)
    ensures a.CommitStarted? ==> TypeName(a) == "adapter.commit.started"
    ensures b.EffectCommitted? ==> TypeName(b) == "effect.committed"
  {
  }

  lemma QuietNames(events: seq<Event>)
    requires forall k :: 0 <= k < |events| ==> Quiet(events[k])
    ensures
      var names := seq(|events|, k requires 0 <= k < |events| => TypeName(events[k]));
      "effect.committed" !in names
  {
    forall k | 0 <= k < |events| ensures TypeName(events[k]) != "effect.committed" {
      OnlyCommitIsNamedSo(events[k]);
    }
  }

  lemma OnlyCommitIsNamedSo(e: Event)
    requires Quiet(e)
    ensures TypeName(e) != "effect.committed"
  {
  }

  /**
   * For every set of requests with distinct ids, every interleaving of their handlers and every point at
   * which it stops: the export has a row for a request exactly if its handler stored anything, and the
   * row's class is the verdict on what it stored.
   */
  lemma ExportClassifies(posts: seq<Post>, schedule: seq<Move>, k: nat)
    requires DistinctIds(posts) && k < |posts| && posts[k].Envelope?
    ensures
      var w := After(posts, schedule);
      var groups := Export.Groups(w.log, None);
      var id := posts[k].requestId;
      && k < |w.handlers|
      && (id in groups <==> w.handlers[k].kept != NOTHING)
      && (id in groups ==> Export.ClassifyRequest(groups[id]) == Verdict(w.handlers[k].kept))
  {
    hide DistinctIds, After, Verdict, Export.ClassifyRequest, Consistent;
    InvAlways(posts, schedule);
    var w := After(posts, schedule);
    assert HandlerInv(posts[k], w, k);
    RowExists(w.log, w.handlers[k]);
    hide GroupMatches;
    GroupClass(w.handlers[k], Export.GroupFor(w.log, posts[k].requestId));
  }

  lemma RowExists(log: Export.Log, h: Handler)
    requires h.post.Envelope? && GroupMatches(h, Export.GroupFor(log, h.post.requestId))
    ensures
      var groups := Export.Groups(log, None);
      && (h.post.requestId in groups <==> h.kept != NOTHING)
      && (h.post.requestId in groups ==> groups[h.post.requestId] == Export.GroupFor(log, h.post.requestId))
  {
    hide Dispatch.Evaluated, TracePayload, EffectPayload, Export.OwnedBy, Export.Owners;
    Export.OwnedByOwners(log.requests, h.post.requestId);
    Export.OwnedByOwners(log.responses, h.post.requestId);
    Export.OwnedByOwners(log.traces, h.post.requestId);
    Export.OwnedByOwners(log.errors, h.post.requestId);
  }

  lemma GroupClass(h: Handler, g: Export.Group)
    requires GroupMatches(h, g) && Consistent(h)
    ensures Export.ClassifyRequest(g) == Verdict(h.kept)
  {
    hide Dispatch.Evaluated, TracePayload, Read, StateName, IsObject;
    if h.kept.response.Some? {
      var e := h.kept.response.value;
      var q := Dispatch.DispatchTells(e.asked, e.ledgers);
      StateNamesDiffer(e.Result().effect.state);
      if e.Result().effect.state == StateCommitted {
        NamesTellFreshCommit(e);
      }
    }
    TraceNames(g.traces);
  }

  lemma StateNamesDiffer(s: EffectState)
    ensures StateName(s) == "committed" <==> s == StateCommitted
    ensures StateName(s) == "paused" <==> s == StatePaused
    ensures StateName(s) == "rejected" <==> s == StateRejected
  {
  }

  lemma {:induction false} TraceNames(refs: seq<Export.Ref>)
    ensures refs == [] ==> Export.EventTypes(refs) == []
    ensures |refs| == 1 ==> Export.EventTypes(refs) == Export.Types(refs[0].item.payload.events)
  {
    if |refs| == 1 {
      assert refs[..0] == [];
      assert Export.EventTypes(refs[..0]) == [];
    }
  }

  /**
   * The export says "committed" for a request only if that request itself was a run whose evaluation
   * called the adapter and got evidence, and its response and trace are both stored. Replays and
   * approvals that were only recorded are left to review.
   */
  lemma CommittedOnlyByFreshCommit(posts: seq<Post>, schedule: seq<Move>, k: nat)
    requires DistinctIds(posts) && k < |posts| && posts[k].Envelope?
    ensures
      var w := After(posts, schedule);
      var groups := Export.Groups(w.log, None);
      var id := posts[k].requestId;
      && k < |w.handlers|
      && (id in groups && Export.ClassifyRequest(groups[id]) == Export.Committed ==>
            var kept := w.handlers[k].kept;
            && posts[k].operation == Dispatch.Run
            && kept.request && !kept.error && kept.trace.Some? && kept.response == kept.trace
            && kept.response.value.CommittedFreshly())
  {
    hide DistinctIds, After, Export.Groups, Export.ClassifyRequest, Inv, Verdict, Dispatch.Evaluated, Read;
    ExportClassifies(posts, schedule, k);
    InvAlways(posts, schedule);
    HandlerIsConsistent(posts, After(posts, schedule), k);
    CommittedVerdict(After(posts, schedule).handlers[k].kept);
  }

  lemma CommittedVerdict(kept: Kept)
    ensures Verdict(kept) == Export.Committed ==>
      && !kept.error && kept.response.Some? && kept.trace.Some?
      && kept.response.value.CommittedFreshly()
      && kept.response.value.asked.mode == Dispatch.Run
  {
    hide Dispatch.Evaluated, Read;
    if kept.response.Some? {
      var e := kept.response.value;
      var q := Dispatch.DispatchTells(e.asked, e.ledgers);
    }
  }

  lemma HandlerIsConsistent(posts: seq<Post>, w: World, k: nat)
    requires Inv(posts, w) && k < |posts|
    ensures k < |w.handlers| && Consistent(w.handlers[k]) && w.handlers[k].post == posts[k]
  {
    hide Consistent, GroupMatches;
    assert HandlerInv(posts[k], w, k);
  }

  // ----- The handler as it runs --------------------------------------------------------------

  /** What one handler meets: how its appends go, whether its sandbox is inside, what the runtime returns. */
  datatype Fate = Fate(
    request: Append, inside: bool, evaluation: Option<Evaluation>, response: Append, trace: Append, error: Append)

  /** The evaluation that the runtime returns: it runs in the mode of the request's operation. */
  function Returned(post: Post, fate: Fate): Evaluation
    requires post.Envelope? && fate.evaluation.Some?
  {
    fate.evaluation.value.(asked := fate.evaluation.value.asked.(mode := post.operation))
  }

  /** The runtime has been called for a stored request, and has returned. */
  predicate Returns(post: Post, fate: Fate) {
    post.Envelope? && fate.request.Verified? && fate.inside && fate.evaluation.Some?
  }

  /** Something raised an error that the service knows: a bad body, an append that does not verify, the runtime. */
  predicate Fails(post: Post, fate: Fate) {
    || post.Malformed?
    || fate.request.Unverified?
    || (fate.request.Verified? && (!fate.inside || fate.evaluation.None?))
    || (Returns(post, fate) && fate.response.Unverified?)
    || (Returns(post, fate) && fate.response.Verified? && fate.trace.Unverified?)
  }

  /** An append leaves its record behind if it is verified, or was stored before it failed. */
  predicate Lands(a: Append) {
    a == Verified || a == Unverified(true) || a == Died(true)
  }

  /** What the handler must have stored when it ends, read off the way its calls went. */
  function Due(post: Post, fate: Fate): Kept {
    var returned := Returns(post, fate);
    Kept(
      post.Envelope? && Lands(fate.request),
      if returned && Lands(fate.response) then Some(Returned(post, fate)) else None,
      if returned && fate.response.Verified? && Lands(fate.trace) then Some(Returned(post, fate)) else None,
      Fails(post, fate) && Lands(fate.error))
  }

  /** One more record in the stream, with the next line number, or the stream as it was. */
  predicate Grew(before: seq<Export.Ref>, after: seq<Export.Ref>, stream: Export.Stream, item: Option<Export.Item>) {
    after == before + (if item.Some? then [Export.Ref(stream, |before| + 1, item.value)] else [])
  }

  /** Exactly what `kept` says has been added to each of the four streams. */
  predicate Recorded(before: Export.Log, after: Export.Log, post: Post, kept: Kept) {
    var id := if post.Envelope? then post.requestId else "unknown";
    var operation :=
      if post.Malformed? then "unknown" else if post.operation == Dispatch.Run then "run" else "interpret";
    var bare := Export.Item(Some(id), Some(operation), true, Export.NO_PAYLOAD);
    && Grew(before.requests, after.requests, Export.Requests, if kept.request then Some(bare) else None)
    && Grew(before.responses, after.responses, Export.Responses,
            if kept.response.None? then None
            else Some(bare.(payload := EffectPayload(kept.response.value.Result().effect))))
    && Grew(before.traces, after.traces, Export.Traces,
            if kept.trace.None? then None
            else Some(bare.(payload := TracePayload(kept.trace.value.Result().events))))
    && Grew(before.errors, after.errors, Export.Errors, if kept.error then Some(bare) else None)
  }

  lemma NothingRecorded(log: Export.Log, post: Post)
    ensures Recorded(log, log, post, NOTHING)
  {
    assert log.requests + [] == log.requests && log.responses + [] == log.responses;
    assert log.traces + [] == log.traces && log.errors + [] == log.errors;
  }

  /** One more step adds what it keeps. */
  lemma {:induction false} StepRecorded(before: Export.Log, log: Export.Log, h: Handler, act: Act)
    requires Recorded(before, log, h.post, h.kept) && Enabled(h, act)
    requires act.StoreRequest? || act.StoreResponse? || act.StoreTrace? || act.StoreError?
    requires act.StoreRequest? ==> !h.kept.request
    requires act.StoreResponse? ==> h.kept.response.None?
    requires act.StoreTrace? ==> h.kept.trace.None?
    requires act.StoreError? ==> !h.kept.error
    ensures
      var (next, added) := Acted(h, act);
      Recorded(before, if added.Some? then Appended(log, added.value.0, added.value.1) else log, h.post, next.kept)
  {
    hide Dispatch.Evaluated, TracePayload, EffectPayload;
  }

  /**
   * When everything works, the request, its response and its trace are kept and no error is. The first
   * call that does not work decides the rest: one that the service knows how to answer leaves one error
   * record, and an append that dies leaves none.
   */
  lemma DueDecides(post: Post, fate: Fate)
    ensures
      var kept := Due(post, fate);
      var error := fate.error == Verified || fate.error == Unverified(true) || fate.error == Died(true);
      && (post.Malformed? ==> kept == Kept(false, None, None, error))
      && (post.Envelope? ==>
            match fate.request
            case Died(stored) => kept == Kept(stored, None, None, false)
            case Unverified(stored) => kept == Kept(stored, None, None, error)
            case Verified =>
              if !fate.inside || fate.evaluation.None? then kept == Kept(true, None, None, error)
              else
                var e := Some(Evaluation(
                  fate.evaluation.value.asked.(mode := post.operation), fate.evaluation.value.ledgers));
                match fate.response
                case Died(stored) => kept == Kept(true, if stored then e else None, None, false)
                case Unverified(stored) => kept == Kept(true, if stored then e else None, None, error)
                case Verified =>
                  match fate.trace
                  case Died(stored) => kept == Kept(true, e, if stored then e else None, false)
                  case Unverified(stored) => kept == Kept(true, e, if stored then e else None, error)
                  case Verified => kept == Kept(true, e, e, false))
  {
  }

  /** The world after one handler has taken some steps with no other in between. */
  function Performed(w: World, acts: seq<Act>): World {
    if acts == [] then w else Apply(Performed(w, acts[..|acts| - 1]), Move(0, acts[|acts| - 1]))
  }

  lemma {:induction false} PerformedOne(w: World, acts: seq<Act>, act: Act, h: Handler, log: Export.Log)
    requires Performed(w, acts) == World(log, [h]) && Enabled(h, act)
    ensures
      var (next, added) := Acted(h, act);
      Performed(w, acts + [act])
        == World(if added.Some? then Appended(log, added.value.0, added.value.1) else log, [next])
  {
    hide Acted, Enabled, Appended;
    assert (acts + [act])[..|acts|] == acts;
  }

  lemma PerformedNothing(w: World)
    ensures Performed(w, []) == w
  {
  }

  class AppendOnlyStore {
    var log: Export.Log

    constructor ()
      ensures log == Export.NO_RECORDS
    {
      log := Export.NO_RECORDS;
    }

    method Append(stream: Export.Stream, item: Export.Item, append: Append)
      modifies this
      ensures log == if Stores(append) then Appended(old(log), stream, item) else old(log)
    {
      if Stores(append) {
        log := log.Append(stream, [Export.Ref(stream, |log.At(stream)| + 1, item)]);
      }
    }

    /**
     * Handles one post from start to end: its steps are ones that the protocol allows, it never stops of
     * its own accord, and it stores exactly what is due.
     */
    method DoPost(post: Post, fate: Fate) returns (h: Handler, ghost acts: seq<Act>)
      modifies this
      ensures World(log, [h]) == Performed(World(old(log), [Handler(post, Arrived, NOTHING)]), acts)
      ensures h.pc.Ended? && Stop !in acts
      ensures h.post == post && h.kept == Due(post, fate)
      ensures Recorded(old(log), log, post, h.kept)
    {
      hide Appended, Dispatch.Evaluated, TracePayload, EffectPayload, Apply, Recorded, Performed;
      h, acts := Handle(post, fate);
      if h.pc.Failing? {
        PerformedOne(World(old(log), [Handler(post, Arrived, NOTHING)]), acts, StoreError(fate.error), h, log);
        StepRecorded(old(log), log, h, StoreError(fate.error));
        Append(Export.Errors, Item(h, Export.NO_PAYLOAD), fate.error);
        h := h.(pc := Ended, kept := h.kept.(error := Stores(fate.error)));
        acts := acts + [StoreError(fate.error)];
      }
    }

    /** The part under `try`. */
    method Handle(post: Post, fate: Fate) returns (h: Handler, ghost acts: seq<Act>)
      modifies this
      ensures World(log, [h]) == Performed(World(old(log), [Handler(post, Arrived, NOTHING)]), acts)
      ensures Stop !in acts
      ensures if Fails(post, fate) then h.pc.Failing? else h.pc.Ended?
      ensures h.post == post && h.kept == Due(post, fate).(error := false)
      ensures Recorded(old(log), log, post, h.kept)
    {
      hide Appended, Dispatch.Evaluated, TracePayload, EffectPayload, Apply, Recorded, Performed;
      h, acts := Handler(post, Arrived, NOTHING), [];
      ghost var start := World(log, [h]);
      PerformedNothing(start);
      NothingRecorded(log, post);
      if post.Malformed? {
        PerformedOne(start, acts, Refuse, h, log);
        return h.(pc := Failing(false)), acts + [Refuse];
      }
      PerformedOne(start, acts, StoreRequest(fate.request), h, log);
      StepRecorded(old(log), log, h, StoreRequest(fate.request));
      Append(Export.Requests, Item(h, Export.NO_PAYLOAD), fate.request);
      h := h.(pc := Next(fate.request, Accepted), kept := h.kept.(request := Stores(fate.request)));
      acts := acts + [StoreRequest(fate.request)];
      if !fate.request.Verified? {
        return;
      }
      PerformedOne(start, acts, ResolveSandbox(fate.inside), h, log);
      acts := acts + [ResolveSandbox(fate.inside)];
      if !fate.inside {
        return h.(pc := Failing(true)), acts;
      }
      h := h.(pc := Resolved);
      if fate.evaluation.None? {
        PerformedOne(start, acts, RaiseApiError, h, log);
        return h.(pc := Failing(true)), acts + [RaiseApiError];
      }
      var e := Returned(post, fate);
      PerformedOne(start, acts, ReturnEffect(e), h, log);
      h, acts := h.(pc := Evaluated(e)), acts + [ReturnEffect(e)];
      PerformedOne(start, acts, StoreResponse(fate.response), h, log);
      StepRecorded(old(log), log, h, StoreResponse(fate.response));
      Append(Export.Responses, Item(h, EffectPayload(e.Result().effect)), fate.response);
      h := h.(pc := Next(fate.response, Answered(e)),
              kept := h.kept.(response := if Stores(fate.response) then Some(e) else None));
      acts := acts + [StoreResponse(fate.response)];
      if !fate.response.Verified? {
        return;
      }
      PerformedOne(start, acts, StoreTrace(fate.trace), h, log);
      StepRecorded(old(log), log, h, StoreTrace(fate.trace));
      Append(Export.Traces, Item(h, TracePayload(e.Result().events)), fate.trace);
      h := h.(pc := Next(fate.trace, Ended), kept := h.kept.(trace := if Stores(fate.trace) then Some(e) else None));
      acts := acts + [StoreTrace(fate.trace)];
    }
  }
}
