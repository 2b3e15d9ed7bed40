/** The read-only export of the service's record streams (`service_records.py`). */
module ServiceRecords {
  import opened Wrappers

  datatype Stream = Requests | Responses | Traces | Errors

  const STREAMS := [Requests, Responses, Traces, Errors]

  /** The fields of an effect object that the export looks at: its state, and which parts are objects. */
  datatype EffectView = EffectView(state: Option<string>, acknowledged: bool, verified: bool)

  /** A payload object: its effect, if that is an object, and for each listed event its type, if it has one. */
  datatype Payload = Payload(effect: Option<EffectView>, events: seq<Option<string>>)

  const NO_PAYLOAD := Payload(None, [])

  datatype Item = Item(requestId: Option<string>, operation: Option<string>, hashValid: bool, payload: Payload)

  datatype Line = BlankLine | NotJson | NotObject | ItemLine(item: Item)

  datatype Ref = Ref(stream: Stream, line: nat, item: Item)

  datatype Error = NoRecordsDirectory | InvalidLine(stream: Stream, line: nat)

  // ----- Reading one stream ------------------------------------------------------------------

  function Refs(stream: Stream, lines: seq<Line>): Result<seq<Ref>, Error> {
    if lines == [] then Ok([])
    else
      match Refs(stream, lines[..|lines| - 1])
      case Err(e) => Err(e)
      case Ok(refs) =>
        match lines[|lines| - 1]
        case BlankLine => Ok(refs)
        case ItemLine(item) => Ok(refs + [Ref(stream, |lines|, item)])
        case _ => Err(InvalidLine(stream, |lines|))
  }

  predicate Unreadable(line: Line) {
    line.NotJson? || line.NotObject?
  }

  /** The error is the first unreadable line; without one there is none. */
  lemma {:induction false} FirstUnreadableLine(stream: Stream, lines: seq<Line>)
    ensures
      match Refs(stream, lines)
      case Err(e) =>
        && e.InvalidLine? && e.stream == stream && 1 <= e.line <= |lines|
        && Unreadable(lines[e.line - 1]) && forall k :: 0 <= k < e.line - 1 ==> !Unreadable(lines[k])
      case Ok(_) => forall k :: 0 <= k < |lines| ==> !Unreadable(lines[k])
  {
    if lines != [] {
      FirstUnreadableLine(stream, lines[..|lines| - 1]);
    }
  }

  ghost predicate PointsAt(r: Ref, stream: Stream, lines: seq<Line>) {
    r.stream == stream && 1 <= r.line <= |lines| && lines[r.line - 1] == ItemLine(r.item)
  }

  /** The references are the item lines of a readable stream, each once, in order, with their line numbers. */
  lemma {:induction false} RefsAreTheItemLines(stream: Stream, lines: seq<Line>)
    requires Refs(stream, lines).Ok?
    ensures
      var refs := Refs(stream, lines).value;
      && (forall j :: 0 <= j < |refs| ==> PointsAt(refs[j], stream, lines))
      && (forall i, j :: 0 <= i < j < |refs| ==> refs[i].line < refs[j].line)
      && (forall k :: 0 <= k < |lines| && lines[k].ItemLine? ==> Ref(stream, k + 1, lines[k].item) in refs)
  {
    if lines != [] {
      var n := |lines| - 1;
      var front, refs := Refs(stream, lines[..n]).value, Refs(stream, lines).value;
      RefsAreTheItemLines(stream, lines[..n]);
      forall j | 0 <= j < |refs| ensures PointsAt(refs[j], stream, lines) && (j < |front| ==> refs[j].line <= n) {
        if j < |front| {
          assert refs[j] == front[j] && PointsAt(front[j], stream, lines[..n]);
        }
      }
      forall k | 0 <= k < |lines| && lines[k].ItemLine? ensures Ref(stream, k + 1, lines[k].item) in refs {
        if k < n {
          assert lines[..n][k] == lines[k];
          assert Ref(stream, k + 1, lines[k].item) in front;
        }
      }
    }
  }

  lemma {:induction false} FirstErrorStands(stream: Stream, lines: seq<Line>, n: nat)
    requires n <= |lines| && Refs(stream, lines[..n]).Err?
    ensures Refs(stream, lines) == Refs(stream, lines[..n])
    decreases |lines|
  {
    if n < |lines| {
      assert lines[..|lines| - 1][..n] == lines[..n];
      FirstErrorStands(stream, lines[..|lines| - 1], n);
    } else {
      assert lines[..n] == lines;
    }
  }

  /** What the export says about one stream as a whole. */
  datatype StreamSummary = StreamSummary(records: nat, missing: bool, invalidHashes: nat)

  function InvalidHashes(refs: seq<Ref>): nat {
    if refs == [] then 0
    else InvalidHashes(refs[..|refs| - 1]) + (if refs[|refs| - 1].item.hashValid then 0 else 1)
  }

  function SummaryOf(file: Option<seq<Line>>, refs: seq<Ref>): StreamSummary {
    StreamSummary(|refs|, file.None?, InvalidHashes(refs))
  }

  method CountInvalid(refs: seq<Ref>) returns (invalid: nat)
    ensures invalid == InvalidHashes(refs)
  {
    invalid := 0;
    for n := 0 to |refs|
      invariant invalid == InvalidHashes(refs[..n])
    {
      assert refs[..n + 1][..n] == refs[..n];
      if !refs[n].item.hashValid {
        invalid := invalid + 1;
      }
    }
    assert refs[..|refs|] == refs;
  }

  /** The count of invalid hashes is zero exactly if every hash is valid. */
  lemma {:induction false} NoInvalidHashes(refs: seq<Ref>)
    ensures InvalidHashes(refs) == 0 <==> forall k :: 0 <= k < |refs| ==> refs[k].item.hashValid
  {
    if refs != [] {
      NoInvalidHashes(refs[..|refs| - 1]);
    }
  }

  datatype StreamRead = StreamRead(refs: seq<Ref>, summary: StreamSummary)

  /** A missing file holds no records. */
  method ReadStream(stream: Stream, file: Option<seq<Line>>) returns (r: Result<StreamRead, Error>)
    ensures
      match Refs(stream, LinesOf(file))
      case Err(e) => r == Err(e)
      case Ok(refs) => r == Ok(StreamRead(refs, SummaryOf(file, refs)))
  {
    if file.None? {
      return Ok(StreamRead([], StreamSummary(0, true, 0)));
    }
    var lines := file.value;
    var refs: seq<Ref> := [];
    for n := 0 to |lines|
      invariant Refs(stream, lines[..n]) == Ok(refs)
    {
      assert lines[..n + 1][..n] == lines[..n];
      if lines[n].BlankLine? {
        continue;
      }
      if Unreadable(lines[n]) {
        FirstErrorStands(stream, lines, n + 1);
        return Err(InvalidLine(stream, n + 1));
      }
      refs := refs + [Ref(stream, n + 1, lines[n].item)];
    }
    assert lines[..|lines|] == lines;
    var invalid := CountInvalid(refs);
    return Ok(StreamRead(refs, StreamSummary(|refs|, false, invalid)));
  }

  function LinesOf(file: Option<seq<Line>>): seq<Line> {
    if file.None? then [] else file.value
  }

  // ----- Classifying one request -------------------------------------------------------------

  datatype Group = Group(requests: seq<Ref>, responses: seq<Ref>, traces: seq<Ref>, errors: seq<Ref>) {
    function At(stream: Stream): seq<Ref> {
      match stream
      case Requests => requests
      case Responses => responses
      case Traces => traces
      case Errors => errors
    }

    function Append(stream: Stream, refs: seq<Ref>): Group {
      match stream
      case Requests => this.(requests := requests + refs)
      case Responses => this.(responses := responses + refs)
      case Traces => this.(traces := traces + refs)
      case Errors => this.(errors := errors + refs)
    }

    predicate HashesValid() {
      forall k :: 0 <= k < |requests + responses + traces + errors| ==>
        (requests + responses + traces + errors)[k].item.hashValid
    }
  }

  const NO_RECORDS := Group([], [], [], [])

  datatype Class = Committed | Paused | Rejected | Incomplete | ServiceError | NeedsReview

  /** The event types of the trace records, in order. */
  function EventTypes(refs: seq<Ref>): seq<string> {
    if refs == [] then []
    else EventTypes(refs[..|refs| - 1]) + Types(refs[|refs| - 1].item.payload.events)
  }

  function Types(events: seq<Option<string>>): seq<string> {
    if events == [] then []
    else
      var last := events[|events| - 1];
      Types(events[..|events| - 1]) + (if last.Some? then [last.value] else [])
  }

  method TraceEventTypes(refs: seq<Ref>) returns (types: seq<string>)
    ensures types == EventTypes(refs)
  {
    types := [];
    for n := 0 to |refs|
      invariant types == EventTypes(refs[..n])
    {
      var events := refs[n].item.payload.events;
      assert refs[..n + 1][..n] == refs[..n];
      for k := 0 to |events|
        invariant types == EventTypes(refs[..n]) + Types(events[..k])
      {
        assert events[..k + 1][..k] == events[..k];
        if events[k].Some? {
          types := types + [events[k].value];
        }
      }
      assert events[..|events|] == events;
    }
    assert refs[..|refs|] == refs;
  }

  function ClassifyRequest(group: Group): Class {
    if !group.HashesValid() then NeedsReview
    else if group.errors != [] then ServiceError
    else if group.responses == [] then Incomplete
    else if |group.responses| != 1 then NeedsReview
    else
      match group.responses[0].item.payload.effect
      case None => NeedsReview
      case Some(effect) =>
        if effect.state == Some("committed") then
          var events := EventTypes(group.traces);
          if "adapter.commit.started" in events && "effect.committed" in events && effect.acknowledged
            && effect.verified then
            Committed
          else NeedsReview
        else if effect.state == Some("paused") then Paused
        else if effect.state == Some("rejected") then Rejected
        else NeedsReview
  }

  /** Some trace record lists an event of this type. */
  ghost predicate Lists(traces: seq<Ref>, name: string) {
    exists j, k :: ListedAt(traces, name, j, k)
  }

  predicate ListedAt(traces: seq<Ref>, name: string, j: int, k: int) {
    0 <= j < |traces| && 0 <= k < |traces[j].item.payload.events| && traces[j].item.payload.events[k] == Some(name)
  }

  lemma {:induction false} TypesHold(events: seq<Option<string>>, name: string)
    ensures name in Types(events) <==> Some(name) in events
  {
    if events != [] {
      TypesHold(events[..|events| - 1], name);
      assert events == events[..|events| - 1] + [events[|events| - 1]];
    }
  }

  lemma {:induction false} EventTypesHold(traces: seq<Ref>, name: string)
    ensures name in EventTypes(traces) <==> Lists(traces, name)
  {
    hide Types;
    if traces != [] {
      var n := |traces| - 1;
      var front, events := traces[..n], traces[n].item.payload.events;
      EventTypesHold(front, name);
      TypesHold(events, name);
      if Lists(front, name) {
        var j, k :| ListedAt(front, name, j, k);
        assert ListedAt(traces, name, j, k);
      }
      if Some(name) in events {
        var k :| 0 <= k < |events| && events[k] == Some(name);
        assert ListedAt(traces, name, n, k);
      }
      if Lists(traces, name) {
        var j, k :| ListedAt(traces, name, j, k);
        assert j < n ==> ListedAt(front, name, j, k);
      }
    }
  }

  /** Every hash of the group's records is valid. */
  predicate AllValid(g: Group) {
    && (forall r :: r in g.requests ==> r.item.hashValid) && (forall r :: r in g.responses ==> r.item.hashValid)
    && (forall r :: r in g.traces ==> r.item.hashValid) && (forall r :: r in g.errors ==> r.item.hashValid)
  }

  lemma HashesAreValid(g: Group)
    ensures g.HashesValid() <==> AllValid(g)
  {
    var all := g.requests + g.responses + g.traces + g.errors;
    if g.HashesValid() {
      forall r | r in all ensures r.item.hashValid {
        var k :| 0 <= k < |all| && all[k] == r;
      }
    } else {
      var k :| 0 <= k < |all| && !all[k].item.hashValid;
      assert all[k] in all;
    }
  }

  /**
   * Exactly when a group gets each class. One invalid hash, or a second response, leaves it to review; so
   * does a committed effect whose traces or evidence do not bear it out.
   */
  lemma ClassesAre(g: Group)
    ensures
      var verdict, one := ClassifyRequest(g), AllValid(g) && g.errors == [] && |g.responses| == 1;
      && (verdict == ServiceError <==> AllValid(g) && g.errors != [])
      && (verdict == Incomplete <==> AllValid(g) && g.errors == [] && g.responses == [])
      && (verdict in {Committed, Paused, Rejected} ==> one && g.responses[0].item.payload.effect.Some?)
      && (one && g.responses[0].item.payload.effect.Some? ==>
            var e := g.responses[0].item.payload.effect.value;
            && (verdict == Paused <==> e.state == Some("paused"))
            && (verdict == Rejected <==> e.state == Some("rejected"))
            && (verdict == Committed <==>
                  && e.state == Some("committed") && e.acknowledged && e.verified
                  && Lists(g.traces, "adapter.commit.started") && Lists(g.traces, "effect.committed")))
      && (!AllValid(g) ==> verdict == NeedsReview)
      && (g.errors == [] && |g.responses| >= 2 ==> verdict == NeedsReview)
  {
    hide EventTypes, Lists, AllValid;
    HashesAreValid(g);
    EventTypesHold(g.traces, "adapter.commit.started");
    EventTypesHold(g.traces, "effect.committed");
    StatesDiffer();
  }

  lemma StatesDiffer()
    ensures "committed" != "paused" && "committed" != "rejected" && "paused" != "rejected"
  {
    assert "committed"[0] != "paused"[0] && "committed"[0] != "rejected"[0] && "paused"[0] != "rejected"[0];
  }

  // ----- The export --------------------------------------------------------------------------

  /** The records of the four streams. */
  type Log = Group

  function Owner(r: Ref): string {
    if r.item.requestId.Some? then r.item.requestId.value else "unknown"
  }

  function OwnedBy(refs: seq<Ref>, id: string): seq<Ref> {
    if refs == [] then []
    else OwnedBy(refs[..|refs| - 1], id) + (if Owner(refs[|refs| - 1]) == id then [refs[|refs| - 1]] else [])
  }

  function Owners(refs: seq<Ref>): set<string> {
    set k | 0 <= k < |refs| :: Owner(refs[k])
  }

  predicate Wanted(filter: Option<string>, id: string) {
    filter.None? || filter.value == id
  }

  function GroupFor(log: Log, id: string): Group {
    Group(OwnedBy(log.requests, id), OwnedBy(log.responses, id), OwnedBy(log.traces, id), OwnedBy(log.errors, id))
  }

  function AllOwners(log: Log): set<string> {
    Owners(log.requests) + Owners(log.responses) + Owners(log.traces) + Owners(log.errors)
  }

  /** The groups of a log: for each wanted owner, its records of each stream. */
  function Groups(log: Log, filter: Option<string>): map<string, Group> {
    map id | id in AllOwners(log) && Wanted(filter, id) :: GroupFor(log, id)
  }

  function GroupAt(groups: map<string, Group>, id: string): Group {
    if id in groups then groups[id] else NO_RECORDS
  }

  function Chosen(refs: seq<Ref>, filter: Option<string>, id: string): seq<Ref> {
    if Wanted(filter, id) then OwnedBy(refs, id) else []
  }

  /** What filing the references of one stream does to the group of one owner. */
  ghost predicate FiledAt(
    before: map<string, Group>, stream: Stream, refs: seq<Ref>, filter: Option<string>,
    groups: map<string, Group>, id: string)
  {
    && (id in groups <==> id in before || Chosen(refs, filter, id) != [])
    && GroupAt(groups, id) == GroupAt(before, id).Append(stream, Chosen(refs, filter, id))
  }

  ghost predicate Filed(
    before: map<string, Group>, stream: Stream, refs: seq<Ref>, filter: Option<string>, groups: map<string, Group>)
  {
    forall id :: FiledAt(before, stream, refs, filter, groups, id)
  }

  lemma FiledOneMore(
    before: map<string, Group>, stream: Stream, refs: seq<Ref>, n: nat, filter: Option<string>,
    groups: map<string, Group>, id: string)
    requires n < |refs| && FiledAt(before, stream, refs[..n], filter, groups, id)
    ensures
      var r := refs[n];
      var after :=
        if Wanted(filter, Owner(r)) then groups[Owner(r) := GroupAt(groups, Owner(r)).Append(stream, [r])] else groups;
      FiledAt(before, stream, refs[..n + 1], filter, after, id)
  {
    hide Owner;
    assert refs[..n + 1][..n] == refs[..n];
    var owned := OwnedBy(refs[..n], id);
    assert OwnedBy(refs[..n + 1], id) == owned + (if Owner(refs[n]) == id then [refs[n]] else []);
    assert owned + [] == owned;
    AppendTwice(GroupAt(before, id), stream, owned, [refs[n]]);
  }

  lemma AppendTwice(group: Group, stream: Stream, a: seq<Ref>, b: seq<Ref>)
    ensures group.Append(stream, a).Append(stream, b) == group.Append(stream, a + b)
  {
    assert group.At(stream) + a + b == group.At(stream) + (a + b);
  }

  method FileRefs(before: map<string, Group>, stream: Stream, refs: seq<Ref>, filter: Option<string>)
    returns (groups: map<string, Group>)
    ensures Filed(before, stream, refs, filter, groups)
  {
    hide OwnedBy, Owner;
    groups := before;
    NothingFiled(before, stream, refs[..0], filter);
    for n := 0 to |refs|
      invariant Filed(before, stream, refs[..n], filter, groups)
    {
      var r := refs[n];
      ghost var more := refs[..n + 1];
      ghost var grown := groups[Owner(r) := GroupAt(groups, Owner(r)).Append(stream, [r])];
      ghost var after := if Wanted(filter, Owner(r)) then grown else groups;
      forall id ensures FiledAt(before, stream, more, filter, after, id) {
        FiledOneMore(before, stream, refs, n, filter, groups, id);
      }
      if !Wanted(filter, Owner(r)) {
        continue;
      }
      groups := groups[Owner(r) := GroupAt(groups, Owner(r)).Append(stream, [r])];
    }
    assert refs[..|refs|] == refs;
  }

  lemma NothingFiled(before: map<string, Group>, stream: Stream, none: seq<Ref>, filter: Option<string>)
    requires none == []
    ensures Filed(before, stream, none, filter, before)
  {
    forall id ensures FiledAt(before, stream, none, filter, before, id) {
      assert GroupAt(before, id).At(stream) + [] == GroupAt(before, id).At(stream);
    }
  }

  lemma {:induction false} OwnedByOwners(refs: seq<Ref>, id: string)
    ensures id in Owners(refs) <==> OwnedBy(refs, id) != []
  {
    if refs != [] {
      var front, last := refs[..|refs| - 1], refs[|refs| - 1];
      OwnedByOwners(front, id);
      assert Owners(refs) == Owners(front) + {Owner(last)} by {
        hide OwnedBy, Owner;
        OwnersOfFront(refs);
      }
    }
  }

  lemma OwnersOfFront(refs: seq<Ref>)
    requires refs != []
    ensures Owners(refs) == Owners(refs[..|refs| - 1]) + {Owner(refs[|refs| - 1])}
  {
    var front := refs[..|refs| - 1];
    assert forall k :: 0 <= k < |front| ==> refs[k] == front[k];
    forall id | id in Owners(refs) ensures id in Owners(front) + {Owner(refs[|refs| - 1])} {
      var k :| 0 <= k < |refs| && Owner(refs[k]) == id;
      if k < |front| {
        assert Owner(front[k]) == id;
      }
    }
    forall id | id in Owners(front) ensures id in Owners(refs) {
      var k :| 0 <= k < |front| && Owner(front[k]) == id;
      assert Owner(refs[k]) == id;
    }
  }

  /** The group of one owner, while the streams are being read. */
  ghost predicate FilingAt(log: Log, filter: Option<string>, groups: map<string, Group>, id: string) {
    var group := if Wanted(filter, id) then GroupFor(log, id) else NO_RECORDS;
    GroupAt(groups, id) == group && (id in groups <==> group != NO_RECORDS)
  }

  lemma FilingStep(
    log: Log, stream: Stream, refs: seq<Ref>, filter: Option<string>,
    before: map<string, Group>, after: map<string, Group>, id: string)
    requires log.At(stream) == []
    requires FilingAt(log, filter, before, id) && FiledAt(before, stream, refs, filter, after, id)
    ensures FilingAt(log.Append(stream, refs), filter, after, id)
  {
    hide Owner;
    assert [] + refs == refs && [] + OwnedBy(refs, id) == OwnedBy(refs, id);
    assert GroupAt(before, id).At(stream) == [];
  }

  lemma FilingIsGroups(log: Log, filter: Option<string>, groups: map<string, Group>)
    requires forall id :: FilingAt(log, filter, groups, id)
    ensures groups == Groups(log, filter)
  {
    hide OwnedBy, Owners;
    forall id ensures id in groups <==> id in Groups(log, filter) {
      assert FilingAt(log, filter, groups, id);
      OwnedByOwners(log.requests, id);
      OwnedByOwners(log.responses, id);
      OwnedByOwners(log.traces, id);
      OwnedByOwners(log.errors, id);
    }
    forall id | id in groups ensures groups[id] == Groups(log, filter)[id] {
      assert FilingAt(log, filter, groups, id);
    }
  }

  type Files = files: map<Stream, Option<seq<Line>>> | files.Keys == {Requests, Responses, Traces, Errors}
    witness map[Requests := None, Responses := None, Traces := None, Errors := None]

  datatype Export = Export(log: Log, streams: map<Stream, StreamSummary>, groups: map<string, Group>)

  ghost predicate Readable(files: Files) {
    forall s :: s in files ==> Refs(s, LinesOf(files[s])).Ok?
  }

  /**
   * Reads the four streams in turn and files every reference under the request it belongs to. A missing
   * records directory is given as None.
   */
  method ExportServiceRecords(directory: Option<Files>, filter: Option<string>) returns (r: Result<Export, Error>)
    ensures r == Err(NoRecordsDirectory) <==> directory.None?
    ensures r.Ok? <==> directory.Some? && Readable(directory.value)
    ensures r.Ok? ==>
      && r.value.streams.Keys == directory.value.Keys
      && (forall s :: s in directory.value ==>
            && Refs(s, LinesOf(directory.value[s])) == Ok(r.value.log.At(s))
            && r.value.streams[s] == SummaryOf(directory.value[s], r.value.log.At(s)))
      && r.value.groups == Groups(r.value.log, filter)
  {
    hide Refs, FilingAt, Filed, Groups, FiledAt, SummaryOf, ReadInto;
    if directory.None? {
      return Err(NoRecordsDirectory);
    }
    var files := directory.value;
    var log := NO_RECORDS;
    var groups: map<string, Group> := map[];
    var streams: map<Stream, StreamSummary> := map[];
    NothingFiling(filter);
    for n := 0 to |STREAMS|
      invariant streams.Keys == set k | 0 <= k < n :: STREAMS[k]
      invariant forall k :: 0 <= k < n ==> ReadInto(files[STREAMS[k]], STREAMS[k], log, streams)
      invariant forall k :: n <= k < |STREAMS| ==> log.At(STREAMS[k]) == []
      invariant forall id :: FilingAt(log, filter, groups, id)
    {
      var stream := STREAMS[n];
      ErrorsAreLines(stream, LinesOf(files[stream]));
      var read := ReadStream(stream, files[stream]);
      if read.Err? {
        return Err(read.error);
      }
      var refs := read.value.refs;
      var before := groups;
      groups := FileRefs(before, stream, refs, filter);
      FilingSteps(log, stream, refs, filter, before, groups);
      StreamIsRead(files, log, streams, stream, read.value);
      log := log.Append(stream, refs);
      streams := streams[stream := read.value.summary];
    }
    FilingIsGroups(log, filter, groups);
    AllStreams(files, log, streams);
    return Ok(Export(log, streams, groups));
  }

  /** A stream has been read into the log and its summary noted. */
  ghost predicate ReadInto(file: Option<seq<Line>>, s: Stream, log: Log, streams: map<Stream, StreamSummary>) {
    && Refs(s, LinesOf(file)) == Ok(log.At(s))
    && s in streams && streams[s] == SummaryOf(file, log.At(s))
  }

  lemma StreamIsRead(files: Files, log: Log, streams: map<Stream, StreamSummary>, stream: Stream, read: StreamRead)
    requires log.At(stream) == [] && Refs(stream, LinesOf(files[stream])) == Ok(read.refs)
    requires read.summary == SummaryOf(files[stream], read.refs)
    ensures
      var log', streams' := log.Append(stream, read.refs), streams[stream := read.summary];
      && ReadInto(files[stream], stream, log', streams')
      && (forall s: Stream :: s != stream ==>
            && log'.At(s) == log.At(s)
            && (ReadInto(files[s], s, log, streams) ==> ReadInto(files[s], s, log', streams')))
  {
    hide Refs, SummaryOf;
    assert [] + read.refs == read.refs;
  }

  lemma AllStreams(files: Files, log: Log, streams: map<Stream, StreamSummary>)
    requires forall k :: 0 <= k < |STREAMS| ==> ReadInto(files[STREAMS[k]], STREAMS[k], log, streams)
    requires streams.Keys == set k | 0 <= k < |STREAMS| :: STREAMS[k]
    ensures streams.Keys == files.Keys && Readable(files)
    ensures forall s :: s in files ==>
      Refs(s, LinesOf(files[s])) == Ok(log.At(s)) && streams[s] == SummaryOf(files[s], log.At(s))
  {
    hide Refs, SummaryOf;
    assert STREAMS[0] == Requests && STREAMS[1] == Responses && STREAMS[2] == Traces && STREAMS[3] == Errors;
  }

  lemma ErrorsAreLines(stream: Stream, lines: seq<Line>)
    ensures Refs(stream, lines) != Err(NoRecordsDirectory)
  {
    FirstUnreadableLine(stream, lines);
  }

  lemma NothingFiling(filter: Option<string>)
    ensures forall id :: FilingAt(NO_RECORDS, filter, map[], id)
  {
  }

  lemma FilingSteps(
    log: Log, stream: Stream, refs: seq<Ref>, filter: Option<string>,
    before: map<string, Group>, after: map<string, Group>)
    requires log.At(stream) == []
    requires (forall id :: FilingAt(log, filter, before, id)) && Filed(before, stream, refs, filter, after)
    ensures forall id :: FilingAt(log.Append(stream, refs), filter, after, id)
  {
    hide FilingAt, FiledAt;
    forall id ensures FilingAt(log.Append(stream, refs), filter, after, id) {
      FilingStep(log, stream, refs, filter, before, after, id);
    }
  }

  /** Exporting one request gives that request's row of the whole export, and no other row. */
  lemma FilterKeepsOneRow(log: Log, id: string)
    ensures
      var all, one := Groups(log, None), Groups(log, Some(id));
      one == if id in all then map[id := all[id]] else map[]
  {
    hide OwnedBy, Owners;
  }

  // ----- Conservation ------------------------------------------------------------------------

  /** How many of the references belong to `id`. */
  function CountOwned(refs: seq<Ref>, id: string): (n: nat)
    ensures n == |OwnedBy(refs, id)|
  {
    if refs == [] then 0
    else CountOwned(refs[..|refs| - 1], id) + (if Owner(refs[|refs| - 1]) == id then 1 else 0)
  }

  /**
   * Every record stands in the group of its own request, behind exactly those records of that request
   * that precede it in the stream.
   */
  lemma {:induction false} RecordIsInItsGroup(refs: seq<Ref>, k: nat)
    requires k < |refs|
    ensures
      var place := CountOwned(refs[..k], Owner(refs[k]));
      place < |OwnedBy(refs, Owner(refs[k]))| && OwnedBy(refs, Owner(refs[k]))[place] == refs[k]
    decreases |refs|
  {
    var front := refs[..|refs| - 1];
    if k < |front| {
      RecordIsInItsGroup(front, k);
      assert front[..k] == refs[..k];
    }
  }

  lemma {:induction false} CountGrows(refs: seq<Ref>, id: string, i: nat, j: nat)
    requires i < j <= |refs| && Owner(refs[i]) == id
    ensures CountOwned(refs[..i], id) < CountOwned(refs[..j], id)
    decreases j
  {
    hide Owner, OwnedBy;
    assert refs[..j][..j - 1] == refs[..j - 1];
    if i < j - 1 {
      CountGrows(refs, id, i, j - 1);
    }
  }

  /** And nothing else stands there: each place of a group is the place of exactly one record. */
  lemma GroupHoldsOnlyRecords(refs: seq<Ref>, id: string, place: nat) returns (k: nat)
    requires place < |OwnedBy(refs, id)|
    ensures k < |refs| && Owner(refs[k]) == id && CountOwned(refs[..k], id) == place
    ensures forall j :: 0 <= j < |refs| && Owner(refs[j]) == id && CountOwned(refs[..j], id) == place ==> j == k
  {
    k := RecordAtPlace(refs, id, place);
    hide CountOwned, Owner, OwnedBy;
    forall j | 0 <= j < |refs| && Owner(refs[j]) == id && CountOwned(refs[..j], id) == place ensures j == k {
      if j < k {
        CountGrows(refs, id, j, k);
      } else if k < j {
        CountGrows(refs, id, k, j);
      }
    }
  }

  lemma {:induction false} RecordAtPlace(refs: seq<Ref>, id: string, place: nat) returns (k: nat)
    requires place < |OwnedBy(refs, id)|
    ensures k < |refs| && Owner(refs[k]) == id && CountOwned(refs[..k], id) == place
    decreases |refs|
  {
    var front := refs[..|refs| - 1];
    if place < |OwnedBy(front, id)| {
      k := RecordAtPlace(front, id, place);
      assert refs[..k] == front[..k];
    } else {
      k := |front|;
    }
  }
}
