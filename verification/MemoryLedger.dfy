/**
 * The memory ledger (`memory_adapter.py`): where a target's ledger lives, what `prepare` reads and
 * checks, and the rewrite of the whole ledger that has to behave like an append.
 */
module MemoryLedger {
  import opened Wrappers
  import opened Text

  datatype Reason =
    | MemoryTargetOutsideScope
    | MemoryTargetReservedSuffix
    | ContentMissingOrNotString
    | InputTooLarge
    | ProvenanceInvalid
    | LifespanInvalid
    | StoreUnreadable
    | RecordInvalid
    | AdapterCommitFailed

  // ----- Paths -------------------------------------------------------------------------------

  type Path = seq<string>

  const SUFFIX := ".jsonl"

  predicate IsDotOrEmpty(part: string) {
    part == "" || part == "." || part == ".."
  }

  predicate PlainParts(parts: seq<string>) {
    forall k :: 0 <= k < |parts| ==> !IsDotOrEmpty(parts[k])
  }

  predicate UnreservedParts(parts: seq<string>) {
    forall k :: 0 <= k < |parts| ==> !EndsWith(parts[k], SUFFIX)
  }

  function LedgerPath(root: Path, parts: seq<string>): Path
    requires parts != []
  {
    root + parts[..|parts| - 1] + [parts[|parts| - 1] + SUFFIX]
  }

  /** The ledger file of a target; `storeInside` tells whether the resolved store root is in the sandbox. */
  function MemoryStorePath(root: Path, storeInside: bool, target: string): Result<Path, Reason> {
    var text := Strip(target);
    var parts := SplitOn(text, '/');
    if text == "" || text != target || text[0] == '/' || text[|text| - 1] == '/' || !PlainParts(parts) then
      Err(MemoryTargetOutsideScope)
    else if !UnreservedParts(parts) then
      Err(MemoryTargetReservedSuffix)
    else if !storeInside then
      Err(MemoryTargetOutsideScope)
    else
      Ok(LedgerPath(root, parts))
  }

  predicate NoSlash(parts: seq<string>) {
    forall k :: 0 <= k < |parts| ==> '/' !in parts[k]
  }

  lemma {:induction false} JoinEnds(parts: seq<string>)
    requires parts != []
    ensures EndsWith(JoinWith(parts, '/'), parts[|parts| - 1])
    ensures |parts| > 1 ==> JoinWith(parts, '/') != ""
    ensures |parts| > 1 && parts[|parts| - 1] == "" ==> JoinWith(parts, '/')[|JoinWith(parts, '/')| - 1] == '/'
  {
    if |parts| > 1 {
      JoinEnds(parts[1..]);
    }
  }

  lemma JoinStarts(parts: seq<string>)
    requires parts != [] && parts[0] != ""
    ensures JoinWith(parts, '/') != "" && JoinWith(parts, '/')[0] == parts[0][0]
  {
  }

  /**
   * Where each target goes, for every text there is (every text is its parts between slashes): it must
   * have no outer white space and no part that is empty or made of dots only; then no part may end in the
   * suffix of ledger files; and then its ledger lies in directories of its own names, under the store.
   */
  lemma TargetsGoTo(root: Path, storeInside: bool, parts: seq<string>)
    requires parts != [] && NoSlash(parts)
    ensures
      var n := |parts| - 1;
      MemoryStorePath(root, storeInside, JoinWith(parts, '/'))
      == if !Trimmed(JoinWith(parts, '/')) || (exists part :: part in parts && part in {"", ".", ".."}) then
           Err(MemoryTargetOutsideScope)
         else if exists part :: part in parts && EndsWith(part, ".jsonl") then Err(MemoryTargetReservedSuffix)
         else if !storeInside then Err(MemoryTargetOutsideScope)
         else Ok(root + parts[..n] + [parts[n] + ".jsonl"])
  {
    hide JoinWith, SplitOn, Strip, EndsWith, Trimmed, UnreservedParts;
    var target := JoinWith(parts, '/');
    SplitJoin(parts, '/');
    StripTrims(target);
    SomePart(parts);
    if PlainParts(parts) {
      assert !IsDotOrEmpty(parts[0]) && !IsDotOrEmpty(parts[|parts| - 1]);
      PlainEnds(parts);
    }
  }

  lemma SomePart(parts: seq<string>)
    ensures !PlainParts(parts) <==> exists part :: part in parts && part in {"", ".", ".."}
    ensures !UnreservedParts(parts) <==> exists part :: part in parts && EndsWith(part, ".jsonl")
  {
    hide EndsWith;
    if !PlainParts(parts) {
      var k :| 0 <= k < |parts| && IsDotOrEmpty(parts[k]);
      assert parts[k] in parts;
    }
    if !UnreservedParts(parts) {
      var k :| 0 <= k < |parts| && EndsWith(parts[k], SUFFIX);
      assert parts[k] in parts;
    }
  }

  lemma PlainEnds(parts: seq<string>)
    requires parts != [] && NoSlash(parts) && parts[0] != "" && parts[|parts| - 1] != ""
    ensures
      var target := JoinWith(parts, '/');
      target != "" && target[0] != '/' && target[|target| - 1] != '/'
  {
    hide JoinWith;
    var target, last := JoinWith(parts, '/'), parts[|parts| - 1];
    JoinStarts(parts);
    JoinEnds(parts);
    assert parts[0][0] in parts[0] && last[|last| - 1] in last;
    assert target[|target| - |last|..][|last| - 1] == last[|last| - 1];
  }

  /** Two accepted targets share a ledger file only if they are the same target. */
  lemma StorePathInjective(root: Path, a: string, b: string)
    requires MemoryStorePath(root, true, a).Ok? && MemoryStorePath(root, true, b).Ok?
    ensures MemoryStorePath(root, true, a) == MemoryStorePath(root, true, b) <==> a == b
  {
    hide Strip, SplitOn, PlainParts, UnreservedParts, LedgerPath, JoinWith;
    LedgerPathInjective(root, SplitOn(a, '/'), SplitOn(b, '/'));
    JoinSplit(a, '/');
    JoinSplit(b, '/');
  }

  lemma LedgerPathInjective(root: Path, a: seq<string>, b: seq<string>)
    requires a != [] && b != []
    ensures LedgerPath(root, a) == LedgerPath(root, b) ==> a == b
  {
    if LedgerPath(root, a) == LedgerPath(root, b) {
      PartsReadBack(root, a);
      PartsReadBack(root, b);
    }
  }

  lemma PartsReadBack(root: Path, parts: seq<string>)
    requires parts != []
    ensures
      var path := LedgerPath(root, parts);
      && |path| == |root| + |parts|
      && parts == path[|root|..|path| - 1] + [path[|path| - 1][..|path[|path| - 1]| - |SUFFIX|]]
  {
    var path := LedgerPath(root, parts);
    assert path[|root|..|path| - 1] == parts[..|parts| - 1];
    assert path[|path| - 1] == parts[|parts| - 1] + SUFFIX;
    assert path[|path| - 1][..|path[|path| - 1]| - |SUFFIX|] == parts[|parts| - 1];
  }

  /**
   * No accepted target's ledger file is a directory on the way to another's; each lies strictly under
   * the store root, by components that cannot lead out of it.
   */
  lemma NoLedgerUnderAnother(root: Path, a: string, b: string)
    requires MemoryStorePath(root, true, a).Ok? && MemoryStorePath(root, true, b).Ok?
    ensures
      var x, y := MemoryStorePath(root, true, a).value, MemoryStorePath(root, true, b).value;
      && root < x
      && !(x < y)
      && forall k :: |root| <= k < |x| ==> !IsDotOrEmpty(x[k])
  {
    hide Strip, SplitOn, LedgerPath;
    LedgersBesideEachOther(root, SplitOn(a, '/'), SplitOn(b, '/'));
  }

  lemma LedgersBesideEachOther(root: Path, a: seq<string>, b: seq<string>)
    requires a != [] && b != [] && PlainParts(a) && UnreservedParts(b)
    ensures
      var x, y := LedgerPath(root, a), LedgerPath(root, b);
      && root < x
      && !(x < y)
      && forall k :: |root| <= k < |x| ==> !IsDotOrEmpty(x[k])
  {
    var x, y := LedgerPath(root, a), LedgerPath(root, b);
    assert x[|x| - 1] == a[|a| - 1] + SUFFIX;
    assert EndsWith(x[|x| - 1], SUFFIX);
    assert forall k :: |root| <= k < |x| - 1 ==> x[k] == a[k - |root|];
    assert forall k :: |root| <= k < |y| - 1 ==> y[k] == b[k - |root|];
  }

  // ----- Records -----------------------------------------------------------------------------

  datatype Record = Record(
    recordId: string,
    version: int,
    target: string,
    content: string,
    lifespan: string,
    provenance: seq<string>,
    actor: string,
    proposalId: string,
    intentId: string,
    traceId: string,
    inputSha256: Digest,
    committedAt: string)

  /** SHA-256 of a text, as the text it was taken of. */
  datatype Digest = Sha256(of: string)

  const LIFESPANS := {"session", "project", "durable"}

  /** `validate_memory_record` for a record of the right shape. */
  predicate ValidRecord(r: Record, target: string, version: int) {
    && r.recordId != "" && r.target != "" && r.lifespan != "" && r.actor != ""
    && r.proposalId != "" && r.intentId != "" && r.traceId != "" && r.committedAt != ""
    && r.target == target
    && r.version >= 1
    && r.version == version
    && r.inputSha256 == Sha256(r.content)
    && NonEmptyStrings(r.provenance)
    && r.lifespan in LIFESPANS
  }

  predicate NonEmptyStrings(items: seq<string>) {
    forall k :: 0 <= k < |items| ==> items[k] != ""
  }

  /**
   * A line of a ledger: blank, not JSON, JSON of the wrong shape, or a record. `canonical` tells whether
   * the text is the one that `json.dumps` with sorted keys would write for it.
   */
  datatype Line = BlankLine | NotJson | Misshapen | RecordLine(record: Record, canonical: bool)

  type Ledger = seq<Line>

  function Canonical(records: seq<Record>): (lines: Ledger)
    ensures |lines| == |records|
    ensures forall k :: 0 <= k < |records| ==> lines[k] == RecordLine(records[k], true)
  {
    seq(|records|, k requires 0 <= k < |records| => RecordLine(records[k], true))
  }

  /** The records of a ledger whose non-blank lines are valid for `target` with versions from `first` on. */
  function Validated(lines: Ledger, target: string, first: int): Option<seq<Record>> {
    if lines == [] then Some([])
    else if lines[0].BlankLine? then Validated(lines[1..], target, first)
    else if !lines[0].RecordLine? || !ValidRecord(lines[0].record, target, first) then None
    else
      match Validated(lines[1..], target, first + 1)
      case None => None
      case Some(rest) => Some([lines[0].record] + rest)
  }

  ghost predicate DenseVersions(records: seq<Record>, target: string, first: int) {
    forall k :: 0 <= k < |records| ==> ValidRecord(records[k], target, first + k)
  }

  lemma {:induction false} ValidatedIsDense(lines: Ledger, target: string, first: int)
    ensures
      var records := Validated(lines, target, first);
      records.Some? ==> DenseVersions(records.value, target, first)
  {
    if lines != [] {
      if lines[0].BlankLine? {
        ValidatedIsDense(lines[1..], target, first);
      } else {
        ValidatedIsDense(lines[1..], target, first + 1);
      }
    }
  }

  /** A record as it must stand in the ledger of `target`, field by field. */
  predicate Sound(r: Record, target: string, version: int) {
    && "" !in {r.recordId, r.actor, r.proposalId, r.intentId, r.traceId, r.committedAt}
    && r.target == target && target != ""
    && r.version == version && version >= 1
    && r.inputSha256.of == r.content
    && "" !in r.provenance
    && (r.lifespan == "session" || r.lifespan == "project" || r.lifespan == "durable")
  }

  lemma SoundIsValid(r: Record, target: string, version: int)
    ensures ValidRecord(r, target, version) <==> Sound(r, target, version)
  {
    if "" in r.provenance {
      var k :| 0 <= k < |r.provenance| && r.provenance[k] == "";
    }
  }

  function CountNonBlank(lines: Ledger): nat {
    if lines == [] then 0 else (if lines[0].BlankLine? then 0 else 1) + CountNonBlank(lines[1..])
  }

  /** Line `k` is blank, or a sound record whose version is its number among the lines that are not blank. */
  predicate LineFits(lines: Ledger, target: string, first: int, k: nat)
    requires k < |lines|
  {
    match lines[k]
    case BlankLine => true
    case RecordLine(r, _) => Sound(r, target, first + CountNonBlank(lines[..k]))
    case _ => false
  }

  /** A ledger is accepted exactly if every line of it fits; one line that does not spoils it all. */
  lemma {:induction false} AcceptedIff(lines: Ledger, target: string, first: int)
    ensures Validated(lines, target, first).Some? <==>
      forall k :: 0 <= k < |lines| ==> LineFits(lines, target, first, k)
  {
    hide Sound, ValidRecord;
    if lines != [] {
      var second := if lines[0].BlankLine? then first else first + 1;
      AcceptedIff(lines[1..], target, second);
      if lines[0].RecordLine? {
        SoundIsValid(lines[0].record, target, first);
      }
      assert lines[0].BlankLine? ==> LineFits(lines, target, first, 0);
      assert lines[0].RecordLine? ==> (LineFits(lines, target, first, 0) <==> Sound(lines[0].record, target, first));
      if lines[0].BlankLine? || lines[0].RecordLine? {
        TailFits(lines, target, first);
      } else {
        assert !LineFits(lines, target, first, 0);
      }
    }
  }

  lemma TailFits(lines: Ledger, target: string, first: int)
    requires lines != [] && (lines[0].BlankLine? || lines[0].RecordLine?)
    ensures
      var second := if lines[0].BlankLine? then first else first + 1;
      (forall k :: 0 <= k < |lines| - 1 ==> LineFits(lines[1..], target, second, k))
      <==> (forall k :: 1 <= k < |lines| ==> LineFits(lines, target, first, k))
  {
    hide LineFits;
    var second := if lines[0].BlankLine? then first else first + 1;
    forall k | 1 <= k < |lines|
      ensures LineFits(lines[1..], target, second, k - 1) <==> LineFits(lines, target, first, k)
    {
      LineFitsFurther(lines, target, first, k);
    }
    if forall k :: 1 <= k < |lines| ==> LineFits(lines, target, first, k) {
      forall k | 0 <= k < |lines| - 1 ensures LineFits(lines[1..], target, second, k) {
        assert LineFits(lines, target, first, k + 1);
      }
    }
  }

  lemma LineFitsFurther(lines: Ledger, target: string, first: int, k: nat)
    requires 1 <= k < |lines| && (lines[0].BlankLine? || lines[0].RecordLine?)
    ensures
      var second := if lines[0].BlankLine? then first else first + 1;
      LineFits(lines[1..], target, second, k - 1) <==> LineFits(lines, target, first, k)
  {
    hide Sound;
    assert lines[..k][1..] == lines[1..][..k - 1];
  }

  lemma {:induction false} CanonicalValidates(records: seq<Record>, target: string, first: int)
    requires DenseVersions(records, target, first)
    ensures Validated(Canonical(records), target, first) == Some(records)
  {
    if records == [] {
      assert Canonical(records) == [];
    } else {
      assert forall k :: 0 <= k < |records| - 1 ==> records[1..][k] == records[k + 1];
      assert DenseVersions(records[1..], target, first + 1) by {
        forall k | 0 <= k < |records| - 1 ensures ValidRecord(records[1..][k], target, first + 1 + k) {
          assert ValidRecord(records[k + 1], target, first + (k + 1));
        }
      }
      CanonicalValidates(records[1..], target, first + 1);
      assert Canonical(records)[1..] == Canonical(records[1..]);
      assert ValidRecord(records[0], target, first + 0);
      assert [records[0]] + records[1..] == records;
    }
  }

  // ----- Tampering ---------------------------------------------------------------------------

  /** A record of an accepted ledger whose content is changed afterwards makes the ledger unreadable. */
  lemma {:induction false} ChangedContentIsNoticed(
    lines: Ledger, target: string, first: int, k: nat, content: string, canonical: bool)
    requires Validated(lines, target, first).Some?
    requires k < |lines| && lines[k].RecordLine? && lines[k].record.content != content
    ensures Validated(lines[k := RecordLine(lines[k].record.(content := content), canonical)], target, first).None?
  {
    var changed := lines[k := RecordLine(lines[k].record.(content := content), canonical)];
    if k > 0 {
      assert changed[1..] == lines[1..][k - 1 := changed[k]];
      var second := if lines[0].BlankLine? then first else first + 1;
      ChangedContentIsNoticed(lines[1..], target, second, k - 1, content, canonical);
    }
  }

  ghost predicate HasRecord(lines: Ledger) {
    exists k :: 0 <= k < |lines| && lines[k].RecordLine?
  }

  /** The same lines are not accepted with versions that start elsewhere, unless they hold no record. */
  lemma {:induction false} VersionsStartOnce(lines: Ledger, target: string, a: int, b: int)
    requires a != b && Validated(lines, target, a).Some?
    ensures Validated(lines, target, b).None? <==> HasRecord(lines)
  {
    if lines != [] && lines[0].BlankLine? {
      VersionsStartOnce(lines[1..], target, a, b);
      RecordBehindBlank(lines);
    } else if lines != [] {
      assert lines[0].RecordLine?;
    }
  }

  lemma RecordBehindBlank(lines: Ledger)
    requires lines != [] && lines[0].BlankLine?
    ensures HasRecord(lines) <==> HasRecord(lines[1..])
  {
    if HasRecord(lines) {
      var k :| 0 <= k < |lines| && lines[k].RecordLine?;
      assert lines[1..][k - 1].RecordLine?;
    }
    if HasRecord(lines[1..]) {
      var k :| 0 <= k < |lines[1..]| && lines[1..][k].RecordLine?;
      assert lines[k + 1].RecordLine?;
    }
  }

  /** A record that is taken out of an accepted ledger is missed exactly if another record follows it. */
  lemma {:induction false} DroppedRecordIsNoticedIff(lines: Ledger, target: string, first: int, k: nat)
    requires Validated(lines, target, first).Some? && k < |lines| && lines[k].RecordLine?
    ensures Validated(lines[..k] + lines[k + 1..], target, first).None? <==> HasRecord(lines[k + 1..])
  {
    var without := lines[..k] + lines[k + 1..];
    if k == 0 {
      assert without == lines[1..];
      VersionsStartOnce(lines[1..], target, first + 1, first);
    } else {
      var rest := lines[1..];
      assert without[1..] == rest[..k - 1] + rest[k..] && rest[k..] == lines[k + 1..];
      DroppedRecordIsNoticedIff(rest, target, if lines[0].BlankLine? then first else first + 1, k - 1);
    }
  }

  // ----- Read-back ---------------------------------------------------------------------------

  /** The first record with the given id and version. */
  function FirstMatch(records: seq<Record>, id: string, version: int): Option<Record> {
    if records == [] then None
    else if records[0].recordId == id && records[0].version == version then Some(records[0])
    else FirstMatch(records[1..], id, version)
  }

  lemma {:induction false} MatchIsAtItsVersion(
    records: seq<Record>, target: string, first: int, id: string, version: int)
    requires DenseVersions(records, target, first)
    ensures
      var m := FirstMatch(records, id, version);
      var at := version - first;
      && (m.Some? ==> 0 <= at < |records| && records[at] == m.value)
      && (0 <= at < |records| && records[at].recordId == id ==> m.Some?)
  {
    if records != [] {
      assert ValidRecord(records[0], target, first + 0);
      assert DenseVersions(records[1..], target, first + 1) by {
        forall k | 0 <= k < |records| - 1 ensures ValidRecord(records[1..][k], target, first + 1 + k) {
          assert ValidRecord(records[k + 1], target, first + (k + 1));
        }
      }
      MatchIsAtItsVersion(records[1..], target, first + 1, id, version);
    }
  }

  /** What the read-back before the replace insists on. */
  predicate ReadBackAccepts(lines: Ledger, mine: Record) {
    match Validated(lines, mine.target, 1)
    case None => false
    case Some(records) => FirstMatch(records, mine.recordId, mine.version) == Some(mine)
  }

  /**
   * Whatever the disk gave back: if the read-back is accepted, the ledger is one that the next prepare
   * accepts, and our record stands in it at the place its version says.
   */
  lemma AcceptedReadBack(lines: Ledger, mine: Record)
    requires ReadBackAccepts(lines, mine)
    ensures
      var records := Validated(lines, mine.target, 1);
      && records.Some?
      && 1 <= mine.version <= |records.value|
      && records.value[mine.version - 1] == mine
      && DenseVersions(records.value, mine.target, 1)
  {
    ValidatedIsDense(lines, mine.target, 1);
    MatchIsAtItsVersion(Validated(lines, mine.target, 1).value, mine.target, 1, mine.recordId, mine.version);
  }

  /** An undamaged disk always gets its read-back accepted. */
  lemma HonestReadBack(existing: seq<Record>, mine: Record)
    requires DenseVersions(existing, mine.target, 1)
    requires ValidRecord(mine, mine.target, |existing| + 1)
    ensures Validated(Canonical(existing + [mine]), mine.target, 1) == Some(existing + [mine])
    ensures ReadBackAccepts(Canonical(existing + [mine]), mine)
  {
    var all := existing + [mine];
    assert DenseVersions(all, mine.target, 1) by {
      forall k | 0 <= k < |all| ensures ValidRecord(all[k], mine.target, 1 + k) {
        if k < |existing| {
          assert all[k] == existing[k];
        }
      }
    }
    CanonicalValidates(all, mine.target, 1);
    MatchIsAtItsVersion(all, mine.target, 1, mine.recordId, mine.version);
  }

  // ----- Prepare and commit ------------------------------------------------------------------

  /** An optional field of an untyped input: absent, of the wrong type, or given. */
  datatype Field<T> = Absent | WrongType | Given(value: T)

  datatype Request = Request(
    target: string,
    content: Field<string>,
    contentBytes: int,
    provenance: Field<seq<string>>,
    lifespan: Field<string>,
    actor: string,
    proposalId: string,
    evidence: seq<string>,
    intentId: string,
    traceId: string)

  /**
   * What the surroundings contribute to one write: identifiers, the encoded size of the record, whether
   * the ledger can be read, and what the temporary file reads back as (nothing if I/O fails; None inside
   * stands for the bytes that were written).
   */
  datatype Surroundings = Surroundings(
    recordId: string,
    stamp: string,
    recordBytes: int,
    readFails: bool,
    writeFails: bool,
    damaged: Option<Ledger>)

  datatype Prepared = Prepared(path: Path, existing: seq<Record>, record: Record)

  datatype Config = Config(root: Path, storeInside: bool, maxBytes: int)

  type Files = map<Path, Ledger>

  function LedgerAt(files: Files, path: Path): Ledger {
    if path in files then files[path] else []
  }

  function ProvenanceOf(q: Request): Option<seq<string>> {
    match q.provenance
    case Absent => if NonEmptyStrings(q.evidence) then Some(q.evidence) else None
    case WrongType => None
    case Given(items) => if NonEmptyStrings(items) then Some(items) else None
  }

  function LifespanOf(q: Request): Option<string> {
    match q.lifespan
    case Absent => Some("session")
    case WrongType => None
    case Given(l) => if l in LIFESPANS then Some(l) else None
  }

  function NewRecord(
    q: Request, s: Surroundings, content: string, provenance: seq<string>, lifespan: string, version: int): Record
  {
    Record(s.recordId, version, q.target, content, lifespan, provenance, q.actor, q.proposalId, q.intentId, q.traceId,
           Sha256(content), s.stamp)
  }

  function PrepareFrom(cfg: Config, files: Files, q: Request, s: Surroundings): Result<Prepared, Reason> {
    var path := MemoryStorePath(cfg.root, cfg.storeInside, q.target);
    if path.Err? then Err(path.error)
    else if !q.content.Given? then Err(ContentMissingOrNotString)
    else if q.contentBytes > cfg.maxBytes then Err(InputTooLarge)
    else if ProvenanceOf(q).None? then Err(ProvenanceInvalid)
    else if LifespanOf(q).None? then Err(LifespanInvalid)
    else if s.readFails then Err(StoreUnreadable)
    else
      var existing := Validated(LedgerAt(files, path.value), q.target, 1);
      if existing.None? then Err(StoreUnreadable)
      else
        var version := |existing.value| + 1;
        var record := NewRecord(q, s, q.content.value, ProvenanceOf(q).value, LifespanOf(q).value, version);
        if !ValidRecord(record, q.target, version) then Err(RecordInvalid)
        else if s.recordBytes > cfg.maxBytes then Err(InputTooLarge)
        else Ok(Prepared(path.value, existing.value, record))
  }

  /** The bytes that get renamed over the ledger, if the rewrite goes through. */
  function Rewritten(p: Prepared, s: Surroundings): Option<Ledger> {
    var readback := if s.damaged.Some? then s.damaged.value else Canonical(p.existing + [p.record]);
    if s.writeFails || !ReadBackAccepts(readback, p.record) then None else Some(readback)
  }

  function CommitTo(files: Files, p: Prepared, s: Surroundings): Files {
    if Rewritten(p, s).Some? then files[p.path := Rewritten(p, s).value] else files
  }

  class MemoryStore {
    const cfg: Config
    var files: Files

    constructor (cfg: Config)
      ensures this.cfg == cfg && files == map[]
    {
      this.cfg := cfg;
      files := map[];
    }

    /** Reads the ledger line by line; stays a dry run. */
    method Prepare(q: Request, s: Surroundings) returns (r: Result<Prepared, Reason>)
      ensures r == PrepareFrom(cfg, files, q, s)
    {
      hide MemoryStorePath, Validated, ValidRecord, ProvenanceOf, LifespanOf, NewRecord, LedgerAt;
      var path := MemoryStorePath(cfg.root, cfg.storeInside, q.target);
      if path.Err? {
        return Err(path.error);
      }
      if !q.content.Given? {
        return Err(ContentMissingOrNotString);
      }
      if q.contentBytes > cfg.maxBytes {
        return Err(InputTooLarge);
      }
      var provenance, lifespan := ProvenanceOf(q), LifespanOf(q);
      if provenance.None? {
        return Err(ProvenanceInvalid);
      }
      if lifespan.None? {
        return Err(LifespanInvalid);
      }
      if s.readFails {
        return Err(StoreUnreadable);
      }
      var existing := ReadRecords(LedgerAt(files, path.value), q.target);
      if existing.None? {
        return Err(StoreUnreadable);
      }
      var version := |existing.value| + 1;
      var record := NewRecord(q, s, q.content.value, provenance.value, lifespan.value, version);
      if !ValidRecord(record, q.target, version) {
        return Err(RecordInvalid);
      }
      if s.recordBytes > cfg.maxBytes {
        return Err(InputTooLarge);
      }
      return Ok(Prepared(path.value, existing.value, record));
    }

    /** Rewrites the whole ledger: what was read, then the new record. */
    method Commit(p: Prepared, s: Surroundings) returns (committed: bool)
      modifies this
      ensures committed <==> Rewritten(p, s).Some?
      ensures files == CommitTo(old(files), p, s)
    {
      var candidate := Canonical(p.existing + [p.record]);
      if s.writeFails {
        return false;
      }
      var readback := if s.damaged.Some? then s.damaged.value else candidate;
      var records := ReadRecords(readback, p.record.target);
      if records.None? {
        return false;
      }
      if FirstMatch(records.value, p.record.recordId, p.record.version) != Some(p.record) {
        return false;
      }
      files := files[p.path := readback];
      return true;
    }
  }

  /** Validates the non-blank lines one by one, counting versions. */
  method ReadRecords(lines: Ledger, target: string) returns (r: Option<seq<Record>>)
    ensures r == Validated(lines, target, 1)
  {
    hide ValidRecord;
    var records: seq<Record> := [];
    var number := 0;
    assert lines[0..] == lines;
    PrefixedByNothing(Validated(lines, target, 1));
    for n := 0 to |lines|
      invariant number == |records|
      invariant Validated(lines, target, 1) == Prefixed(records, Validated(lines[n..], target, 1 + number))
    {
      assert lines[n..][1..] == lines[n + 1..];
      if !lines[n].BlankLine? {
        number := number + 1;
        if !lines[n].RecordLine? || !ValidRecord(lines[n].record, target, number) {
          return None;
        }
        PrefixedByOneMore(records, lines[n].record, Validated(lines[n + 1..], target, 1 + number));
        records := records + [lines[n].record];
      }
    }
    assert records + [] == records;
    return Some(records);
  }

  lemma PrefixedByNothing(rest: Option<seq<Record>>)
    ensures Prefixed([], rest) == rest
  {
    if rest.Some? {
      assert [] + rest.value == rest.value;
    }
  }

  lemma PrefixedByOneMore(front: seq<Record>, r: Record, rest: Option<seq<Record>>)
    ensures Prefixed(front + [r], rest) == Prefixed(front, Prefixed([r], rest))
  {
    if rest.Some? {
      assert front + [r] + rest.value == front + ([r] + rest.value);
    }
  }

  function Prefixed(front: seq<Record>, rest: Option<seq<Record>>): Option<seq<Record>> {
    match rest
    case None => None
    case Some(records) => Some(front + records)
  }

  // ----- Runs --------------------------------------------------------------------------------

  datatype Write = Write(request: Request, surroundings: Surroundings)

  /** Nothing was damaged; I/O may still fail. */
  predicate Undamaged(w: Write) {
    w.surroundings.damaged.None?
  }

  function FilesAfter(cfg: Config, writes: seq<Write>): Files {
    if writes == [] then map[]
    else
      var files := FilesAfter(cfg, writes[..|writes| - 1]);
      var w := writes[|writes| - 1];
      var p := PrepareFrom(cfg, files, w.request, w.surroundings);
      if p.Ok? then CommitTo(files, p.value, w.surroundings) else files
  }

  /** The records that a run committed for one target, in order. */
  function CommittedTo(cfg: Config, writes: seq<Write>, target: string): seq<Record> {
    if writes == [] then []
    else
      var files := FilesAfter(cfg, writes[..|writes| - 1]);
      var w := writes[|writes| - 1];
      var p := PrepareFrom(cfg, files, w.request, w.surroundings);
      var goesThrough := p.Ok? && Rewritten(p.value, w.surroundings).Some?;
      CommittedTo(cfg, writes[..|writes| - 1], target)
      + (if goesThrough && w.request.target == target then [p.value.record] else [])
  }

  /** A record holds what was asked to be remembered, with the defaults for what was not said. */
  predicate Remembers(r: Record, q: Request, s: Surroundings) {
    && q.content == Given(r.content)
    && r.inputSha256 == Sha256(r.content)
    && (r.target, r.actor, r.proposalId, r.intentId, r.traceId)
      == (q.target, q.actor, q.proposalId, q.intentId, q.traceId)
    && (r.recordId, r.committedAt) == (s.recordId, s.stamp)
    && r.provenance == (if q.provenance.Given? then q.provenance.value else q.evidence)
    && r.lifespan == (if q.lifespan.Given? then q.lifespan.value else "session")
  }

  /** One undamaged write is an append to its own ledger, or nothing. */
  lemma WriteAppends(cfg: Config, files: Files, w: Write, records: seq<Record>)
    requires Undamaged(w)
    requires
      var path := MemoryStorePath(cfg.root, cfg.storeInside, w.request.target);
      path.Ok? ==> LedgerAt(files, path.value) == Canonical(records) && DenseVersions(records, w.request.target, 1)
    ensures
      var p := PrepareFrom(cfg, files, w.request, w.surroundings);
      && (p.Ok? ==>
            && p.value.existing == records
            && DenseVersions(records + [p.value.record], w.request.target, 1)
            && Remembers(p.value.record, w.request, w.surroundings)
            && MemoryStorePath(cfg.root, cfg.storeInside, w.request.target) == Ok(p.value.path)
            && (Rewritten(p.value, w.surroundings).Some? <==> !w.surroundings.writeFails)
            && (!w.surroundings.writeFails ==>
                  Rewritten(p.value, w.surroundings).value == Canonical(records + [p.value.record])))
      && (!w.surroundings.readFails ==> p != Err(StoreUnreadable))
  {
    var p := PrepareFrom(cfg, files, w.request, w.surroundings);
    if MemoryStorePath(cfg.root, cfg.storeInside, w.request.target).Ok? {
      CanonicalValidates(records, w.request.target, 1);
      if p.Ok? {
        HonestReadBack(records, p.value.record);
        ValidatedIsDense(Canonical(records + [p.value.record]), w.request.target, 1);
      }
    }
  }

  /** The two halves of one step of a run: its files and its committed records. */
  lemma RunStep(cfg: Config, writes: seq<Write>, target: string, records: seq<Record>) returns (added: Option<Record>)
    requires writes != [] && Undamaged(writes[|writes| - 1])
    requires
      var w := writes[|writes| - 1];
      var path := MemoryStorePath(cfg.root, cfg.storeInside, w.request.target);
      path.Ok? ==>
        && LedgerAt(FilesAfter(cfg, writes[..|writes| - 1]), path.value) == Canonical(records)
        && DenseVersions(records, w.request.target, 1)
    ensures
      var front, w := writes[..|writes| - 1], writes[|writes| - 1];
      var was, now := FilesAfter(cfg, front), FilesAfter(cfg, writes);
      var committed, before := CommittedTo(cfg, writes, target), CommittedTo(cfg, front, target);
      var path := MemoryStorePath(cfg.root, cfg.storeInside, w.request.target);
      match added
      case None => now == was && committed == before
      case Some(r) =>
        && path.Ok?
        && DenseVersions(records + [r], w.request.target, 1)
        && Remembers(r, w.request, w.surroundings)
        && now == was[path.value := Canonical(records + [r])]
        && committed == before + (if w.request.target == target then [r] else [])
  {
    hide MemoryStorePath, Canonical, DenseVersions, Remembers, LedgerAt, PrepareFrom, Rewritten;
    var w := writes[|writes| - 1];
    var files := FilesAfter(cfg, writes[..|writes| - 1]);
    WriteAppends(cfg, files, w, records);
    var p := PrepareFrom(cfg, files, w.request, w.surroundings);
    added := if p.Ok? && Rewritten(p.value, w.surroundings).Some? then Some(p.value.record) else None;
  }

  /** A target's ledger is exactly the records committed to it, in order, valid, with versions 1, 2, ... */
  ghost predicate HoldsItsCommits(cfg: Config, writes: seq<Write>, target: string) {
    var path := MemoryStorePath(cfg.root, cfg.storeInside, target);
    path.Ok? ==>
      && LedgerAt(FilesAfter(cfg, writes), path.value) == Canonical(CommittedTo(cfg, writes, target))
      && DenseVersions(CommittedTo(cfg, writes, target), target, 1)
  }

  /** After every serial run of undamaged writes from an empty store, every ledger holds its commits. */
  lemma {:induction false} LedgersAreAppends(cfg: Config, writes: seq<Write>, target: string)
    requires forall k :: 0 <= k < |writes| ==> Undamaged(writes[k])
    ensures HoldsItsCommits(cfg, writes, target)
  {
    if writes == [] {
      NothingCommitted(cfg, target);
    } else {
      hide *;
      LedgersAreAppends(cfg, writes[..|writes| - 1], target);
      LedgersAreAppends(cfg, writes[..|writes| - 1], writes[|writes| - 1].request.target);
      OneMoreWrite(cfg, writes, target);
    }
  }

  lemma OneMoreWrite(cfg: Config, writes: seq<Write>, target: string)
    requires writes != [] && Undamaged(writes[|writes| - 1])
    requires HoldsItsCommits(cfg, writes[..|writes| - 1], target)
    requires HoldsItsCommits(cfg, writes[..|writes| - 1], writes[|writes| - 1].request.target)
    ensures HoldsItsCommits(cfg, writes, target)
  {
    hide MemoryStorePath, Canonical, DenseVersions, Undamaged, Remembers, FilesAfter, CommittedTo, LedgerAt;
    var front, w := writes[..|writes| - 1], writes[|writes| - 1];
    var mine := CommittedTo(cfg, front, w.request.target);
    var added := RunStep(cfg, writes, target, mine);
    TargetsApart(cfg, w.request.target, target);
    var to := MemoryStorePath(cfg.root, cfg.storeInside, target);
    if added.Some? && to.Ok? {
      var from := MemoryStorePath(cfg.root, cfg.storeInside, w.request.target);
      LedgerAtUpdate(FilesAfter(cfg, front), from.value, Canonical(mine + [added.value]), to.value);
      assert w.request.target != target ==> CommittedTo(cfg, front, target) + [] == CommittedTo(cfg, front, target);
    }
  }

  lemma NothingCommitted(cfg: Config, target: string)
    ensures HoldsItsCommits(cfg, [], target)
  {
    hide MemoryStorePath;
    assert Canonical([]) == [];
  }

  /** Replacing one ledger is seen at its own path and at no other. */
  lemma LedgerAtUpdate(files: Files, path: Path, lines: Ledger, other: Path)
    ensures LedgerAt(files[path := lines], other) == if other == path then lines else LedgerAt(files, other)
  {
  }

  lemma TargetsApart(cfg: Config, a: string, b: string)
    ensures
      var x, y := MemoryStorePath(cfg.root, cfg.storeInside, a), MemoryStorePath(cfg.root, cfg.storeInside, b);
      x.Ok? && y.Ok? && x == y ==> a == b
  {
    hide Strip, SplitOn, PlainParts, UnreservedParts, LedgerPath;
    if MemoryStorePath(cfg.root, cfg.storeInside, a).Ok? && MemoryStorePath(cfg.root, cfg.storeInside, b).Ok? {
      StorePathInjective(cfg.root, a, b);
    }
  }

  /** Whether a request can be remembered at all, whatever the ledgers hold; by default, for the session. */
  predicate Acceptable(cfg: Config, q: Request, s: Surroundings) {
    && MemoryStorePath(cfg.root, cfg.storeInside, q.target).Ok?
    && q.content.Given? && q.contentBytes <= cfg.maxBytes
    && HasProvenance(q)
    && (q.lifespan == Absent || q.lifespan == Given("session") || q.lifespan == Given("project")
        || q.lifespan == Given("durable"))
    && "" !in [q.actor, q.proposalId, q.intentId, q.traceId, s.recordId, s.stamp]
    && s.recordBytes <= cfg.maxBytes
  }

  /** Sources without empty names are given; or none are, and the proposal's evidence serves. */
  predicate HasProvenance(q: Request) {
    match q.provenance
    case Given(items) => "" !in items
    case Absent => "" !in q.evidence
    case WrongType => false
  }

  lemma FieldsAreAccepted(q: Request)
    ensures ProvenanceOf(q).Some? <==> HasProvenance(q)
    ensures LifespanOf(q).Some? <==>
      q.lifespan == Absent || q.lifespan == Given("session") || q.lifespan == Given("project")
      || q.lifespan == Given("durable")
  {
    NoEmptyItem(q.evidence);
    if q.provenance.Given? {
      NoEmptyItem(q.provenance.value);
    }
  }

  lemma NoEmptyItem(items: seq<string>)
    ensures NonEmptyStrings(items) <==> "" !in items
  {
    if "" in items {
      var k :| 0 <= k < |items| && items[k] == "";
    }
  }

  /** Each refusal of `prepare`: the request is looked at first, then the ledger, then the new record. */
  lemma PrepareRefuses(cfg: Config, files: Files, q: Request, s: Surroundings)
    ensures
      var r := PrepareFrom(cfg, files, q, s);
      var path := MemoryStorePath(cfg.root, cfg.storeInside, q.target);
      var small := path.Ok? && q.content.Given? && q.contentBytes <= cfg.maxBytes;
      var asked := small && HasProvenance(q) && (q.lifespan == Absent || q.lifespan in
        {Given("session"), Given("project"), Given("durable")});
      var read := asked && !s.readFails && Validated(LedgerAt(files, path.value), q.target, 1).Some?;
      var named := "" !in [q.actor, q.proposalId, q.intentId, q.traceId, s.recordId, s.stamp];
      && (path.Err? ==> r == Err(path.error))
      && (r == Err(ContentMissingOrNotString) <==> path.Ok? && !q.content.Given?)
      && (r == Err(ProvenanceInvalid) <==> small && !HasProvenance(q))
      && (r == Err(LifespanInvalid) <==> small && HasProvenance(q) && !asked)
      && (r == Err(StoreUnreadable) <==> asked && !read)
      && (r == Err(RecordInvalid) <==> read && !named)
      && (r == Err(InputTooLarge) <==>
            || (path.Ok? && q.content.Given? && q.contentBytes > cfg.maxBytes)
            || (read && named && s.recordBytes > cfg.maxBytes))
      && (r.Ok? <==> read && named && s.recordBytes <= cfg.maxBytes)
  {
    hide MemoryStorePath, LedgerAt, ProvenanceOf, LifespanOf, ValidRecord, HasProvenance, NewRecord;
    FieldsAreAccepted(q);
    PathErrors(cfg, q.target);
    if MemoryStorePath(cfg.root, cfg.storeInside, q.target).Ok? && q.content.Given? && ProvenanceOf(q).Some?
      && LifespanOf(q).Some? {
      var path := MemoryStorePath(cfg.root, cfg.storeInside, q.target).value;
      var existing := Validated(LedgerAt(files, path), q.target, 1);
      NewRecordIsValid(q, s, if existing.Some? then |existing.value| + 1 else 1);
    }
  }

  lemma PathErrors(cfg: Config, target: string)
    ensures
      var path := MemoryStorePath(cfg.root, cfg.storeInside, target);
      if path.Ok? then target != "" else path.error in {MemoryTargetOutsideScope, MemoryTargetReservedSuffix}
  {
    hide Strip, SplitOn, PlainParts, UnreservedParts, LedgerPath;
  }

  /**
   * After any such run the next prepare always accepts the ledger: unless reading itself fails, it
   * succeeds exactly for the requests that are acceptable in themselves.
   */
  lemma LedgersStayReadable(cfg: Config, writes: seq<Write>, q: Request, s: Surroundings)
    requires forall k :: 0 <= k < |writes| ==> Undamaged(writes[k])
    requires !s.readFails
    ensures PrepareFrom(cfg, FilesAfter(cfg, writes), q, s).Ok? <==> Acceptable(cfg, q, s)
  {
    hide MemoryStorePath, Canonical, DenseVersions, Undamaged, LedgerAt, FilesAfter, CommittedTo, ProvenanceOf,
      LifespanOf, ValidRecord, HasProvenance;
    LedgersAreAppends(cfg, writes, q.target);
    if MemoryStorePath(cfg.root, cfg.storeInside, q.target).Ok? {
      var records := CommittedTo(cfg, writes, q.target);
      CanonicalValidates(records, q.target, 1);
      PathErrors(cfg, q.target);
      FieldsAreAccepted(q);
      if q.content.Given? && ProvenanceOf(q).Some? && LifespanOf(q).Some? {
        NewRecordIsValid(q, s, |records| + 1);
      }
    }
  }

  lemma NewRecordIsValid(q: Request, s: Surroundings, version: nat)
    requires q.content.Given? && ProvenanceOf(q).Some? && LifespanOf(q).Some? && q.target != "" && version >= 1
    ensures
      var r := NewRecord(q, s, q.content.value, ProvenanceOf(q).value, LifespanOf(q).value, version);
      ValidRecord(r, q.target, version) <==> "" !in [q.actor, q.proposalId, q.intentId, q.traceId, s.recordId, s.stamp]
  {
    var ids := [q.actor, q.proposalId, q.intentId, q.traceId, s.recordId, s.stamp];
    assert "" in ids <==> ids[0] == "" || ids[1] == "" || ids[2] == "" || ids[3] == "" || ids[4] == "" || ids[5] == "";
  }

  ghost predicate AllCanonical(lines: Ledger) {
    forall k :: 0 <= k < |lines| ==> lines[k].RecordLine? && lines[k].canonical
  }

  lemma {:induction false} CanonicalAsRead(lines: Ledger, target: string, first: int)
    requires AllCanonical(lines) && Validated(lines, target, first).Some?
    ensures lines == Canonical(Validated(lines, target, first).value)
  {
    if lines != [] {
      assert lines[0].RecordLine? && lines[0].canonical;
      CanonicalAsRead(lines[1..], target, first + 1);
    }
  }

  /**
   * A rewrite of an accepted ledger only adds to its text exactly when every line already was a record in
   * canonical form: blank lines and records that were formatted by hand are not kept.
   */
  lemma RewriteKeepsTextIff(p: Prepared, s: Surroundings, lines: Ledger)
    requires Validated(lines, p.record.target, 1) == Some(p.existing)
    requires ValidRecord(p.record, p.record.target, |p.existing| + 1)
    requires s.damaged.None? && !s.writeFails
    ensures Rewritten(p, s).Some?
    ensures lines <= Rewritten(p, s).value <==> AllCanonical(lines)
  {
    hide ValidRecord;
    ValidatedIsDense(lines, p.record.target, 1);
    HonestReadBack(p.existing, p.record);
    if AllCanonical(lines) {
      CanonicalAsRead(lines, p.record.target, 1);
      assert lines == Rewritten(p, s).value[..|lines|];
    }
  }

  /**
   * Serial writers are needed: when two writes to one target are both prepared before either commits,
   * the second commit erases the record of the first.
   */
  lemma OverlappingWritesLoseOne(cfg: Config, files: Files, a: Write, b: Write)
    requires a.request.target == b.request.target && Undamaged(a) && Undamaged(b)
    requires !a.surroundings.writeFails && !b.surroundings.writeFails
    requires PrepareFrom(cfg, files, a.request, a.surroundings).Ok?
    requires PrepareFrom(cfg, files, b.request, b.surroundings).Ok?
    ensures
      var p := PrepareFrom(cfg, files, a.request, a.surroundings).value;
      var q := PrepareFrom(cfg, files, b.request, b.surroundings).value;
      var after := CommitTo(CommitTo(files, p, a.surroundings), q, b.surroundings);
      LedgerAt(after, p.path) == Canonical(q.existing + [q.record]) && p.existing == q.existing
  {
    hide MemoryStorePath, ValidRecord;
    var q := PrepareFrom(cfg, files, b.request, b.surroundings).value;
    ValidatedIsDense(LedgerAt(files, q.path), b.request.target, 1);
    HonestReadBack(q.existing, q.record);
  }
}
