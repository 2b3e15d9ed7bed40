/**
 * The commit of a file write (`FileWriteAdapter.commit` in `file_adapter.py`) against a file system
 * that other processes change between any two system calls.
 */
module FileCommit {
  import opened Wrappers
  import opened Kernels

  datatype Reason =
    | PathComponentIsSymlink
    | TargetIsSymlink
    | TargetIsDirectory
    | TargetExistsNoOverwrite
    | AdapterCommitFailed
    | VerificationReadFailed
    | VerificationFailedPostCommit

  /** An exception: one whose text is a governed reason, or any other. */
  datatype Raised = Governed(reason: Reason) | Unexpected

  /** The reasons of the read-back after publication. */
  predicate FromReadBack(reason: Reason) {
    reason == VerificationReadFailed || reason == VerificationFailedPostCommit
  }

  datatype Note = TempCleanupFailed | CommitFailed | VerificationFailed

  datatype FileResult = Committed | Rejected(reason: Reason)

  /** At state `fs`, `name` in directory `dir` was bound to the directory `child` itself. */
  datatype WalkStep = WalkStep(fs: Fs, dir: nat, name: string, child: nat)

  /** A name that a commit was refused for, in the state in which it was looked at. */
  datatype Refusal = Refusal(fs: Fs, dir: nat, name: string)

  /** What the refused name was bound to explains the reason. */
  ghost predicate Explains(w: Refusal, reason: Reason, overwrite: bool) {
    var e := Entry(w.fs, w.dir, w.name);
    && e.Some? && e.value in w.fs.nodes
    && match reason
       case PathComponentIsSymlink | TargetIsSymlink => w.fs.nodes[e.value].Symlink?
       case TargetIsDirectory => w.fs.nodes[e.value].Dir?
       case TargetExistsNoOverwrite => w.fs.nodes[e.value].File? && !overwrite
       case _ => false
  }

  /** The name was bound to no directory. */
  predicate NoDirectory(w: Refusal) {
    var e := Entry(w.fs, w.dir, w.name);
    e.Some? ==> !IsDir(w.fs, e.value)
  }

  /** What a commit comes to that meets no fault and no other process. */
  function Undisturbed(fs: Fs, dir: nat, parts: seq<string>, target: string, overwrite: bool): FileResult
    requires WellFormed(fs)
    decreases |parts|
  {
    if parts == [] then
      match Entry(fs, dir, target)
      case None => Committed
      case Some(i) =>
        match fs.nodes[i]
        case Symlink => Rejected(TargetIsSymlink)
        case Dir(_) => Rejected(TargetIsDirectory)
        case File(_) => if overwrite then Committed else Rejected(TargetExistsNoOverwrite)
    else
      match Entry(fs, dir, parts[0])
      case None => Committed
      case Some(i) =>
        match fs.nodes[i]
        case Symlink => Rejected(PathComponentIsSymlink)
        case File(_) => Rejected(AdapterCommitFailed)
        case Dir(_) => Undisturbed(fs, i, parts[1..], target, overwrite)
  }

  lemma UndisturbedInNew(fs: Fs, dir: nat, parts: seq<string>, target: string, overwrite: bool)
    requires WellFormed(fs) && forall n :: Entry(fs, dir, n).None?
    ensures Undisturbed(fs, dir, parts, target, overwrite) == Committed
  {
  }

  /** The directory that existing directories lead to. */
  function Follow(fs: Fs, dir: nat, parts: seq<string>): Option<nat>
    decreases |parts|
  {
    if parts == [] then Some(dir)
    else
      var e := Entry(fs, dir, parts[0]);
      if e.Some? && IsDir(fs, e.value) then Follow(fs, e.value, parts[1..]) else None
  }

  /** The node that the name `parts[n]` is bound to, behind directories that are all there. */
  function NodeOnPath(fs: Fs, dir: nat, parts: seq<string>, n: nat): Option<Node>
    requires WellFormed(fs) && n < |parts|
    decreases |parts|
  {
    var d := Follow(fs, dir, parts[..n]);
    if d.None? then None
    else
      var e := Entry(fs, d.value, parts[n]);
      if e.None? then None else Some(fs.nodes[e.value])
  }

  lemma {:induction false} NodeFurther(fs: Fs, dir: nat, parts: seq<string>, n: nat)
    requires WellFormed(fs) && 0 < n < |parts|
    ensures
      var e := Entry(fs, dir, parts[0]);
      NodeOnPath(fs, dir, parts, n)
      == if e.Some? && IsDir(fs, e.value) then NodeOnPath(fs, e.value, parts[1..], n - 1) else None
  {
    assert parts[..n][1..] == parts[1..][..n - 1];
  }

  /**
   * An undisturbed commit is refused exactly for a link or a file where a directory is wanted, and for
   * what the target is bound to; in all other cases it commits.
   */
  lemma {:induction false} UndisturbedDecides(
    fs: Fs, dir: nat, parts: seq<string>, target: string, overwrite: bool)
    requires WellFormed(fs)
    ensures
      var r := Undisturbed(fs, dir, parts, target, overwrite);
      var node := NodeOnPath(fs, dir, parts + [target], |parts|);
      && (r == Rejected(PathComponentIsSymlink) <==>
            exists n :: 0 <= n < |parts| && NodeOnPath(fs, dir, parts, n) == Some(Symlink))
      && (r == Rejected(AdapterCommitFailed) <==>
            exists n ::
              0 <= n < |parts| && NodeOnPath(fs, dir, parts, n).Some? && NodeOnPath(fs, dir, parts, n).value.File?)
      && (r == Rejected(TargetIsSymlink) <==> node == Some(Symlink))
      && (r == Rejected(TargetIsDirectory) <==> node.Some? && node.value.Dir?)
      && (r == Rejected(TargetExistsNoOverwrite) <==> node.Some? && node.value.File? && !overwrite)
      && r != Rejected(VerificationReadFailed) && r != Rejected(VerificationFailedPostCommit)
    decreases |parts|
  {
    if parts == [] {
      assert [target][..0] == [];
    } else {
      var path := parts + [target];
      assert path[1..] == parts[1..] + [target];
      NodeFurther(fs, dir, path, |parts|);
      assert parts[..0] == [];
      var e := Entry(fs, dir, parts[0]);
      assert NodeOnPath(fs, dir, parts, 0) == if e.None? then None else Some(fs.nodes[e.value]);
      forall n | 0 < n < |parts| {
        NodeFurther(fs, dir, parts, n);
      }
      if e.Some? && IsDir(fs, e.value) {
        UndisturbedDecides(fs, e.value, parts[1..], target, overwrite);
        forall n | 0 <= n < |parts| - 1
          ensures NodeOnPath(fs, dir, parts, n + 1) == NodeOnPath(fs, e.value, parts[1..], n)
        {
        }
      }
    }
  }

  ghost predicate Walked(walk: seq<WalkStep>, root: nat, parts: seq<string>, parent: nat) {
    && |walk| == |parts|
    && (forall j :: 0 <= j < |walk| ==>
          && walk[j].name == parts[j]
          && IsDir(walk[j].fs, walk[j].child)
          && Entry(walk[j].fs, walk[j].dir, walk[j].name) == Some(walk[j].child)
          && walk[j].dir == if j == 0 then root else walk[j - 1].child)
    && parent == if walk == [] then root else walk[|walk| - 1].child
  }

  lemma WalkedNowhere(root: nat)
    ensures Walked([], root, [], root)
  {
  }

  lemma WalkedFurther(walk: seq<WalkStep>, root: nat, parts: seq<string>, n: nat, step: WalkStep)
    requires n < |parts| && Walked(walk, root, parts[..n], step.dir) && step.name == parts[n]
    requires IsDir(step.fs, step.child) && Entry(step.fs, step.dir, step.name) == Some(step.child)
    ensures Walked(walk + [step], root, parts[..n + 1], step.child)
  {
  }

  /** Our steps since `before` are all harmless. */
  ghost predicate OnlyHarmless(before: Mine, after: Mine, temp: string) {
    && before.own <= after.own
    && after.published == before.published
    && forall k :: |before.own| <= k < |after.own| ==> Harmless(after.own[k], temp)
  }

  /** Makes the entry `part` a directory if it is missing; says why it is none otherwise. */
  method EnsureDirectory(k: Kernel, current: nat, part: string)
    returns (failure: Option<Raised>, ghost refusal: Option<Refusal>)
    requires k.Valid() && current in k.me.open && part != k.temp
    modifies k
    ensures k.Valid()
    ensures OnlyHarmless(old(k.me), k.me, k.temp)
    ensures k.me == old(k.me).(own := k.me.own)
    ensures failure.Some? ==> WalkFailure(failure.value, refusal, part, k.faults > old(k.faults))
    ensures k.trouble >= old(k.trouble) && k.faults >= old(k.faults)
    ensures k.trouble == old(k.trouble) ==> k.faults == old(k.faults)
    ensures k.trouble == old(k.trouble) && IsDir(old(k.fs), k.me.open[current]) ==>
      Ensured(old(k.fs), k.fs, k.me.open[current], part, failure)
  {
    hide Harmless;
    refusal := None;
    var stat := k.StatAt(current, part);
    if stat == StatFailed {
      return Some(Unexpected), None;
    }
    if stat == Missing {
      var made := k.MkdirAt(current, part);
      if made == Failed {
        return Some(Governed(AdapterCommitFailed)), Some(Refusal(k.fs, k.me.open[current], part));
      }
      stat := k.StatAt(current, part);
      if stat == Missing || stat == StatFailed {
        return Some(Governed(AdapterCommitFailed)), Some(Refusal(k.fs, k.me.open[current], part));
      }
    }
    refusal := Some(Refusal(k.fs, k.me.open[current], part));
    if stat == IsSymlink {
      return Some(Governed(PathComponentIsSymlink)), refusal;
    }
    if stat != IsDirectory {
      return Some(Governed(AdapterCommitFailed)), refusal;
    }
    failure := None;
  }

  /**
   * What can go wrong on the way to the parent. A link on the way is exhibited; and if no call failed,
   * so is a state in which the component was no directory.
   */
  ghost predicate WalkFailure(e: Raised, refusal: Option<Refusal>, part: string, faulty: bool) {
    && e in {Unexpected, Governed(AdapterCommitFailed), Governed(PathComponentIsSymlink)}
    && (!faulty ==> refusal.Some? && refusal.value.name == part && NoDirectory(refusal.value))
    && (e == Governed(PathComponentIsSymlink) ==>
          refusal.Some? && refusal.value.name == part && Explains(refusal.value, PathComponentIsSymlink, false))
  }

  /** Undisturbed, a missing component becomes a directory, and one that is there decides by its kind. */
  ghost predicate Ensured(fs: Fs, next: Fs, dir: nat, part: string, failure: Option<Raised>)
    requires WellFormed(fs) && IsDir(fs, dir)
  {
    match Entry(fs, dir, part)
    case None => failure.None? && next == WithDirectory(fs, dir, part)
    case Some(i) =>
      && next == fs && i in fs.nodes
      && match fs.nodes[i]
         case Dir(_) => failure.None?
         case Symlink => failure == Some(Governed(PathComponentIsSymlink))
         case File(_) => failure == Some(Governed(AdapterCommitFailed))
  }

  /** The entry `part` must be, or becomes, a directory; the descriptor of `current` is replaced by its own. */
  method Descend(k: Kernel, current: nat, part: string)
    returns (r: Result<nat, Raised>, ghost step: Option<WalkStep>, ghost refusal: Option<Refusal>)
    requires k.Valid() && current in k.me.open && part != k.temp
    modifies k
    ensures k.Valid()
    ensures OnlyHarmless(old(k.me), k.me, k.temp)
    ensures k.me.temp == old(k.me.temp) && k.me.private == old(k.me.private)
    ensures r.Err? ==>
      k.me.open == old(k.me.open) - {current} && WalkFailure(r.error, refusal, part, k.faults > old(k.faults))
    ensures r.Ok? ==> r.value in k.me.open && IsDir(k.fs, k.me.open[r.value])
    ensures r.Ok? ==>
      && r.value !in old(k.me.open) && r.value in k.me.open
      && k.me.open == (old(k.me.open) - {current})[r.value := k.me.open[r.value]]
      && step.Some?
      && step.value.dir == old(k.me.open)[current] && step.value.name == part && step.value.child == k.me.open[r.value]
      && IsDir(step.value.fs, step.value.child)
      && Entry(step.value.fs, step.value.dir, part) == Some(step.value.child)
    ensures k.trouble >= old(k.trouble) && k.faults >= old(k.faults)
    ensures k.trouble == old(k.trouble) ==> k.faults == old(k.faults)
    ensures k.trouble == old(k.trouble) && IsDir(old(k.fs), old(k.me.open)[current]) ==>
      && Ensured(old(k.fs), k.fs, old(k.me.open)[current], part, if r.Ok? then None else Some(r.error))
      && (r.Ok? ==>
            Entry(k.fs, old(k.me.open)[current], part) == Some(k.me.open[r.value]))
  {
    hide Harmless, WalkFailure;
    step := None;
    var failure;
    failure, refusal := EnsureDirectory(k, current, part);
    if failure.Some? {
      k.Close(current);
      return Err(failure.value), None, refusal;
    }
    ghost var dir := k.me.open[current];
    var next := k.OpenDirectoryAt(current, part, true);
    if next.None? {
      refusal := Some(Refusal(k.fs, dir, part));
      UnexpectedFailure(refusal, part, k.faults > old(k.faults));
      k.Close(current);
      return Err(Unexpected), None, refusal;
    }
    step := Some(WalkStep(k.fs, dir, part, k.me.open[next.value]));
    k.Close(current);
    r := Ok(next.value);
  }

  lemma UnexpectedFailure(refusal: Option<Refusal>, part: string, faulty: bool)
    requires !faulty ==> refusal.Some? && refusal.value.name == part && NoDirectory(refusal.value)
    ensures WalkFailure(Unexpected, refusal, part, faulty)
  {
  }

  /** Walks from the sandbox to the parent of the target, making what is missing and following no link. */
  method OpenFileParent(k: Kernel, root: nat, parts: seq<string>, ghost target: string, ghost overwrite: bool)
    returns (r: Result<nat, Raised>, ghost walk: seq<WalkStep>, ghost refusal: Option<Refusal>)
    requires k.Valid() && IsDir(k.fs, root) && k.temp !in parts
    modifies k
    ensures k.Valid()
    ensures OnlyHarmless(old(k.me), k.me, k.temp)
    ensures k.me.temp == old(k.me.temp) && k.me.private == old(k.me.private)
    ensures r.Err? ==> k.me.open == old(k.me.open) && PathFailure(r.error, refusal, parts, k.faults > old(k.faults))
    ensures r.Ok? ==> r.value in k.me.open && IsDir(k.fs, k.me.open[r.value])
    ensures r.Ok? ==>
      && r.value !in old(k.me.open) && r.value in k.me.open
      && k.me.open == old(k.me.open)[r.value := k.me.open[r.value]]
      && Walked(walk, root, parts, k.me.open[r.value])
    ensures k.trouble >= old(k.trouble) && k.faults >= old(k.faults)
    ensures k.trouble == old(k.trouble) ==> k.faults == old(k.faults)
    ensures k.trouble == old(k.trouble) ==>
      ComesTo(old(k.fs), root, parts, target, overwrite, k.fs, r, k.me)
  {
    hide Harmless, Walked, Undisturbed, PathFailure, WalkFailure, Ensured;
    walk, refusal := [], None;
    UnexpectedOnPath(parts);
    var rootFd := k.OpenRoot(root);
    if rootFd.None? {
      return Err(Unexpected), [], None;
    }
    var current := rootFd.value;
    WalkedNowhere(root);
    assert parts[..0] == [];
    for n := 0 to |parts|
      invariant k.Valid()
      invariant OnlyHarmless(old(k.me), k.me, k.temp)
      invariant k.me.temp == old(k.me.temp) && k.me.private == old(k.me.private)
      invariant current !in old(k.me.open) && current in k.me.open
      invariant k.me.open == old(k.me.open)[current := k.me.open[current]]
      invariant Walked(walk, root, parts[..n], k.me.open[current])
      invariant IsDir(k.fs, k.me.open[current])
      invariant k.trouble >= old(k.trouble) && k.faults >= old(k.faults)
      invariant k.trouble == old(k.trouble) ==>
        && k.faults == old(k.faults)
        && Undisturbed(old(k.fs), root, parts, target, overwrite)
           == Undisturbed(k.fs, k.me.open[current], parts[n..], target, overwrite)
    {
      assert k.me.open - {current} == old(k.me.open);
      ghost var fs, dir, quiet, faults := k.fs, k.me.open[current], k.trouble == old(k.trouble), k.faults;
      var next, step, refused := Descend(k, current, parts[n]);
      if quiet && k.trouble == old(k.trouble) {
        StepUndisturbed(fs, k.fs, dir, parts, n, target, overwrite, next, k.me);
        assert next.Err? ==>
          Undisturbed(old(k.fs), root, parts, target, overwrite) == Rejected(CommitError(next.error).0);
      }
      if next.Err? {
        FailureOnPath(next.error, refused, parts, n, k.faults > faults, k.faults > old(k.faults));
        return Err(next.error), [], refused;
      }
      WalkedFurther(walk, root, parts, n, step.value);
      walk := walk + [step.value];
      current := next.value;
    }
    assert parts[..|parts|] == parts && parts[|parts|..] == [];
    r := Ok(current);
  }

  /** A failure on the way, exhibited at one of the components. */
  ghost predicate PathFailure(e: Raised, refusal: Option<Refusal>, parts: seq<string>, faulty: bool) {
    && e in {Unexpected, Governed(AdapterCommitFailed), Governed(PathComponentIsSymlink)}
    && (!faulty ==> refusal.Some? && refusal.value.name in parts && NoDirectory(refusal.value))
    && (e == Governed(PathComponentIsSymlink) ==>
          refusal.Some? && refusal.value.name in parts && Explains(refusal.value, PathComponentIsSymlink, false))
  }

  lemma UnexpectedOnPath(parts: seq<string>)
    ensures PathFailure(Unexpected, None, parts, true)
  {
  }

  lemma FailureOnPath(
    e: Raised, refusal: Option<Refusal>, parts: seq<string>, n: nat, faultyHere: bool, faulty: bool)
    requires n < |parts| && WalkFailure(e, refusal, parts[n], faultyHere) && (faultyHere ==> faulty)
    ensures PathFailure(e, refusal, parts, faulty)
  {
    hide Explains;
  }

  /** Undisturbed, the walk ends where the rest decides, or with the rejection that is due. */
  ghost predicate ComesTo(
    fs: Fs, root: nat, parts: seq<string>, target: string, overwrite: bool, next: Fs, r: Result<nat, Raised>, me: Mine)
    requires WellFormed(fs) && WellFormed(next)
  {
    if r.Err? then
      Undisturbed(fs, root, parts, target, overwrite) == Rejected(CommitError(r.error).0)
    else
      && r.value in me.open && IsDir(next, me.open[r.value])
      && Undisturbed(fs, root, parts, target, overwrite) == Undisturbed(next, me.open[r.value], [], target, overwrite)
  }

  /** One undisturbed step of the walk leaves what is due as it is. */
  lemma StepUndisturbed(
    fs: Fs, next: Fs, dir: nat, parts: seq<string>, n: nat, target: string, overwrite: bool,
    r: Result<nat, Raised>, me: Mine)
    requires WellFormed(fs) && WellFormed(next) && IsDir(fs, dir) && n < |parts|
    requires Ensured(fs, next, dir, parts[n], if r.Ok? then None else Some(r.error))
    requires r.Ok? ==>
      r.value in me.open && Entry(next, dir, parts[n]) == Some(me.open[r.value]) && IsDir(next, me.open[r.value])
    ensures
      Undisturbed(fs, dir, parts[n..], target, overwrite)
      == if r.Err? then Rejected(CommitError(r.error).0)
         else Undisturbed(next, me.open[r.value], parts[n + 1..], target, overwrite)
  {
    assert parts[n..][1..] == parts[n + 1..];
    if Entry(fs, dir, parts[n]).None? {
      UndisturbedInNew(next, fs.limit, parts[n + 1..], target, overwrite);
    }
  }

  /** None when the write may go ahead; an unreadable entry raises. */
  method TargetRejection(k: Kernel, parent: nat, target: string, overwrite: bool)
    returns (r: Result<Option<Reason>, Raised>)
    requires k.Valid() && parent in k.me.open
    modifies k`fs, k`trouble, k`faults
    ensures k.Valid() && forall i :: IsDir(old(k.fs), i) ==> IsDir(k.fs, i)
    ensures r.Ok? ==>
      var e := Entry(k.fs, k.me.open[parent], target);
      && (r.value == None <==> e.None? || (overwrite && k.fs.nodes[e.value].File?))
      && (r.value == Some(TargetIsSymlink) <==> e.Some? && k.fs.nodes[e.value].Symlink?)
      && (r.value == Some(TargetIsDirectory) <==> e.Some? && k.fs.nodes[e.value].Dir?)
      && (r.value == Some(TargetExistsNoOverwrite) <==> e.Some? && k.fs.nodes[e.value].File? && !overwrite)
      && (r.value.Some? ==>
            var refusal := Refusal(k.fs, k.me.open[parent], target);
            Refused(r.value.value, Some(refusal), k.me.open[parent], target, overwrite))
    ensures r.Err? ==> r.error == Unexpected
    ensures k.trouble >= old(k.trouble) && k.faults >= old(k.faults)
    ensures k.trouble == old(k.trouble) ==> k.fs == old(k.fs) && k.faults == old(k.faults)
    ensures k.faults == old(k.faults) ==> r.Ok?
  {
    var stat := k.StatAt(parent, target);
    match stat
    case Missing => r := Ok(None);
    case StatFailed => r := Err(Unexpected);
    case IsSymlink => r := Ok(Some(TargetIsSymlink));
    case IsDirectory => r := Ok(Some(TargetIsDirectory));
    case IsFile => r := Ok(if overwrite then None else Some(TargetExistsNoOverwrite));
  }

  /** A rejection of the target, with the state in which the target was bound that way. */
  ghost predicate Refused(reason: Reason, refusal: Option<Refusal>, dir: nat, target: string, overwrite: bool) {
    && reason in {TargetIsSymlink, TargetIsDirectory, TargetExistsNoOverwrite}
    && refusal.Some? && refusal.value.dir == dir && refusal.value.name == target
    && Explains(refusal.value, reason, overwrite)
  }

  /**
   * An exception under the opened parent: a late rejection of the target, or anything unexpected. If no
   * call failed, a directory had taken the target's place; or the target stood when it was to be linked,
   * and was gone when it was looked at.
   */
  ghost predicate Thrown(
    raised: Raised, refusal: Option<Refusal>, dir: nat, target: string, overwrite: bool, faulty: bool)
  {
    && (raised.Governed? ==> Refused(raised.reason, refusal, dir, target, overwrite))
    && (!faulty ==> refusal.Some? && refusal.value.dir == dir && refusal.value.name == target)
    && (!faulty && raised == Unexpected ==> Displaced(refusal.value, overwrite))
  }

  predicate Displaced(w: Refusal, overwrite: bool) {
    var e := Entry(w.fs, w.dir, w.name);
    if overwrite then e.Some? && IsDir(w.fs, e.value) else e.None?
  }

  /** Undisturbed, the temporary file can be published over what is there. */
  predicate Replaceable(fs: Fs, dir: nat, target: string, overwrite: bool) {
    var e := Entry(fs, dir, target);
    if overwrite then e.Some? ==> !IsDir(fs, e.value) else e.None?
  }

  /** The target is bound to a file that holds `content`. */
  predicate Holds(fs: Fs, dir: nat, target: string, content: Bytes) {
    var e := Entry(fs, dir, target);
    e.Some? && e.value in fs.nodes && fs.nodes[e.value] == File(content)
  }

  /** Our steps since `before` are harmless and change no file at all. */
  ghost predicate OnlyQuiet(before: Mine, after: Mine, temp: string) {
    && OnlyHarmless(before, after, temp)
    && forall k :: |before.own| <= k < |after.own| ==> KeepsFiles(after.own[k])
  }

  /**
   * Our steps since `before`: at most one publishes, binding the target to the complete content in one
   * step, and without overwrite only where the target was not bound; all others are harmless, and none
   * behind the publication changes any file, the published one included.
   */
  ghost predicate OnlyPublishesOnce(
    before: Mine, after: Mine, temp: string, parent: nat, target: string, content: Bytes, overwrite: bool)
  {
    && before.own <= after.own
    && (after.published.Some? ==> |before.own| <= after.published.value < |after.own|)
    && forall k :: |before.own| <= k < |after.own| ==>
         if after.published == Some(k) then
           && Publishes(after.own[k], temp, parent, target, content)
           && (overwrite || Entry(after.own[k].before, parent, target).None?)
         else
           && Harmless(after.own[k], temp)
           && (after.published.Some? && k > after.published.value ==> KeepsFiles(after.own[k]))
  }

  lemma PublishAfterHarmless(
    a: Mine, b: Mine, c: Mine, temp: string, parent: nat, target: string, content: Bytes, overwrite: bool)
    requires a.published.None? && OnlyHarmless(a, b, temp)
    requires OnlyPublishesOnce(b, c, temp, parent, target, content, overwrite)
    ensures OnlyPublishesOnce(a, c, temp, parent, target, content, overwrite)
  {
    hide Harmless, Publishes, KeepsFiles;
    assert forall k :: |a.own| <= k < |b.own| ==> b.own[k] == c.own[k];
  }

  lemma HarmlessAfterPublish(
    a: Mine, b: Mine, c: Mine, temp: string, parent: nat, target: string, content: Bytes, overwrite: bool)
    requires OnlyPublishesOnce(a, b, temp, parent, target, content, overwrite)
    requires OnlyQuiet(b, c, temp)
    ensures OnlyPublishesOnce(a, c, temp, parent, target, content, overwrite)
  {
    hide Harmless, Publishes, KeepsFiles;
    assert forall k :: |a.own| <= k < |b.own| ==> b.own[k] == c.own[k];
  }

  lemma HarmlessIsNoPublication(
    a: Mine, b: Mine, temp: string, parent: nat, target: string, content: Bytes, overwrite: bool)
    requires a.published.None? && OnlyHarmless(a, b, temp)
    ensures OnlyPublishesOnce(a, b, temp, parent, target, content, overwrite)
  {
    hide Harmless, Publishes, KeepsFiles;
  }

  /** Creates the temporary file with the content and reads it back; anything unexpected raises. */
  method WriteTempFile(k: Kernel, parent: nat, content: Bytes) returns (raised: Option<Raised>, tempCreated: bool)
    requires k.Valid() && parent in k.me.open
    requires k.me.temp.None? && k.me.private.None?
    modifies k
    ensures k.Valid() && k.me.open == old(k.me.open)
    ensures OnlyHarmless(old(k.me), k.me, k.temp)
    ensures tempCreated <==> k.me.temp.Some?
    ensures tempCreated ==> k.me.private.Some? && k.me.temp == Some(Binding(k.me.open[parent], k.me.private.value.ino))
    ensures raised.None? ==> tempCreated && k.me.private.value.bytes == content
    ensures raised.Some? ==> raised == Some(Unexpected)
    ensures k.trouble >= old(k.trouble) && k.faults >= old(k.faults)
    ensures k.faults == old(k.faults) && IsDir(old(k.fs), k.me.open[parent]) ==> raised.None?
    ensures k.trouble == old(k.trouble) ==> k.faults == old(k.faults)
    ensures k.trouble == old(k.trouble) && IsDir(old(k.fs), k.me.open[parent]) ==> SameButTemp(old(k.fs), k.fs, k.temp)
  {
    hide Harmless, SameButTemp;
    tempCreated := false;
    var fd := k.CreateTempAt(parent);
    if fd.None? {
      return Some(Unexpected), false;
    }
    tempCreated := true;
    ghost var created := k.fs;
    var written := k.WriteTemp(fd.value, content);
    if k.trouble == old(k.trouble) && IsDir(old(k.fs), old(k.me.open)[parent]) {
      SameButTempTwice(old(k.fs), created, k.fs, k.temp);
    }
    k.Close(fd.value);
    assert k.me.open == old(k.me.open);
    if !written {
      return Some(Unexpected), true;
    }
    var readback := ReadFile(k, parent, k.temp);
    if readback.None? || readback.value != content {
      return Some(Unexpected), true;
    }
    raised := None;
  }

  /** What the file under `name` holds, if it can be read; a link is not followed. */
  method ReadFile(k: Kernel, parent: nat, name: string) returns (r: Option<Bytes>)
    requires k.Valid() && parent in k.me.open
    modifies k
    ensures k.Valid() && k.me == old(k.me).(nextFd := k.me.nextFd)
    ensures k.trouble >= old(k.trouble) && k.faults >= old(k.faults)
    ensures k.trouble == old(k.trouble) ==> k.fs == old(k.fs) && k.faults == old(k.faults)
    ensures
      && k.faults == old(k.faults) && name == k.temp && k.me.private.Some?
      && k.me.temp == Some(Binding(k.me.open[parent], k.me.private.value.ino)) ==>
        r == Some(k.me.private.value.bytes)
  {
    var fd := k.OpenFileAt(parent, name, true);
    if fd.None? {
      return None;
    }
    r := k.Read(fd.value);
    k.Close(fd.value);
    assert k.me.open == old(k.me.open);
  }

  lemma SameButTempTwice(a: Fs, b: Fs, c: Fs, temp: string)
    requires SameButTemp(a, b, temp) && SameButTemp(b, c, temp)
    ensures SameButTemp(a, c, temp)
  {
  }

  /** Renames over the target, or links where nothing is bound and drops the temporary name. */
  method Publish(k: Kernel, parent: nat, target: string, ghost content: Bytes, overwrite: bool)
    returns (raised: Option<Raised>, tempCreated: bool, ghost stuck: bool, ghost refusal: Option<Refusal>)
    requires k.Valid() && parent in k.me.open && target != k.temp
    requires k.me.published.None? && k.me.private.Some? && k.me.private.value.bytes == content
    requires k.me.temp == Some(Binding(k.me.open[parent], k.me.private.value.ino))
    modifies k
    ensures k.Valid() && k.me.open == old(k.me.open)
    ensures OnlyPublishesOnce(old(k.me), k.me, k.temp, k.me.open[parent], target, content, overwrite)
    ensures tempCreated <==> k.me.temp.Some?
    ensures tempCreated ==> k.me.temp.value.dir == k.me.open[parent]
    ensures raised.None? ==> k.me.published.Some? && !tempCreated
    ensures raised.Some? && k.me.published.Some? <==> stuck
    ensures stuck ==> k.faults > old(k.faults)
    ensures stuck ==> !overwrite && tempCreated && raised == Some(Unexpected)
    ensures raised.Some? ==>
      Thrown(raised.value, refusal, k.me.open[parent], target, overwrite, k.faults > old(k.faults))
    ensures k.trouble >= old(k.trouble) && k.faults >= old(k.faults)
    ensures k.trouble == old(k.trouble) ==> k.faults == old(k.faults)
    ensures k.trouble == old(k.trouble) && Replaceable(old(k.fs), k.me.open[parent], target, overwrite) ==>
      raised.None? && Holds(k.fs, k.me.open[parent], target, content)
  {
    hide Harmless, Publishes, KeepsFiles, Refused;
    stuck, refusal := false, None;
    if overwrite {
      var renamed := k.RenameTempAt(parent, target);
      if !renamed {
        refusal := Some(Refusal(k.fs, k.me.open[parent], target));
        return Some(Unexpected), true, stuck, refusal;
      }
      PublishedHolds(k.me.own[|old(k.me.own)|], k.temp, k.me.open[parent], target, content);
      return None, false, stuck, refusal;
    }
    var linked := k.LinkTempAt(parent, target);
    if linked == Exists {
      var late := TargetRejection(k, parent, target, overwrite);
      refusal := Some(Refusal(k.fs, k.me.open[parent], target));
      if late.Ok? && late.value.Some? {
        return Some(Governed(late.value.value)), true, stuck, refusal;
      }
      return Some(Unexpected), true, stuck, refusal;
    }
    if linked == Failed {
      return Some(Unexpected), true, stuck, refusal;
    }
    PublishedHolds(k.me.own[|old(k.me.own)|], k.temp, k.me.open[parent], target, content);
    ghost var published := k.me;
    var unlinked := k.UnlinkTempAt(parent);
    if !unlinked {
      stuck := true;
      return Some(Unexpected), true, stuck, refusal;
    }
    if k.trouble == old(k.trouble) {
      DroppedHolds(k.me.own[|published.own|], k.temp, k.me.open[parent], target, content);
    }
    return None, false, stuck, refusal;
  }

  lemma PublishedHolds(s: OwnStep, temp: string, dir: nat, target: string, content: Bytes)
    requires Publishes(s, temp, dir, target, content)
    ensures Holds(s.after, dir, target, content)
  {
  }

  lemma DroppedHolds(s: OwnStep, temp: string, dir: nat, target: string, content: Bytes)
    requires Harmless(s, temp) && KeepsFiles(s) && target != temp
    requires Holds(s.before, dir, target, content)
    ensures Holds(s.after, dir, target, content)
  {
  }

  /** The rejection an exception is mapped to, after what the adapter notes about it. */
  function CommitError(e: Raised): (Reason, seq<Note>) {
    match e
    case Governed(reason) => (reason, if reason == AdapterCommitFailed then [CommitFailed] else [])
    case Unexpected => (AdapterCommitFailed, [CommitFailed])
  }

  /** Everything under the opened parent that may raise. */
  method WriteAndPublish(k: Kernel, parent: nat, target: string, content: Bytes, overwrite: bool)
    returns (existing: Option<Reason>, raised: Option<Raised>, tempCreated: bool, ghost stuck: bool,
             ghost refusal: Option<Refusal>)
    requires k.Valid() && parent in k.me.open && target != k.temp
    requires k.me.temp.None? && k.me.private.None? && k.me.published.None?
    modifies k
    ensures k.Valid() && k.me.open == old(k.me.open)
    ensures OnlyPublishesOnce(old(k.me), k.me, k.temp, k.me.open[parent], target, content, overwrite)
    ensures tempCreated <==> k.me.temp.Some?
    ensures tempCreated ==> k.me.temp.value.dir == k.me.open[parent]
    ensures existing.Some? ==>
      && raised.None? && !tempCreated && k.me.published.None?
      && Refused(existing.value, refusal, k.me.open[parent], target, overwrite)
    ensures existing.None? && raised.None? ==> k.me.published.Some? && !tempCreated
    ensures raised.Some? && k.me.published.Some? <==> stuck
    ensures stuck ==> k.faults > old(k.faults)
    ensures stuck ==> existing.None? && !overwrite && tempCreated && raised == Some(Unexpected)
    ensures IsDir(old(k.fs), k.me.open[parent]) && raised.Some? ==>
      Thrown(raised.value, refusal, k.me.open[parent], target, overwrite, k.faults > old(k.faults))
    ensures k.trouble >= old(k.trouble) && k.faults >= old(k.faults)
    ensures k.trouble == old(k.trouble) ==> k.faults == old(k.faults)
    ensures k.trouble == old(k.trouble) && IsDir(old(k.fs), k.me.open[parent]) ==>
      && raised.None?
      && Undisturbed(old(k.fs), k.me.open[parent], [], target, overwrite)
         == (if existing.Some? then Rejected(existing.value) else Committed)
      && (existing.None? ==> Holds(k.fs, k.me.open[parent], target, content))
  {
    hide Harmless, Publishes, KeepsFiles, OnlyHarmless, OnlyPublishesOnce, SameButTemp, Refused, Holds;
    stuck, tempCreated, refusal := false, false, None;
    existing, raised := None, None;
    ghost var start := k.me;
    var found := TargetRejection(k, parent, target, overwrite);
    if found.Err? {
      NothingYet(start, k.temp, k.me.open[parent], target, content, overwrite);
      return None, Some(found.error), false, stuck, refusal;
    }
    if found.value.Some? {
      refusal := Some(Refusal(k.fs, k.me.open[parent], target));
      NothingYet(start, k.temp, k.me.open[parent], target, content, overwrite);
      return found.value, None, false, stuck, refusal;
    }
    ghost var clear := k.fs;
    raised, tempCreated := WriteTempFile(k, parent, content);
    ghost var filled := k.me;
    OnlyHarmlessKeeps(start, filled, k.temp);
    if raised.Some? {
      HarmlessIsNoPublication(start, filled, k.temp, k.me.open[parent], target, content, overwrite);
      return;
    }
    if k.trouble == old(k.trouble) && IsDir(clear, k.me.open[parent]) {
      StillReplaceable(clear, k.fs, k.temp, k.me.open[parent], target, overwrite);
    }
    raised, tempCreated, stuck, refusal := Publish(k, parent, target, content, overwrite);
    PublishAfterHarmless(start, filled, k.me, k.temp, k.me.open[parent], target, content, overwrite);
  }

  lemma NothingYet(a: Mine, temp: string, parent: nat, target: string, content: Bytes, overwrite: bool)
    requires a.published.None?
    ensures OnlyPublishesOnce(a, a, temp, parent, target, content, overwrite)
  {
  }

  lemma StillReplaceable(fs: Fs, next: Fs, temp: string, dir: nat, target: string, overwrite: bool)
    requires WellFormed(fs) && SameButTemp(fs, next, temp) && target != temp
    requires var e := Entry(fs, dir, target); e.None? || (overwrite && fs.nodes[e.value].File?)
    ensures Replaceable(next, dir, target, overwrite)
  {
  }

  /** The target was bound to something other than a link, and that was a file when it was read. */
  predicate Readable(openedAt: Fs, readAt: Fs, dir: nat, target: string) {
    var e := Entry(openedAt, dir, target);
    && e.Some? && e.value in openedAt.nodes && !openedAt.nodes[e.value].Symlink?
    && (e.value in readAt.nodes ==> readAt.nodes[e.value].File?)
  }

  /** What was opened as the target held exactly the content when it was read. */
  predicate ReadAs(openedAt: Fs, readAt: Fs, dir: nat, target: string, content: Bytes) {
    var e := Entry(openedAt, dir, target);
    e.Some? && e.value in readAt.nodes && readAt.nodes[e.value] == File(content)
  }

  /** What was read from the target is not the content. */
  predicate Differs(openedAt: Fs, readAt: Fs, dir: nat, target: string, content: Bytes) {
    var e := Entry(openedAt, dir, target);
    && e.Some? && e.value in readAt.nodes && readAt.nodes[e.value].File?
    && readAt.nodes[e.value].bytes != content
  }

  /** Opens the target without following a link and compares what it holds; closes the parent. */
  method ReadBack(k: Kernel, parent: nat, target: string, content: Bytes)
    returns (r: FileResult, ghost openedAt: Fs, ghost readAt: Fs)
    requires k.Valid() && parent in k.me.open
    modifies k
    ensures k.Valid() && k.me == old(k.me).(open := old(k.me.open) - {parent}, nextFd := k.me.nextFd)
    ensures r.Rejected? ==> FromReadBack(r.reason)
    ensures r == Committed ==> ReadAs(openedAt, readAt, old(k.me.open)[parent], target, content)
    ensures r == Rejected(VerificationReadFailed) && k.faults == old(k.faults) ==>
      !Readable(openedAt, readAt, old(k.me.open)[parent], target)
    ensures r == Rejected(VerificationFailedPostCommit) ==>
      Differs(openedAt, readAt, old(k.me.open)[parent], target, content)
    ensures k.trouble >= old(k.trouble) && k.faults >= old(k.faults)
    ensures k.trouble == old(k.trouble) ==> k.faults == old(k.faults)
    ensures k.trouble == old(k.trouble) && Holds(old(k.fs), old(k.me.open)[parent], target, content) ==>
      r == Committed && k.fs == old(k.fs)
  {
    openedAt, readAt := k.fs, k.fs;
    var finalFd := k.OpenFileAt(parent, target, true);
    openedAt := k.fs;
    if finalFd.None? {
      k.Close(parent);
      return Rejected(VerificationReadFailed), openedAt, readAt;
    }
    var final := k.Read(finalFd.value);
    readAt := k.fs;
    ghost var i := k.me.open[finalFd.value];
    k.Close(finalFd.value);
    assert k.me.open == old(k.me.open);
    k.Close(parent);
    if final.None? {
      return Rejected(VerificationReadFailed), openedAt, readAt;
    }
    if final.value != content {
      return Rejected(VerificationFailedPostCommit), openedAt, readAt;
    }
    assert Entry(openedAt, old(k.me.open)[parent], target) == Some(i);
    r := Committed;
  }

  /** The exception handler: drops the temporary name if it is still ours, and closes the parent. */
  method CleanUp(k: Kernel, parent: nat, tempCreated: bool) returns (notes: seq<Note>)
    requires k.Valid() && parent in k.me.open && (tempCreated <==> k.me.temp.Some?)
    requires tempCreated ==> k.me.temp.value.dir == k.me.open[parent]
    modifies k
    ensures k.Valid() && k.me.open == old(k.me.open) - {parent}
    ensures OnlyQuiet(old(k.me), k.me, k.temp)
    ensures k.me.temp.None? || TempCleanupFailed in notes
    ensures notes == [] || notes == [TempCleanupFailed]
    ensures k.trouble >= old(k.trouble) && k.faults >= old(k.faults)
    ensures k.trouble == old(k.trouble) ==> k.faults == old(k.faults)
    ensures k.faults == old(k.faults) ==> notes == [] && k.me.temp.None?
  {
    hide Harmless, KeepsFiles;
    notes := [];
    if tempCreated {
      var cleaned := k.UnlinkTempAt(parent);
      if !cleaned {
        notes := [TempCleanupFailed];
      }
    }
    k.Close(parent);
  }

  /** What is known of a commit when it returns. */
  datatype Witnessed = Witnessed(
    /** How the parent directory was reached. */
    walk: seq<WalkStep>,
    parent: nat,
    /** The file system when the target was opened for read-back, and when it was read. */
    openedAt: Fs,
    readAt: Fs,
    /** The target was linked, and the unlink of the temporary name behind it failed. */
    stuck: bool,
    /** The name that a rejection is about, when it was looked at. */
    refused: Option<Refusal>)

  /**
   * Whatever a rejection says about a name was so at some state during the commit. If no call of ours
   * failed, each rejection is the others' doing, and a state shows it: a component that was no directory;
   * a target that a directory had displaced, or that was gone again after it had stood in the way; a
   * published target that was no longer a file, or held something else.
   */
  ghost predicate Justified(
    reason: Reason, w: Witnessed, parts: seq<string>, target: string, content: Bytes, overwrite: bool, faulty: bool)
  {
    match reason
    case PathComponentIsSymlink =>
      w.refused.Some? && w.refused.value.name in parts && Explains(w.refused.value, reason, overwrite)
    case TargetIsSymlink | TargetIsDirectory | TargetExistsNoOverwrite =>
      Refused(reason, w.refused, w.parent, target, overwrite)
    case AdapterCommitFailed =>
      faulty ||
      (&& w.refused.Some?
       && ((w.refused.value.name in parts && NoDirectory(w.refused.value))
           || (w.refused.value.dir == w.parent && w.refused.value.name == target
               && Displaced(w.refused.value, overwrite))))
    case VerificationReadFailed => faulty || !Readable(w.openedAt, w.readAt, w.parent, target)
    case VerificationFailedPostCommit => Differs(w.openedAt, w.readAt, w.parent, target, content)
  }

  /** What a result says of the commit that it ends, whatever the others did. */
  ghost predicate Answers(
    r: FileResult, notes: seq<Note>, w: Witnessed, me: Mine, parts: seq<string>, target: string, content: Bytes,
    overwrite: bool, faulty: bool)
  {
    && (r == Committed ==> me.published.Some? && ReadAs(w.openedAt, w.readAt, w.parent, target, content))
    && (r.Rejected? ==>
          && (me.published.Some? <==> FromReadBack(r.reason) || w.stuck)
          && Justified(r.reason, w, parts, target, content, overwrite, faulty))
    && (w.stuck ==> faulty && r == Rejected(AdapterCommitFailed) && !overwrite)
    && (CommitFailed in notes <==> r == Rejected(AdapterCommitFailed))
    && (VerificationFailed in notes <==> r.Rejected? && FromReadBack(r.reason))
    && (me.temp.None? || TempCleanupFailed in notes)
    && (TempCleanupFailed in notes ==> faulty)
  }

  /**
   * For every interleaving with the other processes: nothing but harmless steps and at most one atomic
   * publication of the complete content; a parent reached without following a link; a commit only if
   * the target, read back, held exactly the content; all descriptors closed; and the temporary name
   * gone, or its failed cleanup noted. A rejection leaves the target published exactly if the read-back
   * failed, or if the temporary name could not be dropped behind the link. A rejection that speaks of a
   * name exhibits a state in which the name was bound so; and when no call fails and no other process
   * acts, the file system found at the start decides the result.
   */
  method Commit(k: Kernel, root: nat, parts: seq<string>, target: string, content: Bytes, overwrite: bool)
    returns (r: FileResult, notes: seq<Note>, ghost w: Witnessed)
    requires k.Valid() && IsDir(k.fs, root) && k.temp !in parts && target != k.temp
    requires k.me.temp.None? && k.me.private.None? && k.me.published.None?
    modifies k
    ensures k.Valid() && k.me.open == old(k.me.open)
    ensures OnlyPublishesOnce(old(k.me), k.me, k.temp, w.parent, target, content, overwrite)
    ensures k.me.published.Some? ==> Walked(w.walk, root, parts, w.parent)
    ensures (forall d :: Entry(k.fs, d, k.temp).None?) || TempCleanupFailed in notes
    ensures Answers(r, notes, w, k.me, parts, target, content, overwrite, k.faults > old(k.faults))
    ensures k.trouble == old(k.trouble) ==> r == Undisturbed(old(k.fs), root, parts, target, overwrite)
    ensures k.trouble == old(k.trouble) && r == Committed ==> Holds(k.fs, w.parent, target, content) && notes == []
  {
    hide Harmless, Publishes, KeepsFiles, OnlyHarmless, OnlyPublishesOnce, Walked, Undisturbed, ComesTo, PathFailure;
    hide Answers, Holds;
    ghost var start := k.me;
    var parentFd, walk, refused := OpenFileParent(k, root, parts, target, overwrite);
    ghost var arrived, faults := k.me, k.faults;
    if k.trouble == old(k.trouble) {
      Arrived(old(k.fs), root, parts, target, overwrite, k.fs, parentFd, k.me);
    }
    OnlyHarmlessKeeps(start, arrived, k.temp);
    if parentFd.Err? {
      w := Witnessed([], 0, k.fs, k.fs, false, refused);
      var (reason, why) := CommitError(parentFd.error);
      HarmlessIsNoPublication(start, arrived, k.temp, 0, target, content, overwrite);
      AnswersOnPath(parentFd.error, w, k.me, parts, target, content, overwrite, k.faults > old(k.faults));
      return Rejected(reason), why, w;
    }
    ghost var dir := k.me.open[parentFd.value];
    r, notes, w := CommitInParent(k, parentFd.value, parts, target, content, overwrite);
    w := w.(walk := walk);
    assert k.me.open == start.open;
    PublishAfterHarmless(start, arrived, k.me, k.temp, dir, target, content, overwrite);
    AnswersBehindWalk(
      r, notes, w, k.me, parts, target, content, overwrite, k.faults > faults, k.faults > old(k.faults));
  }

  /** All of it once the parent is opened. */
  method CommitInParent(
    k: Kernel, parent: nat, ghost parts: seq<string>, target: string, content: Bytes, overwrite: bool)
    returns (r: FileResult, notes: seq<Note>, ghost w: Witnessed)
    requires k.Valid() && parent in k.me.open && IsDir(k.fs, k.me.open[parent]) && target != k.temp
    requires k.me.temp.None? && k.me.private.None? && k.me.published.None?
    modifies k
    ensures k.Valid() && k.me.open == old(k.me.open) - {parent}
    ensures w.parent == old(k.me.open)[parent] && w.walk == []
    ensures OnlyPublishesOnce(old(k.me), k.me, k.temp, w.parent, target, content, overwrite)
    ensures Answers(r, notes, w, k.me, parts, target, content, overwrite, k.faults > old(k.faults))
    ensures k.trouble >= old(k.trouble) && k.faults >= old(k.faults)
    ensures k.trouble == old(k.trouble) ==>
      && r == Undisturbed(old(k.fs), w.parent, [], target, overwrite)
      && (r == Committed ==> Holds(k.fs, w.parent, target, content) && notes == [])
  {
    hide Harmless, Publishes, KeepsFiles, OnlyHarmless, OnlyQuiet, OnlyPublishesOnce, Undisturbed;
    hide Refused, Thrown, Justified, Holds, Readable, Differs, ReadAs;
    ghost var start := k.me;
    ghost var dir := k.me.open[parent];
    w := Witnessed([], dir, k.fs, k.fs, false, None);
    var existing, raised, tempCreated;
    ghost var stuck, refusal;
    existing, raised, tempCreated, stuck, refusal := WriteAndPublish(k, parent, target, content, overwrite);
    w := w.(stuck := stuck, refused := refusal);
    ghost var written, thrown := k.me, k.faults > old(k.faults);
    if existing.Some? {
      k.Close(parent);
      SameSteps(start, written, k.me, k.temp, dir, target, content, overwrite);
      JustifiedThen(existing.value, w, parts, target, content, overwrite, k.faults > old(k.faults));
      return Rejected(existing.value), [], w;
    }
    if raised.Some? {
      notes := CleanUp(k, parent, tempCreated);
      HarmlessAfterPublish(start, written, k.me, k.temp, dir, target, content, overwrite);
      OnlyQuietKeeps(written, k.me, k.temp);
      JustifiedThere(raised.value, w, parts, target, content, overwrite, thrown, k.faults > old(k.faults));
      var (reason, why) := CommitError(raised.value);
      return Rejected(reason), notes + why, w;
    }
    ghost var openedAt, readAt;
    r, openedAt, readAt := ReadBack(k, parent, target, content);
    SameSteps(start, written, k.me, k.temp, dir, target, content, overwrite);
    w := w.(openedAt := openedAt, readAt := readAt);
    if r.Rejected? {
      LateReason(r.reason, w, parts, target, content, overwrite, k.faults > old(k.faults));
    }
    notes := if r == Committed then [] else [VerificationFailed];
  }

  lemma AnswersOnPath(
    e: Raised, w: Witnessed, me: Mine, parts: seq<string>, target: string, content: Bytes, overwrite: bool,
    faulty: bool)
    requires PathFailure(e, w.refused, parts, faulty) && !w.stuck && me.published.None? && me.temp.None?
    ensures Answers(Rejected(CommitError(e).0), CommitError(e).1, w, me, parts, target, content, overwrite, faulty)
  {
    JustifiedOnPath(e, w, parts, target, content, overwrite, faulty);
  }

  lemma AnswersBehindWalk(
    r: FileResult, notes: seq<Note>, w: Witnessed, me: Mine, parts: seq<string>, target: string,
    content: Bytes, overwrite: bool, faultyBehind: bool, faulty: bool)
    requires Answers(r, notes, w.(walk := []), me, parts, target, content, overwrite, faultyBehind)
    requires faultyBehind ==> faulty
    ensures Answers(r, notes, w, me, parts, target, content, overwrite, faulty)
    ensures me.temp.None? || TempCleanupFailed in notes
  {
    hide Refused, Explains, Readable, Differs, ReadAs;
  }

  lemma Arrived(
    fs: Fs, root: nat, parts: seq<string>, target: string, overwrite: bool, next: Fs, r: Result<nat, Raised>, me: Mine)
    requires WellFormed(fs) && WellFormed(next) && ComesTo(fs, root, parts, target, overwrite, next, r, me)
    ensures r.Err? ==> Undisturbed(fs, root, parts, target, overwrite) == Rejected(CommitError(r.error).0)
    ensures r.Ok? ==>
      && r.value in me.open && IsDir(next, me.open[r.value])
      && Undisturbed(fs, root, parts, target, overwrite) == Undisturbed(next, me.open[r.value], [], target, overwrite)
  {
    hide Undisturbed;
  }

  lemma JustifiedOnPath(
    e: Raised, w: Witnessed, parts: seq<string>, target: string, content: Bytes, overwrite: bool, faulty: bool)
    requires PathFailure(e, w.refused, parts, faulty)
    ensures Justified(CommitError(e).0, w, parts, target, content, overwrite, faulty)
    ensures !FromReadBack(CommitError(e).0)
  {
  }

  lemma JustifiedThen(
    reason: Reason, w: Witnessed, parts: seq<string>, target: string, content: Bytes, overwrite: bool, faulty: bool)
    requires Refused(reason, w.refused, w.parent, target, overwrite)
    ensures Justified(reason, w, parts, target, content, overwrite, faulty)
    ensures !FromReadBack(reason) && reason != AdapterCommitFailed
  {
  }

  lemma JustifiedThere(
    e: Raised, w: Witnessed, parts: seq<string>, target: string, content: Bytes, overwrite: bool,
    thrown: bool, faulty: bool)
    requires Thrown(e, w.refused, w.parent, target, overwrite, thrown) && (thrown ==> faulty)
    ensures Justified(CommitError(e).0, w, parts, target, content, overwrite, faulty)
    ensures !FromReadBack(CommitError(e).0)
  {
  }

  lemma LateReason(
    reason: Reason, w: Witnessed, parts: seq<string>, target: string, content: Bytes, overwrite: bool, faulty: bool)
    requires FromReadBack(reason)
    requires reason == VerificationReadFailed && !faulty ==> !Readable(w.openedAt, w.readAt, w.parent, target)
    requires reason == VerificationFailedPostCommit ==> Differs(w.openedAt, w.readAt, w.parent, target, content)
    ensures Justified(reason, w, parts, target, content, overwrite, faulty)
  {
  }

  lemma OnlyHarmlessKeeps(a: Mine, b: Mine, temp: string)
    requires OnlyHarmless(a, b, temp)
    ensures b.published == a.published
  {
  }

  lemma OnlyQuietKeeps(a: Mine, b: Mine, temp: string)
    requires OnlyQuiet(a, b, temp)
    ensures b.published == a.published
  {
  }

  lemma SameSteps(a: Mine, b: Mine, c: Mine, temp: string, parent: nat, target: string, content: Bytes, overwrite: bool)
    requires OnlyPublishesOnce(a, b, temp, parent, target, content, overwrite)
    requires c.own == b.own && c.published == b.published
    ensures OnlyPublishesOnce(a, c, temp, parent, target, content, overwrite)
  {
    hide Harmless, Publishes, KeepsFiles;
  }

  // ----- What that means for everybody else --------------------------------------------------

  /** The temporary file is still our own: nothing has been published by step `k`. */
  predicate NotYetPublished(m: Mine, k: nat) {
    m.published.None? || k < m.published.value
  }

  /**
   * Without overwrite, no step of a commit rebinds or removes a name that existed, or changes a file
   * that existed, the target included; only the temporary name is its own, and the temporary file as
   * long as it is not published.
   */
  lemma NoOverwriteTouchesNothing(
    a: Mine, b: Mine, temp: string, parent: nat, target: string, content: Bytes, k: nat, d: nat, n: string, i: nat)
    requires OnlyPublishesOnce(a, b, temp, parent, target, content, false)
    requires |a.own| <= k < |b.own|
    ensures
      var s := b.own[k];
      && (n != temp && Entry(s.before, d, n).Some? ==> Entry(s.after, d, n) == Entry(s.before, d, n))
      && (i in s.before.nodes && s.before.nodes[i].File? && !(s.temp == Some(i) && NotYetPublished(b, k)) ==>
            i in s.after.nodes && s.after.nodes[i] == s.before.nodes[i])
  {
  }

  /**
   * In either mode, a step after which the target is bound to another file binds it to a file that
   * already holds exactly the content; there is at most one such step, and neither it nor any step of
   * ours behind it changes a file or the target's binding.
   */
  lemma TargetSwapsToCompleteContent(
    a: Mine, b: Mine, temp: string, parent: nat, target: string, content: Bytes, overwrite: bool, k: nat, later: nat)
    requires OnlyPublishesOnce(a, b, temp, parent, target, content, overwrite) && target != temp
    requires |a.own| <= k < |b.own|
    requires
      var s := b.own[k];
      var e := Entry(s.after, parent, target);
      e.Some? && e != Entry(s.before, parent, target) && e.value in s.after.nodes && s.after.nodes[e.value].File?
    ensures
      var s := b.own[k];
      var i := Entry(s.after, parent, target).value;
      && b.published == Some(k)
      && i in s.before.nodes && s.before.nodes[i] == s.after.nodes[i] == File(content)
      && (overwrite || Entry(s.before, parent, target).None?)
      && (k <= later < |b.own| ==> KeepsFiles(b.own[later]))
      && (k < later < |b.own| ==>
            var e := Entry(b.own[later].before, parent, target);
            e.Some? ==> Entry(b.own[later].after, parent, target) == e)
  {
  }

  // ----- A rejected commit that published ----------------------------------------------------

  /** The steps of a commit into an empty directory up to the link: create, write, link. */
  function Linked(temp: string, target: string, content: Bytes): (steps: seq<OwnStep>)
    requires temp != target
  {
    var empty := Fs(map[0 := Dir(map[])], 1);
    var created := Bind(Allocate(empty, File([])), 0, temp, 1);
    var written := SetBytes(created, 1, content);
    var linked := Bind(written, 0, target, 1);
    [OwnStep(empty, created, Some(1)), OwnStep(created, written, Some(1)), OwnStep(written, linked, Some(1))]
  }

  /**
   * Such a sequence: after the link the unlink fails, and so does the one of the cleanup. The commit is
   * rejected as AdapterCommitFailed, its steps are as promised, and the target holds the content.
   */
  lemma RejectedYetPublished(temp: string, target: string, content: Bytes)
    requires temp != target
    ensures
      var steps := Linked(temp, target, content);
      var start := Mine(map[], 0, None, None, [], None);
      var end := Mine(map[], 0, Some(Binding(0, 1)), None, steps, Some(2));
      var fs := steps[2].after;
      && OnlyPublishesOnce(start, end, temp, 0, target, content, false)
      && CommitError(Unexpected) == (AdapterCommitFailed, [CommitFailed])
      && Entry(fs, 0, target) == Some(1) && fs.nodes[1] == File(content)
  {
  }
}
