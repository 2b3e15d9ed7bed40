/**
 * The part of a POSIX file system that the file adapter uses: names bound to inodes, directory
 * descriptors, and other processes that may act before every system call.
 *
 * `link` fails if the new name exists and `rename` replaces it in one step (POSIX.1-2017). The other
 * processes may do anything to the file system except use the random temporary name: they neither
 * bind, remove nor open it, and so cannot reach a file that has no other name yet.
 */
module Kernels {
  import opened Wrappers

  type Bytes = seq<char>

  datatype Node = File(bytes: Bytes) | Dir(entries: map<string, nat>) | Symlink

  /** Inode numbers are handed out in order. */
  datatype Fs = Fs(nodes: map<nat, Node>, limit: nat)

  /** The inode that name `n` is bound to in directory `d`. */
  function Entry(fs: Fs, d: nat, n: string): Option<nat> {
    if d in fs.nodes && fs.nodes[d].Dir? && n in fs.nodes[d].entries then Some(fs.nodes[d].entries[n]) else None
  }

  predicate IsDir(fs: Fs, i: nat) {
    i in fs.nodes && fs.nodes[i].Dir?
  }

  predicate WellFormed(fs: Fs) {
    forall d :: d in fs.nodes ==>
      && d < fs.limit
      && (fs.nodes[d].Dir? ==> forall n :: n in fs.nodes[d].entries ==> fs.nodes[d].entries[n] in fs.nodes)
  }

  function Bind(fs: Fs, d: nat, n: string, i: nat): (out: Fs)
    requires IsDir(fs, d)
    ensures forall e, m :: Entry(out, e, m) == if e == d && m == n then Some(i) else Entry(fs, e, m)
    ensures forall k :: k != d && k in fs.nodes ==> k in out.nodes && out.nodes[k] == fs.nodes[k]
    ensures out.nodes.Keys == fs.nodes.Keys && IsDir(out, d) && out.limit == fs.limit
  {
    fs.(nodes := fs.nodes[d := Dir(fs.nodes[d].entries[n := i])])
  }

  function Unbind(fs: Fs, d: nat, n: string): (out: Fs)
    requires IsDir(fs, d)
    ensures forall e, m :: Entry(out, e, m) == if e == d && m == n then None else Entry(fs, e, m)
    ensures forall k :: k != d && k in fs.nodes ==> k in out.nodes && out.nodes[k] == fs.nodes[k]
    ensures out.nodes.Keys == fs.nodes.Keys && IsDir(out, d) && out.limit == fs.limit
  {
    fs.(nodes := fs.nodes[d := Dir(fs.nodes[d].entries - {n})])
  }

  /** A new inode, not bound yet. */
  function Allocate(fs: Fs, node: Node): (out: Fs)
    requires WellFormed(fs) && (node == File([]) || node == Dir(map[]))
    ensures WellFormed(out) && fs.limit in out.nodes && out.nodes[fs.limit] == node
    ensures forall e, m :: Entry(out, e, m) == Entry(fs, e, m)
    ensures forall k :: k in fs.nodes ==> k in out.nodes && out.nodes[k] == fs.nodes[k]
  {
    Fs(fs.nodes[fs.limit := node], fs.limit + 1)
  }

  /** A new empty directory under a free name. */
  function WithDirectory(fs: Fs, d: nat, n: string): (out: Fs)
    requires WellFormed(fs) && IsDir(fs, d)
    ensures Entry(out, d, n) == Some(fs.limit) && IsDir(out, fs.limit)
    ensures forall m :: Entry(out, fs.limit, m).None?
  {
    Bind(Allocate(fs, Dir(map[])), d, n, fs.limit)
  }

  function SetBytes(fs: Fs, i: nat, bytes: Bytes): (out: Fs)
    requires i in fs.nodes && fs.nodes[i].File?
    ensures forall e, m :: Entry(out, e, m) == Entry(fs, e, m)
    ensures forall k :: k != i && k in fs.nodes ==> k in out.nodes && out.nodes[k] == fs.nodes[k]
    ensures out.nodes.Keys == fs.nodes.Keys && out.nodes[i] == File(bytes) && out.limit == fs.limit
  {
    fs.(nodes := fs.nodes[i := File(bytes)])
  }

  // ----- What is ours ------------------------------------------------------------------------

  /** Where the temporary name is bound. */
  datatype Binding = Binding(dir: nat, ino: nat)

  /** A file that only its temporary name reaches, and what it holds. */
  datatype Private = Private(ino: nat, bytes: Bytes)

  /** One change of ours; `temp` is the inode of our temporary file, if it has been created. */
  datatype OwnStep = OwnStep(before: Fs, after: Fs, temp: Option<nat>)

  /** Descriptors, the temporary file, and the record of our own changes and of the one that published. */
  datatype Mine = Mine(
    open: map<nat, nat>,
    nextFd: nat,
    temp: Option<Binding>,
    private: Option<Private>,
    own: seq<OwnStep>,
    published: Option<nat>)

  /** One step of the other processes. */
  predicate EnvStep(fs: Fs, next: Fs, temp: string, private: Option<Private>) {
    && WellFormed(next)
    && fs.limit <= next.limit
    && (forall i :: i in fs.nodes ==>
          && i in next.nodes
          && (fs.nodes[i].File? <==> next.nodes[i].File?)
          && (fs.nodes[i].Dir? <==> next.nodes[i].Dir?))
    && (forall d :: d in next.nodes ==> Entry(next, d, temp) == Entry(fs, d, temp))
    && (private.Some? && private.value.ino in fs.nodes ==>
          && next.nodes[private.value.ino] == fs.nodes[private.value.ino]
          && forall d :: d in next.nodes && next.nodes[d].Dir? ==>
               forall n :: n in next.nodes[d].entries && n != temp && Entry(fs, d, n) != Some(private.value.ino) ==>
                 next.nodes[d].entries[n] != private.value.ino)
  }

  datatype Stat = Missing | StatFailed | IsSymlink | IsDirectory | IsFile

  datatype Created = Done | Exists | Failed

  class Kernel {
    /** The random temporary name. */
    const temp: string
    var fs: Fs
    var me: Mine
    /** How often one of our calls has failed for no visible reason. */
    ghost var faults: nat
    /** How often that has happened or other processes have acted. */
    ghost var trouble: nat

    constructor (temp: string, fs: Fs)
      requires WellFormed(fs) && forall d :: Entry(fs, d, temp).None?
      ensures Valid() && this.temp == temp && this.fs == fs && me == Mine(map[], 0, None, None, [], None)
      ensures trouble == 0 && faults == 0
    {
      this.temp := temp;
      this.fs := fs;
      me := Mine(map[], 0, None, None, [], None);
      trouble, faults := 0, 0;
    }

    ghost predicate Valid()
      reads this
    {
      && WellFormed(fs)
      && (forall fd :: fd in me.open ==> fd < me.nextFd && me.open[fd] in fs.nodes)
      && (forall d :: Entry(fs, d, temp) ==
            if me.temp.Some? && me.temp.value.dir == d then Some(me.temp.value.ino) else None)
      && (me.private.Some? ==>
            && me.private.value.ino in fs.nodes
            && fs.nodes[me.private.value.ino] == File(me.private.value.bytes)
            && forall d, n :: n != temp ==> Entry(fs, d, n) != Some(me.private.value.ino))
    }

    /** Any number of steps of the other processes. */
    method Interfere()
      requires Valid()
      modifies this`fs, this`trouble
      ensures Valid()
      ensures trouble >= old(trouble) && (trouble == old(trouble) ==> fs == old(fs))
      ensures forall i :: IsDir(old(fs), i) ==> IsDir(fs, i)
    {
      var next: Fs := *;
      if EnvStep(fs, next, temp, me.private) {
        forall d ensures Entry(next, d, temp) == Entry(fs, d, temp) {}
        fs := next;
        trouble := trouble + 1;
      }
    }

    /** Whether a call fails although nothing visible speaks against it. */
    method Faulty() returns (fault: bool)
      modifies this`trouble, this`faults
      ensures faults == old(faults) + (if fault then 1 else 0) && trouble == old(trouble) + (if fault then 1 else 0)
    {
      fault := *;
      if fault {
        trouble, faults := trouble + 1, faults + 1;
      }
    }

    /** A descriptor for inode `i`. */
    method NewFd(i: nat) returns (fd: nat)
      requires Valid() && i in fs.nodes
      modifies this`me
      ensures Valid() && fd == old(me.nextFd) && fd !in old(me.open)
      ensures me == old(me).(open := old(me.open)[fd := i], nextFd := fd + 1)
    {
      fd := me.nextFd;
      me := me.(open := me.open[fd := i], nextFd := fd + 1);
    }

    method Close(fd: nat)
      requires Valid() && fd in me.open
      modifies this
      ensures Valid() && me == old(me).(open := old(me.open) - {fd})
      ensures trouble >= old(trouble) && (trouble == old(trouble) ==> fs == old(fs))
      ensures faults == old(faults) && forall i :: IsDir(old(fs), i) ==> IsDir(fs, i)
    {
      Interfere();
      me := me.(open := me.open - {fd});
    }

    /**
     * Opens a directory; with `nofollow` only if the name itself is bound to one. Without it the
     * descriptor may end up anywhere.
     */
    method OpenDirectoryAt(dir: nat, name: string, nofollow: bool) returns (r: Option<nat>)
      requires Valid() && dir in me.open
      modifies this
      ensures Valid()
      ensures r.None? ==> me == old(me)
      ensures r.Some? ==>
        && r.value !in old(me.open) && r.value in me.open
        && me == old(me).(open := old(me.open)[r.value := me.open[r.value]], nextFd := old(me.nextFd) + 1)
        && IsDir(fs, me.open[r.value])
        && (nofollow ==> Entry(fs, old(me.open)[dir], name) == Some(me.open[r.value]))
      ensures trouble >= old(trouble) && faults >= old(faults)
      ensures trouble == old(trouble) ==> fs == old(fs) && faults == old(faults)
      ensures faults == old(faults) && nofollow ==>
        var e := Entry(fs, old(me.open)[dir], name);
        r.Some? <==> e.Some? && IsDir(fs, e.value)
    {
      Interfere();
      var e := Entry(fs, me.open[dir], name);
      var fault := Faulty();
      if fault {
        return None;
      }
      if e.Some? && IsDir(fs, e.value) {
        var fd := NewFd(e.value);
        return Some(fd);
      }
      if e.Some? && fs.nodes[e.value].Symlink? && !nofollow {
        var elsewhere: nat :| true;
        if IsDir(fs, elsewhere) {
          var fd := NewFd(elsewhere);
          return Some(fd);
        }
      }
      return None;
    }

    method OpenRoot(root: nat) returns (r: Option<nat>)
      requires Valid() && IsDir(fs, root)
      modifies this
      ensures Valid()
      ensures r.None? ==> me == old(me)
      ensures r.Some? ==>
        && r.value !in old(me.open)
        && me == old(me).(open := old(me.open)[r.value := root], nextFd := old(me.nextFd) + 1)
        && IsDir(fs, root)
      ensures trouble >= old(trouble) && faults >= old(faults)
      ensures trouble == old(trouble) ==> fs == old(fs) && faults == old(faults)
      ensures faults == old(faults) ==> r.Some?
    {
      Interfere();
      var fault := Faulty();
      if fault {
        return None;
      }
      var fd := NewFd(root);
      return Some(fd);
    }

    /** lstat */
    method StatAt(dir: nat, name: string) returns (s: Stat)
      requires Valid() && dir in me.open
      modifies this`fs, this`trouble, this`faults
      ensures Valid()
      ensures trouble >= old(trouble) && faults >= old(faults)
      ensures trouble == old(trouble) ==> fs == old(fs) && faults == old(faults)
      ensures faults == old(faults) <==> s != StatFailed
      ensures forall i :: IsDir(old(fs), i) ==> IsDir(fs, i)
      ensures
        var e := Entry(fs, me.open[dir], name);
        match s
        case StatFailed => true
        case Missing => e.None?
        case IsSymlink => e.Some? && fs.nodes[e.value].Symlink?
        case IsDirectory => e.Some? && fs.nodes[e.value].Dir?
        case IsFile => e.Some? && fs.nodes[e.value].File?
    {
      Interfere();
      var e := Entry(fs, me.open[dir], name);
      var fault := Faulty();
      if fault {
        return StatFailed;
      }
      if e.None? {
        return Missing;
      }
      match fs.nodes[e.value]
      case File(_) => return IsFile;
      case Dir(_) => return IsDirectory;
      case Symlink => return IsSymlink;
    }

    method MkdirAt(dir: nat, name: string) returns (r: Created)
      requires Valid() && dir in me.open && name != temp
      modifies this
      ensures Valid()
      ensures r != Done ==> me == old(me)
      ensures r == Done ==>
        |me.own| == |old(me.own)| + 1 &&
        var s := OwnStep(me.own[|old(me.own)|].before, fs, TempInode(old(me)));
        && me == old(me).(own := old(me.own) + [s])
        && Harmless(s, temp)
      ensures trouble >= old(trouble) && faults >= old(faults)
      ensures r == Exists ==> Entry(fs, me.open[dir], name).Some?
      ensures r == Failed && faults == old(faults) ==> !IsDir(fs, me.open[dir])
      ensures trouble == old(trouble) ==> faults == old(faults)
      ensures trouble == old(trouble) && IsDir(old(fs), me.open[dir]) ==>
        if Entry(old(fs), me.open[dir], name).Some? then r == Exists && fs == old(fs)
        else r == Done && fs == WithDirectory(old(fs), me.open[dir], name)
    {
      hide Harmless, WithDirectory;
      Interfere();
      var d := me.open[dir];
      if Entry(fs, d, name).Some? {
        return Exists;
      }
      var fault := Faulty();
      if !IsDir(fs, d) || fault {
        return Failed;
      }
      var before := fs;
      WithDirectoryIsHarmless(before, d, name, TempInode(me), temp);
      fs := WithDirectory(fs, d, name);
      me := me.(own := me.own + [OwnStep(before, fs, TempInode(me))]);
      return Done;
    }

    /** O_CREAT | O_EXCL on the temporary name. */
    method CreateTempAt(dir: nat) returns (r: Option<nat>)
      requires Valid() && dir in me.open && me.temp.None? && me.private.None?
      modifies this
      ensures Valid()
      ensures r.None? ==> me == old(me)
      ensures r.Some? ==>
        && me.private.Some?
        && var i := me.private.value.ino;
        && |me.own| == |old(me.own)| + 1
        && var s := OwnStep(me.own[|old(me.own)|].before, fs, Some(i));
        && r.value !in old(me.open)
        && me == old(me).(
          open := old(me.open)[r.value := i], nextFd := old(me.nextFd) + 1,
          temp := Some(Binding(old(me.open)[dir], i)), private := Some(Private(i, [])), own := old(me.own) + [s])
        && Harmless(s, temp)
      ensures trouble >= old(trouble) && faults >= old(faults)
      ensures faults == old(faults) && IsDir(old(fs), old(me.open)[dir]) ==> r.Some?
      ensures trouble == old(trouble) ==> faults == old(faults)
      ensures trouble == old(trouble) && IsDir(old(fs), old(me.open)[dir]) ==> SameButTemp(old(fs), fs, temp)
    {
      Interfere();
      var d := me.open[dir];
      var fault := Faulty();
      if !IsDir(fs, d) || Entry(fs, d, temp).Some? || fault {
        return None;
      }
      var before := fs;
      var i := before.limit;
      fs := Bind(Allocate(fs, File([])), d, temp, i);
      var step := OwnStep(before, fs, Some(i));
      me := me.(temp := Some(Binding(d, i)), private := Some(Private(i, [])), own := me.own + [step]);
      var fd := NewFd(i);
      return Some(fd);
    }

    /** Writes everything, or fails having written some part. */
    method WriteTemp(fd: nat, bytes: Bytes) returns (ok: bool)
      requires Valid() && fd in me.open && me.private.Some? && me.open[fd] == me.private.value.ino
      modifies this
      ensures Valid()
      ensures me.private.Some? && (ok ==> me.private.value.bytes == bytes)
      ensures
        var i := old(me.private.value.ino);
        |me.own| == |old(me.own)| + 1 &&
        var s := OwnStep(me.own[|old(me.own)|].before, fs, Some(i));
        && me == old(me).(private := Some(Private(i, me.private.value.bytes)), own := old(me.own) + [s])
        && Harmless(s, temp)
      ensures trouble >= old(trouble) && faults >= old(faults) && (faults == old(faults) ==> ok)
      ensures trouble == old(trouble) ==> faults == old(faults) && SameButTemp(old(fs), fs, temp)
    {
      Interfere();
      var before := fs;
      var i := me.private.value.ino;
      var fault := Faulty();
      var written: nat := |bytes|;
      if fault {
        written :| written <= |bytes|;
      }
      ok := !fault;
      fs := SetBytes(fs, i, bytes[..written]);
      me := me.(private := Some(Private(i, bytes[..written])), own := me.own + [OwnStep(before, fs, Some(i))]);
    }

    method OpenFileAt(dir: nat, name: string, nofollow: bool) returns (r: Option<nat>)
      requires Valid() && dir in me.open
      modifies this
      ensures Valid()
      ensures r.None? ==> me == old(me)
      ensures r.Some? ==>
        && r.value !in old(me.open) && r.value in me.open
        && me == old(me).(open := old(me.open)[r.value := me.open[r.value]], nextFd := old(me.nextFd) + 1)
        && (nofollow ==> Entry(fs, old(me.open)[dir], name) == Some(me.open[r.value]))
      ensures trouble >= old(trouble) && faults >= old(faults)
      ensures trouble == old(trouble) ==> fs == old(fs) && faults == old(faults)
      ensures faults == old(faults) && nofollow ==>
        var e := Entry(fs, old(me.open)[dir], name);
        r.Some? <==> e.Some? && !fs.nodes[e.value].Symlink?
    {
      Interfere();
      var e := Entry(fs, me.open[dir], name);
      var fault := Faulty();
      if e.None? || fault {
        return None;
      }
      if !fs.nodes[e.value].Symlink? {
        var fd := NewFd(e.value);
        return Some(fd);
      }
      if !nofollow {
        var elsewhere: nat :| true;
        if elsewhere in fs.nodes {
          var fd := NewFd(elsewhere);
          return Some(fd);
        }
      }
      return None;
    }

    method Read(fd: nat) returns (r: Option<Bytes>)
      requires Valid() && fd in me.open
      modifies this`fs, this`trouble, this`faults
      ensures Valid()
      ensures r.Some? ==> fs.nodes[me.open[fd]] == File(r.value)
      ensures trouble >= old(trouble) && faults >= old(faults)
      ensures trouble == old(trouble) ==> fs == old(fs) && faults == old(faults)
      ensures faults == old(faults) ==> (r.Some? <==> fs.nodes[me.open[fd]].File?)
    {
      Interfere();
      var fault := Faulty();
      if !fs.nodes[me.open[fd]].File? || fault {
        return None;
      }
      return Some(fs.nodes[me.open[fd]].bytes);
    }

    /** rename of the temporary name to `target` in the same directory. */
    method RenameTempAt(dir: nat, target: string) returns (ok: bool)
      requires Valid() && dir in me.open && target != temp && me.private.Some? && me.published.None?
      requires me.temp == Some(Binding(me.open[dir], me.private.value.ino))
      modifies this
      ensures Valid()
      ensures !ok ==> me == old(me)
      ensures ok ==>
        |me.own| == |old(me.own)| + 1 &&
        var s := OwnStep(me.own[|old(me.own)|].before, fs, Some(old(me.private.value.ino)));
        && me == old(me).(temp := None, private := None, own := old(me.own) + [s], published := Some(|old(me.own)|))
        && Publishes(s, temp, old(me.open)[dir], target, old(me.private.value.bytes))
      ensures trouble >= old(trouble) && faults >= old(faults)
      ensures !ok && faults == old(faults) ==>
        var e := Entry(fs, old(me.open)[dir], target);
        e.Some? && IsDir(fs, e.value)
      ensures trouble == old(trouble) ==>
        && faults == old(faults)
        && var e := Entry(old(fs), old(me.open)[dir], target);
        && (ok <==> !(e.Some? && IsDir(old(fs), e.value)))
        && (ok ==> me.own[|old(me.own)|].before == old(fs))
    {
      Interfere();
      var d, i := me.open[dir], me.private.value.ino;
      var fault := Faulty();
      if (Entry(fs, d, target).Some? && IsDir(fs, Entry(fs, d, target).value)) || fault {
        return false;
      }
      assert Entry(fs, d, temp) == Some(i);
      var before := fs;
      fs := Bind(Unbind(fs, d, temp), d, target, i);
      me := me.(temp := None, private := None, own := me.own + [OwnStep(before, fs, Some(i))],
        published := Some(|me.own|));
      return true;
    }

    /** link of the temporary file to `target` in the same directory. */
    method LinkTempAt(dir: nat, target: string) returns (r: Created)
      requires Valid() && dir in me.open && target != temp && me.private.Some? && me.published.None?
      requires me.temp == Some(Binding(me.open[dir], me.private.value.ino))
      modifies this
      ensures Valid()
      ensures r != Done ==> me == old(me)
      ensures r == Done ==>
        |me.own| == |old(me.own)| + 1 &&
        var s := OwnStep(me.own[|old(me.own)|].before, fs, Some(old(me.private.value.ino)));
        && me == old(me).(private := None, own := old(me.own) + [s], published := Some(|old(me.own)|))
        && Publishes(s, temp, old(me.open)[dir], target, old(me.private.value.bytes))
        && Entry(s.before, old(me.open)[dir], target).None?
      ensures trouble >= old(trouble) && faults >= old(faults)
      ensures r == Exists ==> Entry(fs, old(me.open)[dir], target).Some?
      ensures faults == old(faults) ==> r != Failed
      ensures trouble == old(trouble) ==>
        && faults == old(faults)
        && (r == if Entry(old(fs), old(me.open)[dir], target).Some? then Exists else Done)
        && (r == Done ==> me.own[|old(me.own)|].before == old(fs))
    {
      Interfere();
      var d, i := me.open[dir], me.private.value.ino;
      if Entry(fs, d, target).Some? {
        return Exists;
      }
      var fault := Faulty();
      if fault {
        return Failed;
      }
      assert Entry(fs, d, temp) == Some(i);
      var before := fs;
      fs := Bind(fs, d, target, i);
      me := me.(private := None, own := me.own + [OwnStep(before, fs, Some(i))], published := Some(|me.own|));
      return Done;
    }

    /** unlink of the temporary name; it changes no file. */
    method UnlinkTempAt(dir: nat) returns (ok: bool)
      requires Valid() && dir in me.open
      modifies this
      ensures Valid()
      ensures !ok ==> me == old(me)
      ensures ok ==>
        |me.own| == |old(me.own)| + 1 &&
        var s := OwnStep(me.own[|old(me.own)|].before, fs, TempInode(old(me)));
        && me == old(me).(temp := None, private := None, own := old(me.own) + [s])
        && Harmless(s, temp) && KeepsFiles(s)
      ensures trouble >= old(trouble) && faults >= old(faults) && (trouble == old(trouble) ==> faults == old(faults))
      ensures old(me.temp).Some? && old(me.temp).value.dir == old(me.open)[dir] ==>
        && (faults == old(faults) ==> ok)
        && (trouble == old(trouble) ==> ok && me.own[|old(me.own)|].before == old(fs))
    {
      Interfere();
      var d := me.open[dir];
      var fault := Faulty();
      if Entry(fs, d, temp).None? || fault {
        return false;
      }
      var before, i := fs, TempInode(me);
      fs := Unbind(fs, d, temp);
      me := me.(temp := None, private := None, own := me.own + [OwnStep(before, fs, i)]);
      return true;
    }
  }

  lemma WithDirectoryIsHarmless(fs: Fs, d: nat, n: string, i: Option<nat>, temp: string)
    requires WellFormed(fs) && IsDir(fs, d) && Entry(fs, d, n).None? && n != temp
    ensures
      var next := WithDirectory(fs, d, n);
      && WellFormed(next)
      && Harmless(OwnStep(fs, next, i), temp)
      && (forall e, m :: Entry(next, e, m) == if e == d && m == n then Some(fs.limit) else Entry(fs, e, m))
      && (forall k :: k in fs.nodes ==> k in next.nodes && (fs.nodes[k].File? ==> next.nodes[k] == fs.nodes[k]))
  {
  }

  function TempInode(me: Mine): Option<nat> {
    if me.temp.Some? then Some(me.temp.value.ino) else None
  }

  /** Names other than the temporary one are bound as they were, and to nodes of the same kind. */
  ghost predicate SameButTemp(fs: Fs, next: Fs, temp: string) {
    && (forall d, n :: n != temp ==> Entry(next, d, n) == Entry(fs, d, n))
    && (forall i :: i in fs.nodes ==>
          && i in next.nodes
          && (fs.nodes[i].Dir? <==> next.nodes[i].Dir?)
          && (fs.nodes[i].File? <==> next.nodes[i].File?))
  }

  // ----- What one change of ours may do ------------------------------------------------------

  /** No name but the temporary one is removed or rebound, and no file but the temporary one changes. */
  ghost predicate KeepsOthers(s: OwnStep, temp: string) {
    && (forall d, n :: n != temp && Entry(s.before, d, n).Some? ==> Entry(s.after, d, n) == Entry(s.before, d, n))
    && (forall i :: i in s.before.nodes && s.before.nodes[i].File? && s.temp != Some(i) ==>
          i in s.after.nodes && s.after.nodes[i] == s.before.nodes[i])
  }

  /** No file changes, the temporary one included. */
  ghost predicate KeepsFiles(s: OwnStep) {
    forall i :: i in s.before.nodes && s.before.nodes[i].File? ==>
      i in s.after.nodes && s.after.nodes[i] == s.before.nodes[i]
  }

  /** It keeps the others, and a name it adds is the temporary one or is bound to a new directory. */
  ghost predicate Harmless(s: OwnStep, temp: string) {
    && KeepsOthers(s, temp)
    && forall d, n :: n != temp && Entry(s.before, d, n).None? && Entry(s.after, d, n).Some? ==>
         IsDir(s.after, Entry(s.after, d, n).value) && Entry(s.after, d, n).value !in s.before.nodes
  }

  /**
   * One step binds `target` in `parent` to the temporary file, which already holds exactly `content`;
   * nothing else changes but the temporary name.
   */
  ghost predicate Publishes(s: OwnStep, temp: string, parent: nat, target: string, content: Bytes) {
    && s.temp.Some?
    && s.temp.value in s.before.nodes && s.before.nodes[s.temp.value] == File(content)
    && s.temp.value in s.after.nodes && s.after.nodes[s.temp.value] == File(content)
    && Entry(s.after, parent, target) == s.temp
    && (forall d, n :: n != temp && !(d == parent && n == target) ==> Entry(s.after, d, n) == Entry(s.before, d, n))
    && KeepsFiles(s)
  }
}
