/** The Go server's handle table: `files` against the descriptors that are really
    open, for calls one at a time and for calls that interleave. */
module GoTable {
  import opened CData

  /** An *os.File: its identity and the descriptor it was opened with. */
  datatype File = File(id: nat, fd: nat)

  // ---- one call at a time ----

  /** What a completed call did to handles, as its client saw it. */
  datatype Done = DidOpen(file: File) | DidClose(fd: nat)

  /** The handles a client holds after some calls, with the file each came with. */
  function Held(calls: seq<Done>): (held: map<nat, File>) {
    if calls == [] then map[]
    else
      var last := calls[|calls| - 1];
      var before := Held(calls[..|calls| - 1]);
      match last
      case DidOpen(file) => before[file.fd := file]
      case DidClose(fd) => before - {fd}
  }

  class Receiver {
    var files: map<nat, File>
    /** The descriptors the process has open through the service. */
    var os: map<nat, File>
    var nextId: nat
    ghost var calls: seq<Done>

    /** The table holds exactly the open descriptors, and exactly the handles held; no
        two Opens have returned the same file. */
    ghost predicate Valid()
      reads this
    {
      && files == os == Held(calls)
      && (forall fd :: fd in files ==> files[fd].fd == fd)
      && (forall i :: 0 <= i < |calls| && calls[i].DidOpen? ==> calls[i].file.id < nextId)
    }

    constructor ()
      ensures Valid() && calls == []
    {
      files, os, nextId, calls := map[], map[], 0, [];
    }

    /** The operating system gives the file any descriptor `fd` that is not in use. */
    method Open(fd: nat, fails: bool) returns (reply: Option<nat>)
      requires Valid() && fd !in os
      modifies this
      ensures Valid()
      ensures if fails then reply == None && calls == old(calls) && files == old(files)
              else reply == Some(fd) && fd !in old(files) && fd in files && calls == old(calls) + [DidOpen(files[fd])]
      ensures !fails ==> DidOpen(files[fd]) !in old(calls)
    {
      if fails {
        return None;
      }
      var file := File(nextId, fd);
      nextId := nextId + 1;
      os := os[fd := file];
      files := files[file.fd := file];
      calls := calls + [DidOpen(file)];
      assert calls[..|calls| - 1] == old(calls);
      return Some(file.fd);
    }

    /** An unknown handle gives a nil file, whose Close fails; a known one is closed
        and deleted, and no other handle is affected. */
    method Close(fildes: nat) returns (ok: bool)
      requires Valid()
      modifies this
      ensures Valid() && ok == (fildes in old(Held(calls)))
      ensures calls == old(calls) + [DidClose(fildes)]
    {
      ok := fildes in files;
      if ok {
        os := os - {files[fildes].fd};
      }
      files := files - {fildes};
      calls := calls + [DidClose(fildes)];
      assert calls[..|calls| - 1] == old(calls);
    }

    /** The file a handle operation (Read, Write, Lseek, Ftruncate, Fsync) works on. */
    method Find(fildes: nat) returns (file: Option<File>)
      requires Valid()
      ensures file == if fildes in Held(calls) then Some(Held(calls)[fildes]) else None
      ensures file.Some? ==> file.value.fd == fildes && fildes in os && os[fildes] == file.value
    {
      if fildes in files {
        return Some(files[fildes]);
      }
      return None;
    }
  }

  /** A held handle means the file its latest Open returned, and it has not been
      closed since. */
  lemma {:induction false} HeldMeansOpened(calls: seq<Done>, fd: nat)
    ensures fd in Held(calls) <==>
              exists i :: 0 <= i < |calls| && calls[i].DidOpen? && OpenSince(calls, i, fd)
    ensures forall i :: 0 <= i < |calls| && calls[i].DidOpen? && OpenSince(calls, i, fd) ==>
              fd in Held(calls) && Held(calls)[fd] == calls[i].file
  {
    if calls == [] {
    } else {
      var n := |calls| - 1;
      var before := calls[..n];
      HeldMeansOpened(before, fd);
      if fd in Held(calls) {
        var last := calls[n];
        if last.DidOpen? && last.file.fd == fd {
          assert OpenSince(calls, n, fd);
        } else {
          var i :| 0 <= i < |before| && before[i].DidOpen? && OpenSince(before, i, fd);
          assert OpenSince(calls, i, fd);
        }
      }
      forall i | 0 <= i < |calls| && calls[i].DidOpen? && OpenSince(calls, i, fd)
        ensures fd in Held(calls) && Held(calls)[fd] == calls[i].file
      {
        if i < n {
          assert OpenSince(before, i, fd);
        }
      }
    }
  }

  /** Call `i` opened `fd`, and no later call opened or closed it. */
  predicate OpenSince(calls: seq<Done>, i: nat, fd: nat)
    requires i < |calls| && calls[i].DidOpen?
  {
    && calls[i].file.fd == fd
    && forall j :: i < j < |calls| ==> calls[j] != DidClose(fd) && (calls[j].DidOpen? ==> calls[j].file.fd != fd)
  }

  // ---- interleaved calls ----

  /** A call between its steps: the file is open but not in the table; the file was
      found in the table; the file is closed but still in the table; no file was
      found, and the close of nil that follows fails and does nothing. */
  datatype Pending =
    | Opening(fd: nat, file: File)
    | Found(fd: nat, file: File)
    | Closed(fd: nat, file: File)
    | Missing(fd: nat)

  /** `calls` are Opens and Closes under way; `ops` are Reads, Writes, Lseeks,
      Ftruncates and Fsyncs, with what they found in the table. */
  datatype State = State(
    os: map<nat, File>,
    files: map<nat, File>,
    calls: map<nat, Pending>,
    ops: map<nat, Option<File>>)

  datatype Step =
    | OsOpen(r: nat, file: File)
    | Insert(r: nat)
    | Lookup(r: nat, fd: nat)
    | OsClose(r: nat)
    | Delete(r: nat)
    | OpLookup(r: nat, fd: nat)
    | Operate(r: nat)

  /** The file an operation works on: the one it found, while that is open. After its
      close, an operation on it fails, whatever its number stands for by then. */
  function WorksOn(s: State, r: nat): (file: Option<File>)
    requires r in s.ops
  {
    match s.ops[r]
    case Some(f) => if f.fd in s.os && s.os[f.fd] == f then Some(f) else None
    case None => None
  }

  /** A file is a new object: no operation still holds it. */
  predicate CanStep(s: State, step: Step) {
    match step
    case OsOpen(r, file) => r !in s.calls && file.fd !in s.os && (forall q :: q in s.ops ==> s.ops[q] != Some(file))
    case Insert(r) => r in s.calls && s.calls[r].Opening?
    case Lookup(r, fd) => r !in s.calls
    case OsClose(r) => r in s.calls && s.calls[r].Found?
    case Delete(r) => r in s.calls && (s.calls[r].Closed? || s.calls[r].Missing?)
    case OpLookup(r, _) => r !in s.ops
    case Operate(r) => r in s.ops
  }

  function DoStep(s: State, step: Step): (s': State)
    requires CanStep(s, step)
  {
    match step
    case OsOpen(r, file) => s.(os := s.os[file.fd := file], calls := s.calls[r := Opening(file.fd, file)])
    case Insert(r) => s.(files := s.files[s.calls[r].fd := s.calls[r].file], calls := s.calls - {r})
    case Lookup(r, fd) => s.(calls := s.calls[r := if fd in s.files then Found(fd, s.files[fd]) else Missing(fd)])
    case OsClose(r) =>
      var call := s.calls[r];
      s.(os := s.os - {call.file.fd}, calls := s.calls[r := Closed(call.fd, call.file)])
    case Delete(r) => s.(files := s.files - {s.calls[r].fd}, calls := s.calls - {r})
    case OpLookup(r, fd) => s.(ops := s.ops[r := if fd in s.files then Some(s.files[fd]) else None])
    case Operate(r) => s.(ops := s.ops - {r})
  }

  /** Calls on one number do not overlap: a handle, held or not, is closed by one call
      at a time and not while it is being opened, and no file is opened on a number
      that a Close has yet to remove from the table. */
  predicate Removes(call: Pending) {
    call.Closed? || call.Missing?
  }

  predicate Orderly(s: State, step: Step) {
    match step
    case Lookup(_, fd) => forall r :: r in s.calls ==> s.calls[r].fd != fd
    case OsOpen(_, file) => forall r :: r in s.calls && Removes(s.calls[r]) ==> s.calls[r].fd != file.fd
    case _ => true
  }

  ghost predicate BeingOpened(s: State, fd: nat) {
    exists r :: r in s.calls && s.calls[r].Opening? && s.calls[r].fd == fd
  }

  ghost predicate BeingRemoved(s: State, fd: nat) {
    exists r :: r in s.calls && s.calls[r].Closed? && s.calls[r].fd == fd
  }

  predicate CallOk(s: State, call: Pending) {
    && (!call.Missing? ==> call.file.fd == call.fd)
    && match call
       case Opening(fd, file) => fd in s.os && s.os[fd] == file && fd !in s.files
       case Found(fd, file) => fd in s.os && s.os[fd] == file && fd in s.files && s.files[fd] == file
       case Closed(fd, file) => fd !in s.os && fd in s.files
       case Missing(fd) => fd !in s.os && fd !in s.files
  }

  /** Pending calls are about different descriptors, and each is where its step left
      it. */
  predicate CallsOk(s: State) {
    && (forall r :: r in s.calls ==> CallOk(s, s.calls[r]))
    && (forall r, r' :: r in s.calls && r' in s.calls && s.calls[r].fd == s.calls[r'].fd ==> r == r')
  }

  /** Apart from them, the table is what is open. */
  ghost predicate EntriesOk(s: State) {
    && (forall fd {:trigger BeingOpened(s, fd)} :: fd in s.os ==>
          (fd in s.files && s.files[fd] == s.os[fd]) || BeingOpened(s, fd))
    && (forall fd {:trigger BeingRemoved(s, fd)} :: fd in s.files ==> fd in s.os || BeingRemoved(s, fd))
    && (forall fd :: fd in s.files ==> s.files[fd].fd == fd)
  }

  ghost predicate TableOk(s: State) {
    CallsOk(s) && EntriesOk(s)
  }

  lemma StepKeepsCalls(s: State, step: Step)
    requires CallsOk(s) && CanStep(s, step) && Orderly(s, step)
    requires forall fd :: fd in s.files ==> s.files[fd].fd == fd
    requires step.Lookup? ==>
               if step.fd in s.files then step.fd in s.os && s.os[step.fd] == s.files[step.fd] else step.fd !in s.os
    requires step.OsOpen? ==> step.file.fd !in s.files && forall r :: r in s.calls ==> s.calls[r].fd != step.file.fd
    ensures CallsOk(DoStep(s, step))
  {
    match step
    case OsOpen(r, file) =>
    case Insert(r) =>
    case Lookup(r, fd) =>
    case OsClose(r) =>
    case Delete(r) =>
    case _ =>
  }

  lemma StepKeepsOpen(s: State, step: Step)
    requires TableOk(s) && CanStep(s, step)
    ensures var s' := DoStep(s, step);
            forall fd :: fd in s'.os ==> (fd in s'.files && s'.files[fd] == s'.os[fd]) || BeingOpened(s', fd)
  {
    var s' := DoStep(s, step);
    forall fd | fd in s'.os
      ensures (fd in s'.files && s'.files[fd] == s'.os[fd]) || BeingOpened(s', fd)
    {
      if step.OsOpen? && fd == step.file.fd {
        assert s'.calls[step.r] == Opening(fd, step.file);
      } else if BeingOpened(s, fd) {
        var r :| r in s.calls && s.calls[r].Opening? && s.calls[r].fd == fd;
        assert CallOk(s, s.calls[r]);
        assert step == Insert(r) || (r in s'.calls && s'.calls[r] == s.calls[r]);
      }
    }
  }

  lemma StepKeepsFiles(s: State, step: Step)
    requires TableOk(s) && CanStep(s, step)
    ensures var s' := DoStep(s, step);
            forall fd :: fd in s'.files ==> s'.files[fd].fd == fd && (fd in s'.os || BeingRemoved(s', fd))
  {
    var s' := DoStep(s, step);
    forall fd | fd in s'.files
      ensures s'.files[fd].fd == fd && (fd in s'.os || BeingRemoved(s', fd))
    {
      if fd in s.files {
        if BeingRemoved(s, fd) {
          var r :| r in s.calls && s.calls[r].Closed? && s.calls[r].fd == fd;
          assert r in s'.calls && s'.calls[r] == s.calls[r];
        } else if step.OsClose? && s.calls[step.r].fd == fd {
          assert s'.calls[step.r].Closed? && s'.calls[step.r].fd == fd;
        }
      }
    }
  }

  lemma StepKeepsTable(s: State, step: Step)
    requires TableOk(s) && CanStep(s, step) && Orderly(s, step)
    ensures TableOk(DoStep(s, step))
  {
    if step.Lookup? {
      assert !BeingRemoved(s, step.fd) && !BeingOpened(s, step.fd);
    } else if step.OsOpen? {
      assert !BeingRemoved(s, step.file.fd);
    }
    StepKeepsOpen(s, step);
    StepKeepsFiles(s, step);
    StepKeepsCalls(s, step);
  }

  ghost predicate Schedule(s: State, steps: seq<Step>)
    decreases |steps|
  {
    steps == [] || (CanStep(s, steps[0]) && Orderly(s, steps[0]) && Schedule(DoStep(s, steps[0]), steps[1..]))
  }

  ghost function After(s: State, steps: seq<Step>): (s': State)
    requires Schedule(s, steps)
    decreases |steps|
  {
    if steps == [] then s else After(DoStep(s, steps[0]), steps[1..])
  }

  /** INTERLEAVED. After every orderly schedule, a handle in the table that is not
      being removed is open, as the file the table says; and once no call is
      pending, the table is exactly what is open. */
  lemma {:induction false} SchedulesKeepTable(s: State, steps: seq<Step>)
    requires TableOk(s) && Schedule(s, steps)
    ensures var s' := After(s, steps);
            && TableOk(s')
            && (forall fd :: fd in s'.files && fd in s'.os ==> s'.files[fd] == s'.os[fd])
            && (s'.calls == map[] ==> s'.files == s'.os)
    decreases |steps|
  {
    if steps == [] {
      TableIsOs(s);
    } else {
      StepKeepsTable(s, steps[0]);
      SchedulesKeepTable(DoStep(s, steps[0]), steps[1..]);
    }
  }

  lemma TableIsOs(s: State)
    requires TableOk(s)
    ensures forall fd :: fd in s.files && fd in s.os ==> s.files[fd] == s.os[fd]
    ensures s.calls == map[] ==> s.files == s.os
  {
    forall fd | fd in s.files && fd in s.os
      ensures s.files[fd] == s.os[fd]
    {
      assert !BeingOpened(s, fd);
    }
    if s.calls == map[] {
      assert forall fd :: fd in s.files ==> !BeingRemoved(s, fd) && fd in s.os;
      assert forall fd :: fd in s.os ==> !BeingOpened(s, fd) && fd in s.files;
    }
  }

  /** Some Close in the schedule closes the file `f`. */
  ghost predicate Closes(s: State, steps: seq<Step>, f: File)
    requires Schedule(s, steps)
    decreases |steps|
  {
    && steps != []
    && ((steps[0].OsClose? && s.calls[steps[0].r].file == f) || Closes(DoStep(s, steps[0]), steps[1..], f))
  }

  lemma StepKeepsFile(s: State, step: Step, r: nat)
    requires TableOk(s) && CanStep(s, step) && Orderly(s, step) && step != Operate(r)
    requires r in s.ops && s.ops[r].Some?
    ensures var s', f := DoStep(s, step), s.ops[r].value;
            && r in s'.ops && s'.ops[r] == s.ops[r]
            && (WorksOn(s', r) == Some(f) <==>
                  WorksOn(s, r) == Some(f) && !(step.OsClose? && s.calls[step.r].file == f))
  {
    if step.OsClose? {
      assert CallOk(s, s.calls[step.r]);
    }
  }

  /** OPERATIONS. An operation that found the file `f` works on `f` if and only if it
      was open then and no Close has closed it since; it never works on another file,
      whatever becomes of the handle and its number in between. */
  lemma {:induction false} OperatesOnItsFileIff(s: State, steps: seq<Step>, r: nat)
    requires TableOk(s) && Schedule(s, steps) && Operate(r) !in steps
    requires r in s.ops && s.ops[r].Some?
    ensures var s', f := After(s, steps), s.ops[r].value;
            && r in s'.ops
            && (WorksOn(s', r) == Some(f) <==> WorksOn(s, r) == Some(f) && !Closes(s, steps, f))
            && (WorksOn(s', r) != Some(f) ==> WorksOn(s', r) == None)
    decreases |steps|
  {
    if steps != [] {
      StepKeepsFile(s, steps[0], r);
      StepKeepsTable(s, steps[0]);
      OperatesOnItsFileIff(DoStep(s, steps[0]), steps[1..], r);
    }
  }

  /** What an operation finds for a number is what the table has for it: no file if
      it has none, else the file with that number, whatever other calls are doing. */
  lemma LookupFindsItsNumber(s: State, r: nat, fd: nat)
    requires TableOk(s) && CanStep(s, OpLookup(r, fd))
    ensures var s' := DoStep(s, OpLookup(r, fd));
            && s' == s.(ops := s'.ops) && s'.ops - {r} == s.ops - {r}
            && r in s'.ops && (s'.ops[r].Some? <==> fd in s.files)
            && (fd in s.files ==> s'.ops[r] == Some(s.files[fd]) && s.files[fd].fd == fd)
            && (WorksOn(s', r).Some? ==> WorksOn(s', r).value.fd == fd)
            && (fd !in s.files ==> WorksOn(s', r) == None)
  {
    assert (s.ops[r := if fd in s.files then Some(s.files[fd]) else None]) - {r} == s.ops - {r};
  }

  /** It never works on a file with another number, however long it waits. */
  lemma {:induction false} NeverAnotherNumber(s: State, r: nat, fd: nat, steps: seq<Step>)
    requires TableOk(s) && CanStep(s, OpLookup(r, fd))
    requires Schedule(DoStep(s, OpLookup(r, fd)), steps) && Operate(r) !in steps
    ensures var s' := After(DoStep(s, OpLookup(r, fd)), steps);
            && r in s'.ops
            && (WorksOn(s', r).Some? ==> fd in s.files && WorksOn(s', r).value == s.files[fd] && s.files[fd].fd == fd)
  {
    LookupFindsItsNumber(s, r, fd);
    OpKeeps(DoStep(s, OpLookup(r, fd)), r, steps);
  }

  lemma {:induction false} OpKeeps(s: State, r: nat, steps: seq<Step>)
    requires Schedule(s, steps) && Operate(r) !in steps && r in s.ops
    ensures r in After(s, steps).ops && After(s, steps).ops[r] == s.ops[r]
    decreases |steps|
  {
    if steps != [] {
      OpKeeps(DoStep(s, steps[0]), r, steps[1..]);
    }
  }

  // ---- calls that nobody interrupts ----

  lemma Last(s: State, step: Step)
    requires CanStep(s, step) && Orderly(s, step)
    ensures Schedule(s, [step]) && After(s, [step]) == DoStep(s, step)
  {
    var rest := [step][1..];
    assert rest == [] && After(DoStep(s, step), rest) == DoStep(s, step);
  }

  lemma First(s: State, step: Step, rest: seq<Step>)
    requires CanStep(s, step) && Orderly(s, step) && Schedule(DoStep(s, step), rest)
    ensures Schedule(s, [step] + rest) && After(s, [step] + rest) == After(DoStep(s, step), rest)
  {
    assert ([step] + rest)[1..] == rest;
  }

  /** An Open is two steps, and leaves its file in the table and nothing pending. */
  lemma OpenAlone(s: State, r: nat, file: File)
    requires TableOk(s) && r !in s.calls && file.fd !in s.os
    requires forall q :: q in s.ops ==> s.ops[q] != Some(file)
    requires forall q :: q in s.calls ==> s.calls[q].fd != file.fd
    ensures var steps := [OsOpen(r, file)] + [Insert(r)];
            && Schedule(s, steps)
            && After(s, steps) == s.(os := s.os[file.fd := file], files := s.files[file.fd := file])
  {
    var s1 := DoStep(s, OsOpen(r, file));
    Last(s1, Insert(r));
    First(s, OsOpen(r, file), [Insert(r)]);
    assert s1.calls - {r} == s.calls;
  }

  /** A Close of a held handle is three, and takes the file away. */
  lemma CloseAlone(s: State, r: nat, fd: nat)
    requires TableOk(s) && r !in s.calls && fd in s.files
    requires forall q :: q in s.calls ==> s.calls[q].fd != fd
    ensures var steps := [Lookup(r, fd)] + ([OsClose(r)] + [Delete(r)]);
            && Schedule(s, steps)
            && After(s, steps) == s.(os := s.os - {fd}, files := s.files - {fd})
  {
    var s1 := DoStep(s, Lookup(r, fd));
    var s2 := DoStep(s1, OsClose(r));
    Last(s2, Delete(r));
    First(s1, OsClose(r), [Delete(r)]);
    First(s, Lookup(r, fd), [OsClose(r)] + [Delete(r)]);
    assert s2.calls - {r} == s.calls;
  }

  /** A Close of an unknown handle is two, and changes nothing. */
  lemma StrayCloseAlone(s: State, r: nat, fd: nat)
    requires TableOk(s) && r !in s.calls && fd !in s.files
    requires forall q :: q in s.calls ==> s.calls[q].fd != fd
    ensures Schedule(s, [Lookup(r, fd)] + [Delete(r)]) && After(s, [Lookup(r, fd)] + [Delete(r)]) == s
  {
    var s1 := DoStep(s, Lookup(r, fd));
    Last(s1, Delete(r));
    First(s, Lookup(r, fd), [Delete(r)]);
    assert s1.calls - {r} == s.calls && s.files - {fd} == s.files;
  }

  /** An operation looks up and operates, and leaves the table alone. */
  lemma OperationAlone(s: State, r: nat, fd: nat)
    requires r !in s.ops
    ensures var steps := [OpLookup(r, fd)] + [Operate(r)]; Schedule(s, steps) && After(s, steps) == s
  {
    var s1 := DoStep(s, OpLookup(r, fd));
    Last(s1, Operate(r));
    First(s, OpLookup(r, fd), [Operate(r)]);
    assert s1.ops - {r} == s.ops;
  }

  /** Whatever is pending can go on. */
  lemma PendingGoesOn(s: State, r: nat)
    ensures r in s.calls ==>
              var step := match s.calls[r]
                          case Opening(_, _) => Insert(r)
                          case Found(_, _) => OsClose(r)
                          case _ => Delete(r);
              CanStep(s, step) && Orderly(s, step)
    ensures r in s.ops ==> CanStep(s, Operate(r)) && Orderly(s, Operate(r))
  {
  }

  /** On a handle that no Close is removing, an operation finds an open file. */
  lemma LookupFindsOpen(s: State, r: nat, fd: nat)
    requires TableOk(s) && CanStep(s, OpLookup(r, fd)) && fd in s.files && !BeingRemoved(s, fd)
    ensures var s' := DoStep(s, OpLookup(r, fd));
            s'.ops[r] == Some(s.files[fd]) && WorksOn(s', r) == Some(s.files[fd])
  {
    assert fd in s.os;
    assert !BeingOpened(s, fd);
  }

  /** LATE DELETE. Between the close of file `a` and its removal from the table,
      another client's Open gets the new file `b`. The table still matches what is
      open if and only if `b` did not get `a`'s descriptor. */
  lemma LateDeleteIff(s: State, a: File, b: File)
    requires TableOk(s) && s.calls == map[] && a.fd in s.files && s.files[a.fd] == a
    requires b.fd !in s.os - {a.fd} && forall q :: q in s.ops ==> s.ops[q] != Some(b)
    ensures
      var s1 := DoStep(s, Lookup(0, a.fd));
      var s2 := DoStep(s1, OsClose(0));
      CanStep(s2, OsOpen(1, b)) &&
      var s3 := DoStep(s2, OsOpen(1, b));
      var s4 := DoStep(s3, Insert(1));
      CanStep(s4, Delete(0)) &&
      var s5 := DoStep(s4, Delete(0));
      s5.calls == map[] && (s5.files == s5.os <==> b.fd != a.fd)
  {
    TableIsOs(s);
    var s1 := DoStep(s, Lookup(0, a.fd));
    var s2 := DoStep(s1, OsClose(0));
    var s3 := DoStep(s2, OsOpen(1, b));
    var s4 := DoStep(s3, Insert(1));
    var s5 := DoStep(s4, Delete(0));
    assert s5.calls == map[];
    assert s5.os == (s.os - {a.fd})[b.fd := b];
    assert s5.files == s.files[b.fd := b] - {a.fd};
    if b.fd != a.fd {
      assert s5.files == s5.os;
    } else {
      assert b.fd in s5.os && b.fd !in s5.files;
    }
  }

  /** STRAY DELETE. Between a Close's looking in vain for the handle `fd` and its
      delete, another client's Open gets the new file `b`. The table still matches
      what is open if and only if `b` did not get that number. */
  lemma StrayDeleteIff(s: State, fd: nat, b: File)
    requires TableOk(s) && s.calls == map[] && fd !in s.files && b.fd !in s.os
    requires forall q :: q in s.ops ==> s.ops[q] != Some(b)
    ensures
      var s1 := DoStep(s, Lookup(0, fd));
      CanStep(s1, OsOpen(1, b)) &&
      var s2 := DoStep(s1, OsOpen(1, b));
      var s3 := DoStep(s2, Insert(1));
      CanStep(s3, Delete(0)) &&
      var s4 := DoStep(s3, Delete(0));
      s4.calls == map[] && (s4.files == s4.os <==> b.fd != fd)
  {
    TableIsOs(s);
    var s1 := DoStep(s, Lookup(0, fd));
    var s2 := DoStep(s1, OsOpen(1, b));
    var s3 := DoStep(s2, Insert(1));
    var s4 := DoStep(s3, Delete(0));
    assert s4.calls == map[];
    assert s4.os == s.os[b.fd := b];
    assert s4.files == s.files[b.fd := b] - {fd};
    if b.fd != fd {
      assert s4.files == s4.os;
    } else {
      assert b.fd in s4.os && b.fd !in s4.files;
    }
  }
}
