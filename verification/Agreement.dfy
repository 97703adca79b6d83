/** One more call, through the stubs or directly, keeps the two machines in
    agreement. */
module Agreement {
  import opened CData
  import opened Calls
  import opened Kernel
  import opened Routing
  import opened Direct

  lemma LiveExtends(log: seq<Event>, e: Event)
    ensures Live(log + [e]) == LiveAfter(Live(log), |log|, e)
  {
    assert (log + [e])[..|log|] == log;
  }

  /** An event that leaves both descriptor tables and the live handles alone. */
  lemma QuietEvent(log: seq<Event>, e: Event, d: Direct, d': Direct, k: Kernel, k': Kernel)
    requires Agrees(log, d, k)
    requires Live(log + [e]) == Live(log)
    requires |d'.rets| == |d.rets| + 1 && d'.rets[..|d.rets|] == d.rets && SameRet(e, d'.rets[|d.rets|])
    requires k'.table == k.table && d'.remote.table == d.remote.table
    requires k'.world == d'.remote.world && k'.world.nextOfd == k.world.nextOfd
    requires k'.limit == k.limit && d'.local.limit == d.local.limit
    ensures Agrees(log + [e], d', k')
  {
    var live := Live(log);
    forall i | i in live
      ensures LinkedAt(i, live, log + [e], d', k')
    {
      assert LinkedAt(i, live, log, d, k);
      assert d'.rets[i] == d'.rets[..|d.rets|][i];
    }
    forall i | 0 <= i < |log|
      ensures SameRet((log + [e])[i], d'.rets[i])
    {
      assert d'.rets[i] == d'.rets[..|d.rets|][i];
    }
    forall fd | fd in d'.remote.table && d'.remote.table[fd].File?
      ensures HasOpened(live, d'.rets, fd)
    {
      assert HasOpened(live, d.rets, fd);
      var i :| i in live && i < |d.rets| && d.rets[i] == Opened(There(fd));
      assert d'.rets[i] == d'.rets[..|d.rets|][i];
    }
  }

  /** Two kernels with the same world do the same to it, for the same open file. */
  lemma SameFileCall(k: Kernel, r: Kernel, c: Call, fd: int, fd': int, room: bool)
    requires HasFd(c) && !c.Close? && ArgsOk(c) && k.world == r.world
    requires fd in k.table && k.table[fd].File? && fd' in r.table && r.table[fd'] == k.table[fd]
    ensures var (k1, ret) := Sys(k, c.(fd := fd));
            var (r1, ret') := SysWith(r, c.(fd := fd'), room);
            && ret == ret' && k1.world == r1.world && k1.world.nextOfd == k.world.nextOfd
            && k1.table == k.table && r1.table == r.table && k1.limit == k.limit && r1.limit == r.limit
  {
    var o := k.table[fd].ofd;
    FileCallIgnoresFd(k.world, o, c.(fd := fd), c.(fd := fd'));
  }

  lemma FileCallIgnoresFd(w: World, o: nat, c: Call, c': Call)
    requires HasFd(c) && HasFd(c') && ArgsOk(c) && ArgsOk(c') && c' == c.(fd := c'.fd)
    ensures FileCall(w, o, c) == FileCall(w, o, c')
  {
  }

  /** `read`, `write`, `lseek`, `ftruncate`, `fstat` and `fsync` on a live handle. */
  lemma FileEvent(log: seq<Event>, d: Direct, k: Kernel, a: Action)
    requires Agrees(log, d, k) && WellBehaved(log, a)
    requires HasFd(a.call) && !a.call.Close? && IsHandle(Resolve(log, a.ref))
    ensures var (k', r) := Serve(k, Actual(log, a));
            var e := Event(a, r, Ran(HasRoom(k)));
            Agrees(log + [e], DirectStep(d, a, e.outcome), k')
  {
    var i := a.ref.k;
    assert LinkedAt(i, Live(log), log, d, k);
    var c := a.call;
    var fd, fd' := Handle(Live(log)[i]), d.rets[i].at.n;
    SameFileCall(k, d.remote, c, fd, fd', HasRoom(k));
    var (k', r) := Serve(k, Actual(log, a));
    assert (k', r) == Sys(k, c.(fd := fd));
    var e := Event(a, r, Ran(HasRoom(k)));
    LiveExtends(log, e);
    QuietEvent(log, e, d, DirectStep(d, a, e.outcome), k, k');
  }

  lemma PathEvent(log: seq<Event>, d: Direct, k: Kernel, a: Action)
    requires Agrees(log, d, k) && WellBehaved(log, a)
    requires !HasFd(a.call) && !a.call.Open? && GoesRemote(a.call)
    ensures var (k', r) := Serve(k, OnTheWire(Actual(log, a)));
            var e := Event(a, r, Ran(HasRoom(k)));
            Agrees(log + [e], DirectStep(d, a, e.outcome), k')
  {
    var (k', r) := Serve(k, OnTheWire(Actual(log, a)));
    var e := Event(a, r, Ran(HasRoom(k)));
    LiveExtends(log, e);
    QuietEvent(log, e, d, DirectStep(d, a, e.outcome), k, k');
  }

  lemma FailedOpenEvent(log: seq<Event>, d: Direct, k: Kernel, a: Action)
    requires Agrees(log, d, k) && WellBehaved(log, a)
    requires a.call.Open? && GoesRemote(a.call)
    requires Serve(k, OnTheWire(Actual(log, a))).1.v < 0
    ensures var (k', r) := Serve(k, OnTheWire(Actual(log, a)));
            var e := Event(a, r, Ran(HasRoom(k)));
            Agrees(log + [e], DirectStep(d, a, e.outcome), k')
  {
    var (k', r) := Serve(k, OnTheWire(Actual(log, a)));
    var e := Event(a, r, Ran(HasRoom(k)));
    assert Actual(log, a) == a.call;
    LiveExtends(log, e);
    QuietEvent(log, e, d, DirectStep(d, a, e.outcome), k, k');
  }

  /** A new file: both tables gain an entry for one new open file description. */
  lemma OpenedEvent(log: seq<Event>, e: Event, d: Direct, d': Direct, k: Kernel, k': Kernel, o: nat)
    requires Agrees(log, d, k) && e.action.call.Open?
    requires var fd, fd' := LowestFree(k), LowestFree(d.remote);
             && fd <= INT_MAX / 2 && e.ret == Int(Handle(fd))
             && k'.table == k.table[fd := File(o)] && d'.remote.table == d.remote.table[fd' := File(o)]
             && d'.rets == d.rets + [Opened(There(fd'))]
    requires o == k.world.nextOfd && k'.world.nextOfd == o + 1
    requires k'.world == d'.remote.world
    requires k'.limit == k.limit && d'.local.limit == d.local.limit
    requires FilesOk(k') && FilesOk(d'.remote)
    ensures Agrees(log + [e], d', k')
  {
    LiveExtends(log, e);
    var live, live' := Live(log), Live(log + [e]);
    forall i | i in live'
      ensures LinkedAt(i, live', log + [e], d', k')
    {
      if i != |log| {
        assert LinkedAt(i, live, log, d, k);
      }
    }
    forall i | i in live
      ensures live[i] != live'[|log|]
    {
      assert LinkedAt(i, live, log, d, k);
    }
    OpenedCovers(log, e, d, d', k, k', o);
  }

  lemma OpenedCovers(log: seq<Event>, e: Event, d: Direct, d': Direct, k: Kernel, k': Kernel, o: nat)
    requires Agrees(log, d, k)
    requires Live(log + [e]) == Live(log)[|log| := Handle(LowestFree(k))]
    requires k'.table == k.table[LowestFree(k) := File(o)]
    requires d'.remote.table == d.remote.table[LowestFree(d.remote) := File(o)]
    requires d'.rets == d.rets + [Opened(There(LowestFree(d.remote)))]
    ensures var live' := Live(log + [e]);
            && (forall fd {:trigger HasHandle(live', fd)} ::
                  fd in k'.table && k'.table[fd].File? ==> HasHandle(live', fd))
            && (forall fd {:trigger HasOpened(live', d'.rets, fd)} ::
                  fd in d'.remote.table && d'.remote.table[fd].File? ==> HasOpened(live', d'.rets, fd))
  {
    var live, live' := Live(log), Live(log + [e]);
    assert |log| in live';
    forall fd | fd in k'.table && k'.table[fd].File?
      ensures HasHandle(live', fd)
    {
      if fd != LowestFree(k) {
        assert HasHandle(live, fd);
        var i :| i in live && live[i] == Handle(fd);
        assert LinkedAt(i, live, log, d, k);
        assert i in live' && live'[i] == Handle(fd);
      }
    }
    forall fd | fd in d'.remote.table && d'.remote.table[fd].File?
      ensures HasOpened(live', d'.rets, fd)
    {
      if fd == LowestFree(d.remote) {
        assert d'.rets[|log|] == Opened(There(fd));
      } else {
        assert HasOpened(live, d.rets, fd);
        var i :| i in live && i < |d.rets| && d.rets[i] == Opened(There(fd));
        assert i in live' && d'.rets[i] == Opened(There(fd));
      }
    }
  }

  lemma OpenEvent(log: seq<Event>, d: Direct, k: Kernel, a: Action)
    requires Agrees(log, d, k) && WellBehaved(log, a)
    requires a.call.Open? && GoesRemote(a.call)
    ensures var (k', r) := Serve(k, OnTheWire(Actual(log, a)));
            var e := Event(a, r, Ran(HasRoom(k)));
            Agrees(log + [e], DirectStep(d, a, e.outcome), k')
  {
    var (k', r) := Serve(k, OnTheWire(Actual(log, a)));
    if r.v < 0 {
      FailedOpenEvent(log, d, k, a);
    } else {
      assert Actual(log, a) == a.call;
      var e := Event(a, r, Ran(HasRoom(k)));
      SysKeepsFilesOk(k, OnTheWire(a.call), HasRoom(k));
      SysKeepsFilesOk(d.remote, OnTheWire(a.call), HasRoom(k));
      OpenedEvent(log, e, d, DirectStep(d, a, e.outcome), k, k', k.world.nextOfd);
    }
  }

  /** A closed handle takes its entry out of both tables and touches no other. */
  lemma CloseEvent(log: seq<Event>, d: Direct, k: Kernel, a: Action)
    requires Agrees(log, d, k) && WellBehaved(log, a)
    requires a.call.Close? && IsHandle(Resolve(log, a.ref))
    ensures var (k', r) := Serve(k, Actual(log, a));
            var e := Event(a, r, Ran(HasRoom(k)));
            Agrees(log + [e], DirectStep(d, a, e.outcome), k')
  {
    var i := a.ref.k;
    var live := Live(log);
    assert LinkedAt(i, live, log, d, k);
    var fd, fd' := Handle(live[i]), d.rets[i].at.n;
    var (k', r) := Serve(k, Actual(log, a));
    assert (k', r) == Sys(k, Close(fd));
    var e := Event(a, r, Ran(HasRoom(k)));
    var d' := DirectStep(d, a, e.outcome);
    LiveExtends(log, e);
    assert Live(log + [e]) == live - {i};
    assert k'.table == k.table - {fd} && d'.remote.table == d.remote.table - {fd'};
    ClosedLinks(log, e, d, d', k, k', i);
  }

  lemma ClosedLinks(log: seq<Event>, e: Event, d: Direct, d': Direct, k: Kernel, k': Kernel, i: nat)
    requires Agrees(log, d, k)
    requires i in Live(log) && Live(log + [e]) == Live(log) - {i} && i < |d.rets| && d.rets[i].Opened?
    requires k'.table == k.table - {Handle(Live(log)[i])}
    requires d'.remote.table == d.remote.table - {d.rets[i].at.n}
    requires |d'.rets| == |d.rets| + 1 && d'.rets[..|d.rets|] == d.rets
    ensures Linked(Live(log + [e]), log + [e], d', k')
  {
    var live, live' := Live(log), Live(log + [e]);
    assert LinkedAt(i, live, log, d, k);
    assert forall j :: 0 <= j < |d.rets| ==> d'.rets[j] == d'.rets[..|d.rets|][j];
    forall j | j in live'
      ensures LinkedAt(j, live', log + [e], d', k')
    {
      assert LinkedAt(j, live, log, d, k);
      assert live[j] != live[i];
      assert k.table[Handle(live[j])] != k.table[Handle(live[i])];
      assert d.rets[j].at.n != d.rets[i].at.n;
    }
    forall fd | fd in k'.table && k'.table[fd].File?
      ensures HasHandle(live', fd)
    {
      assert HasHandle(live, fd);
      var j :| j in live && live[j] == Handle(fd);
      assert j in live';
    }
    forall fd | fd in d'.remote.table && d'.remote.table[fd].File?
      ensures HasOpened(live', d'.rets, fd)
    {
      assert HasOpened(live, d.rets, fd);
      var j :| j in live && j < |d.rets| && d.rets[j] == Opened(There(fd));
      assert j in live';
      assert d'.rets[j] == Opened(There(fd));
    }
  }

  /** Running a well-behaved remote call in the handler matches running it directly. */
  lemma RemoteEvent(log: seq<Event>, d: Direct, k: Kernel, a: Action)
    requires Agrees(log, d, k) && WellBehaved(log, a) && GoesRemote(Actual(log, a))
    ensures var (k', r) := Serve(k, OnTheWire(Actual(log, a)));
            var e := Event(a, r, Ran(HasRoom(k)));
            Agrees(log + [e], DirectStep(d, a, e.outcome), k')
  {
    if a.call.Open? {
      OpenEvent(log, d, k, a);
    } else if a.call.Close? {
      CloseEvent(log, d, k, a);
    } else if HasFd(a.call) {
      FileEvent(log, d, k, a);
    } else {
      PathEvent(log, d, k, a);
    }
  }

  /** Both machines name the same descriptor, a handle on the one being a remote
      descriptor on the other. */
  lemma SameTarget(log: seq<Event>, d: Direct, a: Action)
    requires RetsMatch(log, d) && ActionOk(a) && HasFd(a.call)
    ensures IsHandle(Resolve(log, a.ref)) <==> Target(d, a.ref).There?
    ensures !IsHandle(Resolve(log, a.ref)) ==> Target(d, a.ref) == Here(Resolve(log, a.ref))
  {
    if a.ref.FromOpen? && a.ref.k < |log| {
      assert SameRet(log[a.ref.k], d.rets[a.ref.k]);
    }
  }

  lemma RemoteLeavesLocal(log: seq<Event>, d: Direct, k: Kernel, a: Action, out: Outcome)
    requires Agrees(log, d, k) && WellBehaved(log, a) && GoesRemote(Actual(log, a))
    ensures DirectStep(d, a, out).local == d.local
  {
    if HasFd(a.call) {
      SameTarget(log, d, a);
    }
  }

  lemma LiveIsHandle(log: seq<Event>, d: Direct, k: Kernel, i: nat)
    requires Agrees(log, d, k)
    ensures i in Live(log) ==> IsHandle(Resolve(log, FromOpen(i)))
  {
    if i in Live(log) {
      assert LinkedAt(i, Live(log), log, d, k);
    }
  }

  /** A local call, run by the hook on the client's kernel. */
  lemma LocalEvent(log: seq<Event>, d: Direct, k: Kernel, a: Action)
    requires Agrees(log, d, k) && WellBehaved(log, a) && !GoesRemote(Actual(log, a))
    ensures var (l, r) := Sys(d.local, Actual(log, a));
            var e := Event(a, r, Ran(true));
            && Agrees(log + [e], DirectStep(d, a, e.outcome), k)
            && DirectStep(d, a, e.outcome).local == l
            && DirectStep(d, a, e.outcome).remote == d.remote
  {
    var c := Actual(log, a);
    if HasFd(c) {
      SameTarget(log, d, a);
    }
    SysFits(d.local, c);
    var (l, r) := Sys(d.local, c);
    var e := Event(a, r, Ran(true));
    assert DirectStep(d, a, e.outcome) == OnLocal(d, c);
    LiveExtends(log, e);
    if a.ref.FromOpen? {
      LiveIsHandle(log, d, k, a.ref.k);
    }
    assert LiveAfter(Live(log), |log|, e) == Live(log);
    QuietEvent(log, e, d, OnLocal(d, c), k, k);
  }

  /** A remote call whose connection is refused fails and changes nothing. */
  lemma RefusedEvent(log: seq<Event>, d: Direct, k: Kernel, a: Action)
    requires Agrees(log, d, k) && WellBehaved(log, a) && GoesRemote(Actual(log, a))
    ensures var e := Event(a, Failed(a.call), Refused);
            && Agrees(log + [e], DirectStep(d, a, Refused), k)
            && DirectStep(d, a, Refused).local == d.local
            && DirectStep(d, a, Refused).remote == d.remote
  {
    var e := Event(a, Failed(a.call), Refused);
    if HasFd(a.call) {
      SameTarget(log, d, a);
    }
    LiveExtends(log, e);
    QuietEvent(log, e, d, DirectStep(d, a, Refused), k, k);
  }

  /** Sockets coming and going in the server's table do not matter. */
  lemma SocketsDoNotMatter(log: seq<Event>, d: Direct, k: Kernel, k': Kernel)
    requires Agrees(log, d, k)
    requires SameFiles(k, k')
    ensures Agrees(log, d, k')
  {
    var live := Live(log);
    forall i | i in live
      ensures LinkedAt(i, live, log, d, k')
    {
      assert LinkedAt(i, live, log, d, k);
      assert k.table[Handle(live[i])] == File(k.table[Handle(live[i])].ofd);
    }
    forall fd | fd in k'.table && k'.table[fd].File?
      ensures HasHandle(live, fd) && k'.table[fd].ofd < k'.world.nextOfd
    {
      assert k'.table[fd] == File(k'.table[fd].ofd);
      assert HasHandle(live, fd);
    }
    assert FilesOk(k') by {
      forall fd, fd' | fd in k'.table && fd' in k'.table && k'.table[fd].File? && k'.table[fd] == k'.table[fd']
        ensures fd == fd'
      {
        assert k'.table[fd] == File(k'.table[fd].ofd);
        assert k.table[fd] == k.table[fd'];
      }
    }
  }
}
