/** What holds of every run of one client and the server. */
module Results {
  import opened CData
  import opened Calls
  import opened Kernel
  import opened Routing
  import opened Wire
  import opened Server
  import opened ServerInv
  import ServerSteps
  import opened Direct
  import opened System
  import opened Transparency

  lemma InitialOk(s: System)
    requires Initial(s)
    ensures SysInv(s, DirectOf(s))
  {
    assert ThreadsOk(s.server);
    assert AllApart(s.server);
    assert SocketsOk(s.server);
    assert HeapOk(s.server);
    assert SlotsOk(s.server);
    assert JobAt(s.server, s.job);
    assert Linked(Live(s.log), s.log, DirectOf(s), s.server.kernel);
    assert FilesOk(s.server.kernel);
    assert Agrees(s.log, DirectOf(s), s.server.kernel);
  }

  lemma StepKeeps(s: System, d0: Direct, step: SysStep)
    requires SysInv(s, d0) && SysEnabled(s, step) && !step.EndOfStream?
    ensures SysInv(SysApply(s, step), d0)
  {
    match step
    case LocalCall(a) => LocalKeeps(s, d0, a);
    case RefusedCall(a) => RefusedKeeps(s, d0, a);
    case SendCall(a) => SendKeeps(s, d0, a);
    case ServerStep(step) => ServerStepKeeps(s, d0, step);
    case ReceiveReply => ReceiveKeeps(s, d0);
    case ConnectionReset => ResetKeeps(s, d0);
  }

  lemma {:induction false} RunKeeps(s: System, d0: Direct, steps: seq<SysStep>)
    requires SysInv(s, d0) && SysValid(s, steps) && NoEndOfStream(steps)
    ensures SysInv(SysRun(s, steps), d0)
    decreases |steps|
  {
    if steps != [] {
      StepKeeps(s, d0, steps[0]);
      RunKeeps(SysApply(s, steps[0]), d0, steps[1..]);
    }
  }

  /** What holds of every run, made-up results included. */
  ghost predicate Reached(s: System, d0: Direct) {
    SysInv(s, d0) || Ended(s)
  }

  lemma {:induction false} AnyRunKeeps(s: System, d0: Direct, steps: seq<SysStep>)
    requires Reached(s, d0) && SysValid(s, steps)
    ensures Reached(SysRun(s, steps), d0)
    decreases |steps|
  {
    if steps != [] {
      var step := steps[0];
      if Ended(s) {
        EndedStays(s, step);
      } else if step.EndOfStream? {
        EndEnds(s, d0, step.junk);
      } else {
        StepKeeps(s, d0, step);
      }
      AnyRunKeeps(SysApply(s, step), d0, steps[1..]);
    }
  }

  /** While a call is outstanding, the server's files are as before it or as after. */
  ghost predicate MidCall(s: System, d: Direct)
    requires s.pc.Waiting?
  {
    || s.server.kernel.world == d.remote.world
    || exists room :: ActionOk(s.pc.action)
                      && s.server.kernel.world == DirectStep(d, s.pc.action, Ran(room)).remote.world
  }

  /** `s` is as if its logged calls had been made directly, from `s0`: every result
      the same, a handle standing for a descriptor on the server's machine; between
      calls, the client's kernel the same to the last descriptor, the server's files
      the same, and live handles, the server's file descriptors and the direct
      machine's in bijection. */
  ghost predicate AsIfDirect(s0: System, s: System) {
    && LogOk(s.log)
    && var d := RunDirect(DirectOf(s0), s.log);
       && RetsMatch(s.log, d)
       && (if s.pc.Idle? then
             && s.local == d.local
             && s.server.kernel.world == d.remote.world
             && Linked(Live(s.log), s.log, d, s.server.kernel)
           else MidCall(s, d))
  }

  /** TRANSPARENCY. Take any run: any calls of the program, local and remote, any
      interleaving of the server's threads, any failed mallocs and accepts, and the
      server's end if they bring it about, as long as no stub takes the end of a
      stream for a reply. It is as if the program had made its calls directly. (A
      `read` stub that gives up after sending has no step here; see GiveUp.) */
  lemma Transparent(s0: System, steps: seq<SysStep>)
    requires Initial(s0) && SysValid(s0, steps) && NoEndOfStream(steps)
    ensures AsIfDirect(s0, SysRun(s0, steps))
  {
    InitialOk(s0);
    RunKeeps(s0, DirectOf(s0), steps);
    var s := SysRun(s0, steps);
    if s.pc.Waiting? {
      WaitingAgrees(s, DirectOf(s0));
    }
  }

  /** While a call is outstanding, the calls before it agree. */
  lemma WaitingAgrees(s: System, d0: Direct)
    requires SysInv(s, d0) && s.pc.Waiting?
    ensures RetsMatch(s.log, RunDirect(d0, s.log)) && MidCall(s, RunDirect(d0, s.log))
  {
    var d := RunDirect(d0, s.log);
    if s.job.ran {
      var e := Pending(s);
      var d' := DirectStep(d, s.pc.action, e.outcome);
      assert d'.rets[..|d.rets|] == d.rets;
      forall i | 0 <= i < |s.log|
        ensures SameRet(s.log[i], d.rets[i])
      {
        assert SameRet((s.log + [e])[i], d'.rets[i]);
      }
    }
  }

  lemma ServerKeeps(s0: System, steps: seq<SysStep>)
    requires Initial(s0) && SysValid(s0, steps)
    ensures Inv(SysRun(s0, steps).server, SysRun(s0, steps).job)
  {
    InitialOk(s0);
    AnyRunKeeps(s0, DirectOf(s0), steps);
  }

  /** The client waits on the connection handler `th` was given, and the payload
      `th` was given is the client's. */
  predicate HasClientsRequest(s: System, th: Thread) {
    && s.pc.Waiting? && s.pc.sock in s.local.table && s.local.table[s.pc.sock] == Sock(th.conn)
    && WellBehaved(s.log, s.pc.action) && GoesRemote(Actual(s.log, s.pc.action))
    && Encodable(WireCall(s.log, s.pc.action))
    && var p := Payload(WireCall(s.log, s.pc.action));
       th.given.payload in s.server.heap && s.server.heap[th.given.payload] == p && th.given.size == |p|
  }

  /** HANDOFF. In every run, every handler copied the payload, size and socket that
      were stored for it. Until its reply is sent they are the request the client
      waits for; and until it closes it, the socket is that of its own connection. */
  lemma Handoff(s0: System, steps: seq<SysStep>, t: nat)
    requires Initial(s0) && SysValid(s0, steps)
    requires t < |SysRun(s0, steps).server.threads|
    ensures var s := SysRun(s0, steps);
            var th := s.server.threads[t];
            && CopiedOk(th)
            && (!Lingering(th) ==> HasClientsRequest(s, th))
            && (!th.pc.Cleanup? && !th.pc.Finished? ==>
                  th.given.fd in s.server.kernel.table && s.server.kernel.table[th.given.fd] == Sock(th.conn))
  {
    InitialOk(s0);
    AnyRunKeeps(s0, DirectOf(s0), steps);
    HandedOn(SysRun(s0, steps), DirectOf(s0), t);
  }

  lemma HandedOn(s: System, d0: Direct, t: nat)
    requires Reached(s, d0) && t < |s.server.threads|
    ensures var th := s.server.threads[t];
            && CopiedOk(th)
            && (!Lingering(th) ==> HasClientsRequest(s, th))
            && (!th.pc.Cleanup? && !th.pc.Finished? ==>
                  th.given.fd in s.server.kernel.table && s.server.kernel.table[th.given.fd] == Sock(th.conn))
  {
    assert ThreadOk(s.server, s.server.threads[t]);
  }

  /** FRAMING. In every run, the header in front of the accept loop gives the length
      of the rest, the payload in front of it is all there is, and nothing is left
      on a connection once its request has been taken. */
  predicate Framed(v: Server) {
    && (v.pc.Header? ==>
          Arrived(v, v.pc.fd, 8)
          && var inbox := v.conns[ConnOf(v, v.pc.fd)].inbox; FromLittle(inbox[..8]) == |inbox[8..]|)
    && (v.pc.Body? ==> IsSocket(v, v.pc.fd) && |v.conns[ConnOf(v, v.pc.fd)].inbox| == v.pc.size)
    && (v.pc.Store? || v.pc.Spawn? ==>
          IsSocket(v, v.pc.arg.fd) && v.conns[ConnOf(v, v.pc.arg.fd)].inbox == [])
    && (forall t :: 0 <= t < |v.threads| ==>
          v.threads[t].conn < |v.conns| && v.conns[v.threads[t].conn].inbox == [])
  }

  lemma RequestsAreFramed(s0: System, steps: seq<SysStep>)
    requires Initial(s0) && SysValid(s0, steps)
    ensures Framed(SysRun(s0, steps).server)
  {
    ServerKeeps(s0, steps);
    TakenWhole(SysRun(s0, steps).server, SysRun(s0, steps).job);
  }

  lemma TakenWhole(v: Server, job: Job)
    requires Inv(v, job)
    ensures Framed(v)
  {
    assert forall t :: 0 <= t < |v.threads| ==> ThreadOk(v, v.threads[t]);
    if v.pc.Header? {
      U64RoundTrip(|job.payload|);
      assert (U64(|job.payload|) + job.payload)[..8] == U64(|job.payload|);
    }
  }

  /** PARTITION. In every run, a socket of the server belongs to the accept loop or
      to one handler, and is the connection accepted for it. */
  lemma SocketsHaveOneOwner(s0: System, steps: seq<SysStep>, fd: int)
    requires Initial(s0) && SysValid(s0, steps)
    requires var k := SysRun(s0, steps).server.kernel; fd in k.table && k.table[fd].Sock?
    ensures var v := SysRun(s0, steps).server;
            && SocketOwned(v, fd)
            && (forall t: nat :: OwnsSocket(v, t, fd) ==> v.kernel.table[fd] == Sock(v.threads[t].conn))
            && (forall t: nat, u: nat :: OwnsSocket(v, t, fd) && OwnsSocket(v, u, fd) ==> t == u)
  {
    ServerKeeps(s0, steps);
    OneOwner(SysRun(s0, steps).server, fd);
  }

  lemma OneOwner(v: Server, fd: int)
    requires ThreadsOk(v) && AllApart(v) && SocketsOk(v)
    requires fd in v.kernel.table && v.kernel.table[fd].Sock?
    ensures SocketOwned(v, fd)
    ensures forall t: nat :: OwnsSocket(v, t, fd) ==> v.kernel.table[fd] == Sock(v.threads[t].conn)
    ensures forall t: nat, u: nat :: OwnsSocket(v, t, fd) && OwnsSocket(v, u, fd) ==> t == u
  {
    assert SocketOwned(v, fd);
    forall t: nat, u: nat | OwnsSocket(v, t, fd) && OwnsSocket(v, u, fd)
      ensures t == u
    {
      assert v.threads[t].conn == v.threads[u].conn;
      assert t != u ==> Apart(v.threads[t], v.threads[u]);
    }
  }

  /** Between calls, the server's file descriptors are exactly what live handles name. */
  lemma FilesAreLiveHandles(s0: System, steps: seq<SysStep>, fd: int)
    requires Initial(s0) && SysValid(s0, steps) && NoEndOfStream(steps) && SysRun(s0, steps).pc.Idle?
    ensures var s := SysRun(s0, steps);
            fd in s.server.kernel.table && s.server.kernel.table[fd].File? <==> HasHandle(Live(s.log), fd)
  {
    InitialOk(s0);
    RunKeeps(s0, DirectOf(s0), steps);
    var s := SysRun(s0, steps);
    HandlesNameFiles(s.log, RunDirect(DirectOf(s0), s.log), s.server.kernel, fd);
  }

  lemma HandlesNameFiles(log: seq<Event>, d: Direct, k: Kernel, fd: int)
    requires Linked(Live(log), log, d, k)
    ensures fd in k.table && k.table[fd].File? <==> HasHandle(Live(log), fd)
  {
    if HasHandle(Live(log), fd) {
      var i :| i in Live(log) && Live(log)[i] == Handle(fd);
      assert LinkedAt(i, Live(log), log, d, k);
    }
  }

  /** So a remote call on a descriptor reaches a file, never a socket or the listener. */
  lemma NoCallReachesASocket(s0: System, steps: seq<SysStep>, t: nat)
    requires Initial(s0) && SysValid(s0, steps)
    requires t < |SysRun(s0, steps).server.threads| && SysRun(s0, steps).server.threads[t].pc.Ready?
    ensures ReachesAFile(SysRun(s0, steps).server, t)
  {
    InitialOk(s0);
    AnyRunKeeps(s0, DirectOf(s0), steps);
    ReadyReaches(SysRun(s0, steps), DirectOf(s0), t);
  }

  /** What handler `t` is about to run is a call, and its descriptor, if it has one,
      is a file of the server's. */
  predicate ReachesAFile(v: Server, t: nat)
    requires t < |v.threads| && v.threads[t].pc.Ready?
  {
    var p := v.threads[t].pc.arg.payload;
    && p in v.heap
    && var c := Decode(v.heap[p]);
       c.Ok? && (HasFd(c.call) ==>
         var fd := Handle(c.call.fd); fd in v.kernel.table && v.kernel.table[fd].File?)
  }

  lemma ReadyReaches(s: System, d0: Direct, t: nat)
    requires Reached(s, d0) && t < |s.server.threads| && s.server.threads[t].pc.Ready?
    ensures ReachesAFile(s.server, t)
  {
    ReadyHolds(s.server, s.job, t);
    var d := RunDirect(d0, s.log);
    WireCallOk(s.log, d, s.server.kernel, s.pc.action);
    ServeTouchesFiles(s.log, d, s.server.kernel, s.pc.action);
  }

  lemma ReadyHolds(v: Server, job: Job, t: nat)
    requires Inv(v, job) && t < |v.threads| && v.threads[t].pc.Ready?
    ensures job.Job? && !job.ran && v.threads[t].pc.arg.payload in v.heap
    ensures v.heap[v.threads[t].pc.arg.payload] == job.payload
  {
    assert !Lingering(v.threads[t]);
  }

  /** HEAP. In every run, a payload the accept loop allocated is still allocated, in
      the hands of the accept loop or of a handler that has not finished, or has been
      freed exactly once. A handler about to free its payload still has it to free. */
  lemma PayloadsFreedOnce(s0: System, steps: seq<SysStep>, p: nat)
    requires Initial(s0) && SysValid(s0, steps) && p < SysRun(s0, steps).server.nextPtr
    ensures var v := SysRun(s0, steps).server;
            && (if p in v.heap then v.freed[p] == 0 && PayloadOwned(v, p) else v.freed[p] == 1)
            && (forall t :: 0 <= t < |v.threads| ==>
                  (v.threads[t].pc.Finished? <==> v.threads[t].given.payload !in v.heap))
            && (forall t :: 0 <= t < |v.threads| && v.threads[t].pc.Cleanup? ==> CanFree(v, t))
  {
    ServerKeeps(s0, steps);
    var v := SysRun(s0, steps).server;
    FreedOnce(v, p);
  }

  lemma FreedOnce(v: Server, p: nat)
    requires ThreadsOk(v) && HeapOk(v) && p < v.nextPtr
    ensures if p in v.heap then v.freed[p] == 0 && PayloadOwned(v, p) else v.freed[p] == 1
    ensures forall t :: 0 <= t < |v.threads| ==>
              (v.threads[t].pc.Finished? <==> v.threads[t].given.payload !in v.heap)
    ensures forall t :: 0 <= t < |v.threads| && v.threads[t].pc.Cleanup? ==> CanFree(v, t)
  {
    assert p in v.heap ==> PayloadOwned(v, p);
    assert forall t :: 0 <= t < |v.threads| ==> ThreadOk(v, v.threads[t]);
  }

  /** SLOTS. Where the loop accepts, the index is below 50. Threads created are
      threads joined plus threads unjoined, at most 50 of them, in consecutive slots
      in order of creation. Threads are joined in that order, so none twice, and
      only once finished. The slot the loop is about to write holds no unjoined
      thread. */
  predicate SlotDiscipline(v: Server) {
    var unjoined := |v.threads| - |v.joined|;
    && (v.pc.Accept? ==> v.index < 50)
    && 0 <= unjoined <= 50 <= |v.slots| == 60
    && (forall i :: 0 <= i < |v.joined| ==> v.joined[i] == i && v.threads[i].pc.Finished?)
    && (forall t :: |v.joined| <= t < |v.threads| ==> InSlot(v, t))
    && (v.pc.Spawn? ==> Taken(v) + unjoined == v.index < 50)
  }

  predicate InSlot(v: Server, t: nat) {
    var slot := Taken(v) + t - |v.joined|;
    0 <= slot < |v.slots| && v.slots[slot] == t
  }

  lemma SlotsDiscipline(v: Server)
    requires SlotsOk(v)
    ensures SlotDiscipline(v)
  {
  }

  predicate IsLoopStep(step: Step) {
    || step.AcceptConn? || step.RecvHeader? || step.RecvBody? || step.StoreArg?
    || step.SpawnThread? || step.CheckIndex? || step.JoinNext?
  }

  lemma LoopKeepsSlots(v: Server, step: Step)
    requires SlotsOk(v) && Enabled(v, step) && IsLoopStep(step)
    ensures SlotsOk(Apply(v, step))
  {
  }

  /** Handlers, and clients that connect, leave the slots alone. */
  lemma OthersKeepSlots(v: Server, step: Step)
    requires SlotsOk(v) && Enabled(v, step) && !IsLoopStep(step)
    ensures SlotsOk(Apply(v, step))
  {
  }

  lemma StepKeepsSlots(v: Server, step: Step)
    requires SlotsOk(v) && Enabled(v, step)
    ensures SlotsOk(Apply(v, step))
  {
    if IsLoopStep(step) {
      LoopKeepsSlots(v, step);
    } else {
      OthersKeepSlots(v, step);
    }
  }

  /** For any clients, however many, and however their calls fare. */
  lemma {:induction false} Slots(v: Server, steps: seq<Step>)
    requires SlotsOk(v) && Valid(v, steps)
    ensures SlotDiscipline(Run(v, steps))
    decreases |steps|
  {
    if steps == [] {
      SlotsDiscipline(v);
    } else {
      StepKeepsSlots(v, steps[0]);
      Slots(Apply(v, steps[0]), steps[1..]);
    }
  }

  lemma SlotsInSystem(s0: System, steps: seq<SysStep>)
    requires Initial(s0) && SysValid(s0, steps)
    ensures SlotsOk(s0.server) && SlotDiscipline(SysRun(s0, steps).server)
  {
    ServerKeeps(s0, steps);
    SlotsDiscipline(SysRun(s0, steps).server);
  }

  // ---- the end of the server ----

  /** A result that no call has. */
  function Impossible(c: Call): (r: Ret)
    ensures RetFits(c, r)
  {
    if c.Read? then Data(-2, [])
    else if c.Stat? || c.Fstat? then Info(-2, [])
    else Int(-2)
  }

  lemma NeverReturned(k: Kernel, c: Call, room: bool)
    requires ArgsOk(c)
    ensures SysWith(k, c, room).1 != Impossible(c) && Failed(c) != Impossible(c)
  {
  }

  lemma NeverDirect(log: seq<Event>, d: Direct, a: Action, out: Outcome, out': Outcome)
    requires ActionOk(a) && RetsMatch(log, d)
    ensures !RetsMatch(log + [Event(a, Impossible(a.call), out')], DirectStep(d, a, out))
  {
    var d', e := DirectStep(d, a, out), Event(a, Impossible(a.call), out');
    forall k: Kernel, c: Call, room: bool | ArgsOk(c)
      ensures SysWith(k, c, room).1 != Impossible(c) && Failed(c) != Impossible(c)
    {
      NeverReturned(k, c, room);
    }
    assert !SameRet(e, d'.rets[|log|]);
    assert (log + [e])[|log|] == e;
  }

  /** Some contents of the stub's buffer make it return that. */
  lemma BufferFor(c: Call) returns (junk: bytes)
    ensures |junk| == ReplyLength(c) && Extract(c, junk) == Impossible(c)
  {
    var r := Impossible(c);
    var rest := Zeros(JunkLength(c, r));
    ReplyRoundTrip(c, r, rest);
    junk := Reply(c, r, rest);
  }

  /** However the client sees the end of the server, its call fails. */
  predicate FailsTruthfully(s: System, step: SysStep)
    requires s.pc.Waiting? && SysEnabled(s, step)
  {
    step.ServerStep? || SysApply(s, step).log == s.log + [Event(s.pc.action, Failed(s.pc.action.call), Refused)]
  }

  /** With some contents of its buffer, the stub returns what no direct call, run,
      failed or refused, returns. */
  ghost predicate MakesUpResult(s: System, d: Direct, junk: bytes) {
    && CanEnd(s, junk)
    && forall out :: !RetsMatch(DoEnd(s, junk).log, DirectStep(d, s.pc.action, out))
  }

  /** THE SERVER'S END. A call outstanding when the server ends has not run. Whatever
      the client's buffers hold, it ends in a failure that says so, if and only if
      the server did not end for want of a thread. If it did, the stub can return
      what the call made directly never returns. */
  lemma EndsTruthfullyIff(s0: System, steps: seq<SysStep>)
    requires Initial(s0) && SysValid(s0, steps)
    requires SysRun(s0, steps).pc.Waiting? && SysRun(s0, steps).server.pc.Exited?
    ensures var s := SysRun(s0, steps);
            && LogOk(s.log) && s.job.Job? && !s.job.ran
            && ((forall step :: SysEnabled(s, step) ==> FailsTruthfully(s, step)) <==> s.server.pc.kept.None?)
            && (s.server.pc.kept.Some? ==>
                  exists junk :: MakesUpResult(s, RunDirect(DirectOf(s0), s.log), junk))
  {
    InitialOk(s0);
    AnyRunKeeps(s0, DirectOf(s0), steps);
    var s, d0 := SysRun(s0, steps), DirectOf(s0);
    ServerSteps.ExitTaken(s.server, s.job);
    if s.server.pc.kept.Some? {
      var junk := EndMakesUp(s, d0);
      assert SysEnabled(s, EndOfStream(junk)) && !FailsTruthfully(s, EndOfStream(junk));
    } else {
      forall step | SysEnabled(s, step)
        ensures FailsTruthfully(s, step)
      {
        ExitSeen(s, d0, if step.EndOfStream? then step.junk else []);
      }
    }
  }

  lemma EndMakesUp(s: System, d0: Direct) returns (junk: bytes)
    requires SysInv(s, d0) && s.pc.Waiting? && s.server.pc.Exited? && s.server.pc.kept.Some?
    ensures MakesUpResult(s, RunDirect(d0, s.log), junk)
    ensures DoEnd(s, junk).log != s.log + [Event(s.pc.action, Failed(s.pc.action.call), Refused)]
  {
    var a, d := s.pc.action, RunDirect(d0, s.log);
    junk := BufferFor(WireCall(s.log, a));
    ServerSteps.ExitTaken(s.server, s.job);
    ExitSeen(s, d0, junk);
    assert Impossible(WireCall(s.log, a)) == Impossible(a.call);
    forall out
      ensures !RetsMatch(DoEnd(s, junk).log, DirectStep(d, a, out))
    {
      NeverDirect(s.log, d, a, out, Refused);
    }
    assert DoEnd(s, junk).log[|s.log|].ret == Impossible(a.call);
  }
}
