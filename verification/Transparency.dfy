/** The main result: a program behind the stubs cannot tell them from direct calls. */
module Transparency {
  import opened CData
  import opened Calls
  import opened Kernel
  import opened Routing
  import opened Wire
  import opened Server
  import opened ServerInv
  import ServerSteps
  import opened Direct
  import Agreement
  import opened System

  /** The event the outstanding call will be logged as, once it has run. */
  function Pending(s: System): (e: Event)
    requires s.pc.Waiting? && s.job.Job? && s.job.conn < |s.server.conns|
  {
    Event(s.pc.action, s.result, Ran(s.server.conns[s.job.conn].room))
  }

  ghost predicate IsReply(c: Call, r: Ret, reply: bytes) {
    exists junk: bytes :: RetFits(c, r) && |junk| == JunkLength(c, r) && reply == Reply(c, r, junk)
  }

  /** The server's kernel agrees with the direct machine's, before the outstanding
      call has run or after; and then the reply made says what it returned. */
  ghost predicate RecordOk(log: seq<Event>, a: Action, d: Direct, job: Job, e: Event, k: Kernel)
    requires WellBehaved(log, a) && GoesRemote(Actual(log, a)) && job.Job? && e.action == a
  {
    if job.ran then
      && Agrees(log + [e], DirectStep(d, a, e.outcome), k)
      && DirectStep(d, a, e.outcome).local == d.local
      && (!job.stage.Lost? ==> IsReply(WireCall(log, a), e.ret, job.reply))
    else Agrees(log, d, k)
  }

  /** The client's kernel is the direct machine's, plus the socket it waits on. */
  ghost predicate WaitingOk(s: System, d: Direct)
    requires s.pc.Waiting?
  {
    var a := s.pc.action;
    && s.job.Job? && s.job.conn < |s.server.conns|
    && WellBehaved(s.log, a) && GoesRemote(Actual(s.log, a))
    && Encodable(WireCall(s.log, a)) && s.job.payload == Payload(WireCall(s.log, a))
    && s.pc.sock !in d.local.table
    && s.local == d.local.(table := d.local.table[s.pc.sock := Sock(s.job.conn)])
    && RecordOk(s.log, a, d, s.job, Pending(s), s.server.kernel)
  }

  ghost predicate SysInv(s: System, d0: Direct) {
    && LogOk(s.log)
    && Inv(s.server, s.job)
    && var d := RunDirect(d0, s.log);
       if s.pc.Idle? then s.job.NoJob? && s.local == d.local && Agrees(s.log, d, s.server.kernel)
       else WaitingOk(s, d)
  }

  lemma LocalKeeps(s: System, d0: Direct, a: Action)
    requires SysInv(s, d0) && SysEnabled(s, LocalCall(a))
    ensures SysInv(DoLocal(s, a), d0)
  {
    var d := RunDirect(d0, s.log);
    Agreement.LocalEvent(s.log, d, s.server.kernel, a);
    RunDirectExtends(d0, s.log, Event(a, Sys(s.local, Actual(s.log, a)).1, Ran(true)));
  }

  lemma RefusedKeeps(s: System, d0: Direct, a: Action)
    requires SysInv(s, d0) && SysEnabled(s, RefusedCall(a))
    ensures SysInv(DoRefused(s, a), d0)
  {
    var d := RunDirect(d0, s.log);
    Agreement.RefusedEvent(s.log, d, s.server.kernel, a);
    RunDirectExtends(d0, s.log, Event(a, Failed(a.call), Refused));
  }

  lemma SendKeeps(s: System, d0: Direct, a: Action)
    requires SysInv(s, d0) && CanSendCall(s, a)
    ensures SysInv(DoSendCall(s, a), d0)
  {
    ServerSteps.ConnectKeeps(s.server, Payload(WireCall(s.log, a)));
  }

  /** The outstanding call is forwarded whole, and its handle can be translated. */
  lemma WireCallOk(log: seq<Event>, d: Direct, k: Kernel, a: Action)
    requires WellBehaved(log, a) && GoesRemote(Actual(log, a)) && Encodable(WireCall(log, a))
    requires Agrees(log, d, k)
    ensures var c := WireCall(log, a);
            && Decode(Payload(c)) == Ok(c) && ArgsOk(c) && (HasFd(c) ==> IsInt32(Handle(c.fd)))
            && Serve(k, c).0.limit == k.limit && RetFits(c, Serve(k, c).1)
  {
    var c := WireCall(log, a);
    RoundTrip(c);
    ServeFits(k, c);
  }

  /** A remote call touches files only: what a live handle names is never a socket. */
  lemma ServeTouchesFiles(log: seq<Event>, d: Direct, k: Kernel, a: Action)
    requires Agrees(log, d, k) && WellBehaved(log, a) && GoesRemote(Actual(log, a))
    ensures OnlyFilesChange(k, Serve(k, WireCall(log, a)).0)
    ensures HasFd(a.call) ==>
              var fd := Handle(Resolve(log, a.ref)); fd in k.table && k.table[fd].File?
  {
    if HasFd(a.call) {
      assert LinkedAt(a.ref.k, Live(log), log, d, k);
    }
  }

  /** The handler that runs the call has the client's payload and nothing else. */
  lemma RunnerHolds(s: System, d0: Direct, t: nat, fate: Fate, junk: bytes)
    requires SysInv(s, d0) && CanExecute(s.server, t, fate, junk)
    ensures s.pc.Waiting? && s.job.Job? && s.job.stage == InThread(t) && !s.job.ran
    ensures s.server.heap[s.server.threads[t].pc.arg.payload] == s.job.payload
    ensures s.server.threads[t].conn == s.job.conn
  {
    assert !Lingering(s.server.threads[t]);
  }

  /** Running the call, and making the reply unless a malloc fails, keeps the record. */
  lemma RunRecorded(log: seq<Event>, a: Action, d: Direct, job: Job, job': Job, e: Event, k: Kernel, junk: bytes)
    requires WellBehaved(log, a) && GoesRemote(Actual(log, a)) && Encodable(WireCall(log, a))
    requires Agrees(log, d, k)
    requires var c := WireCall(log, a);
             var r := Serve(k, c).1;
             && e == Event(a, r, Outcome.Ran(HasRoom(k)))
             && job'.Job? && job'.ran && RetFits(c, r) && |junk| == JunkLength(c, r)
             && (job'.stage.Lost? || job'.reply == Reply(c, r, junk))
    ensures RecordOk(log, a, d, job', e, Serve(k, WireCall(log, a)).0)
  {
    Agreement.RemoteEvent(log, d, k, a);
    Agreement.RemoteLeavesLocal(log, d, k, a, e.outcome);
  }

  /** What running the decoded call does to the server and the record. */
  lemma ExecuteEffect(v: Server, t: nat, fate: Fate, junk: bytes, job: Job, c: Call)
    requires CanExecute(v, t, fate, junk) && job.Job? && v.threads[t].conn == job.conn
    requires Decode(v.heap[v.threads[t].pc.arg.payload]) == Ok(c)
    ensures var v' := DoExecute(v, t, fate, junk);
            var job' := CallRan(v', t, fate, job);
            var (k, r) := Serve(v.kernel, c);
            && job'.Job? && job'.conn == job.conn < |v'.conns| && job'.payload == job.payload
            && (if fate.NoBuffer? then v'.kernel == v.kernel && !job'.ran
                else
                  && v'.kernel == k && job'.ran && v'.conns[job.conn].room == HasRoom(v.kernel)
                  && RetFits(c, r) && |junk| == JunkLength(c, r)
                  && (job'.stage.Lost? || job'.reply == Reply(c, r, junk)))
  {
  }

  /** The outstanding request moved on, and the record with it. */
  lemma OutstandingMoves(s: System, d0: Direct, v: Server, job: Job, r: Ret)
    requires SysInv(s, d0) && s.pc.Waiting? && Inv(v, job)
    requires job.Job? && job.conn == s.job.conn < |v.conns| && job.payload == s.job.payload
    requires RecordOk(s.log, s.pc.action, RunDirect(d0, s.log), job,
                      Event(s.pc.action, r, Outcome.Ran(v.conns[job.conn].room)), v.kernel)
    ensures SysInv(s.(server := v, job := job, result := r), d0)
  {
  }

  lemma ExecuteKeeps(s: System, d0: Direct, t: nat, fate: Fate, junk: bytes)
    requires SysInv(s, d0) && CanExecute(s.server, t, fate, junk)
    ensures SysInv(DoServer(s, Execute(t, fate, junk)), d0)
  {
    var step := Execute(t, fate, junk);
    RunnerHolds(s, d0, t, fate, junk);
    var d, a, k := RunDirect(d0, s.log), s.pc.action, s.server.kernel;
    var c := WireCall(s.log, a);
    WireCallOk(s.log, d, k, a);
    ServeTouchesFiles(s.log, d, k, a);
    ExecuteEffect(s.server, t, fate, junk, s.job, c);
    ServerSteps.StepKeeps(s.server, step, s.job);
    var v, job := Apply(s.server, step), Advance(s.server, step, s.job);
    if !fate.NoBuffer? {
      RunRecorded(s.log, a, d, s.job, job, Event(a, Serve(k, c).1, Outcome.Ran(HasRoom(k))), k, junk);
    }
    OutstandingMoves(s, d0, v, job, Serve(k, c).1);
  }

  /** Sockets coming and going do not disturb the record. */
  lemma RecordKept(log: seq<Event>, a: Action, d: Direct, job: Job, job': Job, e: Event, k: Kernel, k': Kernel)
    requires WellBehaved(log, a) && GoesRemote(Actual(log, a)) && job.Job? && e.action == a
    requires RecordOk(log, a, d, job, e, k)
    requires job'.Job? && job' == job.(stage := job'.stage) && (job.stage.Lost? ==> job'.stage.Lost?)
    requires SameFiles(k, k')
    ensures RecordOk(log, a, d, job', e, k')
  {
    if job.ran {
      Agreement.SocketsDoNotMatter(log + [e], DirectStep(d, a, e.outcome), k, k');
    } else {
      Agreement.SocketsDoNotMatter(log, d, k, k');
    }
  }

  lemma ServerMovesOn(s: System, d0: Direct, v: Server, job: Job)
    requires SysInv(s, d0) && Inv(v, job)
    requires SameFiles(s.server.kernel, v.kernel) && ServerSteps.SameRecord(s.server, s.job, v, job)
    ensures SysInv(s.(server := v, job := job), d0)
  {
    var d := RunDirect(d0, s.log);
    if s.pc.Idle? {
      Agreement.SocketsDoNotMatter(s.log, d, s.server.kernel, v.kernel);
    } else {
      RecordKept(s.log, s.pc.action, d, s.job, job, Pending(s), s.server.kernel, v.kernel);
    }
  }

  lemma OtherServerStepKeeps(s: System, d0: Direct, step: Step)
    requires SysInv(s, d0) && Enabled(s.server, step) && !step.Connect? && !step.Execute?
    ensures SysInv(DoServer(s, step), d0)
  {
    ServerSteps.StepKeeps(s.server, step, s.job);
    ServerSteps.OthersTouchSockets(s.server, step, s.job);
    ServerMovesOn(s, d0, Apply(s.server, step), Advance(s.server, step, s.job));
  }

  lemma ServerStepKeeps(s: System, d0: Direct, step: Step)
    requires SysInv(s, d0) && Happens(s.server, step)
    ensures SysInv(DoServer(s, step), d0)
  {
    match step
    case Execute(t, fate, junk) => ExecuteKeeps(s, d0, t, fate, junk);
    case _ => OtherServerStepKeeps(s, d0, step);
  }

  /** The reply the stub extracts is what the call returned. */
  lemma ExtractedIsResult(c: Call, r: Ret, reply: bytes)
    requires IsReply(c, r, reply)
    ensures |reply| == ReplyLength(c) && Extract(c, reply[..ReplyLength(c)]) == r
  {
    var junk: bytes :| RetFits(c, r) && |junk| == JunkLength(c, r) && reply == Reply(c, r, junk);
    ReplyRoundTrip(c, r, junk);
    assert reply[..ReplyLength(c)] == reply;
  }

  lemma AnsweredJob(s: Server, job: Job)
    requires Inv(s, job) && job.Job? && s.conns[job.conn].outbox != []
    ensures job.stage.Answered? && job.ran && s.conns[job.conn].outbox == job.reply
  {
  }

  lemma ReceivedIsResult(s: System, d0: Direct)
    requires SysInv(s, d0) && CanReceive(s)
    ensures s.job.Job? && s.job.stage.Answered? && s.job.ran
    ensures DoReceive(s).log == s.log + [Pending(s)]
  {
    assert s.local.table[s.pc.sock] == Sock(s.job.conn);
    AnsweredJob(s.server, s.job);
    ExtractedIsResult(WireCall(s.log, s.pc.action), s.result, s.job.reply);
  }

  lemma ReceiveKeeps(s: System, d0: Direct)
    requires SysInv(s, d0) && CanReceive(s)
    ensures SysInv(DoReceive(s), d0)
  {
    ReceivedIsResult(s, d0);
    ServerSteps.AnswerTaken(s.server, s.job);
    var d := RunDirect(d0, s.log);
    RunDirectExtends(d0, s.log, Pending(s));
    assert d.local.table[s.pc.sock := Sock(s.job.conn)] - {s.pc.sock} == d.local.table;
  }

  /** A call that ends because the server did is one that has not run. */
  lemma ResetKeeps(s: System, d0: Direct)
    requires SysInv(s, d0) && CanReset(s)
    ensures SysInv(DoReset(s), d0)
  {
    ServerSteps.ExitTaken(s.server, s.job);
    var d, a := RunDirect(d0, s.log), s.pc.action;
    Agreement.RefusedEvent(s.log, d, s.server.kernel, a);
    RunDirectExtends(d0, s.log, Event(a, Failed(a.call), Refused));
    assert d.local.table[s.pc.sock := Sock(s.job.conn)] - {s.pc.sock} == d.local.table;
  }

  // ---- the end of the server ----

  /** After a stub took the end of the stream for a reply: the server is gone, and
      what it was is still in order. */
  ghost predicate Ended(s: System) {
    s.pc.Idle? && s.job.NoJob? && s.server.pc.Exited? && Inv(s.server, NoJob)
  }

  lemma EndEnds(s: System, d0: Direct, junk: bytes)
    requires SysInv(s, d0) && CanEnd(s, junk)
    ensures Ended(DoEnd(s, junk))
  {
    ServerSteps.ExitTaken(s.server, s.job);
  }

  lemma EndedStays(s: System, step: SysStep)
    requires Ended(s) && SysEnabled(s, step)
    ensures Ended(SysApply(s, step))
  {
    if step.ServerStep? {
      assert AllLinger(s.server);
      assert !step.step.Execute?;
      ServerSteps.StepKeeps(s.server, step.step, NoJob);
    }
  }

  /** When the server has ended under a call, the client can tell in exactly one way:
      by a reset, or, if it ended for want of a thread, by the end of the stream. */
  lemma ExitSeen(s: System, d0: Direct, junk: bytes)
    requires SysInv(s, d0) && s.pc.Waiting? && s.server.pc.Exited?
    ensures CanReset(s) <==> s.server.pc.kept.None?
    ensures CanEnd(s, junk) <==> s.server.pc.kept.Some? && |junk| == ReplyLength(WireCall(s.log, s.pc.action))
    ensures !CanReceive(s)
  {
    ServerSteps.ExitTaken(s.server, s.job);
    assert s.local.table[s.pc.sock] == Sock(s.job.conn);
  }
}
