/** Which calls can complete, and that they do. The server's joining, handing off and
    cleaning up block none; but a handler that finds no memory, or does not know the
    code, leaves its socket open, and its client waits for good. */
module Progress {
  import opened CData
  import opened Calls
  import opened Kernel
  import opened Routing
  import opened Wire
  import opened Server
  import opened ServerInv
  import opened Direct
  import opened System
  import opened Transparency
  import Results

  /** A step some thread of the server can take towards accepting the next client:
      finish with a batch, or, while joining, help the awaited thread to finish. */
  function TowardsAccept(v: Server): (step: Step) {
    if v.pc.Accept? then AcceptConn
    else if v.pc.Check? then CheckIndex
    else if v.index >= BATCH || v.index >= |v.slots| || v.slots[v.index] >= |v.threads| then JoinNext
    else
      var t := v.slots[v.index];
      match v.threads[t].pc
      case Replied(_) => CloseSocket(t)
      case Cleanup(_) => FreePayload(t)
      case _ => JoinNext
  }

  function TowardsSpawn(v: Server): (step: Step) {
    match v.pc
    case Header(_) => RecvHeader
    case Body(_, _) => RecvBody(true)
    case Store(_) => StoreArg
    case _ => SpawnThread(true)
  }

  function TowardsReply(v: Server, t: nat, junk: bytes): (step: Step)
    requires t < |v.threads|
  {
    match v.threads[t].pc
    case Starting => CopyPayload(t)
    case GotPayload(_) => CopySize(t)
    case GotSize(_, _) => CopySocket(t)
    case Ready(_) => Execute(t, AllFine, junk)
    case _ => SendReply(t)
  }

  /** How far the request is from its reply: stage, place within it, and, while the
      loop joins a thread, how far that thread is from finishing. */
  function StageLeft(job: Job): (n: nat) {
    if job.NoJob? then 0
    else match job.stage
      case Queued => 4
      case InMain => 3
      case InThread(_) => 2
      case _ => 1
  }

  function MainLeft(v: Server): (n: nat) {
    match v.pc
    case Check => BATCH + 2
    case Join => if v.index <= BATCH then BATCH + 1 - v.index else 0
    case Header(_) => 4
    case Body(_, _) => 3
    case Store(_) => 2
    case Spawn(_) => 1
    case _ => 0
  }

  function ThreadLeft(pc: HandlerPc): (n: nat) {
    match pc
    case Starting => 7
    case GotPayload(_) => 6
    case GotSize(_, _) => 5
    case Ready(_) => 4
    case Executed(_, _) => 3
    case Replied(_) => 2
    case Cleanup(_) => 1
    case Finished => 0
  }

  function PlaceLeft(v: Server, job: Job): (n: nat) {
    if job.Job? && job.stage.InThread? then
      if job.stage.t < |v.threads| then ThreadLeft(v.threads[job.stage.t].pc) else 0
    else MainLeft(v)
  }

  function AwaitedLeft(v: Server): (n: nat) {
    if v.pc.Join? && v.index < |v.slots| && v.slots[v.index] < |v.threads| then
      ThreadLeft(v.threads[v.slots[v.index]].pc)
    else 0
  }

  predicate Closer(v: Server, job: Job, v': Server, job': Job) {
    || StageLeft(job') < StageLeft(job)
    || (StageLeft(job') == StageLeft(job) && PlaceLeft(v', job') < PlaceLeft(v, job))
    || (StageLeft(job') == StageLeft(job) && PlaceLeft(v', job') == PlaceLeft(v, job)
        && AwaitedLeft(v') < AwaitedLeft(v))
  }

  /** The handler has given up on the request, and the connection stays open. */
  predicate Hung(v: Server, job: Job) {
    job.Job? && job.stage.Lost? && !v.pc.Exited?
  }

  /** A request on its way, with a descriptor for its socket if it has none yet. */
  predicate UnderWay(v: Server, job: Job) {
    job.Job? && !job.stage.Lost? && (job.stage.Queued? ==> HasRoom(v.kernel))
  }

  /** A step towards the call's return, and on the way to its reply if it was. */
  predicate Progresses(v: Server, job: Job, step: Step) {
    && Happens(v, step)
    && var v', job' := Apply(v, step), Advance(v, step, job);
       && job'.Job? && !Hung(v', job') && Closer(v, job, v', job')
       && (UnderWay(v, job) ==> UnderWay(v', job'))
  }

  lemma RemoveKeepsRoom(k: Kernel, fd: int)
    requires HasRoom(k)
    ensures HasRoom(Remove(k, fd))
  {
    var r, r' := LowestFree(k), LowestFree(Remove(k, fd));
    assert r !in Remove(k, fd).table;
    assert r' <= r;
  }

  lemma JoinMoves(v: Server, job: Job)
    requires Inv(v, job) && job.Job? && job.stage.Queued? && v.pc.Join?
    requires v.index < BATCH ==> v.threads[v.slots[v.index]].pc.Finished?
    ensures Progresses(v, job, JoinNext)
  {
  }

  /** The awaited thread is past its reply and can finish on its own. */
  lemma AwaitedMoves(v: Server, job: Job, t: nat)
    requires Inv(v, job) && job.Job? && job.stage.Queued? && v.pc.Join?
    requires v.index < BATCH && t == v.slots[v.index] && !v.threads[t].pc.Finished?
    ensures Progresses(v, job, TowardsAccept(v))
  {
    assert Lingering(v.threads[t]) && ThreadOk(v, v.threads[t]);
    if v.threads[t].pc.Replied? && HasRoom(v.kernel) {
      RemoveKeepsRoom(v.kernel, v.threads[t].pc.arg.fd);
    }
  }

  /** While the request queues, the loop gets to accept it: joining cannot block. */
  lemma QueuedMoves(v: Server, job: Job)
    requires Inv(v, job) && job.Job? && job.stage.Queued?
    ensures Progresses(v, job, TowardsAccept(v))
  {
    if v.pc.Join? {
      if v.index < BATCH && !v.threads[v.slots[v.index]].pc.Finished? {
        AwaitedMoves(v, job, v.slots[v.index]);
      } else {
        JoinMoves(v, job);
      }
    }
  }

  lemma InMainMoves(v: Server, job: Job)
    requires Inv(v, job) && job.Job? && job.stage.InMain?
    ensures Progresses(v, job, TowardsSpawn(v))
  {
  }

  lemma InThreadMoves(v: Server, job: Job, t: nat, junk: bytes)
    requires Inv(v, job) && job.Job? && job.stage == InThread(t) && !v.threads[t].pc.Ready?
    ensures Progresses(v, job, TowardsReply(v, t, junk))
  {
    assert ThreadOk(v, v.threads[t]);
  }

  lemma ReadyMoves(v: Server, job: Job, t: nat, junk: bytes, c: Call)
    requires Inv(v, job) && job.Job? && job.stage == InThread(t) && v.threads[t].pc.Ready?
    requires Decode(job.payload) == Ok(c)
    requires ArgsOk(c) && (HasFd(c) ==> IsInt32(Handle(c.fd)))
    requires var r := Serve(v.kernel, c).1; RetFits(c, r) && |junk| == JunkLength(c, r)
    ensures Progresses(v, job, Execute(t, AllFine, junk))
  {
    assert ThreadOk(v, v.threads[t]);
    ExecuteEffect(v, t, AllFine, junk, job, c);
  }

  /** The run's first new event is the outstanding call's: it is `ran` if the server
      replied. */
  predicate Returns(s: System, steps: seq<SysStep>, ran: bool) {
    && SysValid(s, steps)
    && |SysRun(s, steps).log| > |s.log|
    && SysRun(s, steps).log[|s.log|].outcome.Ran? == ran
  }

  /** A call that does not hang can be brought to its return, and to its reply if it
      is on its way. */
  lemma {:induction false} CallCompletes(s: System, d0: Direct) returns (steps: seq<SysStep>)
    requires SysInv(s, d0) && s.pc.Waiting? && !Hung(s.server, s.job)
    ensures Returns(s, steps, true) || Returns(s, steps, false)
    ensures UnderWay(s.server, s.job) ==> Returns(s, steps, true) && NoEndOfStream(steps)
    ensures SysRun(s, steps).pc.Idle? && |SysRun(s, steps).log| == |s.log| + 1
    decreases StageLeft(s.job), PlaceLeft(s.server, s.job), AwaitedLeft(s.server)
  {
    if s.job.stage.Answered? {
      steps := [ReceiveReply];
      AnsweredReturns(s, d0);
    } else if s.job.stage.Lost? {
      steps := [ExitStep(s)];
      ExitReturns(s, d0);
    } else {
      var step := NextStep(s, d0);
      var s' := DoServer(s, step);
      ServerStepKeeps(s, d0, step);
      var rest := CallCompletes(s', d0);
      steps := [ServerStep(step)] + rest;
      ReturnsLater(s, step, rest);
    }
  }

  /** What the client sees when the server has ended. */
  function ExitStep(s: System): (step: SysStep)
    requires s.pc.Waiting? && ActionOk(s.pc.action) && GoesRemote(Actual(s.log, s.pc.action))
    requires s.server.pc.Exited?
  {
    if s.server.pc.kept.None? then ConnectionReset
    else EndOfStream(Zeros(ReplyLength(WireCall(s.log, s.pc.action))))
  }

  lemma ExitReturns(s: System, d0: Direct)
    requires SysInv(s, d0) && s.pc.Waiting? && s.server.pc.Exited?
    ensures SysEnabled(s, ExitStep(s)) && Returns(s, [ExitStep(s)], false)
    ensures SysRun(s, [ExitStep(s)]).pc.Idle? && |SysRun(s, [ExitStep(s)]).log| == |s.log| + 1
  {
    ExitSeen(s, d0, Zeros(ReplyLength(WireCall(s.log, s.pc.action))));
    OneMore(s, ExitStep(s), []);
  }

  lemma ReturnsLater(s: System, step: Step, rest: seq<SysStep>)
    requires Happens(s.server, step) && SysValid(DoServer(s, step), rest)
    ensures SysRun(s, [ServerStep(step)] + rest) == SysRun(DoServer(s, step), rest)
    ensures forall ran :: Returns(DoServer(s, step), rest, ran) ==> Returns(s, [ServerStep(step)] + rest, ran)
    ensures NoEndOfStream(rest) ==> NoEndOfStream([ServerStep(step)] + rest)
  {
    OneMore(s, ServerStep(step), rest);
  }

  lemma OneMore(s: System, step: SysStep, rest: seq<SysStep>)
    requires SysEnabled(s, step) && SysValid(SysApply(s, step), rest)
    ensures SysValid(s, [step] + rest) && SysRun(s, [step] + rest) == SysRun(SysApply(s, step), rest)
  {
    assert ([step] + rest)[1..] == rest;
  }

  /** The server can always bring a request closer to its return. */
  lemma ServerMoves(v: Server, job: Job, c: Call, junk: bytes) returns (step: Step)
    requires Inv(v, job) && job.Job? && !job.stage.Answered? && !job.stage.Lost?
    requires job.stage.InThread? ==>
               && Decode(job.payload) == Ok(c) && ArgsOk(c) && (HasFd(c) ==> IsInt32(Handle(c.fd)))
               && var r := Serve(v.kernel, c).1; RetFits(c, r) && |junk| == JunkLength(c, r)
    ensures Progresses(v, job, step)
  {
    match job.stage
    case Queued =>
      QueuedMoves(v, job);
      step := TowardsAccept(v);
    case InMain =>
      InMainMoves(v, job);
      step := TowardsSpawn(v);
    case InThread(t) =>
      step := TowardsReply(v, t, junk);
      if v.threads[t].pc.Ready? {
        ReadyMoves(v, job, t, junk, c);
      } else {
        InThreadMoves(v, job, t, junk);
      }
  }

  lemma NextStep(s: System, d0: Direct) returns (step: Step)
    requires SysInv(s, d0) && s.pc.Waiting? && !s.job.stage.Answered? && !s.job.stage.Lost?
    ensures Progresses(s.server, s.job, step)
  {
    var c, junk := Close(0), [];
    if s.job.stage.InThread? {
      c, junk := Outstanding(s, d0);
    }
    step := ServerMoves(s.server, s.job, c, junk);
  }

  lemma Outstanding(s: System, d0: Direct) returns (c: Call, junk: bytes)
    requires SysInv(s, d0) && s.pc.Waiting? && s.job.Job? && s.job.stage.InThread?
    ensures Decode(s.job.payload) == Ok(c)
    ensures ArgsOk(c) && (HasFd(c) ==> IsInt32(Handle(c.fd)))
    ensures var r := Serve(s.server.kernel, c).1; RetFits(c, r) && |junk| == JunkLength(c, r)
  {
    c := WireCall(s.log, s.pc.action);
    RoundTrip(c);
    var r := Serve(s.server.kernel, c).1;
    ServeFits(s.server.kernel, c);
    junk := Zeros(JunkLength(c, r));
  }

  lemma AnsweredReturns(s: System, d0: Direct)
    requires SysInv(s, d0) && s.pc.Waiting? && s.job.Job? && s.job.stage.Answered?
    ensures Returns(s, [ReceiveReply], true)
    ensures SysRun(s, [ReceiveReply]).pc.Idle? && |SysRun(s, [ReceiveReply]).log| == |s.log| + 1
  {
    ExtractedIsResult(WireCall(s.log, s.pc.action), s.result, s.job.reply);
    OneMore(s, ReceiveReply, []);
  }

  // ---- the calls that cannot ----

  /** No descriptor for the request's socket, and no handler about to close one that
      would make room. */
  predicate NoRoomComing(v: Server) {
    && !HasRoom(v.kernel)
    && forall t :: 0 <= t < |v.threads| && v.threads[t].pc.Replied? ==>
         !HasRoom(Remove(v.kernel, v.threads[t].pc.arg.fd))
  }

  /** The request gets no reply. */
  predicate Doomed(v: Server, job: Job) {
    job.Job? && (job.stage.Lost? || (job.stage.Queued? && NoRoomComing(v)))
  }

  lemma RemoveTwo(k: Kernel, a: int, b: int)
    requires !HasRoom(Remove(k, a)) && !HasRoom(Remove(k, b))
    ensures !HasRoom(Remove(Remove(k, a), b))
  {
    var r := LowestFree(Remove(Remove(k, a), b));
    if r == a {
      assert r !in Remove(k, a).table;
    } else if r == b {
      assert r !in Remove(k, b).table;
    } else {
      assert r !in Remove(k, a).table;
    }
  }

  lemma CloseMakesNoRoom(v: Server, t: nat)
    requires NoRoomComing(v) && CanClose(v, t)
    ensures NoRoomComing(DoClose(v, t))
  {
    var v' := DoClose(v, t);
    forall u | 0 <= u < |v'.threads| && v'.threads[u].pc.Replied?
      ensures !HasRoom(Remove(v'.kernel, v'.threads[u].pc.arg.fd))
    {
      RemoveTwo(v.kernel, v.threads[t].pc.arg.fd, v.threads[u].pc.arg.fd);
    }
  }

  /** A step of the server leaves a request without a reply, and one that hangs
      hanging: nothing but an accept or a receive makes the loop exit. */
  lemma DoomedStays(v: Server, step: Step, job: Job)
    requires Inv(v, job) && Doomed(v, job) && Happens(v, step)
    ensures Doomed(Apply(v, step), Advance(v, step, job))
    ensures Hung(v, job) ==> Hung(Apply(v, step), Advance(v, step, job))
  {
    assert AllLinger(v);
    match step
    case CloseSocket(t) =>
      if job.stage.Queued? {
        CloseMakesNoRoom(v, t);
      }
    case _ =>
  }

  /** While a request is doomed its call does not return, unless the client learns
      that the server is gone. */
  lemma DoomedStep(s: System, d0: Direct, step: SysStep)
    requires SysInv(s, d0) && s.pc.Waiting? && Doomed(s.server, s.job) && SysEnabled(s, step)
    ensures var s' := SysApply(s, step);
            if step.ServerStep? then
              && s'.pc == s.pc && s'.log == s.log && Doomed(s'.server, s'.job)
              && (Hung(s.server, s.job) ==> Hung(s'.server, s'.job))
            else
              && s.server.pc.Exited? && |s'.log| == |s.log| + 1
              && s'.log[..|s.log|] == s.log && s'.log[|s.log|].outcome == Refused
  {
    match step
    case ServerStep(v) => DoomedStays(s.server, v, s.job);
    case ReceiveReply => ReceivedIsResult(s, d0);
    case _ =>
  }

  lemma {:induction false} LogGrows(s: System, steps: seq<SysStep>)
    requires SysValid(s, steps)
    ensures s.log <= SysRun(s, steps).log
    decreases |steps|
  {
    if steps != [] {
      LogGrows(SysApply(s, steps[0]), steps[1..]);
    }
  }

  lemma {:induction false} DoomedNeverServed(s: System, d0: Direct, steps: seq<SysStep>)
    requires SysInv(s, d0) && s.pc.Waiting? && Doomed(s.server, s.job) && SysValid(s, steps)
    ensures !Returns(s, steps, true)
    ensures Hung(s.server, s.job) ==> SysRun(s, steps).pc == s.pc && SysRun(s, steps).log == s.log
    decreases |steps|
  {
    if steps != [] {
      var s' := SysApply(s, steps[0]);
      DoomedStep(s, d0, steps[0]);
      if steps[0].ServerStep? {
        Results.StepKeeps(s, d0, steps[0]);
        DoomedNeverServed(s', d0, steps[1..]);
      } else {
        LogGrows(s', steps[1..]);
      }
    }
  }

  /** Unless no room is coming, a handler that has replied can make it. */
  lemma RoomComes(s: System, d0: Direct) returns (steps: seq<SysStep>)
    requires SysInv(s, d0) && s.pc.Waiting? && !Doomed(s.server, s.job)
    ensures Returns(s, steps, true)
  {
    if UnderWay(s.server, s.job) {
      steps := CallCompletes(s, d0);
    } else {
      var v := s.server;
      var t: nat :| t < |v.threads| && v.threads[t].pc.Replied? && HasRoom(Remove(v.kernel, v.threads[t].pc.arg.fd));
      var step := CloseSocket(t);
      ServerStepKeeps(s, d0, step);
      var rest := CallCompletes(DoServer(s, step), d0);
      steps := [ServerStep(step)] + rest;
      ReturnsLater(s, step, rest);
    }
  }

  /** COMPLETION. Whatever has happened so far, a call under way can still get its
      reply if and only if no handler or accept has given its request up and, while
      it queues, the server has a descriptor for its socket or a handler about to
      close one. It can return at all, with a failure if the server has ended, if
      and only if no handler has given it up; else the client waits for good. */
  lemma CallsReturnIff(s0: System, steps: seq<SysStep>)
    requires Initial(s0) && SysValid(s0, steps) && SysRun(s0, steps).pc.Waiting?
    ensures var s := SysRun(s0, steps);
            && ((exists rest :: Returns(s, rest, true)) <==> !Doomed(s.server, s.job))
            && ((exists rest, ran :: Returns(s, rest, ran)) <==> !Hung(s.server, s.job))
            && (Hung(s.server, s.job) ==>
                  forall rest :: SysValid(s, rest) ==> SysRun(s, rest).pc == s.pc && SysRun(s, rest).log == s.log)
  {
    Results.InitialOk(s0);
    Results.AnyRunKeeps(s0, DirectOf(s0), steps);
    var s, d0 := SysRun(s0, steps), DirectOf(s0);
    if Doomed(s.server, s.job) {
      forall rest | SysValid(s, rest)
        ensures !Returns(s, rest, true)
        ensures Hung(s.server, s.job) ==> SysRun(s, rest).pc == s.pc && SysRun(s, rest).log == s.log
      {
        DoomedNeverServed(s, d0, rest);
      }
    } else {
      var rest := RoomComes(s, d0);
    }
    if !Hung(s.server, s.job) {
      var rest := CallCompletes(s, d0);
    }
  }

  // ---- what makes a call hang ----

  lemma HandlerHangsIff(v: Server, job: Job, t: nat, fate: Fate, junk: bytes)
    requires CanExecute(v, t, fate, junk) && JobAt(v, job) && job.Job? && job.stage == InThread(t)
    requires v.heap[v.threads[t].pc.arg.payload] == job.payload && Decode(job.payload).Ok?
    ensures var v' := Apply(v, Execute(t, fate, junk));
            Hung(v', Advance(v, Execute(t, fate, junk), job)) <==> fate != AllFine
  {
    assert MainIdle(v.pc);
  }

  /** Running the call makes it hang if and only if a malloc of the handler's fails. */
  lemma HangsIff(s: System, d0: Direct, t: nat, fate: Fate, junk: bytes)
    requires SysInv(s, d0) && CanExecute(s.server, t, fate, junk)
    ensures var step := Execute(t, fate, junk);
            Hung(Apply(s.server, step), Advance(s.server, step, s.job)) <==> fate != AllFine
  {
    RunnerHolds(s, d0, t, fate, junk);
    DecodesOutstanding(s, d0);
    HandlerHangsIff(s.server, s.job, t, fate, junk);
  }

  lemma DecodesOutstanding(s: System, d0: Direct)
    requires SysInv(s, d0) && s.pc.Waiting? && s.job.Job? && s.job.stage.InThread?
    ensures Decode(s.job.payload).Ok?
  {
    var c, junk := Outstanding(s, d0);
  }

  /** And the malloc of the reply may, whatever the call. */
  lemma CanHang(s: System, d0: Direct, t: nat)
    requires SysInv(s, d0) && t < |s.server.threads| && s.server.threads[t].pc.Ready?
    ensures exists junk :: CanExecute(s.server, t, NoReply, junk)
  {
    Results.ReadyHolds(s.server, s.job, t);
    assert !Lingering(s.server.threads[t]) && ThreadOk(s.server, s.server.threads[t]);
    var c, junk := Outstanding(s, d0);
    assert CanExecute(s.server, t, NoReply, junk);
  }

  // ---- no call waits on a server that could go on for ever ----

  function ThreadsLeft(threads: seq<Thread>): (n: nat) {
    if threads == [] then 0
    else ThreadsLeft(threads[..|threads| - 1]) + ThreadLeft(threads[|threads| - 1].pc)
  }

  function LoopLeft(v: Server): (n: nat) {
    match v.pc
    case Header(_) => BATCH + 14
    case Body(_, _) => BATCH + 13
    case Store(_) => BATCH + 12
    case Spawn(_) => BATCH + 11
    case Check => BATCH + 3
    case Join => 2 + Max(0, BATCH - v.index)
    case Accept => 1
    case Exited(_, _) => 0
  }

  /** A bound on the steps the server can take before another client connects. */
  function Work(v: Server): (n: nat) {
    |v.backlog| * (BATCH + 14) + LoopLeft(v) + ThreadsLeft(v.threads)
  }

  lemma {:induction false} OneThreadMoves(threads: seq<Thread>, t: nat, th: Thread)
    requires t < |threads|
    ensures ThreadsLeft(threads[t := th]) == ThreadsLeft(threads) - ThreadLeft(threads[t].pc) + ThreadLeft(th.pc)
    decreases |threads|
  {
    var n := |threads| - 1;
    if t == n {
      assert threads[t := th][..n] == threads[..n];
    } else {
      OneThreadMoves(threads[..n], t, th);
      assert threads[t := th][..n] == threads[..n][t := th];
    }
  }

  lemma AcceptWorks(v: Server)
    requires CanAccept(v)
    ensures Work(DoAccept(v)) < Work(v)
  {
  }

  lemma SpawnWorks(v: Server, created: bool)
    requires CanSpawn(v)
    ensures Work(DoSpawn(v, created)) < Work(v)
  {
    if created {
      var threads := DoSpawn(v, created).threads;
      assert threads[..|threads| - 1] == v.threads;
    }
  }

  lemma LoopWorks(v: Server, step: Step)
    requires Enabled(v, step) && Results.IsLoopStep(step)
    ensures Work(Apply(v, step)) < Work(v)
  {
    match step
    case AcceptConn => AcceptWorks(v);
    case SpawnThread(created) => SpawnWorks(v, created);
    case _ =>
  }

  /** A handler's step brings it closer to its end and concerns no one else. */
  lemma HandlerMoves(v: Server, step: Step, t: nat)
    requires Enabled(v, step) && !Results.IsLoopStep(step) && !step.Connect? && t == step.t
    ensures var v' := Apply(v, step);
            && t < |v.threads| && |v'.threads| == |v.threads| && v'.threads == v.threads[t := v'.threads[t]]
            && ThreadLeft(v'.threads[t].pc) < ThreadLeft(v.threads[t].pc)
            && v'.pc == v.pc && v'.index == v.index && v'.backlog == v.backlog
  {
  }

  lemma HandlerWorks(v: Server, step: Step, t: nat)
    requires Enabled(v, step) && !Results.IsLoopStep(step) && !step.Connect? && t == step.t
    ensures Work(Apply(v, step)) < Work(v)
  {
    HandlerMoves(v, step, t);
    OneThreadMoves(v.threads, t, Apply(v, step).threads[t]);
  }

  /** From any state at all, the server's threads take a bounded number of steps,
      until another client connects. */
  lemma {:induction false} StepsAreBounded(v: Server, steps: seq<Step>)
    requires Valid(v, steps) && forall i :: 0 <= i < |steps| ==> !steps[i].Connect?
    ensures |steps| + Work(Run(v, steps)) <= Work(v)
    decreases |steps|
  {
    if steps != [] {
      AnyStepWorks(v, steps[0]);
      StepsAreBounded(Apply(v, steps[0]), steps[1..]);
    }
  }

  lemma AnyStepWorks(v: Server, step: Step)
    requires Happens(v, step)
    ensures Work(Apply(v, step)) < Work(v)
  {
    if Results.IsLoopStep(step) {
      LoopWorks(v, step);
    } else {
      HandlerWorks(v, step, step.t);
    }
  }

  /** While the call has not returned, all steps are the server's, and bounded. */
  lemma {:induction false} WaitIsBounded(s: System, d0: Direct, more: seq<SysStep>)
    requires SysInv(s, d0) && s.pc.Waiting? && SysValid(s, more) && |SysRun(s, more).log| == |s.log|
    ensures SysInv(SysRun(s, more), d0) && SysRun(s, more).pc == s.pc
    ensures |more| + Work(SysRun(s, more).server) <= Work(s.server)
    decreases |more|
  {
    if more != [] {
      LogGrows(SysApply(s, more[0]), more[1..]);
      assert more[0].ServerStep?;
      AnyStepWorks(s.server, more[0].step);
      Results.StepKeeps(s, d0, more[0]);
      WaitIsBounded(SysApply(s, more[0]), d0, more[1..]);
    }
  }

  /** The client can go on: its receive returns. */
  ghost predicate CanReturn(s: System) {
    CanReceive(s) || CanReset(s) || exists junk :: CanEnd(s, junk)
  }

  lemma StuckReturns(s: System, d0: Direct)
    requires SysInv(s, d0) && s.pc.Waiting?
    requires forall step :: !Happens(s.server, step)
    ensures CanReturn(s) || Hung(s.server, s.job)
  {
    if s.job.stage.Answered? {
      AnsweredReturns(s, d0);
      assert SysEnabled(s, ReceiveReply);
    } else if s.job.stage.Lost? {
      if s.server.pc.Exited? {
        ExitReturns(s, d0);
        assert SysEnabled(s, ExitStep(s));
      }
    } else {
      var step := NextStep(s, d0);
    }
  }

  /** NO ENDLESS WAIT. However the server's threads are scheduled, and whatever fails
      in them, they can take only so many steps while a call waits; and when they
      can take no more, the call returns, or a handler has given it up. */
  lemma CallsMustEnd(s0: System, steps: seq<SysStep>, more: seq<SysStep>)
    requires Initial(s0) && SysValid(s0, steps) && SysRun(s0, steps).pc.Waiting?
    requires var s := SysRun(s0, steps); SysValid(s, more) && |SysRun(s, more).log| == |s.log|
    ensures |more| <= Work(SysRun(s0, steps).server)
    ensures var s' := SysRun(SysRun(s0, steps), more);
            (forall step :: !Happens(s'.server, step)) ==> CanReturn(s') || Hung(s'.server, s'.job)
  {
    Results.InitialOk(s0);
    Results.AnyRunKeeps(s0, DirectOf(s0), steps);
    var s, d0 := SysRun(s0, steps), DirectOf(s0);
    WaitIsBounded(s, d0, more);
    if forall step :: !Happens(SysRun(s, more).server, step) {
      StuckReturns(SysRun(s, more), d0);
    }
  }
}
