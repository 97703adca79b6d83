/** Every step of the server keeps the invariant. */
module ServerSteps {
  import opened CData
  import opened Kernel
  import opened Server
  import opened ServerInv

  // ---- ownership is handed on, never dropped ----

  /** Threads of `s` are still there in `s'`, given the same argument. */
  predicate Continues(s: Server, s': Server) {
    && |s.threads| <= |s'.threads|
    && forall t :: 0 <= t < |s.threads| ==> s'.threads[t].given == s.threads[t].given
  }

  lemma SocketsKept(s: Server, s': Server)
    requires SocketsOk(s) && Continues(s, s')
    requires forall fd :: (fd in s'.kernel.table && s'.kernel.table[fd] == Listener) <==> fd == s'.listener
    requires forall fd :: fd in s'.kernel.table && s'.kernel.table[fd].Sock? ==>
               (fd in s.kernel.table && s.kernel.table[fd].Sock?) || MainFd(s'.pc) == Some(fd)
    requires forall t :: 0 <= t < |s.threads| && s.threads[t].holds && s.threads[t].given.fd in s'.kernel.table ==>
               s'.threads[t].holds
    requires MainFd(s.pc).Some? ==>
               MainFd(s'.pc) == MainFd(s.pc) || OwnsSocket(s', |s.threads|, MainFd(s.pc).value)
    ensures SocketsOk(s')
  {
    forall fd | fd in s'.kernel.table && s'.kernel.table[fd].Sock?
      ensures SocketOwned(s', fd)
    {
      if MainFd(s'.pc) != Some(fd) && MainFd(s.pc) != Some(fd) {
        assert SocketOwned(s, fd);
        var t :| OwnsSocket(s, t, fd);
        assert OwnsSocket(s', t, fd);
      }
    }
  }

  lemma PayloadsKept(s: Server, s': Server)
    requires HeapOk(s) && Continues(s, s')
    requires s'.heap == s.heap && s'.nextPtr == s.nextPtr && s'.freed == s.freed
    requires forall t :: 0 <= t < |s.threads| && !s.threads[t].pc.Finished? ==> !s'.threads[t].pc.Finished?
    requires MainPtr(s.pc).Some? ==>
               MainPtr(s'.pc) == MainPtr(s.pc) || OwnsPayload(s', |s.threads|, MainPtr(s.pc).value)
    ensures HeapOk(s')
  {
    forall p | p in s'.heap
      ensures p < s'.nextPtr && PayloadOwned(s', p)
    {
      assert PayloadOwned(s, p);
      if MainPtr(s.pc) != Some(p) {
        var t :| OwnsPayload(s, t, p);
        assert OwnsPayload(s', t, p);
      }
    }
  }

  lemma ApartKept(s: Server, s': Server)
    requires AllApart(s) && |s'.threads| == |s.threads|
    requires forall t :: 0 <= t < |s.threads| ==>
               s'.threads[t].given == s.threads[t].given && s'.threads[t].conn == s.threads[t].conn
    ensures AllApart(s')
  {
    forall t, u | 0 <= t < |s'.threads| && 0 <= u < |s'.threads| && t != u
      ensures Apart(s'.threads[t], s'.threads[u])
    {
      assert Apart(s.threads[t], s.threads[u]);
    }
  }

  /** What a step of one handler on its own locals needs to keep. */
  lemma LocalsKeep(s: Server, t: nat, pc: HandlerPc, job: Job)
    requires Inv(s, job) && job.Job? && job.stage == InThread(t) && !s.threads[t].pc.Executed?
    requires var th := s.threads[t].(pc := pc);
             CopiedOk(th) && !Lingering(th) && !pc.Executed? && (Copying(pc) ==> Copying(s.threads[t].pc))
    ensures Inv(SetThread(s, t, pc), job)
  {
    var s' := SetThread(s, t, pc);
    SocketsKept(s, s');
    PayloadsKept(s, s');
    ApartKept(s, s');
  }

  // ---- the accept loop ----

  lemma AcceptKeeps(s: Server, job: Job)
    requires Inv(s, job) && CanAccept(s)
    ensures Inv(DoAccept(s), Accepted(s, job))
  {
    SocketsKept(s, DoAccept(s));
    PayloadsKept(s, DoAccept(s));
    ApartKept(s, DoAccept(s));
  }

  lemma RecvHeaderKeeps(s: Server, job: Job)
    requires Inv(s, job) && CanRecvHeader(s)
    ensures Inv(DoRecvHeader(s), job)
  {
    SocketsKept(s, DoRecvHeader(s));
    PayloadsKept(s, DoRecvHeader(s));
    ApartKept(s, DoRecvHeader(s));
    U64RoundTrip(|job.payload|);
    assert s.conns[job.conn].inbox[..8] == U64(|job.payload|);
  }

  lemma RecvBodyKeeps(s: Server, malloced: bool, job: Job)
    requires Inv(s, job) && CanRecvBody(s)
    ensures Inv(DoRecvBody(s, malloced), BodyReceived(job, malloced))
  {
    var s' := DoRecvBody(s, malloced);
    SocketsKept(s, s');
    ApartKept(s, s');
    if malloced {
      assert s.conns[job.conn].inbox[..s.pc.size] == job.payload;
      forall p | p in s'.heap
        ensures p < s'.nextPtr && PayloadOwned(s', p)
      {
        if p != s.nextPtr {
          assert PayloadOwned(s, p);
          var t :| OwnsPayload(s, t, p);
          assert OwnsPayload(s', t, p);
        }
      }
    } else {
      PayloadsKept(s, s');
    }
  }

  lemma StoreKeeps(s: Server, job: Job)
    requires Inv(s, job) && s.pc.Store?
    ensures Inv(DoStore(s), job)
  {
    SocketsKept(s, DoStore(s));
    PayloadsKept(s, DoStore(s));
    ApartKept(s, DoStore(s));
  }

  lemma NoThreadKeeps(s: Server, job: Job)
    requires Inv(s, job) && CanSpawn(s)
    ensures Inv(DoSpawn(s, false), Spawned(s, false, job))
  {
    SocketsKept(s, DoSpawn(s, false));
    PayloadsKept(s, DoSpawn(s, false));
    ApartKept(s, DoSpawn(s, false));
  }

  lemma SpawnKeeps(s: Server, job: Job)
    requires Inv(s, job) && CanSpawn(s)
    ensures Inv(DoSpawn(s, true), Spawned(s, true, job))
  {
    var s' := DoSpawn(s, true);
    SocketsKept(s, s');
    PayloadsKept(s, s');
    forall t, u | 0 <= t < |s'.threads| && 0 <= u < |s'.threads| && t != u
      ensures Apart(s'.threads[t], s'.threads[u])
    {
      if t < |s.threads| && u < |s.threads| {
        assert Apart(s.threads[t], s.threads[u]);
      }
    }
  }

  lemma CheckKeeps(s: Server, job: Job)
    requires Inv(s, job) && s.pc.Check?
    ensures Inv(DoCheck(s), job)
  {
    SocketsKept(s, DoCheck(s));
    PayloadsKept(s, DoCheck(s));
    ApartKept(s, DoCheck(s));
  }

  lemma JoinKeeps(s: Server, job: Job)
    requires Inv(s, job) && CanJoin(s)
    ensures Inv(DoJoin(s), job)
  {
    SocketsKept(s, DoJoin(s));
    PayloadsKept(s, DoJoin(s));
    ApartKept(s, DoJoin(s));
  }

  // ---- a handler ----

  lemma CopyKeeps(s: Server, step: Step, job: Job)
    requires Inv(s, job) && Enabled(s, step) && (step.CopyPayload? || step.CopySize? || step.CopySocket?)
    ensures Inv(Apply(s, step), job)
  {
    assert !Lingering(s.threads[step.t]);
    assert job.Job? && job.stage == InThread(step.t);
    LocalsKeep(s, step.t, Apply(s, step).threads[step.t].pc, job);
  }

  /** Running the call keeps the invariant provided it only touches files. */
  lemma ExecuteKeeps(s: Server, t: nat, fate: Fate, junk: bytes, job: Job)
    requires Inv(s, job) && CanExecute(s, t, fate, junk)
    requires OnlyFilesChange(s.kernel, DoExecute(s, t, fate, junk).kernel)
    ensures Inv(DoExecute(s, t, fate, junk), CallRan(DoExecute(s, t, fate, junk), t, fate, job))
  {
    var s' := DoExecute(s, t, fate, junk);
    var room := s'.conns[s.threads[t].conn].room;
    ExecutedKeeps(s, s', t, s'.kernel, room, s'.threads[t].pc, fate, job);
  }

  lemma ExecutedKeepsJob(s: Server, s': Server, t: nat, k: Kernel, room: bool, pc: HandlerPc, fate: Fate, job: Job)
    requires JobAt(s, job) && t < |s.threads| && s.threads[t].pc.Ready? && s.threads[t].conn < |s.conns|
    requires OnlyFilesChange(s.kernel, k)
    requires pc.Cleanup? || pc.Executed?
    requires var c := s.threads[t].conn;
             s' == SetThread(s.(kernel := k, conns := s.conns[c := s.conns[c].(room := room)]), t, pc)
    ensures JobAt(s', CallRan(s', t, fate, job))
  {
    assert !Lingering(s.threads[t]);
    assert job.Job? && job.stage == InThread(t);
  }

  lemma ExecutedKeepsThreads(s: Server, s': Server, t: nat, k: Kernel, room: bool, pc: HandlerPc)
    requires ThreadsOk(s) && t < |s.threads| && s.threads[t].pc.Ready? && s.threads[t].conn < |s.conns|
    requires OnlyFilesChange(s.kernel, k)
    requires pc == Cleanup(s.threads[t].pc.arg.payload) || (pc.Executed? && pc.arg == s.threads[t].pc.arg)
    requires var c := s.threads[t].conn;
             s' == SetThread(s.(kernel := k, conns := s.conns[c := s.conns[c].(room := room)]), t, pc)
    ensures ThreadsOk(s')
  {
  }

  /** The same, whatever the call was. */
  lemma ExecutedKeeps(s: Server, s': Server, t: nat, k: Kernel, room: bool, pc: HandlerPc, fate: Fate, job: Job)
    requires Inv(s, job) && t < |s.threads| && s.threads[t].pc.Ready? && s.threads[t].conn < |s.conns|
    requires OnlyFilesChange(s.kernel, k)
    requires pc == Cleanup(s.threads[t].pc.arg.payload) || (pc.Executed? && pc.arg == s.threads[t].pc.arg)
    requires var c := s.threads[t].conn;
             s' == SetThread(s.(kernel := k, conns := s.conns[c := s.conns[c].(room := room)]), t, pc)
    ensures Inv(s', CallRan(s', t, fate, job))
  {
    SocketsKept(s, s');
    PayloadsKept(s, s');
    ApartKept(s, s');
    ExecutedKeepsThreads(s, s', t, k, room, pc);
    ExecutedKeepsJob(s, s', t, k, room, pc, fate, job);
  }

  lemma SendKeepsJob(s: Server, t: nat, job: Job)
    requires JobAt(s, job) && CanSend(s, t) && ThreadOk(s, s.threads[t])
    ensures JobAt(DoSend(s, t), Sent(job))
  {
    assert !Lingering(s.threads[t]);
    assert job.Job? && job.stage == InThread(t);
  }

  lemma SendKeeps(s: Server, t: nat, job: Job)
    requires Inv(s, job) && CanSend(s, t)
    ensures Inv(DoSend(s, t), Sent(job))
  {
    SocketsKept(s, DoSend(s, t));
    PayloadsKept(s, DoSend(s, t));
    ApartKept(s, DoSend(s, t));
    SendKeepsJob(s, t, job);
  }

  /** A handler that is only cleaning up does not disturb the outstanding request. */
  lemma LingerKeepsJob(s: Server, s': Server, t: nat, job: Job)
    requires JobAt(s, job) && t < |s.threads| && Lingering(s.threads[t])
    requires |s'.threads| == |s.threads| && Lingering(s'.threads[t]) && s'.threads[t].conn == s.threads[t].conn
    requires s'.threads[t].given == s.threads[t].given
    requires forall u :: 0 <= u < |s.threads| && u != t ==>
               s'.threads[u] == s.threads[u] && Apart(s.threads[t], s.threads[u])
    requires s'.pc == s.pc && s'.backlog == s.backlog && s'.conns == s.conns
    requires s'.arg == s.arg && s'.nextPtr == s.nextPtr
    requires forall p :: p in s.heap && p != s.threads[t].given.payload ==> p in s'.heap && s'.heap[p] == s.heap[p]
    requires forall fd :: fd in s.kernel.table && s.kernel.table[fd].Sock?
                          && s.kernel.table[fd].conn != s.threads[t].conn ==>
               fd in s'.kernel.table && s'.kernel.table[fd] == s.kernel.table[fd]
    ensures JobAt(s', job)
  {
  }

  lemma CloseKeepsThreads(s: Server, t: nat)
    requires ThreadsOk(s) && CanClose(s, t)
    requires forall u :: 0 <= u < |s.threads| && u != t ==> Apart(s.threads[t], s.threads[u])
    ensures ThreadsOk(DoClose(s, t))
  {
  }

  lemma FreeKeepsThreads(s: Server, t: nat)
    requires ThreadsOk(s) && CanFree(s, t)
    requires forall u :: 0 <= u < |s.threads| && u != t ==> Apart(s.threads[t], s.threads[u])
    ensures ThreadsOk(DoFree(s, t))
  {
  }

  lemma FreeKeepsHeap(s: Server, t: nat)
    requires HeapOk(s) && CanFree(s, t) && s.threads[t].given.payload == s.threads[t].pc.p
    ensures HeapOk(DoFree(s, t))
  {
    var s' := DoFree(s, t);
    assert PayloadOwned(s, s.threads[t].pc.p);
    forall p | p in s'.heap
      ensures p < s'.nextPtr && PayloadOwned(s', p)
    {
      assert PayloadOwned(s, p);
      if MainPtr(s.pc) != Some(p) {
        var u :| OwnsPayload(s, u, p);
        assert OwnsPayload(s', u, p);
      }
    }
  }

  lemma CloseKeeps(s: Server, t: nat, job: Job)
    requires Inv(s, job) && CanClose(s, t)
    ensures Inv(DoClose(s, t), job)
  {
    var s' := DoClose(s, t);
    assert forall u :: 0 <= u < |s.threads| && u != t ==> Apart(s.threads[t], s.threads[u]);
    CloseKeepsThreads(s, t);
    SocketsKept(s, s');
    PayloadsKept(s, s');
    ApartKept(s, s');
    LingerKeepsJob(s, s', t, job);
  }

  lemma FreeKeeps(s: Server, t: nat, job: Job)
    requires Inv(s, job) && CanFree(s, t)
    ensures Inv(DoFree(s, t), job)
  {
    var s' := DoFree(s, t);
    assert forall u :: 0 <= u < |s.threads| && u != t ==> Apart(s.threads[t], s.threads[u]);
    FreeKeepsThreads(s, t);
    FreeKeepsHeap(s, t);
    SocketsKept(s, s');
    ApartKept(s, s');
    LingerKeepsJob(s, s', t, job);
  }

  // ---- any step ----

  /** Whatever the server's threads do next, with one request outstanding or none,
      the invariant is kept; a call may run as long as it only touches files. */
  lemma StepKeeps(s: Server, step: Step, job: Job)
    requires Inv(s, job) && Enabled(s, step) && !step.Connect?
    requires step.Execute? ==> OnlyFilesChange(s.kernel, Apply(s, step).kernel)
    ensures Inv(Apply(s, step), Advance(s, step, job))
  {
    match step
    case AcceptConn => AcceptKeeps(s, job);
    case RecvHeader => RecvHeaderKeeps(s, job);
    case RecvBody(malloced) => RecvBodyKeeps(s, malloced, job);
    case StoreArg => StoreKeeps(s, job);
    case SpawnThread(created) => if created { SpawnKeeps(s, job); } else { NoThreadKeeps(s, job); }
    case CheckIndex => CheckKeeps(s, job);
    case JoinNext => JoinKeeps(s, job);
    case CopyPayload(_) => CopyKeeps(s, step, job);
    case CopySize(_) => CopyKeeps(s, step, job);
    case CopySocket(_) => CopyKeeps(s, step, job);
    case Execute(t, fate, junk) => ExecuteKeeps(s, t, fate, junk, job);
    case SendReply(t) => SendKeeps(s, t, job);
    case CloseSocket(t) => CloseKeeps(s, t, job);
    case FreePayload(t) => FreeKeeps(s, t, job);
  }

  lemma ConnectKeeps(s: Server, payload: bytes)
    requires Inv(s, NoJob) && !s.pc.Exited? && 0 < |payload| < TWO64
    ensures Inv(Apply(s, Connect(U64(|payload|) + payload)), Job(|s.conns|, payload, Queued, false, []))
  {
    var s' := Apply(s, Connect(U64(|payload|) + payload));
    SocketsKept(s, s');
    PayloadsKept(s, s');
    ApartKept(s, s');
  }

  /** Once the client has its reply, the next request may come. */
  lemma AnswerTaken(s: Server, job: Job)
    requires Inv(s, job) && job.Job? && job.stage.Answered?
    ensures Inv(s, NoJob)
  {
  }

  /** So it may when the loop has been left: the request it had in hand did not run. */
  lemma ExitTaken(s: Server, job: Job)
    requires Inv(s, job) && s.pc.Exited?
    ensures job.Job? ==>
              && job.stage.Lost? && !job.ran && s.conns[job.conn].outbox == []
              && (s.conns[job.conn].inbox == [] <==> s.pc.kept.Some?)
    ensures Inv(s, NoJob)
  {
  }

  /** The record of the outstanding call is the same. */
  predicate SameRecord(s: Server, job: Job, s': Server, job': Job) {
    if job.NoJob? then job'.NoJob?
    else
      && job'.Job? && job' == job.(stage := job'.stage) && (job.stage.Lost? ==> job'.stage.Lost?)
      && job.conn < |s.conns| && job.conn < |s'.conns| && s'.conns[job.conn].room == s.conns[job.conn].room
  }

  lemma OthersKeepFiles(s: Server, step: Step)
    requires ThreadsOk(s) && Enabled(s, step) && !step.Execute?
    ensures SameFiles(s.kernel, Apply(s, step).kernel)
  {
    match step
    case AcceptConn =>
    case CloseSocket(t) => assert ThreadOk(s, s.threads[t]);
    case _ =>
  }

  lemma OthersKeepRecord(s: Server, step: Step, job: Job)
    requires JobAt(s, job) && Enabled(s, step) && !step.Execute? && !step.Connect?
    ensures SameRecord(s, job, Apply(s, step), Advance(s, step, job))
  {
  }

  /** Only `Execute` touches files or the record. */
  lemma OthersTouchSockets(s: Server, step: Step, job: Job)
    requires Inv(s, job) && Enabled(s, step) && !step.Execute? && !step.Connect?
    ensures SameFiles(s.kernel, Apply(s, step).kernel)
    ensures SameRecord(s, job, Apply(s, step), Advance(s, step, job))
  {
    OthersKeepFiles(s, step);
    OthersKeepRecord(s, step, job);
  }
}
