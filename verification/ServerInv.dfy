/** What every step of the server keeps while at most one request is outstanding:
    the argument handoff, who owns which socket, payload and thread slot. */
module ServerInv {
  import opened CData
  import opened Kernel
  import opened Server

  /** How far the outstanding request has come. */
  datatype Stage = Queued | InMain | InThread(t: nat) | Answered | Lost

  /** The request a client is waiting for: its connection and payload, whether its
      call has run, and the reply then made. */
  datatype Job = NoJob | Job(conn: nat, payload: bytes, stage: Stage, ran: bool, reply: bytes)

  // ---- handoff ----

  /** What a handler has copied is what was stored for it. */
  predicate CopiedOk(th: Thread) {
    match th.pc
    case GotPayload(p) => p == th.given.payload
    case GotSize(p, n) => p == th.given.payload && n == th.given.size
    case Ready(arg) => arg == th.given
    case Executed(arg, _) => arg == th.given
    case Replied(arg) => arg == th.given
    case Cleanup(p) => p == th.given.payload
    case _ => true
  }

  predicate Copying(pc: HandlerPc) {
    pc.Starting? || pc.GotPayload? || pc.GotSize?
  }

  /** Past sending its reply, or past failing to. */
  predicate Lingering(th: Thread) {
    th.pc.Replied? || th.pc.Cleanup? || th.pc.Finished?
  }

  predicate ThreadOk(s: Server, th: Thread) {
    && CopiedOk(th)
    && th.conn < |s.conns|
    && (!th.pc.Cleanup? && !th.pc.Finished? ==> th.holds)
    && (th.holds ==> th.given.fd in s.kernel.table && s.kernel.table[th.given.fd] == Sock(th.conn))
    && th.given.payload < s.nextPtr
    && (th.pc.Finished? <==> th.given.payload !in s.heap)
    && s.conns[th.conn].inbox == []
  }

  predicate ThreadsOk(s: Server) {
    forall t :: 0 <= t < |s.threads| ==> ThreadOk(s, s.threads[t])
  }

  /** No two handlers serve one connection or were given one payload. */
  predicate Apart(th: Thread, th': Thread) {
    th.conn != th'.conn && th.given.payload != th'.given.payload
  }

  predicate AllApart(s: Server) {
    forall t, u {:trigger Apart(s.threads[t], s.threads[u])} ::
      0 <= t < |s.threads| && 0 <= u < |s.threads| && t != u ==> Apart(s.threads[t], s.threads[u])
  }

  // ---- ownership ----

  function MainFd(pc: MainPc): (fd: Option<int>) {
    match pc
    case Header(fd) => Some(fd)
    case Body(fd, _) => Some(fd)
    case Store(arg) => Some(arg.fd)
    case Spawn(arg) => Some(arg.fd)
    case Exited(left, _) => left
    case _ => None
  }

  function MainPtr(pc: MainPc): (p: Option<nat>) {
    match pc
    case Store(arg) => Some(arg.payload)
    case Spawn(arg) => Some(arg.payload)
    case Exited(_, kept) => kept
    case _ => None
  }

  predicate OwnsSocket(s: Server, t: nat, fd: int) {
    t < |s.threads| && s.threads[t].holds && s.threads[t].given.fd == fd
  }

  predicate OwnsPayload(s: Server, t: nat, p: nat) {
    t < |s.threads| && !s.threads[t].pc.Finished? && s.threads[t].given.payload == p
  }

  ghost predicate SocketOwned(s: Server, fd: int) {
    MainFd(s.pc) == Some(fd) || exists t :: OwnsSocket(s, t, fd)
  }

  ghost predicate PayloadOwned(s: Server, p: nat) {
    MainPtr(s.pc) == Some(p) || exists t :: OwnsPayload(s, t, p)
  }

  /** Every socket in the table belongs to the accept loop or to one handler. */
  ghost predicate SocketsOk(s: Server) {
    && (forall fd {:trigger SocketOwned(s, fd)} ::
          fd in s.kernel.table && s.kernel.table[fd].Sock? ==> SocketOwned(s, fd))
    && (forall fd :: (fd in s.kernel.table && s.kernel.table[fd] == Listener) <==> fd == s.listener)
  }

  /** A payload is allocated and owned, or has been freed exactly once. */
  ghost predicate HeapOk(s: Server) {
    && (forall p {:trigger PayloadOwned(s, p)} :: p in s.heap ==> p < s.nextPtr && PayloadOwned(s, p))
    && (forall p: nat :: s.freed[p] == if p < s.nextPtr && p !in s.heap then 1 else 0)
  }

  // ---- slots ----

  /** Slots in use, and how many of them the join loop has been through. */
  function Filled(s: Server): (n: nat) { if s.pc.Join? then BATCH else s.index }
  function Taken(s: Server): (n: nat) { if s.pc.Join? then s.index else 0 }

  predicate SlotsOk(s: Server) {
    && |s.slots| == SLOTS
    && (if s.pc.Join? then s.index <= BATCH else if s.pc.Check? then 1 <= s.index <= BATCH else s.index < BATCH)
    && Filled(s) <= |s.threads| == |s.joined| + Filled(s) - Taken(s)
    && (forall j :: 0 <= j < Filled(s) ==> s.slots[j] == |s.threads| - Filled(s) + j)
    && (forall i :: 0 <= i < |s.joined| ==> s.joined[i] == i && s.threads[i].pc.Finished?)
  }

  // ---- the outstanding request ----

  predicate MainIdle(pc: MainPc) {
    pc.Accept? || pc.Check? || pc.Join?
  }

  predicate Quiet(s: Server) {
    MainIdle(s.pc) && s.backlog == []
  }

  predicate AllLinger(s: Server) {
    forall t :: 0 <= t < |s.threads| ==> Lingering(s.threads[t])
  }

  predicate NoThreadFor(s: Server, c: nat) {
    forall t :: 0 <= t < |s.threads| ==> s.threads[t].conn != c
  }

  /** The accept loop has the request in hand, received so far as its place says. */
  predicate MainHolds(s: Server, c: nat, payload: bytes)
    requires c < |s.conns|
  {
    && MainFd(s.pc).Some? && !s.pc.Exited?
    && MainFd(s.pc).value in s.kernel.table && s.kernel.table[MainFd(s.pc).value] == Sock(c)
    && (s.pc.Header? ==> s.conns[c].inbox == U64(|payload|) + payload)
    && (s.pc.Body? ==> s.conns[c].inbox == payload && s.pc.size == |payload|)
    && (s.pc.Store? || s.pc.Spawn? ==>
          var arg := s.pc.arg;
          && s.conns[c].inbox == [] && arg.size == |payload| && arg.payload < s.nextPtr
          && arg.payload in s.heap && s.heap[arg.payload] == payload
          && forall t :: 0 <= t < |s.threads| ==> s.threads[t].given.payload != arg.payload)
    && (s.pc.Spawn? ==> s.arg == s.pc.arg)
  }

  /** A handler has the request in hand. */
  predicate HandlerHolds(s: Server, th: Thread, job: Job)
    requires job.Job?
  {
    && th.conn == job.conn && !Lingering(th)
    && th.given.size == |job.payload|
    && th.given.payload in s.heap && s.heap[th.given.payload] == job.payload
    && (Copying(th.pc) ==> s.arg == th.given)
    && (th.pc.Executed? <==> job.ran)
    && (th.pc.Executed? ==> th.pc.reply == job.reply)
  }

  predicate StageOk(s: Server, job: Job)
    requires job.Job? && job.conn < |s.conns|
  {
    match job.stage
    case Queued =>
      && MainIdle(s.pc) && AllLinger(s) && NoThreadFor(s, job.conn) && !job.ran
      && s.backlog == [job.conn] && s.conns[job.conn].inbox == U64(|job.payload|) + job.payload
    case InMain =>
      s.backlog == [] && AllLinger(s) && NoThreadFor(s, job.conn) && !job.ran && MainHolds(s, job.conn, job.payload)
    case InThread(t) =>
      && s.backlog == [] && MainIdle(s.pc) && t < |s.threads| && HandlerHolds(s, s.threads[t], job)
      && forall u :: 0 <= u < |s.threads| && u != t ==> Lingering(s.threads[u])
    case Answered =>
      s.backlog == [] && MainIdle(s.pc) && AllLinger(s) && job.ran && s.conns[job.conn].outbox == job.reply
    case Lost =>
      && AllLinger(s)
      && (Quiet(s) || (s.pc.Exited? && !job.ran && (s.conns[job.conn].inbox == [] <==> s.pc.kept.Some?)))
  }

  predicate JobAt(s: Server, job: Job) {
    if job.NoJob? then AllLinger(s) && (Quiet(s) || s.pc.Exited?)
    else
      && job.conn < |s.conns| && 0 < |job.payload| < TWO64
      && StageOk(s, job)
      && (job.stage.Answered? || s.conns[job.conn].outbox == [])
  }

  ghost predicate Inv(s: Server, job: Job) {
    ThreadsOk(s) && AllApart(s) && SocketsOk(s) && HeapOk(s) && SlotsOk(s) && JobAt(s, job)
  }

  // ---- how a step moves the outstanding request along ----

  function Accepted(s: Server, job: Job): (job': Job) {
    if job.NoJob? then job else job.(stage := if HasRoom(s.kernel) then InMain else Lost)
  }

  function BodyReceived(job: Job, malloced: bool): (job': Job) {
    if job.NoJob? || malloced then job else job.(stage := Lost)
  }

  function Spawned(s: Server, created: bool, job: Job): (job': Job) {
    if job.NoJob? then job else job.(stage := if created then InThread(|s.threads|) else Lost)
  }

  function Sent(job: Job): (job': Job) {
    if job.NoJob? then job else job.(stage := Answered)
  }

  function CallRan(s': Server, t: nat, fate: Fate, job: Job): (job': Job)
    requires t < |s'.threads|
  {
    var pc := s'.threads[t].pc;
    if job.NoJob? then job
    else if pc.Executed? then job.(ran := true, reply := pc.reply)
    else job.(ran := fate.NoReply?, stage := Lost)
  }

  function Advance(s: Server, step: Step, job: Job): (job': Job)
    requires Enabled(s, step)
  {
    match step
    case AcceptConn => Accepted(s, job)
    case RecvBody(malloced) => BodyReceived(job, malloced)
    case SpawnThread(created) => Spawned(s, created, job)
    case Execute(t, fate, junk) => CallRan(DoExecute(s, t, fate, junk), t, fate, job)
    case SendReply(t) => Sent(job)
    case _ => job
  }
}
