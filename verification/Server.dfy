/** The server process as a state machine: the accept loop, its handler threads and
    the connections, with any interleaving of their steps. A step is what one
    thread does up to its next access to shared state. */
module Server {
  import opened CData
  import opened Calls
  import opened Kernel
  import opened Routing
  import opened Wire

  const BATCH := 50
  const SLOTS := 60

  /** The fields of the one `argument` variable all handlers are pointed at. */
  datatype ThreadArg = ThreadArg(payload: nat, size: nat, fd: int)

  /** Where a handler is, with its locals. */
  datatype HandlerPc =
    | Starting
    | GotPayload(p: nat)
    | GotSize(p: nat, n: nat)
    | Ready(arg: ThreadArg)
    | Executed(arg: ThreadArg, reply: bytes)
    | Replied(arg: ThreadArg)
    | Cleanup(p: nat)
    | Finished

  /** `conn`, `given` and `holds` are history: the connection accepted for the
      thread, the argument stored for it, and whether its socket is still open. */
  datatype Thread = Thread(conn: nat, given: ThreadArg, holds: bool, pc: HandlerPc)

  /** Where the accept loop is, with its locals. `Exited` is for a loop left after a
      failure, with the socket and the payload it had in hand, and so for a process
      that ends; handlers may take a few steps more. */
  datatype MainPc =
    | Accept
    | Header(fd: int)
    | Body(fd: int, size: nat)
    | Store(arg: ThreadArg)
    | Spawn(arg: ThreadArg)
    | Check
    | Join
    | Exited(left: Option<int>, kept: Option<nat>)

  /** A connection: bytes from the client not yet received, bytes sent back. `room`
      is history: whether a descriptor was free when its call ran. */
  datatype Conn = Conn(inbox: bytes, outbox: bytes, room: bool)

  /** Threads and connections are named by their position. `freed` and `joined` are
      history. */
  datatype Server = Server(
    kernel: Kernel,
    listener: int,
    conns: seq<Conn>,
    backlog: seq<nat>,
    pc: MainPc,
    arg: ThreadArg,
    slots: seq<nat>,
    index: nat,
    threads: seq<Thread>,
    heap: map<nat, bytes>,
    nextPtr: nat,
    freed: multiset<nat>,
    joined: seq<nat>)

  /** How the handler's two mallocs fare. */
  datatype Fate = AllFine | NoBuffer | NoReply

  datatype Step =
    | Connect(request: bytes)
    | AcceptConn
    | RecvHeader
    | RecvBody(malloced: bool)
    | StoreArg
    | SpawnThread(created: bool)
    | CheckIndex
    | JoinNext
    | CopyPayload(t: nat)
    | CopySize(t: nat)
    | CopySocket(t: nat)
    | Execute(t: nat, fate: Fate, junk: bytes)
    | SendReply(t: nat)
    | CloseSocket(t: nat)
    | FreePayload(t: nat)

  predicate IsSocket(s: Server, fd: int) {
    fd in s.kernel.table && s.kernel.table[fd].Sock? && s.kernel.table[fd].conn < |s.conns|
  }

  function ConnOf(s: Server, fd: int): (c: nat)
    requires IsSocket(s, fd)
    ensures c < |s.conns|
  {
    s.kernel.table[fd].conn
  }

  /** The calls whose handler branch allocates a buffer before it runs the call. */
  predicate NeedsBuffer(c: Call) {
    c.Read? || c.Write? || c.Stat? || c.Fstat?
  }

  /** The handler can run on what it copied: the payload is allocated and of that
      size, no field lies outside it, and the descriptor arithmetic is defined. */
  predicate Runnable(s: Server, arg: ThreadArg) {
    && arg.payload in s.heap && arg.size == |s.heap[arg.payload]|
    && var d := Decode(s.heap[arg.payload]);
       d.Unsupported? || (d.Ok? && ArgsOk(d.call) && (HasFd(d.call) ==> IsInt32(Handle(d.call.fd))))
  }

  /** `junk` is what the reply buffer holds where the call left it uninitialised. */
  predicate CanServe(s: Server, arg: ThreadArg, fate: Fate, junk: bytes) {
    && Runnable(s, arg)
    && var d := Decode(s.heap[arg.payload]);
       d.Ok? ==>
         && (fate.NoBuffer? ==> NeedsBuffer(d.call))
         && var r := Serve(s.kernel, d.call).1;
            RetFits(d.call, r) && |junk| == JunkLength(d.call, r)
  }

  // ---- when a step can be taken ----

  predicate CanAccept(s: Server) {
    s.pc.Accept? && s.backlog != [] && s.backlog[0] < |s.conns|
  }

  /** At least `n` bytes have arrived on the socket; a receive takes them all. */
  predicate Arrived(s: Server, fd: int, n: nat) {
    IsSocket(s, fd) && |s.conns[ConnOf(s, fd)].inbox| >= n
  }

  predicate CanRecvHeader(s: Server) {
    s.pc.Header? && Arrived(s, s.pc.fd, 8)
  }

  predicate CanRecvBody(s: Server) {
    s.pc.Body? && Arrived(s, s.pc.fd, s.pc.size)
  }

  predicate CanSpawn(s: Server) {
    s.pc.Spawn? && IsSocket(s, s.pc.arg.fd) && s.index < |s.slots|
  }

  /** `pthread_join` returns once the thread has finished. */
  predicate CanJoin(s: Server) {
    && s.pc.Join?
    && (s.index < BATCH ==>
          && s.index < |s.slots| && s.slots[s.index] < |s.threads|
          && s.threads[s.slots[s.index]].pc.Finished?)
  }

  predicate CanExecute(s: Server, t: nat, fate: Fate, junk: bytes) {
    && t < |s.threads| && s.threads[t].pc.Ready? && s.threads[t].conn < |s.conns|
    && CanServe(s, s.threads[t].pc.arg, fate, junk)
  }

  predicate CanSend(s: Server, t: nat) {
    t < |s.threads| && s.threads[t].pc.Executed?
  }

  predicate CanClose(s: Server, t: nat) {
    t < |s.threads| && s.threads[t].pc.Replied?
  }

  predicate CanFree(s: Server, t: nat) {
    t < |s.threads| && s.threads[t].pc.Cleanup? && s.threads[t].pc.p in s.heap
  }

  predicate Enabled(s: Server, step: Step) {
    match step
    case Connect(_) => true
    case AcceptConn => CanAccept(s)
    case RecvHeader => CanRecvHeader(s)
    case RecvBody(_) => CanRecvBody(s)
    case StoreArg => s.pc.Store?
    case SpawnThread(_) => CanSpawn(s)
    case CheckIndex => s.pc.Check?
    case JoinNext => CanJoin(s)
    case CopyPayload(t) => t < |s.threads| && s.threads[t].pc.Starting?
    case CopySize(t) => t < |s.threads| && s.threads[t].pc.GotPayload?
    case CopySocket(t) => t < |s.threads| && s.threads[t].pc.GotSize?
    case Execute(t, fate, junk) => CanExecute(s, t, fate, junk)
    case SendReply(t) => CanSend(s, t)
    case CloseSocket(t) => CanClose(s, t)
    case FreePayload(t) => CanFree(s, t)
  }

  function SetThread(s: Server, t: nat, pc: HandlerPc): (s': Server)
    requires t < |s.threads|
  {
    s.(threads := s.threads[t := s.threads[t].(pc := pc)])
  }

  function Received(s: Server, fd: int, n: nat): (b: bytes)
    requires Arrived(s, fd, n)
  {
    s.conns[ConnOf(s, fd)].inbox[..n]
  }

  function AfterReceive(s: Server, fd: int, n: nat): (s': Server)
    requires Arrived(s, fd, n)
  {
    var c := ConnOf(s, fd);
    s.(conns := s.conns[c := s.conns[c].(inbox := s.conns[c].inbox[n..])])
  }

  // ---- the accept loop ----

  function DoAccept(s: Server): (s': Server)
    requires CanAccept(s)
  {
    if HasRoom(s.kernel) then
      s.(kernel := Insert(s.kernel, Sock(s.backlog[0])), backlog := s.backlog[1..], pc := Header(LowestFree(s.kernel)))
    else s.(pc := Exited(None, None))
  }

  function DoRecvHeader(s: Server): (s': Server)
    requires CanRecvHeader(s)
  {
    var fd := s.pc.fd;
    AfterReceive(s, fd, 8).(pc := Body(fd, FromLittle(Received(s, fd, 8))))
  }

  function DoRecvBody(s: Server, malloced: bool): (s': Server)
    requires CanRecvBody(s)
  {
    var fd, n := s.pc.fd, s.pc.size;
    if malloced then
      AfterReceive(s, fd, n).(heap := s.heap[s.nextPtr := Received(s, fd, n)], nextPtr := s.nextPtr + 1,
                              pc := Store(ThreadArg(s.nextPtr, n, fd)))
    else s.(pc := Exited(Some(fd), None))
  }

  function DoStore(s: Server): (s': Server)
    requires s.pc.Store?
  {
    s.(arg := s.pc.arg, pc := Spawn(s.pc.arg))
  }

  function DoSpawn(s: Server, created: bool): (s': Server)
    requires CanSpawn(s)
  {
    if created then
      s.(threads := s.threads + [Thread(ConnOf(s, s.pc.arg.fd), s.pc.arg, true, Starting)],
         slots := s.slots[s.index := |s.threads|], index := s.index + 1, pc := Check)
    else s.(pc := Exited(Some(s.pc.arg.fd), Some(s.pc.arg.payload)))
  }

  function DoCheck(s: Server): (s': Server) {
    if s.index >= BATCH then s.(index := 0, pc := Join) else s.(pc := Accept)
  }

  function DoJoin(s: Server): (s': Server)
    requires CanJoin(s)
  {
    if s.index < BATCH then s.(index := s.index + 1, joined := s.joined + [s.slots[s.index]])
    else s.(index := 0, pc := Accept)
  }

  // ---- a handler ----

  /** Decode, run the call, build the reply; a failed malloc or an unknown code
      goes straight to cleanup. */
  function DoExecute(s: Server, t: nat, fate: Fate, junk: bytes): (s': Server)
    requires CanExecute(s, t, fate, junk)
  {
    var th := s.threads[t];
    var d := Decode(s.heap[th.pc.arg.payload]);
    if d.Unsupported? || fate.NoBuffer? then SetThread(s, t, Cleanup(th.pc.arg.payload))
    else
      var (k, r) := Serve(s.kernel, d.call);
      var ran := s.(kernel := k, conns := s.conns[th.conn := s.conns[th.conn].(room := HasRoom(s.kernel))]);
      SetThread(ran, t,
        if fate.NoReply? then Cleanup(th.pc.arg.payload) else Executed(th.pc.arg, Reply(d.call, r, junk)))
  }

  /** If the descriptor is no socket, `send` fails. */
  function DoSend(s: Server, t: nat): (s': Server)
    requires CanSend(s, t)
  {
    var pc := s.threads[t].pc;
    if IsSocket(s, pc.arg.fd) then
      var c := ConnOf(s, pc.arg.fd);
      SetThread(s.(conns := s.conns[c := s.conns[c].(outbox := pc.reply)]), t, Replied(pc.arg))
    else SetThread(s, t, Cleanup(pc.arg.payload))
  }

  function DoClose(s: Server, t: nat): (s': Server)
    requires CanClose(s, t)
  {
    var th := s.threads[t];
    s.(kernel := Remove(s.kernel, th.pc.arg.fd),
       threads := s.threads[t := th.(holds := false, pc := Cleanup(th.pc.arg.payload))])
  }

  function DoFree(s: Server, t: nat): (s': Server)
    requires CanFree(s, t)
  {
    var p := s.threads[t].pc.p;
    SetThread(s.(heap := s.heap - {p}, freed := s.freed + multiset{p}), t, Finished)
  }

  function Apply(s: Server, step: Step): (s': Server)
    requires Enabled(s, step)
  {
    match step
    case Connect(request) => s.(conns := s.conns + [Conn(request, [], true)], backlog := s.backlog + [|s.conns|])
    case AcceptConn => DoAccept(s)
    case RecvHeader => DoRecvHeader(s)
    case RecvBody(malloced) => DoRecvBody(s, malloced)
    case StoreArg => DoStore(s)
    case SpawnThread(created) => DoSpawn(s, created)
    case CheckIndex => DoCheck(s)
    case JoinNext => DoJoin(s)
    case CopyPayload(t) => SetThread(s, t, GotPayload(s.arg.payload))
    case CopySize(t) => SetThread(s, t, GotSize(s.threads[t].pc.p, s.arg.size))
    case CopySocket(t) => SetThread(s, t, Ready(ThreadArg(s.threads[t].pc.p, s.threads[t].pc.n, s.arg.fd)))
    case Execute(t, fate, junk) => DoExecute(s, t, fate, junk)
    case SendReply(t) => DoSend(s, t)
    case CloseSocket(t) => DoClose(s, t)
    case FreePayload(t) => DoFree(s, t)
  }

  predicate Valid(s: Server, steps: seq<Step>)
    decreases |steps|
  {
    steps == [] || (Enabled(s, steps[0]) && Valid(Apply(s, steps[0]), steps[1..]))
  }

  function Run(s: Server, steps: seq<Step>): (s': Server)
    requires Valid(s, steps)
    decreases |steps|
  {
    if steps == [] then s else Run(Apply(s, steps[0]), steps[1..])
  }
}
