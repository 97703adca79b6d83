/** One client process with the hook preloaded, and the server: the client makes
    any calls it likes, one at a time, while the server's threads interleave freely. */
module System {
  import opened CData
  import opened Calls
  import opened Kernel
  import opened Routing
  import opened Wire
  import opened Server
  import opened ServerInv
  import opened Direct

  /** In a remote call, the client waits on its socket for the reply. */
  datatype ClientPc = Idle | Waiting(action: Action, sock: int)

  /** `log` records the program's calls with what they returned. `job` and `result`
      are history: how far the outstanding request is, and what its call returned. */
  datatype System = System(
    local: Kernel,
    pc: ClientPc,
    log: seq<Event>,
    server: Server,
    job: Job,
    result: Ret)

  datatype SysStep =
    | LocalCall(a: Action)
    | RefusedCall(a: Action)
    | SendCall(a: Action)
    | ServerStep(step: Step)
    | ReceiveReply
    | ConnectionReset
    | EndOfStream(junk: bytes)

  predicate CanCall(s: System, a: Action) {
    s.pc.Idle? && WellBehaved(s.log, a) && LogOk(s.log)
  }

  /** What goes on the wire for a program's remote call. */
  function WireCall(log: seq<Event>, a: Action): (c: Call)
    requires ActionOk(a) && GoesRemote(Actual(log, a))
  {
    OnTheWire(Actual(log, a))
  }

  predicate CanSendCall(s: System, a: Action) {
    && CanCall(s, a) && GoesRemote(Actual(s.log, a)) && Encodable(WireCall(s.log, a))
    && HasRoom(s.local) && !s.server.pc.Exited?
  }

  /** The client waits for the reply on its connection. */
  predicate OnConnection(s: System) {
    && s.pc.Waiting? && ActionOk(s.pc.action) && GoesRemote(Actual(s.log, s.pc.action))
    && s.pc.sock in s.local.table && s.local.table[s.pc.sock].Sock?
    && s.local.table[s.pc.sock].conn < |s.server.conns|
  }

  function Connection(s: System): (c: Conn)
    requires OnConnection(s)
  {
    s.server.conns[s.local.table[s.pc.sock].conn]
  }

  /** The whole reply has arrived on the client's socket. */
  predicate CanReceive(s: System) {
    OnConnection(s) && |Connection(s).outbox| >= ReplyLength(WireCall(s.log, s.pc.action))
  }

  /** The server has ended without a reply. With the request, or the rest of it,
      unread, that resets the connection. */
  predicate CanReset(s: System) {
    && OnConnection(s) && s.server.pc.Exited?
    && Connection(s).outbox == [] && Connection(s).inbox != []
  }

  /** With the request read, it ends the stream. `junk` is what the stub's reply
      buffer happens to hold. */
  predicate CanEnd(s: System, junk: bytes) {
    && OnConnection(s) && s.server.pc.Exited?
    && Connection(s).outbox == [] && Connection(s).inbox == []
    && |junk| == ReplyLength(WireCall(s.log, s.pc.action))
  }

  /** A new client comes by `SendCall` only. */
  predicate Happens(v: Server, step: Step) {
    Enabled(v, step) && !step.Connect?
  }

  predicate SysEnabled(s: System, step: SysStep) {
    match step
    case LocalCall(a) => CanCall(s, a) && !GoesRemote(Actual(s.log, a))
    case RefusedCall(a) => CanCall(s, a) && GoesRemote(Actual(s.log, a))
    case SendCall(a) => CanSendCall(s, a)
    case ServerStep(step) => Happens(s.server, step)
    case ReceiveReply => CanReceive(s)
    case ConnectionReset => CanReset(s)
    case EndOfStream(junk) => CanEnd(s, junk)
  }

  function DoLocal(s: System, a: Action): (s': System)
    requires CanCall(s, a)
  {
    var (l, r) := Sys(s.local, Actual(s.log, a));
    s.(local := l, log := s.log + [Event(a, r, Ran(true))])
  }

  /** No memory for the request, no descriptor, or no connection, as when the server
      is gone: the stub fails before anything is sent. */
  function DoRefused(s: System, a: Action): (s': System) {
    s.(log := s.log + [Event(a, Failed(a.call), Refused)])
  }

  function DoSendCall(s: System, a: Action): (s': System)
    requires CanSendCall(s, a)
  {
    var c := WireCall(s.log, a);
    s.(local := Insert(s.local, Sock(|s.server.conns|)),
       pc := Waiting(a, LowestFree(s.local)),
       server := Apply(s.server, Connect(Request(c))),
       job := Job(|s.server.conns|, Payload(c), Queued, false, []))
  }

  /** What a call returned, if this step ran one. */
  function ResultOf(s: System, step: Step): (r: Ret)
    requires Enabled(s.server, step)
  {
    if step.Execute? && Decode(s.server.heap[s.server.threads[step.t].pc.arg.payload]).Ok? then
      Serve(s.server.kernel, Decode(s.server.heap[s.server.threads[step.t].pc.arg.payload]).call).1
    else s.result
  }

  function DoServer(s: System, step: Step): (s': System)
    requires Enabled(s.server, step)
  {
    s.(server := Apply(s.server, step), job := Advance(s.server, step, s.job), result := ResultOf(s, step))
  }

  /** The stub takes the reply, closes its socket and returns. */
  function DoReceive(s: System): (s': System)
    requires CanReceive(s)
  {
    var a := s.pc.action;
    var c := WireCall(s.log, a);
    var conn := Connection(s);
    var r := Extract(c, conn.outbox[..ReplyLength(c)]);
    s.(local := Remove(s.local, s.pc.sock), pc := Idle, job := NoJob,
       log := s.log + [Event(a, r, Ran(conn.room))])
  }

  /** The connection is reset, and the stub's receive fails. */
  function DoReset(s: System): (s': System)
    requires s.pc.Waiting?
  {
    var a := s.pc.action;
    s.(local := Remove(s.local, s.pc.sock), pc := Idle, job := NoJob,
       log := s.log + [Event(a, Failed(a.call), Refused)])
  }

  /** The stub's receive gives no bytes and no error, and what is in the buffer is
      taken for the reply. */
  function DoEnd(s: System, junk: bytes): (s': System)
    requires CanEnd(s, junk)
  {
    var a := s.pc.action;
    s.(local := Remove(s.local, s.pc.sock), pc := Idle, job := NoJob,
       log := s.log + [Event(a, Extract(WireCall(s.log, a), junk), Refused)])
  }

  function SysApply(s: System, step: SysStep): (s': System)
    requires SysEnabled(s, step)
  {
    match step
    case LocalCall(a) => DoLocal(s, a)
    case RefusedCall(a) => DoRefused(s, a)
    case SendCall(a) => DoSendCall(s, a)
    case ServerStep(step) => DoServer(s, step)
    case ReceiveReply => DoReceive(s)
    case ConnectionReset => DoReset(s)
    case EndOfStream(junk) => DoEnd(s, junk)
  }

  predicate SysValid(s: System, steps: seq<SysStep>)
    decreases |steps|
  {
    steps == [] || (SysEnabled(s, steps[0]) && SysValid(SysApply(s, steps[0]), steps[1..]))
  }

  function SysRun(s: System, steps: seq<SysStep>): (s': System)
    requires SysValid(s, steps)
    decreases |steps|
  {
    if steps == [] then s else SysRun(SysApply(s, steps[0]), steps[1..])
  }

  /** No receive meets the end of a stream; it can only when the server could not
      create a thread. */
  predicate NoEndOfStream(steps: seq<SysStep>) {
    forall i :: 0 <= i < |steps| ==> !steps[i].EndOfStream?
  }

  /** A server that has just started listening, and a client about to start. Any
      files, any descriptors the processes were born with, except that the server
      has no files or sockets open. */
  predicate Initial(s: System) {
    && s.pc.Idle? && s.log == [] && s.job.NoJob?
    && s.local.limit <= INT_MAX / 2 + 1 && s.server.kernel.limit <= INT_MAX / 2 + 1
    && var v := s.server;
       && (forall fd :: fd in v.kernel.table ==>
             if fd == v.listener then v.kernel.table[fd].Listener? else v.kernel.table[fd].Other?)
       && v.listener in v.kernel.table
       && v.conns == [] && v.backlog == [] && v.threads == [] && v.pc.Accept?
       && |v.slots| == SLOTS && v.index == 0 && v.joined == []
       && v.heap == map[] && v.nextPtr == 0 && v.freed == multiset{}
  }

  /** The same files, with a process of its own on the server's machine. */
  function DirectOf(s: System): (d: Direct) {
    Direct(s.local, Kernel(s.server.kernel.world, map[], s.server.kernel.limit), [])
  }
}
