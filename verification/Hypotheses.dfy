/** Why the results need their hypotheses: two clients at once break the argument
    handoff, and a handle used after its close can name the caller's own socket. */
module Hypotheses {
  import opened CData
  import opened Calls
  import opened Kernel
  import opened Routing
  import opened Wire
  import opened Server
  import opened ServerInv

  /** Running `steps` from `s` is possible, and leads to `s'`. */
  predicate Reaches(s: Server, steps: seq<Step>, s': Server) {
    Valid(s, steps) && Run(s, steps) == s'
  }

  lemma OneStep(s: Server, step: Step)
    requires Enabled(s, step)
    ensures Reaches(s, [step], Apply(s, step))
  {
    assert [step][1..] == [];
    assert Run(Apply(s, step), []) == Apply(s, step);
  }

  lemma {:induction false} ThenSteps(s: Server, a: seq<Step>, s': Server, b: seq<Step>, s'': Server)
    requires Reaches(s, a, s') && Reaches(s', b, s'')
    ensures Reaches(s, a + b, s'')
    decreases |a|
  {
    if a == [] {
      assert a + b == b;
    } else {
      ThenSteps(Apply(s, a[0]), a[1..], s', b, s'');
      assert (a + b)[1..] == a[1..] + b;
    }
  }

  lemma ThenStep(s: Server, a: seq<Step>, s': Server, step: Step)
    requires Reaches(s, a, s') && Enabled(s', step)
    ensures Reaches(s, a + [step], Apply(s', step))
  {
    OneStep(s', step);
    ThenSteps(s, a, s', [step], Apply(s', step));
  }

  /** The next request is waiting to be accepted. */
  predicate Waiting(s: Server, payload: bytes) {
    && s.pc.Accept? && HasRoom(s.kernel)
    && s.backlog != [] && s.backlog[0] < |s.conns| && |payload| < TWO64
    && s.conns[s.backlog[0]].inbox == U64(|payload|) + payload
  }

  /** The loop with the request received and its argument stored. */
  function Holding(s: Server, payload: bytes): (s': Server)
    requires Waiting(s, payload)
  {
    var c := s.backlog[0];
    var arg := ThreadArg(s.nextPtr, |payload|, LowestFree(s.kernel));
    s.(kernel := Insert(s.kernel, Sock(c)), backlog := s.backlog[1..],
       conns := s.conns[c := s.conns[c].(inbox := [])],
       heap := s.heap[s.nextPtr := payload], nextPtr := s.nextPtr + 1, arg := arg, pc := Spawn(arg))
  }

  const ARRIVAL := [AcceptConn] + [RecvHeader] + [RecvBody(true)] + [StoreArg]

  lemma TakesRequest(s: Server, payload: bytes)
    requires Waiting(s, payload)
    ensures Reaches(s, ARRIVAL, Holding(s, payload))
  {
    var c := s.backlog[0];
    U64RoundTrip(|payload|);
    assert s.conns[c].inbox[..8] == U64(|payload|) && s.conns[c].inbox[8..] == payload;
    assert payload[..|payload|] == payload && payload[|payload|..] == [];
    OneStep(s, AcceptConn);
    var s1 := DoAccept(s);
    ThenStep(s, [AcceptConn], s1, RecvHeader);
    var s2 := DoRecvHeader(s1);
    ThenStep(s, [AcceptConn] + [RecvHeader], s2, RecvBody(true));
    var s3 := DoRecvBody(s2, true);
    ThenStep(s, [AcceptConn] + [RecvHeader] + [RecvBody(true)], s3, StoreArg);
    assert DoStore(s3).conns == s.conns[c := s.conns[c].(inbox := [])];
    assert DoStore(s3) == Holding(s, payload);
  }

  function Copies(t: nat): (steps: seq<Step>) {
    [CopyPayload(t)] + [CopySize(t)] + [CopySocket(t)]
  }

  /** A handler copies whatever the shared argument holds. */
  lemma CopiesArgument(s: Server, t: nat)
    requires t < |s.threads| && s.threads[t].pc.Starting?
    ensures Reaches(s, Copies(t), SetThread(s, t, Ready(s.arg)))
  {
    OneStep(s, CopyPayload(t));
    var s1 := SetThread(s, t, GotPayload(s.arg.payload));
    ThenStep(s, [CopyPayload(t)], s1, CopySize(t));
    var s2 := SetThread(s1, t, GotSize(s.arg.payload, s.arg.size));
    ThenStep(s, [CopyPayload(t)] + [CopySize(t)], s2, CopySocket(t));
    var s3 := SetThread(s2, t, Ready(s.arg));
    assert s3.threads == SetThread(s, t, Ready(s.arg)).threads;
  }

  // ---- two clients ----

  /** Handler `t` was given `payload` on connection `c`, and copied `payload'` and
      the socket of connection `c'`. */
  predicate Crossed(v: Server, t: nat, payload: bytes, c: nat, payload': bytes, c': nat) {
    && t < |v.threads| && v.threads[t].pc.Ready?
    && var given, arg := v.threads[t].given, v.threads[t].pc.arg;
       && given.payload in v.heap && v.heap[given.payload] == payload
       && IsSocket(v, given.fd) && ConnOf(v, given.fd) == c
       && arg.payload in v.heap && v.heap[arg.payload] == payload' && arg.size == |payload'|
       && IsSocket(v, arg.fd) && ConnOf(v, arg.fd) == c'
       && !CopiedOk(v.threads[t])
  }

  /** Handler `t` is created for the first request; the loop goes on to the second
      and stores its argument; only then does the handler copy. */
  function Overtaking(t: nat): (steps: seq<Step>) {
    ARRIVAL + [SpawnThread(true)] + [CheckIndex] + ARRIVAL + Copies(t)
  }

  lemma SecondOvertakes(s: Server, payload: bytes, payload': bytes) returns (v: Server)
    requires s.pc.Accept? && |s.backlog| == 2 && s.backlog[0] != s.backlog[1] && s.backlog[1] < |s.conns|
    requires Waiting(s, payload) && s.index < BATCH - 1 && |s.slots| == SLOTS
    requires |payload'| < TWO64 && s.conns[s.backlog[1]].inbox == U64(|payload'|) + payload'
    requires HasRoom(Insert(s.kernel, Sock(s.backlog[0])))
    ensures Reaches(s, Overtaking(|s.threads|), v)
    ensures Crossed(v, |s.threads|, payload, s.backlog[0], payload', s.backlog[1])
  {
    var t := |s.threads|;
    var steps := ARRIVAL;
    TakesRequest(s, payload);
    var s1 := Holding(s, payload);
    ThenStep(s, steps, s1, SpawnThread(true));
    steps := steps + [SpawnThread(true)];
    ThenStep(s, steps, DoSpawn(s1, true), CheckIndex);
    steps := steps + [CheckIndex];
    var s2 := DoCheck(DoSpawn(s1, true));
    assert s2.kernel == Insert(s.kernel, Sock(s.backlog[0]));
    TakesRequest(s2, payload');
    var s3 := Holding(s2, payload');
    ThenSteps(s, steps, s2, ARRIVAL, s3);
    CopiesArgument(s3, t);
    v := SetThread(s3, t, Ready(s3.arg));
    ThenSteps(s, steps + ARRIVAL, s3, Copies(t), v);
  }

  /** OVERLAP. With two clients at once, whatever they send, this run leaves the
      first handler with the second request's payload, size and socket, instead of
      those stored for it. One client alone cannot bring this about. */
  lemma OverlapBreaksHandoff(s: Server, payload: bytes, payload': bytes)
    requires s.pc.Accept? && s.backlog == [] && s.index < BATCH - 1 && |s.slots| == SLOTS
    requires HasRoom(s.kernel) && HasRoom(Insert(s.kernel, Sock(|s.conns|)))
    requires |payload| < TWO64 && |payload'| < TWO64
    ensures var clients := [Connect(U64(|payload|) + payload)] + [Connect(U64(|payload'|) + payload')];
            var steps := clients + Overtaking(|s.threads|);
            && Valid(s, steps)
            && Crossed(Run(s, steps), |s.threads|, payload, |s.conns|, payload', |s.conns| + 1)
  {
    var first, second := Connect(U64(|payload|) + payload), Connect(U64(|payload'|) + payload');
    OneStep(s, first);
    ThenStep(s, [first], Apply(s, first), second);
    var s1 := Apply(Apply(s, first), second);
    var v := SecondOvertakes(s1, payload, payload');
    ThenSteps(s, [first] + [second], s1, Overtaking(|s.threads|), v);
  }

  // ---- a stale handle ----

  /** STALE HANDLE. A handler about to run `close` on the handle `h` closes the
      socket of the connection it serves if and only if `h` names that socket's
      descriptor. */
  lemma CloseHitsItsSocketIff(s: Server, t: nat, h: int)
    requires CanExecute(s, t, AllFine, []) && s.threads[t].given.fd in s.kernel.table
    requires IsInt32(h) && s.heap[s.threads[t].pc.arg.payload] == Payload(Close(h))
    ensures var v := DoExecute(s, t, AllFine, []);
            && v.threads[t].given == s.threads[t].given
            && v.kernel.table == s.kernel.table - {Handle(h)}
            && (s.threads[t].given.fd !in v.kernel.table <==> Handle(h) == s.threads[t].given.fd)
  {
    RoundTrip(Close(h));
  }

  /** A client's request to close `h`, up to the handler's running it. */
  function StaleClose(h: int, t: nat): (steps: seq<Step>)
    requires IsInt32(h)
  {
    [Connect(Request(Close(h)))] + ARRIVAL + [SpawnThread(true)] + Copies(t) + [Execute(t, AllFine, [])]
  }

  lemma CloseArrives(s: Server, h: int) returns (v: Server)
    requires s.pc.Accept? && s.backlog == [] && |s.slots| == SLOTS && s.index < BATCH
    requires HasRoom(s.kernel) && IsInt32(h)
    ensures var t := |s.threads|;
            && Reaches(s, [Connect(Request(Close(h)))] + ARRIVAL + [SpawnThread(true)] + Copies(t), v)
            && t < |v.threads| && v.threads[t].conn < |v.conns|
            && var arg := v.threads[t].given;
               && v.threads[t].pc == Ready(arg) && arg.fd == LowestFree(s.kernel)
               && arg.payload in v.heap && v.heap[arg.payload] == Payload(Close(h)) && arg.size == |v.heap[arg.payload]|
               && v.kernel.table == s.kernel.table[LowestFree(s.kernel) := Sock(|s.conns|)]
  {
    var t, p := |s.threads|, Payload(Close(h));
    var steps := [Connect(Request(Close(h)))];
    OneStep(s, steps[0]);
    var s1 := Apply(s, steps[0]);
    TakesRequest(s1, p);
    var s2 := Holding(s1, p);
    ThenSteps(s, steps, s1, ARRIVAL, s2);
    ThenStep(s, steps + ARRIVAL, s2, SpawnThread(true));
    var s3 := DoSpawn(s2, true);
    CopiesArgument(s3, t);
    v := SetThread(s3, t, Ready(s3.arg));
    ThenSteps(s, steps + ARRIVAL + [SpawnThread(true)], s3, Copies(t), v);
  }

  /** So of a client that closes `h`: its call closes the very connection that
      carries it if and only if `h` names the server's lowest free descriptor, as a
      handle does once closed if all lower numbers are taken. */
  lemma StaleCloseHitsItsSocketIff(s: Server, h: int)
    requires s.pc.Accept? && s.backlog == [] && |s.slots| == SLOTS && s.index < BATCH
    requires HasRoom(s.kernel) && IsHandle(h) && h <= INT_MAX
    ensures var t := |s.threads|;
            && Valid(s, StaleClose(h, t))
            && var v := Run(s, StaleClose(h, t));
               && t < |v.threads| && v.threads[t].pc.Executed? && v.threads[t].given.fd == LowestFree(s.kernel)
               && (v.threads[t].given.fd !in v.kernel.table <==> Handle(h) == LowestFree(s.kernel))
  {
    var t := |s.threads|;
    var v := CloseArrives(s, h);
    RoundTrip(Close(h));
    CloseHitsItsSocketIff(v, t, h);
    ThenStep(s, [Connect(Request(Close(h)))] + ARRIVAL + [SpawnThread(true)] + Copies(t), v, Execute(t, AllFine, []));
  }
}
