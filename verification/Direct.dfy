/** The reference machine: a program with a kernel of its own and a second kernel
    it calls directly, with no stubs, wire or server in between. And the relation
    that ties a log of calls made through the stubs to that machine. */
module Direct {
  import opened CData
  import opened Calls
  import opened Kernel
  import opened Routing

  // ---- what programs do ----

  /** A program names a descriptor by a number it made up, or as what its k-th call,
      an `open`, returned. */
  datatype FdRef = Number(n: int) | FromOpen(k: nat)

  /** A call; if it takes a descriptor, the one `ref` names. */
  datatype Action = Action(call: Call, ref: FdRef)

  /** What the environment contributed to a remote call: it ran, with or without a
      free descriptor on the server, or the connection was refused. */
  datatype Outcome = Ran(room: bool) | Refused

  datatype Event = Event(action: Action, ret: Ret, outcome: Outcome)

  /** Programs the hook promises to serve: arguments in range, O_CREAT as `open`'s only
      flag or not at all, a mode exactly with it, `rename` within one machine. */
  predicate ActionOk(a: Action) {
    && ArgsOk(a.call)
    && (a.call.Open? ==>
          && (Bit(a.call.flags, O_CREAT) ==> a.call.flags == O_CREAT)
          && (a.call.mode.Some? <==> a.call.flags == O_CREAT))
    && (a.call.Rename? && HasPrefix(a.call.source) ==> HasPrefix(a.call.target))
    && (a.ref.Number? ==> IsInt32(a.ref.n) && !IsHandle(a.ref.n))
  }

  // ---- the machine ----

  datatype Place = Here(n: int) | There(n: int)
  datatype DirectRet = Opened(at: Place) | Plain(ret: Ret)
  datatype Direct = Direct(local: Kernel, remote: Kernel, rets: seq<DirectRet>)

  /** "//name" is `name` on the server. */
  function ServerName(path: bytes): (name: bytes)
    requires HasPrefix(path)
    ensures [SLASH, SLASH] + name == path
  {
    path[2..]
  }

  function Target(d: Direct, ref: FdRef): (p: Place) {
    match ref
    case Number(n) => Here(n)
    case FromOpen(k) => if k < |d.rets| && d.rets[k].Opened? then d.rets[k].at else Here(-1)
  }

  function OnLocal(d: Direct, c: Call): (d': Direct)
    requires ArgsOk(c)
  {
    var (k, r) := Sys(d.local, c);
    d.(local := k, rets := d.rets + [if c.Open? && r.v >= 0 then Opened(Here(r.v)) else Plain(r)])
  }

  function OnRemote(d: Direct, c: Call, out: Outcome): (d': Direct)
    requires ArgsOk(c)
  {
    match out
    case Refused => d.(rets := d.rets + [Plain(Failed(c))])
    case Ran(room) =>
      var (k, r) := SysWith(d.remote, c, room);
      d.(remote := k, rets := d.rets + [if c.Open? && r.v >= 0 then Opened(There(r.v)) else Plain(r)])
  }

  function DirectStep(d: Direct, a: Action, out: Outcome): (d': Direct)
    requires ActionOk(a)
  {
    var c := a.call;
    if HasFd(c) then
      match Target(d, a.ref)
      case Here(n) => OnLocal(d, c.(fd := n))
      case There(n) => OnRemote(d, c.(fd := n), out)
    else if c.Rename? then
      if HasPrefix(c.source) then OnRemote(d, Rename(ServerName(c.source), ServerName(c.target)), out)
      else OnLocal(d, c)
    else
      if HasPrefix(c.path) then OnRemote(d, c.(path := ServerName(c.path)), out)
      else OnLocal(d, c)
  }

  predicate LogOk(log: seq<Event>) {
    forall i :: 0 <= i < |log| ==> ActionOk(log[i].action)
  }

  function RunDirect(d0: Direct, log: seq<Event>): (d: Direct)
    requires LogOk(log)
  {
    if log == [] then d0
    else
      var n := |log| - 1;
      DirectStep(RunDirect(d0, log[..n]), log[n].action, log[n].outcome)
  }

  lemma RunDirectExtends(d0: Direct, log: seq<Event>, e: Event)
    requires LogOk(log) && ActionOk(e.action)
    ensures LogOk(log + [e])
    ensures RunDirect(d0, log + [e]) == DirectStep(RunDirect(d0, log), e.action, e.outcome)
  {
    assert (log + [e])[..|log|] == log;
  }

  // ---- the same program through the stubs ----

  function Resolve(log: seq<Event>, ref: FdRef): (fd: int) {
    match ref
    case Number(n) => n
    case FromOpen(k) =>
      if k < |log| && log[k].action.call.Open? && log[k].ret.Int? then log[k].ret.v else -1
  }

  /** The call a stub routes: what it forwards of the program's call. */
  function Actual(log: seq<Event>, a: Action): (c: Call) {
    var c := Forwarded(a.call);
    if HasFd(c) then c.(fd := Resolve(log, a.ref)) else c
  }

  /** The remote handles a program holds: the index of each remote `open` not yet
      closed, with the number it returned. */
  function Live(log: seq<Event>): (live: map<nat, int>) {
    if log == [] then map[]
    else
      var n := |log| - 1;
      LiveAfter(Live(log[..n]), n, log[n])
  }

  function LiveAfter(live: map<nat, int>, n: nat, e: Event): (live': map<nat, int>) {
    if e.action.call.Open? && e.ret.Int? && IsHandle(e.ret.v) then live[n := e.ret.v]
    else if e.action.call.Close? && e.action.ref.FromOpen? && e.ret == Int(0) then live - {e.action.ref.k}
    else live
  }

  /** A handle is used only while it is live. */
  predicate WellBehaved(log: seq<Event>, a: Action) {
    && ActionOk(a)
    && (HasFd(a.call) && a.ref.FromOpen? && IsHandle(Resolve(log, a.ref)) ==> a.ref.k in Live(log))
  }

  /** Same result, a remote descriptor standing for the handle it was given. */
  predicate SameRet(e: Event, r: DirectRet) {
    if e.action.call.Open? then
      match r
      case Opened(Here(n)) => e.ret == Int(n) && 0 <= n && !IsHandle(n)
      case Opened(There(_)) => e.ret.Int? && IsHandle(e.ret.v) && e.ret.v <= INT_MAX
      case Plain(p) => e.ret == p == Int(-1)
    else r == Plain(e.ret)
  }

  /** Live handles, the server's file descriptors and the direct machine's remote
      descriptors are in bijection, each pair naming one open file description. */
  predicate LinkedAt(i: nat, live: map<nat, int>, log: seq<Event>, d: Direct, k: Kernel)
    requires i in live
  {
    && i < |log| == |d.rets|
    && log[i].action.call.Open? && log[i].ret == Int(live[i])
    && IsHandle(live[i]) && live[i] <= INT_MAX
    && d.rets[i].Opened? && d.rets[i].at.There?
    && var fd, fd' := Handle(live[i]), d.rets[i].at.n;
       fd in k.table && k.table[fd].File? && fd' in d.remote.table && d.remote.table[fd'] == k.table[fd]
  }

  ghost predicate HasHandle(live: map<nat, int>, fd: int) {
    exists i :: i in live && live[i] == Handle(fd)
  }

  ghost predicate HasOpened(live: map<nat, int>, rets: seq<DirectRet>, fd: int) {
    exists i :: i in live && i < |rets| && rets[i] == Opened(There(fd))
  }

  ghost predicate Linked(live: map<nat, int>, log: seq<Event>, d: Direct, k: Kernel) {
    && (forall i {:trigger LinkedAt(i, live, log, d, k)} :: i in live ==> LinkedAt(i, live, log, d, k))
    && (forall i, j :: i in live && j in live && live[i] == live[j] ==> i == j)
    && (forall fd {:trigger HasHandle(live, fd)} :: fd in k.table && k.table[fd].File? ==> HasHandle(live, fd))
    && (forall fd {:trigger HasOpened(live, d.rets, fd)} ::
          fd in d.remote.table && d.remote.table[fd].File? ==> HasOpened(live, d.rets, fd))
  }

  /** The results of the direct machine's calls match the log. */
  predicate RetsMatch(log: seq<Event>, d: Direct) {
    |d.rets| == |log| && forall i :: 0 <= i < |log| ==> SameRet(log[i], d.rets[i])
  }

  /** A log and the server's kernel `k` agree with the direct machine `d`. */
  ghost predicate Agrees(log: seq<Event>, d: Direct, k: Kernel) {
    && RetsMatch(log, d)
    && k.world == d.remote.world && FilesOk(k) && FilesOk(d.remote)
    && k.limit <= INT_MAX / 2 + 1 && d.local.limit <= INT_MAX / 2 + 1
    && Linked(Live(log), log, d, k)
  }
}
