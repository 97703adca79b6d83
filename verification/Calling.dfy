/** What a program can do: its calls can be made, and go where they should; a remote
    one reaches the server and comes back; and one that cannot be made fails. */
module Calling {
  import opened CData
  import opened Calls
  import opened Kernel
  import opened FileLaws
  import opened Routing
  import opened Wire
  import opened Server
  import opened ServerInv
  import opened Direct
  import opened System
  import opened Transparency
  import Results
  import Progress

  // ---- which calls ----

  /** The arguments are values of their C types, strings without a NUL inside. */
  predicate Typed(c: Call) {
    match c
    case Open(path, flags, mode) =>
      0 !in path && -0x8000_0000 <= flags <= 0x7fff_ffff && (mode.Some? ==> mode.value <= 0xffff_ffff)
    case Read(_, nbyte) => nbyte <= 0xffff_ffff_ffff_ffff
    case Write(_, data) => |data| <= 0xffff_ffff_ffff_ffff
    case Lseek(_, offset, whence) =>
      && -0x8000_0000_0000_0000 <= offset <= 0x7fff_ffff_ffff_ffff
      && -0x8000_0000 <= whence <= 0x7fff_ffff
    case Truncate(path, length) => 0 !in path && -0x8000_0000_0000_0000 <= length <= 0x7fff_ffff_ffff_ffff
    case Ftruncate(_, length) => -0x8000_0000_0000_0000 <= length <= 0x7fff_ffff_ffff_ffff
    case Stat(path) => 0 !in path
    case Rename(source, target) => 0 !in source && 0 !in target
    case Unlink(path) => 0 !in path
    case _ => true
  }

  predicate SlashSlash(path: bytes) {
    |path| >= 2 && path[0] == 0x2f && path[1] == 0x2f
  }

  /** What the hook asks of a program: O_CREAT alone and with a mode, or not at all; a
      remote `rename` to a remote path; local descriptors by their numbers, remote
      ones as long as they are open. */
  predicate Permitted(log: seq<Event>, a: Action) {
    && Typed(a.call)
    && (a.call.Open? ==>
          && (a.call.flags == 0x40 <==> a.call.mode.Some?)
          && (a.call.flags != 0x40 ==> !Bit(a.call.flags, 0x40)))
    && (a.call.Rename? && SlashSlash(a.call.source) ==> SlashSlash(a.call.target))
    && match a.ref
       case Number(n) => -0x8000_0000 <= n <= 0x3fff_ffff
       case FromOpen(i) => HasFd(a.call) && Resolve(log, a.ref) > 0x3fff_ffff ==> i in Live(log)
  }

  /** The stub's test. */
  predicate ForServer(log: seq<Event>, a: Action) {
    if HasFd(a.call) then Resolve(log, a.ref) > 0x3fff_ffff
    else SlashSlash(if a.call.Rename? then a.call.source else a.call.path)
  }

  lemma PermittedIsWellBehaved(log: seq<Event>, a: Action)
    requires Permitted(log, a)
    ensures WellBehaved(log, a)
    ensures GoesRemote(Actual(log, a)) <==> ForServer(log, a)
  {
    assert Bit(0x40, 0x40);
  }

  /** The size of a request, header included, by the stub's arithmetic. */
  function RequestSize(c: Call): (n: nat) {
    match c
    case Open(path, flags, _) => |path| + 12 + if flags == 0x40 then 4 else 0
    case Close(_) => 13
    case Read(_, _) => 21
    case Write(_, data) => 21 + |data|
    case Lseek(_, _, _) => 25
    case Truncate(path, _) => |path| + 16
    case Ftruncate(_, _) => 21
    case Stat(path) => |path| + 8
    case Fstat(_) => 13
    case Fsync(_) => 13
    case Rename(source, target) => |source| + |target| + 7
    case Unlink(path) => |path| + 8
  }

  /** A request that fits in memory can be built. */
  lemma RequestFits(log: seq<Event>, d: Direct, k: Kernel, a: Action)
    requires Permitted(log, a) && ForServer(log, a) && Agrees(log, d, k) && RequestSize(a.call) < TWO64
    ensures WellBehaved(log, a) && GoesRemote(Actual(log, a)) && Encodable(WireCall(log, a))
    ensures 8 + |Payload(WireCall(log, a))| == RequestSize(a.call)
  {
    PermittedIsWellBehaved(log, a);
    if HasFd(a.call) {
      assert LinkedAt(a.ref.k, Live(log), log, d, k);
    }
  }

  // ---- calls go through ----

  /** A local call can always be made, and does what the C library does. */
  lemma LocalCallRuns(s: System, a: Action)
    requires s.pc.Idle? && LogOk(s.log) && Permitted(s.log, a) && !ForServer(s.log, a)
    ensures SysEnabled(s, LocalCall(a))
    ensures var (k, r) := Sys(s.local, Actual(s.log, a));
            SysApply(s, LocalCall(a)) == s.(local := k, log := s.log + [Event(a, r, Ran(true))])
  {
    PermittedIsWellBehaved(s.log, a);
  }

  /** The first call to be logged is the one outstanding. */
  lemma {:induction false} LogsOutstanding(s: System, steps: seq<SysStep>)
    requires s.pc.Waiting? && SysValid(s, steps) && |SysRun(s, steps).log| > |s.log|
    ensures s.log <= SysRun(s, steps).log && SysRun(s, steps).log[|s.log|].action == s.pc.action
    decreases |steps|
  {
    var s' := SysApply(s, steps[0]);
    Progress.LogGrows(s', steps[1..]);
    if steps[0].ServerStep? {
      LogsOutstanding(s', steps[1..]);
    }
  }

  /** The event is that of a call that reached the server and came back, with the
      result the direct machine has. */
  predicate CameBack(log: seq<Event>, e: Event, a: Action, d: Direct)
    requires |d.rets| == |log| && ActionOk(a)
  {
    e.action == a && e.outcome.Ran? && SameRet(e, DirectStep(d, a, e.outcome).rets[|log|])
  }

  /** THROUGH. After any run, as long as the server is there, a free number on either
      side is all it takes: any remote call the program may make can be sent, run by
      the server and returned, with the direct call's result. */
  lemma RemoteCallGoesThrough(s0: System, steps: seq<SysStep>, a: Action)
    requires Initial(s0) && SysValid(s0, steps) && NoEndOfStream(steps)
    requires var s := SysRun(s0, steps);
             && s.pc.Idle? && !s.server.pc.Exited?
             && LowestFree(s.local) < s.local.limit && LowestFree(s.server.kernel) < s.server.kernel.limit
             && Permitted(s.log, a) && ForServer(s.log, a) && RequestSize(a.call) < TWO64
    ensures var s := SysRun(s0, steps);
            && ActionOk(a) && LogOk(s.log)
            && var d := RunDirect(DirectOf(s0), s.log);
               |d.rets| == |s.log| && exists rest, e :: GoesThrough(s, a, rest, e) && CameBack(s.log, e, a, d)
  {
    var s, d0 := SysRun(s0, steps), DirectOf(s0);
    Results.InitialOk(s0);
    Results.RunKeeps(s0, d0, steps);
    var d := RunDirect(d0, s.log);
    RequestFits(s.log, d, s.server.kernel, a);
    var rest, e := SentAndBack(s, d0, a);
    assert GoesThrough(s, a, rest, e) && CameBack(s.log, e, a, d);
  }

  ghost predicate GoesThrough(s: System, a: Action, rest: seq<SysStep>, e: Event) {
    && SysValid(s, [SendCall(a)] + rest)
    && var s' := SysRun(s, [SendCall(a)] + rest);
       s'.pc.Idle? && s'.log == s.log + [e]
  }

  lemma SentAndBack(s: System, d0: Direct, a: Action) returns (rest: seq<SysStep>, e: Event)
    requires SysInv(s, d0) && s.pc.Idle? && !s.server.pc.Exited?
    requires HasRoom(s.local) && HasRoom(s.server.kernel)
    requires WellBehaved(s.log, a) && GoesRemote(Actual(s.log, a)) && Encodable(WireCall(s.log, a))
    ensures GoesThrough(s, a, rest, e) && CameBack(s.log, e, a, RunDirect(d0, s.log))
  {
    var s1 := DoSendCall(s, a);
    SendKeeps(s, d0, a);
    rest := Progress.CallCompletes(s1, d0);
    var s2 := SysRun(s1, rest);
    Progress.OneMore(s, SendCall(a), rest);
    LogsOutstanding(s1, rest);
    e := s2.log[|s.log|];
    assert s2.log == s.log + [e];
    Results.RunKeeps(s1, d0, rest);
    RunDirectExtends(d0, s.log, e);
    assert SameRet(s2.log[|s.log|], RunDirect(d0, s2.log).rets[|s.log|]);
  }

  // ---- calls that cannot be made ----

  /** Refused calls have failed: -1, and no bytes. */
  predicate RefusalsFail(log: seq<Event>) {
    forall i :: 0 <= i < |log| && log[i].outcome.Refused? ==> IsFailure(log[i])
  }

  predicate IsFailure(e: Event) {
    && Num(e.ret) == -1
    && (e.action.call.Read? <==> e.ret.Data?) && (e.action.call.Stat? || e.action.call.Fstat? <==> e.ret.Info?)
    && (e.ret.Data? ==> e.ret.data == []) && (e.ret.Info? ==> e.ret.info == [])
  }

  /** A call that cannot be sent, or is cut off by the server's end, fails; and a
      remote call can always turn out so. */
  lemma RefusalFails(s: System, step: SysStep)
    requires SysEnabled(s, step) && (step.RefusedCall? || step.ConnectionReset?)
    ensures var s' := SysApply(s, step);
            exists e :: s'.log == s.log + [e] && e.outcome.Refused? && IsFailure(e)
                        && e.action == (if step.RefusedCall? then step.a else s.pc.action)
  {
    var a := if step.RefusedCall? then step.a else s.pc.action;
    var e := Event(a, Failed(a.call), Refused);
    assert SysApply(s, step).log == s.log + [e] && IsFailure(e);
  }

  lemma RefusalPossible(s: System, a: Action)
    requires s.pc.Idle? && LogOk(s.log) && Permitted(s.log, a) && ForServer(s.log, a)
    ensures SysEnabled(s, RefusedCall(a))
    ensures SysApply(s, RefusedCall(a)) == s.(log := SysApply(s, RefusedCall(a)).log)
  {
    PermittedIsWellBehaved(s.log, a);
  }

  lemma {:induction false} RefusedCallsFail(s: System, steps: seq<SysStep>)
    requires RefusalsFail(s.log) && SysValid(s, steps) && NoEndOfStream(steps)
    ensures RefusalsFail(SysRun(s, steps).log)
    decreases |steps|
  {
    if steps != [] {
      if steps[0].RefusedCall? || steps[0].ConnectionReset? {
        RefusalFails(s, steps[0]);
      }
      RefusedCallsFail(SysApply(s, steps[0]), steps[1..]);
    }
  }

  // ---- the handler's mallocs ----

  /** The handler's first malloc can fail exactly for the codes of READ, WRITE, STAT
      and FSTAT. */
  lemma NoBufferIff(s: System, d0: Direct, t: nat)
    requires SysInv(s, d0) && t < |s.server.threads| && s.server.threads[t].pc.Ready?
    ensures s.job.Job? && s.job.payload != []
    ensures (exists junk :: CanExecute(s.server, t, NoBuffer, junk)) <==> s.job.payload[0] in {2, 3, 7, 8}
  {
    Results.ReadyHolds(s.server, s.job, t);
    assert !Lingering(s.server.threads[t]) && ThreadOk(s.server, s.server.threads[t]);
    var c, junk := Progress.Outstanding(s, d0);
    PayloadNamesCall(s, d0, c);
    assert NeedsBuffer(c) ==> CanExecute(s.server, t, NoBuffer, junk);
  }

  lemma PayloadNamesCall(s: System, d0: Direct, c: Call)
    requires SysInv(s, d0) && s.pc.Waiting? && Decode(s.job.payload) == Decoded.Ok(c)
    ensures s.job.payload != []
    ensures NeedsBuffer(c) <==> s.job.payload[0] in {2, 3, 7, 8}
  {
    var w := WireCall(s.log, s.pc.action);
    RoundTrip(w);
    PayloadIsLaidOut(w);
  }
}
