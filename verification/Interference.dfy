/** Remote calls leave no trace on the client's machine. */
module Interference {
  import opened Kernel
  import opened Routing
  import opened Direct
  import opened System

  /** The client's kernel after the local calls of `log` alone. */
  function LocalReplay(k: Kernel, log: seq<Event>): (k': Kernel)
    requires LogOk(log)
  {
    if log == [] then k
    else
      var n := |log| - 1;
      var c := Actual(log[..n], log[n].action);
      if GoesRemote(c) then LocalReplay(k, log[..n]) else Sys(LocalReplay(k, log[..n]), c).0
  }

  /** If the i-th call was local, it returned what it returns with the remote calls
      left out. */
  predicate LocalRetMatches(k: Kernel, log: seq<Event>, i: nat)
    requires LogOk(log) && i < |log|
  {
    var c := Actual(log[..i], log[i].action);
    GoesRemote(c) || log[i].ret == Sys(LocalReplay(k, log[..i]), c).1
  }

  predicate LocalRetsMatch(k: Kernel, log: seq<Event>)
    requires LogOk(log)
  {
    forall i :: 0 <= i < |log| ==> LocalRetMatches(k, log, i)
  }

  /** The client's kernel is what the local calls make of it, plus the socket of a
      call in progress. */
  ghost predicate Untouched(s: System, k0: Kernel) {
    && LogOk(s.log) && LocalRetsMatch(k0, s.log)
    && var k := LocalReplay(k0, s.log);
       if s.pc.Idle? then s.local == k
       else s.pc.sock !in k.table && exists c :: s.local == k.(table := k.table[s.pc.sock := Sock(c)])
  }

  /** A call in progress is a remote one. */
  predicate WaitsRemotely(s: System) {
    s.pc.Waiting? ==> ActionOk(s.pc.action) && GoesRemote(Actual(s.log, s.pc.action))
  }

  lemma OneMore(k0: Kernel, log: seq<Event>, e: Event)
    requires LogOk(log) && LocalRetsMatch(k0, log) && ActionOk(e.action)
    requires var c := Actual(log, e.action); GoesRemote(c) || e.ret == Sys(LocalReplay(k0, log), c).1
    ensures LogOk(log + [e]) && LocalRetsMatch(k0, log + [e])
    ensures var c, k := Actual(log, e.action), LocalReplay(k0, log);
            LocalReplay(k0, log + [e]) == if GoesRemote(c) then k else Sys(k, c).0
  {
    var log' := log + [e];
    assert log'[..|log|] == log;
    forall i | 0 <= i < |log'|
      ensures LocalRetMatches(k0, log', i)
    {
      if i < |log| {
        assert LocalRetMatches(k0, log, i);
        assert log'[..i] == log[..i];
      }
    }
  }

  /** However a remote call ends, its socket is gone and it is logged. */
  lemma ReturnKeeps(s: System, s': System, k0: Kernel, e: Event)
    requires Untouched(s, k0) && s.pc.Waiting? && WaitsRemotely(s)
    requires s'.local == Remove(s.local, s.pc.sock) && s'.pc.Idle?
    requires s'.log == s.log + [e] && e.action == s.pc.action
    ensures Untouched(s', k0)
  {
    OneMore(k0, s.log, e);
    var k := LocalReplay(k0, s.log);
    var c :| s.local == k.(table := k.table[s.pc.sock := Sock(c)]);
    assert s'.local.table == k.table;
  }

  lemma StepKeeps(s: System, step: SysStep, k0: Kernel)
    requires Untouched(s, k0) && WaitsRemotely(s) && SysEnabled(s, step)
    ensures var s' := SysApply(s, step); Untouched(s', k0) && WaitsRemotely(s')
  {
    var s' := SysApply(s, step);
    match step
    case LocalCall(a) => OneMore(k0, s.log, s'.log[|s.log|]);
    case RefusedCall(a) => OneMore(k0, s.log, s'.log[|s.log|]);
    case SendCall(a) => assert s'.local == Insert(s.local, Sock(|s.server.conns|));
    case ServerStep(_) =>
    case _ => ReturnKeeps(s, s', k0, s'.log[|s.log|]);
  }

  lemma {:induction false} RunKeeps(s: System, steps: seq<SysStep>, k0: Kernel)
    requires Untouched(s, k0) && WaitsRemotely(s) && SysValid(s, steps)
    ensures Untouched(SysRun(s, steps), k0)
    decreases |steps|
  {
    if steps != [] {
      StepKeeps(s, steps[0], k0);
      RunKeeps(SysApply(s, steps[0]), steps[1..], k0);
    }
  }

  /** NON-INTERFERENCE. After any run, the client's kernel, descriptor numbers
      included, is what its local calls alone make of it, apart from the socket of a
      call in progress; and each local call returned what it returns without the
      remote calls. It takes nothing from the server: not even made-up results, of
      calls that met the end of the stream, can bring a trace about. */
  lemma RemoteCallsLeaveNoTrace(s0: System, steps: seq<SysStep>)
    requires Initial(s0) && SysValid(s0, steps)
    ensures Untouched(SysRun(s0, steps), s0.local)
  {
    RunKeeps(s0, steps, s0.local);
  }
}
