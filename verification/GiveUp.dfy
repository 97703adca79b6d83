/** The one stub that can fail after its request has gone out: `read`, when it finds
    no memory for the reply. */
module GiveUp {
  import opened CData
  import opened Calls
  import opened Kernel
  import opened Routing
  import opened Server
  import opened Direct
  import Agreement
  import opened System
  import opened Transparency

  predicate CanGiveUp(s: System) {
    s.pc.Waiting? && ActionOk(s.pc.action) && s.pc.action.call.Read?
  }

  /** It returns a failure without receiving, and leaves its socket open. */
  function DoGiveUp(s: System): (s': System)
    requires CanGiveUp(s)
  {
    var a := s.pc.action;
    s.(pc := Idle, log := s.log + [Event(a, Failed(a.call), Refused)])
  }

  /** A `read` that moves no offset: of no open file, or one that cannot be read, of
      no bytes, or at the end of the file. */
  predicate NothingToRead(k: Kernel, fd: int, nbyte: nat) {
    || fd !in k.table || !k.table[fd].File?
    || var w, o := k.world, k.table[fd].ofd;
       || o !in w.ofds || w.ofds[o].ino !in w.inodes || !IsInt32(w.ofds[o].flags)
       || Bit(w.ofds[o].flags, O_WRONLY)
       || nbyte == 0 || w.ofds[o].offset >= |w.inodes[w.ofds[o].ino].data|
  }

  lemma ReadMovesNothingIff(k: Kernel, fd: int, nbyte: nat)
    requires IsSize(nbyte)
    ensures Sys(k, Read(fd, nbyte)).0.world == k.world <==> NothingToRead(k, fd, nbyte)
  {
    var w := k.world;
    if fd in k.table && k.table[fd].File? {
      var o := k.table[fd].ofd;
      if o in w.ofds && w.ofds[o].ino in w.inodes && w.ofds[o].flags < TWO31 {
        var d, w' := w.ofds[o], Sys(k, Read(fd, nbyte)).0.world;
        assert w'.ofds == w.ofds <==> w'.ofds[o] == d;
      }
    }
  }

  /** GIVING UP. What the stub reports is that the call failed. While the request has
      not run that is so: the log, and the server's files, are as if the call had
      been refused. Once the handler has run it, the files are so still if and only
      if the handler too found no memory, or there was nothing to read; else the
      file's offset has moved. The client's socket is left behind in any case. */
  lemma GivenUpTruthfulIff(s: System, d0: Direct, t: nat, fate: Fate, junk: bytes)
    requires SysInv(s, d0) && CanGiveUp(s) && CanExecute(s.server, t, fate, junk)
    ensures var s', a := DoGiveUp(s), s.pc.action;
            var d := DirectStep(RunDirect(d0, s.log), a, Refused);
            && RetsMatch(s'.log, d) && s'.server.kernel.world == d.remote.world && s'.local != d.local
            && (DoExecute(s.server, t, fate, junk).kernel.world == d.remote.world
                <==> fate.NoBuffer? || NothingToRead(s.server.kernel, Handle(Resolve(s.log, a.ref)), a.call.nbyte))
  {
    RunnerHolds(s, d0, t, fate, junk);
    var a, d, k := s.pc.action, RunDirect(d0, s.log), s.server.kernel;
    Refusal(s, d0);
    WireCallOk(s.log, d, k, a);
    ExecuteEffect(s.server, t, fate, junk, s.job, WireCall(s.log, a));
    ReadMovesNothingIff(k, Handle(Resolve(s.log, a.ref)), a.call.nbyte);
  }

  lemma Refusal(s: System, d0: Direct)
    requires SysInv(s, d0) && CanGiveUp(s) && s.job.Job? && !s.job.ran
    ensures var s', d := DoGiveUp(s), DirectStep(RunDirect(d0, s.log), s.pc.action, Refused);
            RetsMatch(s'.log, d) && s'.server.kernel.world == d.remote.world && s'.local != d.local
  {
    Agreement.RefusedEvent(s.log, RunDirect(d0, s.log), s.server.kernel, s.pc.action);
    assert s.pc.sock in s.local.table;
  }
}
