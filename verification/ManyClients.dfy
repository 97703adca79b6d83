/** Any number of clients, with requests that overlap: exactly when a handler copies
    the argument stored for it. */
module ManyClients {
  import opened CData
  import opened Kernel
  import opened Server
  import opened ServerInv

  predicate HandlerOk(s: Server, th: Thread) {
    && th.conn < |s.conns|
    && (!Copying(th.pc) ==> CopiedOk(th))
    && (!th.pc.Cleanup? && !th.pc.Finished? ==> th.holds)
    && (th.holds ==> th.given.fd in s.kernel.table && s.kernel.table[th.given.fd] == Sock(th.conn))
  }

  /** A connection nobody has been given yet. */
  predicate Unserved(s: Server, c: nat) {
    c < |s.conns| && NoThreadFor(s, c)
  }

  /** The accept loop has a connection in hand, and no one else has it. */
  predicate InHand(s: Server) {
    var fd := MainFd(s.pc);
    !s.pc.Exited? && fd.Some? ==>
      && IsSocket(s, fd.value)
      && Unserved(s, ConnOf(s, fd.value)) && ConnOf(s, fd.value) !in s.backlog
  }

  /** Handlers that are done copying have what was stored for them; every connection
      is in one place. */
  predicate InOrder(s: Server) {
    && (forall t :: 0 <= t < |s.threads| ==> HandlerOk(s, s.threads[t]))
    && (forall t, u :: 0 <= t < u < |s.threads| ==> s.threads[t].conn != s.threads[u].conn)
    && InHand(s)
    && (s.pc.Spawn? ==> s.arg == s.pc.arg)
    && (forall i :: 0 <= i < |s.backlog| ==> Unserved(s, s.backlog[i]))
    && (forall i, j :: 0 <= i < j < |s.backlog| ==> s.backlog[i] != s.backlog[j])
  }

  /** A handler completes its copy, and it is not what was stored for it. */
  predicate Crosses(s: Server, step: Step)
    requires Enabled(s, step)
  {
    step.CopySocket? && !CopiedOk(Apply(s, step).threads[step.t])
  }

  /** A step before things have gone wrong: calls touch files, and no handler has
      crossed over to another's request. */
  ghost predicate CleanStep(s: Server, step: Step) {
    && Enabled(s, step) && !Crosses(s, step)
    && (step.Execute? ==> OnlyFilesChange(s.kernel, Apply(s, step).kernel))
  }

  ghost predicate Clean(s: Server, steps: seq<Step>)
    ensures Clean(s, steps) ==> Valid(s, steps)
    decreases |steps|
  {
    steps == [] || (CleanStep(s, steps[0]) && Clean(Apply(s, steps[0]), steps[1..]))
  }

  lemma LoopStepKeepsOrder(s: Server, step: Step)
    requires InOrder(s) && Enabled(s, step) && !step.AcceptConn? && !step.SpawnThread?
    requires step.RecvHeader? || step.RecvBody? || step.StoreArg? || step.CheckIndex? || step.JoinNext?
    ensures InOrder(Apply(s, step))
  {
    assert forall t :: 0 <= t < |s.threads| ==> HandlerOk(s, s.threads[t]);
    assert forall i :: 0 <= i < |s.backlog| ==> Unserved(s, s.backlog[i]);
  }

  lemma AcceptKeepsOrder(s: Server)
    requires InOrder(s) && CanAccept(s)
    ensures InOrder(DoAccept(s))
  {
    assert Unserved(s, s.backlog[0]);
    assert forall t :: 0 <= t < |s.threads| ==> HandlerOk(s, s.threads[t]);
  }

  lemma SpawnKeepsOrder(s: Server, created: bool)
    requires InOrder(s) && CanSpawn(s)
    ensures InOrder(DoSpawn(s, created))
  {
    assert forall t :: 0 <= t < |s.threads| ==> HandlerOk(s, s.threads[t]);
    assert forall i :: 0 <= i < |s.backlog| ==> Unserved(s, s.backlog[i]);
  }

  lemma ConnectKeepsOrder(s: Server, request: bytes)
    requires InOrder(s)
    ensures InOrder(Apply(s, Connect(request)))
  {
    assert forall t :: 0 <= t < |s.threads| ==> HandlerOk(s, s.threads[t]);
    assert forall i :: 0 <= i < |s.backlog| ==> Unserved(s, s.backlog[i]);
  }

  /** A handler's step on its own locals. */
  lemma LocalsKeepOrder(s: Server, t: nat, pc: HandlerPc)
    requires InOrder(s) && t < |s.threads| && HandlerOk(s, s.threads[t].(pc := pc))
    ensures InOrder(SetThread(s, t, pc))
  {
    assert forall u :: 0 <= u < |s.threads| ==> HandlerOk(s, s.threads[u]);
    assert forall i :: 0 <= i < |s.backlog| ==> Unserved(s, s.backlog[i]);
  }

  lemma CopyKeepsOrder(s: Server, step: Step)
    requires InOrder(s) && CleanStep(s, step) && (step.CopyPayload? || step.CopySize? || step.CopySocket?)
    ensures InOrder(Apply(s, step))
  {
    assert HandlerOk(s, s.threads[step.t]);
    LocalsKeepOrder(s, step.t, Apply(s, step).threads[step.t].pc);
  }

  /** A change of files and of what connections hold does not matter. */
  lemma FilesKeepOrder(s: Server, k: Kernel, conns: seq<Conn>)
    requires InOrder(s) && OnlyFilesChange(s.kernel, k) && |conns| == |s.conns|
    ensures InOrder(s.(kernel := k, conns := conns))
  {
    assert forall u :: 0 <= u < |s.threads| ==> HandlerOk(s, s.threads[u]);
    assert forall i :: 0 <= i < |s.backlog| ==> Unserved(s, s.backlog[i]);
  }

  lemma ExecuteKeepsOrder(s: Server, t: nat, fate: Fate, junk: bytes)
    requires InOrder(s) && CleanStep(s, Execute(t, fate, junk))
    ensures InOrder(DoExecute(s, t, fate, junk))
  {
    var s' := DoExecute(s, t, fate, junk);
    FilesKeepOrder(s, s'.kernel, s'.conns);
    var ran := s.(kernel := s'.kernel, conns := s'.conns);
    assert HandlerOk(ran, ran.threads[t]);
    LocalsKeepOrder(ran, t, s'.threads[t].pc);
    assert s' == SetThread(ran, t, s'.threads[t].pc);
  }

  lemma SendKeepsOrder(s: Server, t: nat)
    requires InOrder(s) && CanSend(s, t)
    ensures InOrder(DoSend(s, t))
  {
    var s' := DoSend(s, t);
    FilesKeepOrder(s, s.kernel, s'.conns);
    var sent := s.(conns := s'.conns);
    assert HandlerOk(sent, sent.threads[t]);
    LocalsKeepOrder(sent, t, s'.threads[t].pc);
    assert s' == SetThread(sent, t, s'.threads[t].pc);
  }

  lemma CloseKeepsOrder(s: Server, t: nat)
    requires InOrder(s) && CanClose(s, t)
    ensures InOrder(DoClose(s, t))
  {
    assert forall u :: 0 <= u < |s.threads| ==> HandlerOk(s, s.threads[u]);
    assert forall i :: 0 <= i < |s.backlog| ==> Unserved(s, s.backlog[i]);
  }

  lemma FreeKeepsOrder(s: Server, t: nat)
    requires InOrder(s) && CanFree(s, t)
    ensures InOrder(DoFree(s, t))
  {
    assert HandlerOk(s, s.threads[t]);
    LocalsKeepOrder(s, t, Finished);
  }

  lemma StepKeepsOrder(s: Server, step: Step)
    requires InOrder(s) && CleanStep(s, step)
    ensures InOrder(Apply(s, step))
  {
    match step
    case Connect(request) => ConnectKeepsOrder(s, request);
    case AcceptConn => AcceptKeepsOrder(s);
    case SpawnThread(created) => SpawnKeepsOrder(s, created);
    case CopyPayload(_) => CopyKeepsOrder(s, step);
    case CopySize(_) => CopyKeepsOrder(s, step);
    case CopySocket(_) => CopyKeepsOrder(s, step);
    case Execute(t, fate, junk) => ExecuteKeepsOrder(s, t, fate, junk);
    case SendReply(t) => SendKeepsOrder(s, t);
    case CloseSocket(t) => CloseKeepsOrder(s, t);
    case FreePayload(t) => FreeKeepsOrder(s, t);
    case _ => LoopStepKeepsOrder(s, step);
  }

  lemma {:induction false} CleanKeepsOrder(s: Server, steps: seq<Step>)
    requires InOrder(s) && Clean(s, steps)
    ensures InOrder(Run(s, steps))
    decreases |steps|
  {
    if steps != [] {
      StepKeepsOrder(s, steps[0]);
      CleanKeepsOrder(Apply(s, steps[0]), steps[1..]);
    }
  }

  // ---- one handler's copy ----

  /** The shared argument is still the one stored for handler `t`. */
  predicate Intact(s: Server, t: nat) {
    t < |s.threads| && Copying(s.threads[t].pc) && s.arg == s.threads[t].given && CopiedOk(s.threads[t])
  }

  /** It is another's, and so names another socket: `t` still has its own. */
  predicate Overwritten(s: Server, t: nat) {
    t < |s.threads| && Copying(s.threads[t].pc) && s.arg.fd != s.threads[t].given.fd
  }

  lemma OnlyStoresChangeArgument(s: Server, step: Step, t: nat)
    requires Enabled(s, step) && !step.StoreArg? && step != CopySocket(t)
    requires t < |s.threads| && Copying(s.threads[t].pc)
    ensures var s' := Apply(s, step);
            && s'.arg == s.arg && t < |s'.threads| && s'.threads[t].given == s.threads[t].given
            && Copying(s'.threads[t].pc) && (Intact(s, t) ==> CopiedOk(s'.threads[t]))
  {
  }

  lemma CopyStep(s: Server, step: Step, t: nat)
    requires InOrder(s) && CleanStep(s, step) && step != CopySocket(t)
    requires Intact(s, t) || Overwritten(s, t)
    ensures var s' := Apply(s, step);
            if step.StoreArg? || Overwritten(s, t) then Overwritten(s', t) else Intact(s', t)
  {
    if step.StoreArg? {
      assert HandlerOk(s, s.threads[t]);
    } else {
      OnlyStoresChangeArgument(s, step, t);
    }
  }

  lemma {:induction false} Copies(s: Server, steps: seq<Step>, t: nat)
    requires InOrder(s) && Clean(s, steps) && CopySocket(t) !in steps
    requires Intact(s, t) || Overwritten(s, t)
    ensures var s' := Run(s, steps);
            if StoreArg in steps || Overwritten(s, t) then Overwritten(s', t) else Intact(s', t)
    decreases |steps|
  {
    if steps != [] {
      CopyStep(s, steps[0], t);
      StepKeepsOrder(s, steps[0]);
      assert steps == [steps[0]] + steps[1..];
      Copies(Apply(s, steps[0]), steps[1..], t);
    }
  }

  /** A server that has just started listening. */
  predicate Fresh(s: Server) {
    s.pc.Accept? && s.threads == [] && s.backlog == []
  }

  /** THE RACE. Take any clients and any run, in which nothing has gone wrong `before`
      some handler is created, nor `meanwhile`, until that handler completes its
      copy. Then the copy is what was stored for it if and only if the accept loop
      has not stored another argument meanwhile. */
  lemma CopyRightIff(s0: Server, before: seq<Step>, meanwhile: seq<Step>)
    requires Fresh(s0) && Clean(s0, before) && CanSpawn(Run(s0, before))
    requires var s, t := DoSpawn(Run(s0, before), true), |Run(s0, before).threads|;
             && Clean(s, meanwhile) && CopySocket(t) !in meanwhile
             && Enabled(Run(s, meanwhile), CopySocket(t))
    ensures var s, t := DoSpawn(Run(s0, before), true), |Run(s0, before).threads|;
            var done := Apply(Run(s, meanwhile), CopySocket(t));
            done.threads[t].pc == Ready(done.threads[t].given) <==> StoreArg !in meanwhile
  {
    CleanKeepsOrder(s0, before);
    var t := |Run(s0, before).threads|;
    SpawnKeepsOrder(Run(s0, before), true);
    Copies(DoSpawn(Run(s0, before), true), meanwhile, t);
  }

  // ---- first come, first served ----

  /** How many connections have been taken from the backlog. */
  function TakenUp(s: Server): (n: nat) {
    |s.threads| + if MainFd(s.pc).Some? then 1 else 0
  }

  /** Handlers, the accept loop and the backlog have the connections in the order in
      which they came. */
  predicate Numbered(s: Server) {
    && (forall t :: 0 <= t < |s.threads| ==> s.threads[t].conn == t)
    && (!s.pc.Exited? ==>
          && TakenUp(s) + |s.backlog| == |s.conns|
          && (forall i :: 0 <= i < |s.backlog| ==> s.backlog[i] == TakenUp(s) + i)
          && (MainFd(s.pc).Some? ==>
                IsSocket(s, MainFd(s.pc).value) && ConnOf(s, MainFd(s.pc).value) == |s.threads|))
  }

  lemma LoopKeepsNumbers(s: Server, step: Step)
    requires Numbered(s) && Enabled(s, step)
    requires step.AcceptConn? || step.RecvHeader? || step.RecvBody? || step.StoreArg?
             || step.SpawnThread? || step.CheckIndex? || step.JoinNext?
    ensures Numbered(Apply(s, step))
  {
  }

  /** Whoever has a connection still has it. */
  lemma SamePlaces(s: Server, s': Server)
    requires Numbered(s) && s'.pc == s.pc && s'.backlog == s.backlog
    requires |s'.conns| == |s.conns| && |s'.threads| == |s.threads|
    requires forall t :: 0 <= t < |s.threads| ==> s'.threads[t].conn == s.threads[t].conn
    requires !s.pc.Exited? && MainFd(s.pc).Some? ==>
               var fd := MainFd(s.pc).value; fd in s'.kernel.table && s'.kernel.table[fd] == s.kernel.table[fd]
    ensures Numbered(s')
  {
  }

  lemma HandlersStay(s: Server, step: Step)
    requires Enabled(s, step) && (step.CopyPayload? || step.CopySize? || step.CopySocket? || step.Execute?
                                  || step.SendReply? || step.CloseSocket? || step.FreePayload?)
    ensures var s' := Apply(s, step);
            && s'.pc == s.pc && s'.backlog == s.backlog
            && |s'.conns| == |s.conns| && |s'.threads| == |s.threads|
            && (forall t :: 0 <= t < |s.threads| ==> s'.threads[t].conn == s.threads[t].conn)
            && (step.Execute? || s'.kernel.table == s.kernel.table
                || (step.CloseSocket? && s'.kernel.table == s.kernel.table - {s.threads[step.t].pc.arg.fd}))
  {
  }

  lemma HandlersKeepNumbers(s: Server, step: Step)
    requires InOrder(s) && Numbered(s) && CleanStep(s, step)
    requires step.CopyPayload? || step.CopySize? || step.CopySocket? || step.Execute?
             || step.SendReply? || step.CloseSocket? || step.FreePayload?
    ensures Numbered(Apply(s, step))
  {
    assert HandlerOk(s, s.threads[step.t]);
    HandlersStay(s, step);
    SamePlaces(s, Apply(s, step));
  }

  lemma ConnectKeepsNumbers(s: Server, request: bytes)
    requires Numbered(s)
    ensures Numbered(Apply(s, Connect(request)))
  {
  }

  lemma StepKeepsNumbers(s: Server, step: Step)
    requires InOrder(s) && Numbered(s) && CleanStep(s, step)
    ensures Numbered(Apply(s, step))
  {
    match step
    case AcceptConn => LoopKeepsNumbers(s, step);
    case RecvHeader => LoopKeepsNumbers(s, step);
    case RecvBody(_) => LoopKeepsNumbers(s, step);
    case StoreArg => LoopKeepsNumbers(s, step);
    case SpawnThread(_) => LoopKeepsNumbers(s, step);
    case CheckIndex => LoopKeepsNumbers(s, step);
    case JoinNext => LoopKeepsNumbers(s, step);
    case Connect(request) => ConnectKeepsNumbers(s, request);
    case _ => HandlersKeepNumbers(s, step);
  }

  /** FIRST COME, FIRST SERVED. With any clients, the n-th handler serves the n-th
      connection, and the backlog holds those to come, in order. */
  lemma {:induction false} ServedInOrder(s: Server, steps: seq<Step>)
    requires InOrder(s) && Numbered(s) && Clean(s, steps)
    ensures Numbered(Run(s, steps))
    decreases |steps|
  {
    if steps != [] {
      StepKeepsOrder(s, steps[0]);
      StepKeepsNumbers(s, steps[0]);
      ServedInOrder(Apply(s, steps[0]), steps[1..]);
    }
  }

  lemma FreshIsNumbered(s: Server)
    requires Fresh(s) && s.conns == []
    ensures InOrder(s) && Numbered(s)
  {
  }
}
