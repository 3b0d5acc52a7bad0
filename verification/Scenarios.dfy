/**
 Runs that show where the guarantees end: once the server thread has given a client up a quit can be lost, and a stop
 can return with the client left; with a failed write to the pipe both late effects can come together; a peer that sends
 without end holds a shutdown up; and once its wait has run out a call can survive the stop that was to end it.
 */
module Scenarios {
  import opened Bytes
  import opened Common
  import Worker
  import Call
  import S = ServerProtocol
  import C = ClientProtocol
  import Shutdown

  /** The server is started and is about to admit a client. */
  lemma OneClientConnects(max: nat) returns (es: seq<S.Event>)
    requires 0 < max < SIZE_T_MODULUS
    ensures S.IsRun(S.Constructed(max), es)
    ensures S.After(S.Constructed(max), es) ==
            S.Constructed(max).(isRunning := true, quit := false, acceptor := S.Admitting(7), stopper := S.Idle,
                                descriptors := {7}, accepted := 1)
  {
    var s := S.Constructed(max);
    es := S.Then(s, [], S.ByApplication(S.StartServer(true)));
    es := S.Then(s, es, S.ByAcceptor(S.Poll(Ready(false, true))));
    es := S.Then(s, es, S.ByAcceptor(S.Accept(S.Connection(7))));
    es := S.Then(s, es, S.ByAcceptor(S.CheckCapacity));
  }

  /** The bound on late effects is reached: a client is admitted after quit, in the gap of the two locks. */
  lemma OneClientCanBeLate(max: nat) returns (es: seq<S.Event>)
    requires 0 < max < SIZE_T_MODULUS
    ensures S.IsRun(S.Constructed(max), es)
    ensures var s := S.After(S.Constructed(max), es);
            s.cycle.late == 1 && s.quit && 0 in S.LiveWorkers(s.workers) && !s.cycle.pipeFault && !s.cycle.drainExpired
  {
    var s := S.Constructed(max);
    es := OneClientConnects(max);
    es := S.Then(s, es, S.ByApplication(S.CallStop));
    es := S.Then(s, es, S.ByStopper(S.StopperRaises(true)));
    es := S.Then(s, es, S.ByAcceptor(S.Admit));
  }

  /** With a failed write to the pipe a client can be admitted late and the next one's descriptor abandoned. */
  lemma BothCanBeLate(max: nat) returns (es: seq<S.Event>)
    requires 0 < max < SIZE_T_MODULUS
    ensures S.IsRun(S.Constructed(max), es)
    ensures var s := S.After(S.Constructed(max), es);
            s.cycle == S.Cycle(1, 1, false, false, true) && s.abandoned == {8}
  {
    var s := S.Constructed(max);
    es := OneClientConnects(max);
    es := S.Then(s, es, S.ByApplication(S.CallStop));
    es := S.Then(s, es, S.ByStopper(S.StopperRaises(false)));
    es := S.Then(s, es, S.ByAcceptor(S.Admit));
    es := S.Then(s, es, S.ByAcceptor(S.Poll(Ready(false, true))));
    es := S.Then(s, es, S.ByAcceptor(S.Accept(S.Connection(8))));
    es := S.Then(s, es, S.ByAcceptor(S.CheckCapacity));
  }

  /** The acceptor gives its only client up. */
  lemma DrainRunsOut(max: nat) returns (es: seq<S.Event>)
    requires 0 < max < SIZE_T_MODULUS
    ensures S.IsRun(S.Constructed(max), es)
    ensures var s := S.After(S.Constructed(max), es);
            && s.quit && s.pipe == 2 && s.cycle == S.Cycle(0, 0, true, false, false) && s.stopper == S.Awaiting
            && s.acceptor.Exited? && !s.isRunning && s.current == 1 && s.workers == [Worker.NewWorker(7)]
  {
    var s := S.Constructed(max);
    es := OneClientConnects(max);
    es := S.Then(s, es, S.ByAcceptor(S.Admit));
    es := S.Then(s, es, S.ByApplication(S.CallStop));
    es := S.Then(s, es, S.ByStopper(S.StopperRaises(true)));
    es := S.Then(s, es, S.ByAcceptor(S.Poll(Ready(true, false))));
    es := S.Then(s, es, S.ByAcceptor(S.AcceptorRaises(true)));
    es := S.Then(s, es, S.ByAcceptor(S.CheckDrained));
    es := S.Then(s, es, S.ByAcceptor(S.DrainExpires));
  }

  /**
   Once the server thread has given a client up a quit can be lost, although no other wait expires: the pipe is drained
   while a worker has still to look at it, and that worker finds nothing there.
   */
  lemma QuitCanBeLost(max: nat) returns (es: seq<S.Event>)
    requires 0 < max < SIZE_T_MODULUS
    ensures S.IsRun(S.Constructed(max), es)
    ensures var s := S.After(S.Constructed(max), es);
            && s.quit && s.pipe == 0 && s.cycle == S.Cycle(0, 0, true, false, false) && s.stopper.Consuming?
            && s.acceptor.Exited? && s.current == 1 && s.workers == [Worker.NewWorker(7)]
  {
    var s := S.Constructed(max);
    es := DrainRunsOut(max);
    es := S.Then(s, es, S.ByStopper(S.CheckExited));
    es := S.Then(s, es, S.ByStopper(S.Consume(Data([48]))));
    es := S.Then(s, es, S.ByStopper(S.Consume(Data([48]))));
  }

  /** And the stop returns: the server is stopped, and still has a client. */
  lemma StopCanLeaveAClient(max: nat) returns (es: seq<S.Event>)
    requires 0 < max < SIZE_T_MODULUS
    ensures S.IsRun(S.Constructed(max), es)
    ensures var s := S.After(S.Constructed(max), es);
            s.stopper.Stopped? && s.cycle.drainExpired && s.current == 1 && 0 in S.LiveWorkers(s.workers)
  {
    var s := S.Constructed(max);
    es := QuitCanBeLost(max);
    es := S.Then(s, es, S.ByStopper(S.Consume(WouldBlock)));
    es := S.Then(s, es, S.ByStopper(S.Join));
  }

  /** A run with nobody calling the server and with this many steps of its threads. */
  ghost predicate TakesSteps(s: S.Server, es: seq<S.Event>, n: nat) {
    S.IsRun(s, es) && Shutdown.NoApplicationCall(es) && Shutdown.ThreadSteps(s, es) == n
  }

  lemma TakesOneMore(s: S.Server, e: S.Event, rest: seq<S.Event>, n: nat)
    requires S.Enabled(s, e) && !e.ByApplication? && TakesSteps(S.Apply(s, e), rest, n)
    ensures TakesSteps(s, [e] + rest, n + if Shutdown.ThreadStep(s, e) then 1 else 0)
  {
    S.RunBegins(s, e, rest);
    assert ([e] + rest)[1..] == rest;
  }

  /** A peer that sends byte after byte keeps its worker reading, in the buffer and behind it. */
  lemma {:induction false} WorkerReadsOn(s: S.Server, n: nat) returns (es: seq<S.Event>)
    requires |s.workers| > 0 && s.workers[0].pc.Receiving? && s.workers[0].inbox == Inbox([], false)
    ensures TakesSteps(s, es, n)
    decreases n
  {
    if n == 0 {
      es := [];
    } else {
      var send, receive := S.ByPeer(0, PeerSends([NUL])), S.WorkerCalls(0, Worker.ReadBytes(Data([NUL])));
      var t := S.Apply(s, send);
      var rest := WorkerReadsOn(S.Apply(t, receive), n - 1);
      TakesOneMore(t, receive, rest, n - 1);
      TakesOneMore(s, send, [receive] + rest, n);
      es := [send] + ([receive] + rest);
    }
  }

  ghost predicate CanTakeSteps(s: S.Server, n: nat) {
    exists es :: TakesSteps(s, es, n)
  }

  /** Quit is raised while a worker reads its message. */
  lemma QuitWhileReading(max: nat) returns (es: seq<S.Event>)
    requires 0 < max < SIZE_T_MODULUS
    ensures S.IsRun(S.Constructed(max), es)
    ensures var s := S.After(S.Constructed(max), es);
            && s.quit && !s.cycle.drainExpired && !s.cycle.pipeFault
            && |s.workers| > 0 && s.workers[0].pc.Receiving? && s.workers[0].inbox == Inbox([], false)
  {
    var s := S.Constructed(max);
    es := OneClientConnects(max);
    es := S.Then(s, es, S.ByAcceptor(S.Admit));
    es := S.Then(s, es, S.ByPeer(0, PeerSends([NUL])));
    es := S.Then(s, es, S.WorkerCalls(0, Worker.SelectMessage(Ready(false, true))));
    es := S.Then(s, es, S.WorkerCalls(0, Worker.ReadBytes(Data([NUL]))));
    es := S.Then(s, es, S.ByApplication(S.CallStop));
    es := S.Then(s, es, S.ByStopper(S.StopperRaises(true)));
  }

  /**
   A worker that goes on reading behind its buffer holds a shutdown up without bound: in this state quit is raised, and
   there are runs from it with any number of steps.
   */
  lemma ShutdownCanBeHeldUp(max: nat) returns (es: seq<S.Event>)
    requires 0 < max < SIZE_T_MODULUS
    ensures S.IsRun(S.Constructed(max), es)
    ensures var s := S.After(S.Constructed(max), es);
            s.quit && !s.cycle.drainExpired && !s.cycle.pipeFault && forall n: nat :: CanTakeSteps(s, n)
  {
    es := QuitWhileReading(max);
    var s := S.After(S.Constructed(max), es);
    forall n: nat ensures CanTakeSteps(s, n) {
      var more := WorkerReadsOn(s, n);
      assert TakesSteps(s, more, n);
    }
  }

  /** A call is counted and waits for its socket to become writable. */
  lemma OneCallWaits(delay: Count) returns (es: seq<C.Event>)
    ensures C.IsRun(C.Constructed(true), es)
    ensures var c := C.After(C.Constructed(true), es);
            && c.pipeValid && c.connections == 1 && c.pipe == 0 && c.stopper == C.Idle && !c.pipeFault
            && c.calls == [Call.NewCall(delay).(pc := Call.AwaitWritable, fd := 3, created := 1)]
  {
    var c := C.Constructed(true);
    es := C.Then(c, [], C.Send(delay));
    es := C.Then(c, es, C.ByCall(0, C.CreateSocket(C.NewSocket(3))));
    es := C.Then(c, es, C.CallSteps(0, Call.Connect(true)));
    es := C.Then(c, es, C.ByCall(0, C.CheckPipe));
    es := C.Then(c, es, C.ByCall(0, C.CountIn));
  }

  /** With an expired wait a call can survive the stop that was to end it: the byte is gone before it looked. */
  lemma CallCanSurviveStop(delay: Count) returns (es: seq<C.Event>)
    ensures C.IsRun(C.Constructed(true), es)
    ensures var c := C.After(C.Constructed(true), es);
            && c.stopper.Idle? && c.pipe == 0 && !c.pipeFault && |c.calls| == 1 && 0 in c.targets
            && c.calls[0].pc.AwaitWritable? && !c.calls[0].cancelled
  {
    var c := C.Constructed(true);
    es := OneCallWaits(delay);
    assert C.CountedCalls(C.After(c, es).calls) == {0};
    es := C.Then(c, es, C.ByStopper(C.CallStop));
    es := C.Then(c, es, C.ByStopper(C.WriteAndWait(true)));
    es := C.Then(c, es, C.ByStopper(C.WaitExpires));
    es := C.Then(c, es, C.ByStopper(C.Consume(Data([48]))));
    es := C.Then(c, es, C.ByStopper(C.Consume(WouldBlock)));
  }
}
