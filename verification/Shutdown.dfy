/**
 Shutdown terminates. Once quit is raised every step that a thread takes lowers a measure, unless a worker reads more
 than a block from its peer; as long as the measure is not 0 some thread can take a step without any call failing; and
 when it is 0 no client is left and the server thread has exited.
 */
module Shutdown {
  import opened Bytes
  import opened Common
  import opened Measures
  import opened Worker
  import opened ServerProtocol
  import opened ServerInvariants
  import opened ServerTheorems

  // ---------------------------------------------------------------- the measure

  /** The steps a worker may still take; closing pays for the two waiters that it may wake. */
  function WorkerWeight(w: Worker): nat {
    match w.pc
    case Finished => 0
    case Closing => 3
    case Sending(remaining) => 4 + remaining
    case AwaitWritable => 5 + BUFFER_SIZE
    case Sleeping(_) => 6 + BUFFER_SIZE
    case Receiving(position) => 7 + BUFFER_SIZE + if position <= BUFFER_SIZE then BUFFER_SIZE - position else 0
    case AwaitMessage => 8 + 2 * BUFFER_SIZE
  }

  /** The acceptor past its check pays for the worker that it is going to spawn. */
  function AcceptorWeight(a: AcceptorPc): nat {
    match a
    case Exited => 0
    case DrainParked(notified) => 2 + Notice(notified)
    case Draining => 3
    case Quitting => 6
    case Polling => 7
    case Checking(_) => 8
    case Parked(_, _) => 8
    case Accepting => 9
    case Admitting(_) => 16 + 2 * BUFFER_SIZE
  }

  /** A stopper that is under way still has to read every byte in the pipe. */
  function StopperWeight(p: StopperPc, pipe: nat): nat {
    match p
    case Idle => 0
    case Stopped => 0
    case Joining => 1
    case Consuming => 2 + pipe
    case AwaitParked(notified) => 3 + Notice(notified) + pipe
    case Awaiting => 4 + pipe
    case Raising => 7 + pipe
  }

  function Measure(s: Server): nat {
    AcceptorWeight(s.acceptor) + StopperWeight(s.stopper, s.pipe) + Total(s.workers, WorkerWeight)
  }

  // ---------------------------------------------------------------- the steps that count

  /** A thread that nobody notified wakes up. */
  predicate Spurious(s: Server, e: Event) {
    match e
    case ByAcceptor(WakeForRoom) => s.acceptor.Parked? && !s.acceptor.notified
    case ByAcceptor(WakeForDrain) => s.acceptor.DrainParked? && !s.acceptor.notified
    case ByStopper(WakeForExit) => s.stopper.AwaitParked? && !s.stopper.notified
    case _ => false
  }

  /** The acceptor, the stopper or a worker takes a step. */
  predicate ThreadStep(s: Server, e: Event) {
    (e.ByAcceptor? || e.ByStopper? || e.WorkerCalls? || e.WorkerCloses?) && !Spurious(s, e)
  }

  /** A spurious wakeup finds its condition false and changes nothing. */
  lemma SpuriousChangesNothing(s: Server, e: Event)
    requires NoWakeupLost(s) && Enabled(s, e) && Spurious(s, e)
    ensures Apply(s, e) == s
  {
  }

  lemma AdmitDecreases(s: Server)
    requires AcceptorEnabled(s, Admit)
    ensures Measure(ApplyAcceptor(s, Admit)) < Measure(s)
  {
  }

  lemma AcceptorDecreases(s: Server, e: AcceptorEvent)
    requires ControlOk(s) && s.quit && AcceptorEnabled(s, e) && !Spurious(s, ByAcceptor(e))
    requires !ApplyAcceptor(s, e).cycle.pipeFault
    ensures Measure(ApplyAcceptor(s, e)) < Measure(s)
    ensures ApplyAcceptor(s, e).quit
  {
    if e.Admit? {
      AdmitDecreases(s);
    } else {
      AcceptorFrame(s, e);
    }
  }

  lemma StopperDecreases(s: Server, e: StopperEvent)
    requires ControlOk(s) && s.quit && StopperEnabled(s, e) && !Spurious(s, ByStopper(e))
    requires !ApplyStopper(s, e).cycle.pipeFault
    ensures Measure(ApplyStopper(s, e)) < Measure(s)
    ensures ApplyStopper(s, e).quit
  {
  }

  lemma CallDecreases(w: Worker, c: WorkerCall, pipe: bool, now: int)
    requires WorkerEnabled(w, c, pipe, now) && !WorkerApply(w, c, pipe, now).overrun
    ensures WorkerWeight(WorkerApply(w, c, pipe, now)) < WorkerWeight(w)
  {
  }

  lemma CloseDecreases(s: Server, i: nat)
    requires Enabled(s, WorkerCloses(i))
    ensures Measure(CloseClient(s, i)) < Measure(s)
  {
    TotalAfterChange(s.workers, WorkerWeight, i, CloseClient(s, i).workers[i]);
  }

  /** No worker has read more than a block. */
  ghost predicate NoOverrun(ws: seq<Worker>) {
    forall i :: 0 <= i < |ws| ==> !ws[i].overrun
  }

  /** With quit raised every step of a thread lowers the measure. */
  lemma ThreadStepDecreases(s: Server, e: Event)
    requires ControlOk(s) && s.quit && Enabled(s, e) && ThreadStep(s, e)
    requires !Apply(s, e).cycle.pipeFault && NoOverrun(Apply(s, e).workers)
    ensures Measure(Apply(s, e)) < Measure(s)
    ensures Apply(s, e).quit
  {
    match e {
      case ByAcceptor(a) => AcceptorDecreases(s, a);
      case ByStopper(a) => StopperDecreases(s, a);
      case WorkerCalls(i, c) =>
        assert !Apply(s, e).workers[i].overrun;
        CallDecreases(s.workers[i], c, s.pipe > 0, s.now);
        TotalAfterChange(s.workers, WorkerWeight, i, WorkerApply(s.workers[i], c, s.pipe > 0, s.now));
      case WorkerCloses(i) => CloseDecreases(s, i);
    }
  }

  /** Peers, the clock and spurious wakeups leave it as it is. */
  lemma OtherStepKeeps(s: Server, e: Event)
    requires NoWakeupLost(s) && Enabled(s, e) && !ThreadStep(s, e) && !e.ByApplication?
    ensures Measure(Apply(s, e)) == Measure(s)
    ensures Apply(s, e).quit == s.quit
  {
    if e.ByPeer? {
      TotalAfterChange(s.workers, WorkerWeight, e.i, ApplyPeer(s.workers[e.i], e.peer));
    } else if Spurious(s, e) {
      SpuriousChangesNothing(s, e);
    }
  }

  // ---------------------------------------------------------------- whole runs are bounded

  ghost function ThreadSteps(s: Server, es: seq<Event>): nat
    requires IsRun(s, es)
    decreases |es|
  {
    if es == [] then 0
    else (if ThreadStep(s, es[0]) then 1 else 0) + ThreadSteps(Apply(s, es[0]), es[1..])
  }

  ghost predicate NoApplicationCall(es: seq<Event>) {
    forall i :: 0 <= i < |es| ==> !es[i].ByApplication?
  }

  lemma OverrunStays(s: Server, e: Event)
    requires Enabled(s, e) && NoOverrun(Apply(s, e).workers)
    ensures NoOverrun(s.workers)
  {
    forall i | 0 <= i < |s.workers| ensures !s.workers[i].overrun {
      if !Concerns(e, i) {
        OtherWorkersKept(s, e, i);
      }
      assert !Apply(s, e).workers[i].overrun;
    }
  }

  lemma {:induction false} FaultsStayOverRun(s: Server, es: seq<Event>)
    requires IsRun(s, es) && NoApplicationCall(es)
    ensures s.cycle.pipeFault ==> After(s, es).cycle.pipeFault
    ensures NoOverrun(After(s, es).workers) ==> NoOverrun(s.workers)
    decreases |es|
  {
    if es != [] {
      Frame(s, es[0]);
      if NoOverrun(Apply(s, es[0]).workers) {
        OverrunStays(s, es[0]);
      }
      FaultsStayOverRun(Apply(s, es[0]), es[1..]);
    }
  }

  /**
   Once quit is raised, no run in which every worker reads at most a block takes more thread steps than the measure
   had, however the threads interleave and whatever clock and spurious wakeups add to it.
   */
  lemma {:induction false} ShutdownIsBounded(s: Server, es: seq<Event>)
    requires Inv(s) && s.quit && IsRun(s, es) && NoApplicationCall(es)
    requires !After(s, es).cycle.pipeFault && NoOverrun(After(s, es).workers)
    ensures ThreadSteps(s, es) + Measure(After(s, es)) <= Measure(s)
    ensures After(s, es).quit
    decreases |es|
  {
    if es != [] {
      var e, t := es[0], Apply(s, es[0]);
      StepKeepsInv(s, e);
      FaultsStayOverRun(t, es[1..]);
      if ThreadStep(s, e) {
        ThreadStepDecreases(s, e);
      } else {
        OtherStepKeeps(s, e);
      }
      ShutdownIsBounded(t, es[1..]);
    }
  }

  // ---------------------------------------------------------------- progress

  /** The call returns without an error; `select` has to refuse a sleep of less than no time. */
  predicate CallSucceeds(w: Worker, c: WorkerCall) {
    match c
    case SelectMessage(r) => !r.Failed?
    case ReadBytes(r) => !r.ReadFailed?
    case SelectSleep(r) => r.Failed? ==> w.pc.Sleeping? && w.pc.wakeAt < w.readAt
    case SelectWritable(r) => !r.Failed?
    case WriteBytes(r) => !r.WriteFailed?
  }

  /** No call in this event fails, and no timed wait runs out. */
  predicate Faultless(s: Server, e: Event) {
    match e
    case ByAcceptor(Poll(r)) => !r.Failed?
    case ByAcceptor(Accept(r)) => r.Connection?
    case ByAcceptor(AcceptorRaises(written)) => written
    case ByAcceptor(DrainExpires) => false
    case ByStopper(StopperRaises(written)) => written
    case ByStopper(ExitExpires) => false
    case ByStopper(Consume(r)) => !r.ReadFailed?
    case WorkerCalls(i, c) => i < |s.workers| && CallSucceeds(s.workers[i], c)
    case _ => true
  }

  ghost predicate CanStep(s: Server, e: Event) {
    Enabled(s, e) && ThreadStep(s, e) && Faultless(s, e)
  }

  /** A socket that a worker waits to write to has room. */
  ghost predicate CanWrite(ws: seq<Worker>) {
    forall i :: 0 <= i < |ws| && ws[i].pc.AwaitWritable? ==> ws[i].writable
  }

  /** The peer of each worker has sent no more than one message. */
  ghost predicate OneMessageEach(ws: seq<Worker>) {
    forall i :: 0 <= i < |ws| ==> |ws[i].received| + |ws[i].inbox.bytes| <= BUFFER_SIZE
  }

  lemma AcceptorProgress(s: Server) returns (e: Event)
    requires ControlOk(s) && s.quit && !s.cycle.pipeFault && !s.acceptor.Exited?
    requires s.acceptor.DrainParked? ==> s.current == 0
    ensures CanStep(s, e)
  {
    match s.acceptor {
      case Polling => e := ByAcceptor(Poll(Ready(true, false)));
      case Accepting =>
        var fd := FreshDescriptor(s.descriptors);
        e := ByAcceptor(Accept(Connection(fd)));
      case Checking(_) => e := ByAcceptor(CheckCapacity);
      case Parked(_, _) => e := ByAcceptor(WakeForRoom);
      case Admitting(_) => e := ByAcceptor(Admit);
      case Quitting => e := ByAcceptor(AcceptorRaises(true));
      case Draining => e := ByAcceptor(CheckDrained);
      case DrainParked(_) => e := ByAcceptor(WakeForDrain);
    }
  }

  lemma StopperProgress(s: Server) returns (e: Event)
    requires ControlOk(s) && s.acceptor.Exited?
    requires !s.stopper.Idle? && !s.stopper.Stopped?
    ensures CanStep(s, e)
  {
    match s.stopper {
      case Raising => e := ByStopper(StopperRaises(true));
      case Awaiting => e := ByStopper(CheckExited);
      case AwaitParked(_) => e := ByStopper(WakeForExit);
      case Consuming => e := ByStopper(Consume(if s.pipe > 0 then Data([48]) else WouldBlock));
      case Joining => e := ByStopper(Join);
    }
  }

  /** A worker that is not closing can make its next call return, with the pipe readable. */
  lemma WorkerProgress(w: Worker, now: int) returns (c: WorkerCall)
    requires TransferOk(w) && (w.pc.AwaitWritable? ==> w.writable) && !w.pc.Closing? && !w.pc.Finished?
    ensures WorkerEnabled(w, c, true, now) && CallSucceeds(w, c)
  {
    match w.pc {
      case AwaitMessage => c := SelectMessage(Ready(true, w.inbox.Readable()));
      case Receiving(_) =>
        var available := if |w.inbox.bytes| <= BUFFER_SIZE then w.inbox.bytes else w.inbox.bytes[..BUFFER_SIZE];
        c := ReadBytes(if available != [] then Data(available)
                       else if w.inbox.closed then EndOfStream else WouldBlock);
      case Sleeping(wakeAt) =>
        c := SelectSleep(if w.readAt <= wakeAt then Ready(true, w.inbox.Readable()) else Failed);
      case AwaitWritable => c := SelectWritable(Ready(false, true));
      case Sending(_) => c := WriteBytes(Accepted(1));
    }
  }

  lemma {:induction false} NoWeightNoWorkers(ws: seq<Worker>)
    ensures Total(ws, WorkerWeight) == 0 <==> LiveWorkers(ws) == {}
  {
    if ws != [] {
      var rest, last := ws[..|ws| - 1], |ws| - 1;
      NoWeightNoWorkers(rest);
      assert LiveWorkers(ws) == LiveWorkers(rest) + if ws[last].pc.Finished? then {} else {last};
    }
  }

  /** While a worker is left some worker can step, unless the stopper holds the lock and can step itself. */
  lemma LiveWorkerProgress(s: Server) returns (e: Event)
    requires Inv(s) && s.quit && !s.cycle.pipeFault && CanWrite(s.workers) && LiveWorkers(s.workers) != {}
    requires s.pipe > 0
    ensures CanStep(s, e)
  {
    var i :| i in LiveWorkers(s.workers);
    var w := s.workers[i];
    if w.pc.Closing? {
      if MutexFree(s) {
        e := WorkerCloses(i);
      } else {
        e := ByStopper(Consume(Data([48])));
      }
    } else {
      assert WorkerOk(w, s.now);
      var c := WorkerProgress(w, s.now);
      e := WorkerCalls(i, c);
    }
  }

  /**
   While the measure is not 0 some thread can step without any call failing and without any wait running out, in
   every state in which the server thread has not given a client up before.
   */
  lemma Progress(s: Server) returns (e: Event)
    requires Inv(s) && s.quit && !s.cycle.pipeFault && !s.cycle.drainExpired && CanWrite(s.workers) && Measure(s) > 0
    ensures CanStep(s, e)
  {
    NoWeightNoWorkers(s.workers);
    if LiveWorkers(s.workers) != {} {
      e := LiveWorkerProgress(s);
    } else if !s.acceptor.Exited? {
      e := AcceptorProgress(s);
    } else {
      e := StopperProgress(s);
    }
  }

  // ---------------------------------------------------------------- the end

  /** The count is 0, `isRunning_` is false, the server thread has exited, and a stop under way has returned. */
  predicate Over(s: Server) {
    s.current == 0 && !s.isRunning && s.acceptor.Exited? && (s.stopper.Idle? || s.stopper.Stopped?)
  }

  /** With nothing left to do no client is left, the thread has exited and no stop is under way. */
  lemma NothingLeft(s: Server)
    requires ControlOk(s) && s.current == |LiveWorkers(s.workers)| && Measure(s) == 0
    ensures Over(s)
  {
    NoWeightNoWorkers(s.workers);
  }

  lemma OneMessageDoesNotOverrun(s: Server)
    requires WorkersOk(s.workers, s.now) && OneMessageEach(s.workers)
    ensures NoOverrun(s.workers)
  {
  }

  lemma CompletesFrom(s: Server, es: seq<Event>)
    requires Inv(s) && s.quit && IsRun(s, es) && NoApplicationCall(es)
    requires var t := After(s, es);
             !t.cycle.drainExpired && !t.cycle.pipeFault && OneMessageEach(t.workers) && CanWrite(t.workers)
    ensures ThreadSteps(s, es) <= Measure(s)
    ensures (exists e :: CanStep(After(s, es), e)) || Over(After(s, es))
  {
    RunKeepsInv(s, es);
    var t := After(s, es);
    OneMessageDoesNotOverrun(t);
    ShutdownIsBounded(s, es);
    if Measure(t) > 0 {
      var e := Progress(t);
      assert CanStep(t, e);
    } else {
      NothingLeft(t);
    }
  }

  /**
   Shutdown completes. Whatever run led to quit, the run that follows it has no more thread steps than the measure
   was then; and where it has got to, if the server thread gave no client up on the way, either a thread can go on
   without any fault or all is over. Peers are taken to have sent one message each, and to let the worker write that
   wants to.
   */
  lemma ShutdownCompletes(s: Server, es: seq<Event>)
    requires Reachable(s) && s.quit && IsRun(s, es) && NoApplicationCall(es)
    requires var t := After(s, es);
             !t.cycle.drainExpired && !t.cycle.pipeFault && OneMessageEach(t.workers) && CanWrite(t.workers)
    ensures ThreadSteps(s, es) <= Measure(s)
    ensures (exists e :: CanStep(After(s, es), e)) || Over(After(s, es))
  {
    Reached(s);
    CompletesFrom(s, es);
  }

  // ---------------------------------------------------------------- what the timed waits are for

  /**
   With quit raised the server thread never needs a worker: whatever those do, or fail to do, it has a step of its own
   that takes it nearer to its exit, if need be by giving up its wait.
   */
  lemma AcceptorNeedsNobody(s: Server) returns (e: AcceptorEvent)
    requires Reachable(s) && s.quit && !s.cycle.pipeFault && !s.acceptor.Exited?
    ensures AcceptorEnabled(s, e)
    ensures AcceptorWeight(ApplyAcceptor(s, e).acceptor) < AcceptorWeight(s.acceptor)
    ensures ApplyAcceptor(s, e).quit && !ApplyAcceptor(s, e).cycle.pipeFault
  {
    assert ControlOk(s) by {
      Reached(s);
    }
    match s.acceptor {
      case Polling => e := Poll(Ready(true, false));
      case Accepting =>
        var fd := FreshDescriptor(s.descriptors);
        e := Accept(Connection(fd));
      case Checking(_) => e := CheckCapacity;
      case Parked(_, _) => e := WakeForRoom;
      case Admitting(_) => e := Admit;
      case Quitting => e := AcceptorRaises(true);
      case Draining => e := CheckDrained;
      case DrainParked(_) => e := DrainExpires;
    }
  }

  /** A thread in stop never needs one either; up to its join it does not even need the server thread. */
  lemma StopperNeedsNobody(s: Server) returns (e: StopperEvent)
    requires Reachable(s) && !s.cycle.pipeFault && !s.stopper.Idle? && !s.stopper.Stopped?
    requires s.stopper.Joining? ==> s.acceptor.Exited?
    ensures StopperEnabled(s, e)
    ensures var t := ApplyStopper(s, e);
            StopperWeight(t.stopper, t.pipe) < StopperWeight(s.stopper, s.pipe) && !t.cycle.pipeFault
  {
    match s.stopper {
      case Raising => e := StopperRaises(true);
      case Awaiting => e := CheckExited;
      case AwaitParked(_) => e := ExitExpires;
      case Consuming => e := Consume(if s.pipe > 0 then Data([48]) else WouldBlock);
      case Joining => e := Join;
    }
  }

  /** Only the server thread and the thread in stop take steps. */
  ghost predicate ServerThreadsOnly(es: seq<Event>) {
    forall i :: 0 <= i < |es| ==> es[i].ByAcceptor? || es[i].ByStopper?
  }

  ghost predicate StopReturns(s: Server, es: seq<Event>) {
    IsRun(s, es) && ServerThreadsOnly(es) && After(s, es).stopper.Stopped?
  }

  lemma StopReturnsLater(s: Server, e: Event, rest: seq<Event>)
    requires Enabled(s, e) && (e.ByAcceptor? || e.ByStopper?) && StopReturns(Apply(s, e), rest)
    ensures StopReturns(s, [e] + rest)
  {
    RunBegins(s, e, rest);
  }

  lemma AcceptorFrameInStop(s: Server, e: AcceptorEvent)
    requires AcceptorEnabled(s, e)
    ensures ApplyAcceptor(s, e).stopper.Raising? == s.stopper.Raising?
    ensures var t := ApplyAcceptor(s, e); t.stopper.Idle? == s.stopper.Idle? && t.stopper.Stopped? == s.stopper.Stopped?
  {
  }

  /** The next step on the way. */
  lemma StopStep(s: Server) returns (e: Event)
    requires Reachable(s) && !s.cycle.pipeFault && !s.stopper.Idle? && !s.stopper.Stopped?
    ensures Enabled(s, e) && (e.ByAcceptor? || e.ByStopper?)
    ensures var t := Apply(s, e);
            && !t.cycle.pipeFault && !t.stopper.Idle?
            && if s.stopper.Raising? then !t.stopper.Raising?
               else
                 && !t.stopper.Raising? && AcceptorWeight(t.acceptor) <= AcceptorWeight(s.acceptor)
                 && (AcceptorWeight(t.acceptor) == AcceptorWeight(s.acceptor) ==>
                       StopperWeight(t.stopper, t.pipe) < StopperWeight(s.stopper, s.pipe))
  {
    assert s.stopper.Raising? || s.quit by {
      Reached(s);
    }
    if s.stopper.Raising? || s.acceptor.Exited? {
      var a := StopperNeedsNobody(s);
      e := ByStopper(a);
    } else {
      var a := AcceptorNeedsNobody(s);
      AcceptorFrameInStop(s, a);
      e := ByAcceptor(a);
    }
  }

  /**
   A stop returns although every worker and every peer is stuck: from each state it can be in, the server thread and
   the thread in stop together get it to its end, and nobody else takes a step.
   */
  lemma {:induction false} StopReturnsAlone(s: Server) returns (es: seq<Event>)
    requires Reachable(s) && !s.cycle.pipeFault && !s.stopper.Idle?
    ensures StopReturns(s, es)
    decreases s.stopper.Raising?, AcceptorWeight(s.acceptor), StopperWeight(s.stopper, s.pipe)
  {
    if s.stopper.Stopped? {
      es := [];
    } else {
      var e := StopStep(s);
      StaysReachable(s, e);
      es := StopReturnsAlone(Apply(s, e));
      StopReturnsLater(s, e, es);
      es := [e] + es;
    }
  }
}
