/** What holds in every reachable state of the server, over any number of start and stop cycles. */
module ServerInvariants {
  import opened Bytes
  import opened Common
  import opened Worker
  import opened ServerProtocol

  // ---------------------------------------------------------------- flags, pipe and thread positions

  ghost predicate AcceptorRaised(s: Server) {
    s.acceptor.Draining? || s.acceptor.DrainParked? || s.acceptor.Exited?
  }

  ghost predicate StopperRaised(s: Server) {
    !s.stopper.Idle? && !s.stopper.Raising?
  }

  /** Quit has been raised and `waitForRunningThread` has not begun to drain the pipe. */
  ghost predicate Undrained(s: Server) {
    && s.quit
    && (s.stopper.Idle? || s.stopper.Raising? || s.stopper.Awaiting? || s.stopper.AwaitParked?)
  }

  ghost predicate SignalsExact(s: Server) {
    && (s.quit <==> AcceptorRaised(s) || StopperRaised(s))
    && (s.isRunning <==> !s.acceptor.Exited?)
    && (s.stopper.Consuming? || s.stopper.Stopped? ==> s.acceptor.Exited?)
    && (s.stopper.Joining? && !s.cycle.exitExpired ==> s.acceptor.Exited?)
  }

  /** Once the thread has exited in time no client is left. */
  ghost predicate NoClientLeft(s: Server) {
    s.acceptor.Exited? && !s.cycle.drainExpired ==> s.current == 0
  }

  /** The counter is within its bound, and below it when a client is about to be admitted. */
  ghost predicate BoundKept(s: Server) {
    s.current <= s.max < SIZE_T_MODULUS && (s.acceptor.Admitting? ==> s.current < s.max)
  }

  /** The quit byte stays as long as somebody may need it, and there are never more than two bytes. */
  ghost predicate QuitByteKept(s: Server) {
    && (!s.quit ==> s.pipe == 0)
    && (Undrained(s) && !s.cycle.pipeFault ==> s.pipe > 0)
    && (s.quit && !s.acceptor.Exited? && !s.cycle.pipeFault ==> s.pipe > 0)
    && ((s.stopper.Joining? || s.stopper.Stopped?) && !s.cycle.exitExpired && !s.cycle.pipeFault ==> s.pipe == 0)
    && s.pipe <= (if AcceptorRaised(s) then 1 else 0) + (if StopperRaised(s) then 1 else 0)
    && (s.cycle.exitExpired ==> s.stopper.Joining? || s.stopper.Stopped?)
    && (s.stopper.Awaiting? || s.stopper.AwaitParked? || s.cycle.exitExpired ==>
          !s.cycle.pipeFault ==> s.pipe == 1 + if AcceptorRaised(s) then 1 else 0)
  }

  // ---------------------------------------------------------------- the condition variable

  /** No thread that waits on `clientsCV_` without having been notified has its condition true. */
  ghost predicate NoWakeupLost(s: Server) {
    && (s.acceptor.Parked? && !s.acceptor.notified ==> !RoomOrQuit(s))
    && (s.acceptor.DrainParked? && !s.acceptor.notified ==> !NoClients(s))
    && (s.stopper.AwaitParked? && !s.stopper.notified ==> !ThreadExited(s))
  }

  // ---------------------------------------------------------------- late effects of a cycle

  /** The descriptors that doAccept holds. */
  ghost function InAccept(s: Server): set<nat> {
    match s.acceptor
    case Checking(fd) => {fd}
    case Parked(fd, _) => {fd}
    case Admitting(fd) => {fd}
    case _ => {}
  }

  /** In one cycle at most one client is admitted, and one descriptor abandoned, with quit raised; and not both. */
  ghost predicate LateBounded(s: Server) {
    && (!s.quit ==> s.cycle.late + s.cycle.dropped == 0)
    && s.cycle.late <= 1 && (s.acceptor.Admitting? ==> s.cycle.late == 0)
    && s.cycle.dropped <= 1 && (s.cycle.dropped > 0 ==> s.acceptor.Quitting? || AcceptorRaised(s))
    && (!s.cycle.pipeFault ==> s.cycle.late + s.cycle.dropped <= 1)
    && (!s.cycle.pipeFault && (s.acceptor.Accepting? || InAccept(s) != {}) ==> s.cycle.late + s.cycle.dropped == 0)
  }

  // ---------------------------------------------------------------- descriptors

  /**
   Every descriptor in `open` has one owner: a live worker, doAccept, or nobody because it was abandoned. That
   there are no others is counted: as many are open as there are owners.
   */
  ghost predicate OneOwnerEach(ws: seq<Worker>, accepting: set<nat>, abandoned: set<nat>, open: set<nat>) {
    && (forall i :: 0 <= i < |ws| && !ws[i].pc.Finished? ==> ws[i].fd in open - accepting - abandoned)
    && (forall i, j :: 0 <= i < j < |ws| && !ws[i].pc.Finished? && !ws[j].pc.Finished? ==> ws[i].fd != ws[j].fd)
    && accepting <= open && abandoned <= open - accepting
    && |open| == |LiveWorkers(ws)| + |abandoned| + |accepting|
  }

  /** The counter is the number of workers that have not closed; a descriptor accepted is open until closed. */
  ghost predicate Population(ws: seq<Worker>, current: nat, accepting: set<nat>, abandoned: set<nat>,
                             open: set<nat>, accepted: nat, closed: nat)
  {
    && current == |LiveWorkers(ws)|
    && OneOwnerEach(ws, accepting, abandoned, open)
    && accepted == |open| + closed
  }

  ghost predicate PopulationOk(s: Server) {
    Population(s.workers, s.current, InAccept(s), s.abandoned, s.descriptors, s.accepted, s.closed)
  }

  // ---------------------------------------------------------------- the workers

  ghost predicate WorkersOk(ws: seq<Worker>, now: int) {
    forall i :: 0 <= i < |ws| ==> WorkerOk(ws[i], now)
  }

  // ---------------------------------------------------------------- all of it

  /** The part that does not look inside the workers. */
  ghost predicate ControlOk(s: Server) {
    && BoundKept(s)
    && SignalsExact(s)
    && NoClientLeft(s)
    && QuitByteKept(s)
    && NoWakeupLost(s)
    && LateBounded(s)
  }

  ghost predicate Inv(s: Server) {
    && ControlOk(s)
    && PopulationOk(s)
    && WorkersOk(s.workers, s.now)
  }

  // ---------------------------------------------------------------- control is kept by every actor

  lemma ApplicationKeepsControl(s: Server, e: ApplicationEvent)
    requires ControlOk(s) && ApplicationEnabled(s, e)
    ensures ControlOk(ApplyApplication(s, e))
  {
  }

  lemma AcceptorKeepsFlags(s: Server, e: AcceptorEvent)
    requires BoundKept(s) && SignalsExact(s) && NoClientLeft(s) && AcceptorEnabled(s, e)
    ensures var t := ApplyAcceptor(s, e); BoundKept(t) && SignalsExact(t) && NoClientLeft(t)
  {
  }

  lemma AcceptorKeepsByte(s: Server, e: AcceptorEvent)
    requires SignalsExact(s) && QuitByteKept(s) && AcceptorEnabled(s, e)
    ensures QuitByteKept(ApplyAcceptor(s, e))
  {
  }

  lemma NotifyAllLosesNone(s: Server)
    ensures NoWakeupLost(NotifyAll(s))
  {
  }

  lemma AcceptorKeepsWaiters(s: Server, e: AcceptorEvent)
    requires NoWakeupLost(s) && AcceptorEnabled(s, e)
    ensures NoWakeupLost(ApplyAcceptor(s, e))
  {
    match e {
      case Poll(_) =>
      case Accept(_) =>
      case CheckCapacity =>
      case WakeForRoom =>
      case Admit =>
      case AcceptorRaises(_) =>
      case _ => NotifyAllLosesNone(s.(isRunning := false, acceptor := Exited));
    }
  }

  lemma AcceptorKeepsLate(s: Server, e: AcceptorEvent)
    requires QuitByteKept(s) && LateBounded(s) && AcceptorEnabled(s, e)
    requires SignalsExact(s)
    ensures LateBounded(ApplyAcceptor(s, e))
  {
  }

  lemma AcceptorKeepsControl(s: Server, e: AcceptorEvent)
    requires ControlOk(s) && AcceptorEnabled(s, e)
    ensures ControlOk(ApplyAcceptor(s, e))
  {
    AcceptorKeepsFlags(s, e);
    AcceptorKeepsByte(s, e);
    AcceptorKeepsWaiters(s, e);
    AcceptorKeepsLate(s, e);
  }

  lemma StopperKeepsControl(s: Server, e: StopperEvent)
    requires ControlOk(s) && StopperEnabled(s, e)
    requires |LiveWorkers(s.workers)| == s.current
    ensures ControlOk(ApplyStopper(s, e))
  {
  }

  lemma CloseKeepsControl(s: Server, i: nat)
    requires ControlOk(s) && Enabled(s, WorkerCloses(i)) && s.current > 0
    ensures ControlOk(CloseClient(s, i))
  {
  }

  // ---------------------------------------------------------------- the set of live workers

  lemma LiveAfterAppend(ws: seq<Worker>, w: Worker)
    requires !w.pc.Finished?
    ensures LiveWorkers(ws + [w]) == LiveWorkers(ws) + {|ws|}
    ensures |LiveWorkers(ws + [w])| == |LiveWorkers(ws)| + 1
  {
  }

  lemma LiveAfterFinish(ws: seq<Worker>, i: nat, w: Worker)
    requires i < |ws| && !ws[i].pc.Finished? && w.pc.Finished?
    ensures LiveWorkers(ws[i := w]) == LiveWorkers(ws) - {i}
    ensures i in LiveWorkers(ws)
    ensures |LiveWorkers(ws[i := w])| == |LiveWorkers(ws)| - 1
  {
  }

  /** A worker that goes on keeps its place. */
  lemma LiveAfterCall(ws: seq<Worker>, i: nat, w: Worker)
    requires i < |ws| && (w.pc.Finished? <==> ws[i].pc.Finished?)
    ensures LiveWorkers(ws[i := w]) == LiveWorkers(ws)
  {
  }

  // ---------------------------------------------------------------- descriptors move between owners

  lemma PopulationAfterAdmit(ws: seq<Worker>, current: nat, w: Worker, abandoned: set<nat>,
                             open: set<nat>, accepted: nat, closed: nat)
    requires Population(ws, current, {w.fd}, abandoned, open, accepted, closed) && !w.pc.Finished?
    ensures Population(ws + [w], current + 1, {}, abandoned, open, accepted, closed)
  {
    LiveAfterAppend(ws, w);
  }

  /** Closing is where a worker leaves the population: the counter it decreases is not 0. */
  lemma PopulationAfterClose(ws: seq<Worker>, i: nat, w: Worker, current: nat, accepting: set<nat>,
                             abandoned: set<nat>, open: set<nat>, accepted: nat, closed: nat)
    requires Population(ws, current, accepting, abandoned, open, accepted, closed)
    requires i < |ws| && !ws[i].pc.Finished? && w.pc.Finished?
    ensures current > 0
    ensures Population(ws[i := w], current - 1, accepting, abandoned, open - {ws[i].fd}, accepted, closed + 1)
  {
    LiveAfterFinish(ws, i, w);
  }

  lemma PopulationOf(t: Server, ws: seq<Worker>, current: nat, accepting: set<nat>,
                     abandoned: set<nat>, open: set<nat>, accepted: nat, closed: nat)
    requires Population(ws, current, accepting, abandoned, open, accepted, closed)
    requires t.workers == ws && t.current == current && InAccept(t) == accepting
    requires t.abandoned == abandoned && t.descriptors == open && t.accepted == accepted && t.closed == closed
    ensures PopulationOk(t)
  {
  }

  lemma CloseKeepsPopulation(s: Server, i: nat)
    requires PopulationOk(s) && s.current < SIZE_T_MODULUS && Enabled(s, WorkerCloses(i))
    ensures s.current > 0
    ensures PopulationOk(CloseClient(s, i))
  {
    var ws, a := s.workers, InAccept(s);
    var w := ws[i].(pc := Finished, closes := ws[i].closes + 1);
    PopulationAfterClose(ws, i, w, s.current, a, s.abandoned, s.descriptors, s.accepted, s.closed);
    PopulationOf(CloseClient(s, i), ws[i := w], s.current - 1, a, s.abandoned, s.descriptors - {w.fd},
                 s.accepted, s.closed + 1);
  }

  /** checkForMaximumNumberClients keeps, hands on or abandons the descriptor it was given. */
  lemma CheckKeepsPopulation(s: Server, fd: nat)
    requires PopulationOk(s) && InAccept(s) == {fd}
    ensures PopulationOk(CheckMaximum(s, fd))
  {
  }

  lemma AdmitKeepsPopulation(s: Server)
    requires PopulationOk(s) && AcceptorEnabled(s, Admit) && s.current + 1 < SIZE_T_MODULUS
    ensures PopulationOk(ApplyAcceptor(s, Admit))
  {
    var w := NewWorker(s.acceptor.fd);
    PopulationAfterAdmit(s.workers, s.current, w, s.abandoned, s.descriptors, s.accepted, s.closed);
    PopulationOf(ApplyAcceptor(s, Admit), s.workers + [w], s.current + 1, {}, s.abandoned, s.descriptors,
                 s.accepted, s.closed);
  }

  lemma AcceptKeepsPopulation(s: Server, fd: nat)
    requires PopulationOk(s) && AcceptorEnabled(s, Accept(Connection(fd)))
    ensures PopulationOk(ApplyAcceptor(s, Accept(Connection(fd))))
  {
  }

  /** An event that touches none of this leaves the population alone. */
  lemma PopulationUntouched(s: Server, t: Server)
    requires PopulationOk(s)
    requires t.workers == s.workers && t.current == s.current && t.abandoned == s.abandoned
    requires t.descriptors == s.descriptors && t.accepted == s.accepted && t.closed == s.closed
    requires InAccept(t) == InAccept(s)
    ensures PopulationOk(t)
  {
  }

  /** The events in which the server thread goes round its loop, or leaves it, with no descriptor in hand. */
  lemma LoopKeepsPopulation(s: Server, e: AcceptorEvent)
    requires PopulationOk(s) && AcceptorEnabled(s, e)
    requires e.Poll? || (e.Accept? && !e.result.Connection?) || e.AcceptorRaises?
    ensures PopulationOk(ApplyAcceptor(s, e))
  {
    PopulationUntouched(s, ApplyAcceptor(s, e));
  }

  lemma DrainFrame(s: Server, e: AcceptorEvent)
    requires AcceptorEnabled(s, e) && (e.CheckDrained? || e.WakeForDrain? || e.DrainExpires?)
    ensures var t := ApplyAcceptor(s, e);
            && t == s.(isRunning := t.isRunning, acceptor := t.acceptor, stopper := t.stopper,
                       cycle := t.cycle)
            && InAccept(s) == InAccept(t) == {}
  {
  }

  lemma DrainKeepsPopulation(s: Server, e: AcceptorEvent)
    requires PopulationOk(s) && AcceptorEnabled(s, e) && (e.CheckDrained? || e.WakeForDrain? || e.DrainExpires?)
    ensures PopulationOk(ApplyAcceptor(s, e))
  {
    DrainFrame(s, e);
    PopulationUntouched(s, ApplyAcceptor(s, e));
  }

  lemma AcceptorKeepsPopulation(s: Server, e: AcceptorEvent)
    requires PopulationOk(s) && BoundKept(s) && AcceptorEnabled(s, e)
    ensures PopulationOk(ApplyAcceptor(s, e))
  {
    match e {
      case Accept(Connection(fd)) => AcceptKeepsPopulation(s, fd);
      case CheckCapacity => CheckKeepsPopulation(s, s.acceptor.fd);
      case WakeForRoom => CheckKeepsPopulation(s, s.acceptor.fd);
      case Admit => AdmitKeepsPopulation(s);
      case CheckDrained => DrainKeepsPopulation(s, e);
      case WakeForDrain => DrainKeepsPopulation(s, e);
      case DrainExpires => DrainKeepsPopulation(s, e);
      case _ => LoopKeepsPopulation(s, e);
    }
  }

  // ---------------------------------------------------------------- every actor keeps all of it

  lemma ApplicationKeepsInv(s: Server, e: ApplicationEvent)
    requires Inv(s) && ApplicationEnabled(s, e)
    ensures Inv(ApplyApplication(s, e))
  {
    ApplicationKeepsControl(s, e);
    PopulationUntouched(s, ApplyApplication(s, e));
  }

  lemma AcceptorKeepsWorkers(s: Server, e: AcceptorEvent)
    requires WorkersOk(s.workers, s.now) && AcceptorEnabled(s, e)
    ensures WorkersOk(ApplyAcceptor(s, e).workers, ApplyAcceptor(s, e).now)
  {
    match e {
      case Poll(_) =>
      case Accept(_) =>
      case CheckCapacity =>
      case WakeForRoom =>
      case Admit =>
      case AcceptorRaises(_) =>
      case CheckDrained =>
      case WakeForDrain =>
      case DrainExpires =>
    }
  }

  lemma AcceptorKeepsInv(s: Server, e: AcceptorEvent)
    requires Inv(s) && AcceptorEnabled(s, e)
    ensures Inv(ApplyAcceptor(s, e))
  {
    AcceptorKeepsControl(s, e);
    AcceptorKeepsPopulation(s, e);
    AcceptorKeepsWorkers(s, e);
  }

  lemma StopperKeepsInv(s: Server, e: StopperEvent)
    requires Inv(s) && StopperEnabled(s, e)
    ensures Inv(ApplyStopper(s, e))
  {
    StopperKeepsControl(s, e);
    PopulationUntouched(s, ApplyStopper(s, e));
  }

  /** A system call of a worker, or its peer, changes nothing but that worker. */
  lemma WorkerKeepsInv(s: Server, i: nat, w: Worker)
    requires Inv(s) && i < |s.workers| && WorkerOk(w, s.now)
    requires (w.pc.Finished? <==> s.workers[i].pc.Finished?) && w.fd == s.workers[i].fd
    ensures Inv(SetWorker(s, i, w))
  {
    LiveAfterCall(s.workers, i, w);
  }

  lemma CloseKeepsWorkers(s: Server, i: nat)
    requires WorkersOk(s.workers, s.now) && Enabled(s, WorkerCloses(i))
    ensures WorkersOk(CloseClient(s, i).workers, s.now)
  {
  }

  lemma CloseKeepsInv(s: Server, i: nat)
    requires Inv(s) && Enabled(s, WorkerCloses(i))
    ensures Inv(CloseClient(s, i))
  {
    CloseKeepsPopulation(s, i);
    CloseKeepsControl(s, i);
    CloseKeepsWorkers(s, i);
  }

  lemma CallKeepsInv(s: Server, i: nat, c: WorkerCall)
    requires Inv(s) && Enabled(s, WorkerCalls(i, c))
    ensures Inv(Apply(s, WorkerCalls(i, c)))
  {
    WorkerStaysOk(s.workers[i], c, s.pipe > 0, s.now);
    WorkerKeepsInv(s, i, WorkerApply(s.workers[i], c, s.pipe > 0, s.now));
  }

  lemma PeerKeepsInv(s: Server, i: nat, e: PeerEvent)
    requires Inv(s) && Enabled(s, ByPeer(i, e))
    ensures Inv(Apply(s, ByPeer(i, e)))
  {
    WorkerKeepsInv(s, i, ApplyPeer(s.workers[i], e));
  }

  lemma TickKeepsInv(s: Server)
    requires Inv(s)
    ensures Inv(Apply(s, Tick))
  {
  }

  lemma StepKeepsInv(s: Server, e: Event)
    requires Inv(s) && Enabled(s, e)
    ensures Inv(Apply(s, e))
  {
    match e {
      case ByApplication(a) => ApplicationKeepsInv(s, a);
      case ByAcceptor(a) => AcceptorKeepsInv(s, a);
      case ByStopper(a) => StopperKeepsInv(s, a);
      case WorkerCalls(i, c) => CallKeepsInv(s, i, c);
      case WorkerCloses(i) => CloseKeepsInv(s, i);
      case ByPeer(i, a) => PeerKeepsInv(s, i, a);
      case Tick => TickKeepsInv(s);
    }
  }

  // ---------------------------------------------------------------- what an event leaves as it was

  /** Quit, an expired drain and a pipe fault are not taken back. */
  ghost predicate RaisedStays(s: Server, t: Server) {
    && (s.quit ==> t.quit)
    && (s.cycle.drainExpired ==> t.cycle.drainExpired)
    && (s.cycle.pipeFault ==> t.cycle.pipeFault)
  }

  lemma AcceptorFrame(s: Server, e: AcceptorEvent)
    requires AcceptorEnabled(s, e)
    ensures var t := ApplyAcceptor(s, e);
            && t.workers == s.workers + (if e.Admit? then [NewWorker(s.acceptor.fd)] else [])
            && t.current == (if e.Admit? then (s.current + 1) % SIZE_T_MODULUS else s.current)
            && t.max == s.max && t.now == s.now
            && RaisedStays(s, t)
  {
    match e {
      case Poll(_) =>
      case Accept(_) =>
      case CheckCapacity =>
      case WakeForRoom =>
      case Admit =>
      case AcceptorRaises(_) =>
      case CheckDrained =>
      case WakeForDrain =>
      case DrainExpires =>
    }
  }

  lemma StopperFrame(s: Server, e: StopperEvent)
    requires StopperEnabled(s, e)
    ensures var t := ApplyStopper(s, e);
            && t.workers == s.workers && t.current == s.current && t.max == s.max && t.now == s.now
            && RaisedStays(s, t)
  {
  }

  /** The event is one of worker `i`, or of its peer. */
  predicate Concerns(e: Event, i: nat) {
    (e.WorkerCalls? || e.WorkerCloses? || e.ByPeer?) && e.i == i
  }

  /** The bound never changes, and within a cycle what has gone wrong stays so. */
  lemma Frame(s: Server, e: Event)
    requires Enabled(s, e)
    ensures var t := Apply(s, e);
            && t.max == s.max
            && (!e.ByApplication? ==> RaisedStays(s, t))
  {
    match e {
      case ByAcceptor(a) => AcceptorFrame(s, a);
      case ByStopper(a) => StopperFrame(s, a);
      case _ =>
    }
  }

  /** A worker is changed by its own calls and by its peer, and by nothing else. */
  lemma OtherWorkersKept(s: Server, e: Event, i: nat)
    requires Enabled(s, e) && i < |s.workers| && !Concerns(e, i)
    ensures i < |Apply(s, e).workers| && Apply(s, e).workers[i] == s.workers[i]
  {
    match e {
      case ByAcceptor(a) => AcceptorFrame(s, a);
      case ByStopper(a) => StopperFrame(s, a);
      case _ =>
    }
  }

  /** A worker that an event brings about is new. */
  lemma NewWorkersAreNew(s: Server, e: Event, i: nat)
    requires Enabled(s, e) && |s.workers| <= i < |Apply(s, e).workers|
    ensures e == ByAcceptor(Admit) && i == |s.workers| && s.acceptor.Admitting?
    ensures Apply(s, e).workers[i] == NewWorker(s.acceptor.fd)
  {
    match e {
      case ByAcceptor(a) => AcceptorFrame(s, a);
      case ByStopper(a) => StopperFrame(s, a);
      case _ =>
    }
  }

  /** With quit raised and no client given up, the byte is there for as long as a worker is. */
  lemma ByteThereForWorkers(s: Server, i: nat)
    requires ControlOk(s) && s.current == |LiveWorkers(s.workers)|
    requires s.quit && !s.cycle.drainExpired && !s.cycle.pipeFault && i in LiveWorkers(s.workers)
    ensures s.pipe > 0 && !s.stopper.Stopped?
  {
  }

  lemma ConstructedIsSound(max: nat)
    requires max < SIZE_T_MODULUS
    ensures Inv(Constructed(max))
  {
  }

  /** Every state that a run reaches, from any sound state. */
  lemma {:induction false} RunKeepsInv(s: Server, es: seq<Event>)
    requires Inv(s) && IsRun(s, es)
    ensures Inv(After(s, es))
    decreases |es|
  {
    if es != [] {
      StepKeepsInv(s, es[0]);
      RunKeepsInv(Apply(s, es[0]), es[1..]);
    }
  }
}
