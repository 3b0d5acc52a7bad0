/**
 The server as a transition system. Every critical section of `mutex_` is one event, and so is every system call
 made outside it; the answer of a system call is part of the event. A run is any sequence of enabled events, so
 the acceptor, the stopper and any number of workers interleave in every possible way.
 */
module ServerProtocol {
  import opened Bytes
  import opened Common
  import opened Worker

  /** The thread of `Server::run`. */
  datatype AcceptorPc =
    | Polling                              // in the select of run
    | Accepting                            // about to call accept4
    | Checking(fd: nat)                    // about to lock in checkForMaximumNumberClients
    | Parked(fd: nat, notified: bool)      // waiting there for room or quit
    | Admitting(fd: nat)                   // the lock released, about to lock again and spawn the worker
    | Quitting                             // about to call quitRunningThread
    | Draining                             // about to lock in waitForClientsToFinish
    | DrainParked(notified: bool)          // waiting there for the last client, with a time limit
    | Exited                               // there is no such thread

  /** The thread that calls `Server::start` and `Server::stop`. */
  datatype StopperPc =
    | Idle                                 // the server is started
    | Raising                              // in stop, about to call quitRunningThread
    | Awaiting                             // about to lock in waitForRunningThread
    | AwaitParked(notified: bool)          // waiting there for the running thread, with a time limit
    | Consuming                            // in consumePipe, with the lock held
    | Joining                              // about to join the thread and close the descriptors
    | Stopped                              // the server is not started

  /**
   What has happened in the cycle since the last start: how many clients were admitted and descriptors abandoned with
   quit raised; whether the server thread gave up waiting for a client, whether stop gave up waiting for the server
   thread, and whether a call on the pipe failed.
   */
  datatype Cycle = Cycle(late: nat, dropped: nat, drainExpired: bool, exitExpired: bool, pipeFault: bool)

  const NEW_CYCLE := Cycle(0, 0, false, false, false)

  /**
   `current` is a `size_t`. `pipe` is the number of bytes in the pipe, `descriptors` the open descriptors that
   accept4 returned, `now` the clock. The rest is history: `accepted` and `closed` count descriptors, `abandoned`
   are those that doAccept returned without closing.
   */
  datatype Server = Server(
    max: nat,
    current: nat,
    isRunning: bool,
    quit: bool,
    pipe: nat,
    acceptor: AcceptorPc,
    stopper: StopperPc,
    workers: seq<Worker>,
    descriptors: set<nat>,
    now: int,
    accepted: nat,
    closed: nat,
    abandoned: set<nat>,
    cycle: Cycle)

  datatype AcceptResult = Connection(fd: nat) | TooManyFiles | AcceptFailed

  datatype ApplicationEvent =
    | StartServer(ok: bool)
    | CallStop

  datatype AcceptorEvent =
    | Poll(r: Selected)
    | Accept(result: AcceptResult)
    | CheckCapacity
    | WakeForRoom
    | Admit
    | AcceptorRaises(written: bool)
    | CheckDrained
    | WakeForDrain
    | DrainExpires

  datatype StopperEvent =
    | StopperRaises(written: bool)
    | CheckExited
    | WakeForExit
    | ExitExpires
    | Consume(answer: ReadResult)
    | Join

  datatype Event =
    | ByApplication(application: ApplicationEvent)
    | ByAcceptor(acceptor: AcceptorEvent)
    | ByStopper(stopper: StopperEvent)
    | WorkerCalls(i: nat, call: WorkerCall)
    | WorkerCloses(i: nat)
    | ByPeer(i: nat, peer: PeerEvent)
    | Tick

  function Constructed(max: nat): Server {
    Server(max, 0, false, true, 0, Exited, Stopped, [], {}, 0, 0, 0, {}, NEW_CYCLE)
  }

  predicate MutexFree(s: Server) {
    !s.stopper.Consuming?
  }

  function LiveWorkers(ws: seq<Worker>): set<nat> {
    set i: nat | i < |ws| && !ws[i].pc.Finished?
  }

  // The three conditions that threads wait for on `clientsCV_`.

  predicate RoomOrQuit(s: Server) {
    s.current < s.max || s.quit
  }

  predicate NoClients(s: Server) {
    s.current == 0
  }

  predicate ThreadExited(s: Server) {
    !s.isRunning
  }

  /** `clientsCV_.notify_all()`. */
  function NotifyAll(s: Server): (t: Server)
    ensures t == s.(acceptor := t.acceptor, stopper := t.stopper)
  {
    s.(acceptor := match s.acceptor
                   case Parked(fd, _) => Parked(fd, true)
                   case DrainParked(_) => DrainParked(true)
                   case other => other,
       stopper := if s.stopper.AwaitParked? then AwaitParked(true) else s.stopper)
  }

  /** `quitRunningThread`. */
  function Raise(s: Server, written: bool): (t: Server)
    ensures t == s.(pipe := t.pipe, cycle := t.cycle, quit := true, acceptor := t.acceptor, stopper := t.stopper)
  {
    NotifyAll(s.(pipe := if written then s.pipe + 1 else s.pipe,
                 cycle := s.cycle.(pipeFault := s.cycle.pipeFault || !written),
                 quit := true))
  }

  /** `checkForMaximumNumberClients` with the lock held, up to the wait or to the return into doAccept. */
  function CheckMaximum(s: Server, fd: nat): Server {
    if !RoomOrQuit(s) then s.(acceptor := Parked(fd, false))
    else if s.quit then s.(acceptor := Quitting, abandoned := s.abandoned + {fd},
                           cycle := s.cycle.(dropped := s.cycle.dropped + 1))
    else s.(acceptor := Admitting(fd))
  }

  /** The end of `waitForClientsToFinish`. */
  function ExitThread(s: Server): (t: Server)
    ensures t == s.(isRunning := false, acceptor := Exited, stopper := t.stopper)
  {
    NotifyAll(s.(isRunning := false, acceptor := Exited))
  }

  /** The same with the time over and clients left. */
  function GiveUpClients(s: Server): Server {
    ExitThread(s.(cycle := s.cycle.(drainExpired := true)))
  }

  function CheckNoClients(s: Server): Server {
    if NoClients(s) then ExitThread(s) else s.(acceptor := DrainParked(false))
  }

  /** The wait of `waitForRunningThread`. */
  function CheckThread(s: Server): Server {
    if ThreadExited(s) then s.(stopper := Consuming) else s.(stopper := AwaitParked(false))
  }

  /** `closeClientAndNotify` of worker `i`. */
  function CloseClient(s: Server, i: nat): Server
    requires i < |s.workers|
  {
    var w := s.workers[i];
    NotifyAll(s.(workers := s.workers[i := w.(pc := Finished, closes := w.closes + 1)],
                 descriptors := s.descriptors - {w.fd},
                 closed := s.closed + 1,
                 current := (s.current + SIZE_T_MODULUS - 1) % SIZE_T_MODULUS))
  }

  predicate ApplicationEnabled(s: Server, e: ApplicationEvent) {
    match e
    case StartServer(_) => s.stopper.Stopped? && LiveWorkers(s.workers) == {}
    case CallStop => s.stopper.Idle?
  }

  function ApplyApplication(s: Server, e: ApplicationEvent): Server
    requires ApplicationEnabled(s, e)
  {
    match e
    case StartServer(ok) =>
      if !ok then s
      else s.(isRunning := true, quit := false, pipe := 0, acceptor := Polling, stopper := Idle, cycle := NEW_CYCLE)
    case CallStop => s.(stopper := Raising)
  }

  predicate AcceptorEnabled(s: Server, e: AcceptorEvent) {
    match e
    case Poll(r) => s.acceptor.Polling? && !r.Expired? && (r.Ready? ==> SelectAllows(r, s.pipe > 0, r.socket, false))
    case Accept(r) => s.acceptor.Accepting? && (r.Connection? ==> r.fd !in s.descriptors)
    case CheckCapacity => s.acceptor.Checking? && MutexFree(s)
    case WakeForRoom => s.acceptor.Parked? && MutexFree(s)
    case Admit => s.acceptor.Admitting? && MutexFree(s)
    case AcceptorRaises(_) => s.acceptor.Quitting? && MutexFree(s)
    case CheckDrained => s.acceptor.Draining? && MutexFree(s)
    case WakeForDrain => s.acceptor.DrainParked? && MutexFree(s)
    case DrainExpires => s.acceptor.DrainParked? && MutexFree(s)
  }

  function ApplyAcceptor(s: Server, e: AcceptorEvent): Server
    requires AcceptorEnabled(s, e)
  {
    match e
    case Poll(r) =>
      if !r.Ready? || r.pipe then s.(acceptor := Quitting)
      else if r.socket then s.(acceptor := Accepting)
      else s
    case Accept(r) =>
      (match r
       case Connection(fd) =>
         s.(acceptor := Checking(fd), descriptors := s.descriptors + {fd}, accepted := s.accepted + 1)
       case TooManyFiles => s.(acceptor := Polling)
       case AcceptFailed => s.(acceptor := Quitting))
    case CheckCapacity => CheckMaximum(s, s.acceptor.fd)
    case WakeForRoom => CheckMaximum(s, s.acceptor.fd)
    case Admit =>
      s.(current := (s.current + 1) % SIZE_T_MODULUS,
         workers := s.workers + [NewWorker(s.acceptor.fd)],
         acceptor := Polling,
         cycle := if s.quit then s.cycle.(late := s.cycle.late + 1) else s.cycle)
    case AcceptorRaises(written) => Raise(s, written).(acceptor := Draining)
    case CheckDrained => CheckNoClients(s)
    case WakeForDrain => CheckNoClients(s)
    case DrainExpires => if NoClients(s) then ExitThread(s) else GiveUpClients(s)
  }

  predicate StopperEnabled(s: Server, e: StopperEvent) {
    match e
    case StopperRaises(_) => s.stopper.Raising?
    case CheckExited => s.stopper.Awaiting?
    case WakeForExit => s.stopper.AwaitParked?
    case ExitExpires => s.stopper.AwaitParked?
    case Consume(r) => && s.stopper.Consuming?
                       && (r.Data? ==> |r.bytes| == 1 && s.pipe > 0)
                       && (r.WouldBlock? ==> s.pipe == 0)
                       && !r.EndOfStream?
    case Join => s.stopper.Joining? && s.acceptor.Exited?
  }

  function ApplyStopper(s: Server, e: StopperEvent): Server
    requires StopperEnabled(s, e)
  {
    match e
    case StopperRaises(written) => Raise(s, written).(stopper := Awaiting)
    case CheckExited => CheckThread(s)
    case WakeForExit => CheckThread(s)
    case ExitExpires =>
      if ThreadExited(s) then s.(stopper := Consuming)
      else s.(stopper := Joining, cycle := s.cycle.(exitExpired := true))
    case Consume(r) =>
      (match r
       case Data(_) => s.(pipe := s.pipe - 1)
       case WouldBlock => s.(stopper := Joining)
       case _ => s.(stopper := Joining, cycle := s.cycle.(pipeFault := true)))
    case Join => s.(stopper := Stopped)
  }

  function ApplyPeer(w: Worker, e: PeerEvent): Worker {
    w.(inbox := w.inbox.After(e), writable := w.writable || e.PeerDrains?)
  }

  function SetWorker(s: Server, i: nat, w: Worker): Server
    requires i < |s.workers|
  {
    s.(workers := s.workers[i := w])
  }

  predicate Enabled(s: Server, e: Event) {
    match e
    case ByApplication(a) => ApplicationEnabled(s, a)
    case ByAcceptor(a) => AcceptorEnabled(s, a)
    case ByStopper(a) => StopperEnabled(s, a)
    case WorkerCalls(i, c) => i < |s.workers| && WorkerEnabled(s.workers[i], c, s.pipe > 0, s.now)
    case WorkerCloses(i) => i < |s.workers| && s.workers[i].pc.Closing? && MutexFree(s)
    case ByPeer(i, a) => i < |s.workers| && s.workers[i].inbox.Admits(a)
    case Tick => true
  }

  function Apply(s: Server, e: Event): Server
    requires Enabled(s, e)
  {
    match e
    case ByApplication(a) => ApplyApplication(s, a)
    case ByAcceptor(a) => ApplyAcceptor(s, a)
    case ByStopper(a) => ApplyStopper(s, a)
    case WorkerCalls(i, c) => SetWorker(s, i, WorkerApply(s.workers[i], c, s.pipe > 0, s.now))
    case WorkerCloses(i) => CloseClient(s, i)
    case ByPeer(i, a) => SetWorker(s, i, ApplyPeer(s.workers[i], a))
    case Tick => s.(now := s.now + 1)
  }

  ghost predicate IsRun(s: Server, es: seq<Event>)
    decreases |es|
  {
    es == [] || (Enabled(s, es[0]) && IsRun(Apply(s, es[0]), es[1..]))
  }

  ghost function After(s: Server, es: seq<Event>): Server
    requires IsRun(s, es)
    decreases |es|
  {
    if es == [] then s else After(Apply(s, es[0]), es[1..])
  }

  /** The state before step `k` of a run. */
  ghost function At(s: Server, es: seq<Event>, k: nat): Server
    requires IsRun(s, es) && k <= |es|
    decreases k
  {
    if k == 0 then s else At(Apply(s, es[0]), es[1..], k - 1)
  }

  /** A run begins with an event and goes on from there. */
  lemma RunBegins(s: Server, e: Event, rest: seq<Event>)
    requires Enabled(s, e) && IsRun(Apply(s, e), rest)
    ensures IsRun(s, [e] + rest) && After(s, [e] + rest) == After(Apply(s, e), rest)
  {
    assert ([e] + rest)[1..] == rest;
  }

  /** A run goes on with one more event. */
  lemma {:induction false} Then(s: Server, es: seq<Event>, e: Event) returns (longer: seq<Event>)
    requires IsRun(s, es) && Enabled(After(s, es), e)
    ensures longer == es + [e]
    ensures IsRun(s, longer) && After(s, longer) == Apply(After(s, es), e)
    decreases |es|
  {
    longer := es + [e];
    if es == [] {
      assert longer[1..] == [];
    } else {
      var rest := Then(Apply(s, es[0]), es[1..], e);
      assert longer[1..] == rest;
    }
  }

  /** Two runs, one after the other, are a run. */
  lemma {:induction false} RunsCompose(s: Server, first: seq<Event>, second: seq<Event>)
    requires IsRun(s, first) && IsRun(After(s, first), second)
    ensures IsRun(s, first + second) && After(s, first + second) == After(After(s, first), second)
    decreases |first|
  {
    if first == [] {
      assert first + second == second;
    } else {
      RunsCompose(Apply(s, first[0]), first[1..], second);
      assert (first + second)[1..] == first[1..] + second;
    }
  }

  /** A state in which some run has taken the server since it was constructed. */
  ghost predicate Reachable(s: Server) {
    s.max < SIZE_T_MODULUS && exists es :: IsRun(Constructed(s.max), es) && After(Constructed(s.max), es) == s
  }

  lemma ConstructedIsReachable(max: nat)
    requires max < SIZE_T_MODULUS
    ensures Reachable(Constructed(max))
  {
    assert IsRun(Constructed(max), []);
  }

  lemma StepStaysReachable(s: Server, e: Event)
    requires Reachable(s) && Enabled(s, e) && Apply(s, e).max == s.max
    ensures Reachable(Apply(s, e))
  {
    var es :| IsRun(Constructed(s.max), es) && After(Constructed(s.max), es) == s;
    var longer := Then(Constructed(s.max), es, e);
  }
}
