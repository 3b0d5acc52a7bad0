/** The guarantees of the server, stated of every state that a run from its construction can reach. */
module ServerTheorems {
  import opened Bytes
  import opened Common
  import opened Worker
  import opened ServerProtocol
  import opened ServerInvariants

  lemma {:induction false} MaxStays(s: Server, es: seq<Event>)
    requires IsRun(s, es)
    ensures After(s, es).max == s.max
    decreases |es|
  {
    if es != [] {
      Frame(s, es[0]);
      MaxStays(Apply(s, es[0]), es[1..]);
    }
  }

  lemma Reached(s: Server)
    requires Reachable(s)
    ensures Inv(s)
  {
    var es :| IsRun(Constructed(s.max), es) && After(Constructed(s.max), es) == s;
    ConstructedIsSound(s.max);
    RunKeepsInv(Constructed(s.max), es);
  }

  /** Whatever any thread does, the server stays in the reachable states. */
  lemma StaysReachable(s: Server, e: Event)
    requires Reachable(s) && Enabled(s, e)
    ensures Reachable(Apply(s, e))
  {
    Frame(s, e);
    StepStaysReachable(s, e);
  }

  /** The counter is exact and within its bound, whether waits expire or not and for every bound, 0 included. */
  lemma CounterIsExact(s: Server)
    requires Reachable(s)
    ensures s.current == |LiveWorkers(s.workers)| <= s.max
  {
    Reached(s);
  }

  lemma CounterStep(s: Server, e: Event)
    requires BoundKept(s) && Enabled(s, e) && (e.WorkerCloses? ==> s.current > 0)
    ensures Apply(s, e).current == match e
                                   case ByAcceptor(Admit) => s.current + 1
                                   case WorkerCloses(_) => s.current - 1
                                   case _ => s.current
  {
    match e {
      case ByAcceptor(a) => AcceptorFrame(s, a);
      case ByStopper(a) => StopperFrame(s, a);
      case _ =>
    }
  }

  /** Neither `currentNumberClients_++` nor `currentNumberClients_--` ever wraps around. */
  lemma CounterNeverWraps(s: Server, e: Event)
    requires Reachable(s) && Enabled(s, e)
    ensures Apply(s, e).current == match e
                                   case ByAcceptor(Admit) => s.current + 1
                                   case WorkerCloses(_) => s.current - 1
                                   case _ => s.current
  {
    Reached(s);
    if e.WorkerCloses? {
      CloseKeepsPopulation(s, e.i);
    }
    CounterStep(s, e);
  }

  /** Admitting a client there is still room for it; and with quit raised it is the first one in this cycle. */
  lemma AdmitCounts(s: Server)
    requires Reachable(s) && AcceptorEnabled(s, Admit)
    ensures var t := ApplyAcceptor(s, Admit);
            t.current == s.current + 1 <= s.max && (s.quit ==> s.cycle.late == 0 && t.cycle.late == 1)
  {
    assert BoundKept(s) && LateBounded(s) by {
      Reached(s);
    }
  }

  /** Whenever any thread could lock the mutex, nobody sleeps through a condition that is true. */
  lemma NoWakeupIsLost(s: Server)
    requires Reachable(s)
    ensures s.acceptor.Parked? && (s.current < s.max || s.quit) ==> s.acceptor.notified
    ensures s.acceptor.DrainParked? && s.current == 0 ==> s.acceptor.notified
    ensures s.stopper.AwaitParked? && !s.isRunning ==> s.stopper.notified
  {
    Reached(s);
  }

  /**
   No quit is lost. The pipe holds a byte from the moment quit is raised until the drain begins, and as long as there
   is an acceptor, whichever waits expire. Unless the server thread itself gave a client up, it holds one as long as a
   worker is left, and when the drain begins there is none, nor an acceptor to admit one.
   */
  lemma NoQuitIsLost(s: Server)
    requires Reachable(s) && !s.cycle.pipeFault
    ensures s.quit && (s.stopper.Idle? || s.stopper.Raising? || s.stopper.Awaiting? || s.stopper.AwaitParked?)
            ==> s.pipe > 0
    ensures s.quit && !s.acceptor.Exited? ==> s.pipe > 0
    ensures s.quit && LiveWorkers(s.workers) != {} && !s.cycle.drainExpired ==> s.pipe > 0
    ensures s.stopper.Consuming? ==> s.acceptor.Exited? && (!s.cycle.drainExpired ==> LiveWorkers(s.workers) == {})
  {
    Reached(s);
    if i: nat :| i in LiveWorkers(s.workers) && s.quit && !s.cycle.drainExpired {
      ByteThereForWorkers(s, i);
    }
  }

  /** So every select that watches the pipe sees it: after quit such a worker can only be told to close. */
  lemma QuitReachesWorkers(s: Server, i: nat, c: WorkerCall)
    requires Reachable(s) && !s.cycle.drainExpired && !s.cycle.pipeFault && s.quit
    requires Enabled(s, WorkerCalls(i, c)) && (c.SelectMessage? || c.SelectSleep?)
    ensures Apply(s, WorkerCalls(i, c)).workers[i].pc == Closing
  {
    assert i in LiveWorkers(s.workers);
    NoQuitIsLost(s);
  }

  /** And so does the select of the server thread, whichever waits expire: it can then only leave its loop. */
  lemma QuitReachesAcceptor(s: Server, r: Selected)
    requires Reachable(s) && !s.cycle.pipeFault && s.quit
    requires AcceptorEnabled(s, Poll(r))
    ensures ApplyAcceptor(s, Poll(r)).acceptor == Quitting
  {
    NoQuitIsLost(s);
  }

  /**
   After quit at most one client is admitted and at most one descriptor abandoned in a cycle, and unless a call on
   the pipe failed not both; at most two bytes are written.
   */
  lemma LateEffectsAreBounded(s: Server)
    requires Reachable(s)
    ensures s.cycle.late <= 1 && s.cycle.dropped <= 1 && (!s.cycle.pipeFault ==> s.cycle.late + s.cycle.dropped <= 1)
    ensures !s.quit ==> s.cycle.late + s.cycle.dropped == 0
    ensures s.pipe <= 2
  {
    Reached(s);
  }

  ghost predicate DistinctlyHeld(ws: seq<Worker>) {
    forall i, j :: 0 <= i < j < |ws| && !ws[i].pc.Finished? && !ws[j].pc.Finished? ==> ws[i].fd != ws[j].fd
  }

  ghost function HeldByWorkers(ws: seq<Worker>): set<nat> {
    set i | i in LiveWorkers(ws) :: ws[i].fd
  }

  lemma LiveAndHeldWithLast(rest: seq<Worker>, last: Worker)
    requires DistinctlyHeld(rest + [last])
    ensures DistinctlyHeld(rest)
    ensures last.pc.Finished? ==>
              && LiveWorkers(rest + [last]) == LiveWorkers(rest)
              && HeldByWorkers(rest + [last]) == HeldByWorkers(rest)
    ensures !last.pc.Finished? ==>
              && LiveWorkers(rest + [last]) == LiveWorkers(rest) + {|rest|}
              && HeldByWorkers(rest + [last]) == HeldByWorkers(rest) + {last.fd}
              && last.fd !in HeldByWorkers(rest)
  {
    var ws := rest + [last];
    assert forall i :: 0 <= i < |rest| ==> ws[i] == rest[i];
    assert ws[|rest|] == last;
  }

  lemma {:induction false} DistinctDescriptors(ws: seq<Worker>)
    requires DistinctlyHeld(ws)
    ensures |HeldByWorkers(ws)| == |LiveWorkers(ws)|
  {
    if ws != [] {
      var rest, last := ws[..|ws| - 1], ws[|ws| - 1];
      assert ws == rest + [last];
      LiveAndHeldWithLast(rest, last);
      DistinctDescriptors(rest);
    }
  }

  lemma {:induction false} SubsetIsSmaller(a: set<nat>, b: set<nat>)
    requires a <= b
    ensures |a| <= |b|
  {
    if a != {} {
      var n :| n in a;
      SubsetIsSmaller(a - {n}, b - {n});
    }
  }

  lemma UnionIsAll(held: set<nat>, accepting: set<nat>, abandoned: set<nat>, open: set<nat>)
    requires held + accepting + abandoned <= open && held !! accepting !! abandoned
    requires |open| == |held| + |accepting| + |abandoned|
    ensures open == held + accepting + abandoned
  {
    var owned := held + accepting + abandoned;
    assert |held + accepting| == |held| + |accepting|;
    assert |owned| == |open|;
    forall fd | fd in open ensures fd in owned {
      if fd !in owned {
        assert owned <= open - {fd};
        SubsetIsSmaller(owned, open - {fd});
      }
    }
  }

  /**
   Descriptors are conserved. Those open are exactly the ones that live workers hold, one each and no two the
   same, the one inside doAccept, and the abandoned; every other descriptor accepted has been closed.
   */
  lemma DescriptorsAreConserved(s: Server)
    requires Reachable(s)
    ensures s.descriptors == HeldByWorkers(s.workers) + InAccept(s) + s.abandoned
    ensures HeldByWorkers(s.workers) !! InAccept(s) !! s.abandoned
    ensures |HeldByWorkers(s.workers)| == |LiveWorkers(s.workers)|
    ensures s.accepted == |LiveWorkers(s.workers)| + |InAccept(s)| + |s.abandoned| + s.closed
  {
    Reached(s);
    DistinctDescriptors(s.workers);
    UnionIsAll(HeldByWorkers(s.workers), InAccept(s), s.abandoned, s.descriptors);
  }

  /** A worker closes its descriptor once, when it finishes; a worker not finished has not closed it. */
  lemma EachWorkerClosesOnce(s: Server, i: nat)
    requires Reachable(s) && i < |s.workers|
    ensures s.workers[i].closes == (if s.workers[i].pc.Finished? then 1 else 0)
    ensures !s.workers[i].pc.Finished? ==> s.workers[i].fd in s.descriptors
  {
    Reached(s);
    assert WorkerOk(s.workers[i], s.now);
  }

  lemma WorkersHoldOpenDescriptors(s: Server)
    requires Reachable(s)
    ensures forall i :: 0 <= i < |s.workers| ==>
              && s.workers[i].closes == (if s.workers[i].pc.Finished? then 1 else 0)
              && (!s.workers[i].pc.Finished? ==> s.workers[i].fd in s.descriptors)
  {
    forall i | 0 <= i < |s.workers|
      ensures s.workers[i].closes == (if s.workers[i].pc.Finished? then 1 else 0)
      ensures !s.workers[i].pc.Finished? ==> s.workers[i].fd in s.descriptors
    {
      EachWorkerClosesOnce(s, i);
    }
  }

  /** checkForMaximumNumberClients on entry and after each wakeup. */
  lemma CheckStaysReachable(s: Server)
    requires Reachable(s) && (s.acceptor.Checking? || s.acceptor.Parked?) && MutexFree(s)
    ensures Reachable(CheckMaximum(s, s.acceptor.fd))
  {
    StaysReachable(s, ByAcceptor(if s.acceptor.Checking? then CheckCapacity else WakeForRoom));
  }

  /**
   What it decides: the descriptor is handed on exactly if there is room and no quit, the thread sleeps exactly if the
   server is full and there is none, and leaves its loop exactly if there is.
   */
  lemma CheckDecides(s: Server)
    requires Reachable(s) && (s.acceptor.Checking? || s.acceptor.Parked?)
    ensures var t := CheckMaximum(s, s.acceptor.fd);
            && (t.acceptor == Admitting(s.acceptor.fd) <==> s.current < s.max && !s.quit)
            && (t.acceptor == Parked(s.acceptor.fd, false) <==> s.current == s.max && !s.quit)
            && (t.acceptor == Quitting <==> s.quit)
            && (t.acceptor.Admitting? || t.acceptor.Parked? || t.acceptor.Quitting?)
            && t.abandoned == s.abandoned + if s.quit then {s.acceptor.fd} else {}
  {
    CounterIsExact(s);
  }

  /** waitForClientsToFinish on entry, after each wakeup, and with its time over. */
  function AfterWaitForClients(s: Server, timeUp: bool): Server {
    if timeUp && !NoClients(s) then GiveUpClients(s) else CheckNoClients(s)
  }

  /** What it decides: the thread goes on exactly if its time is over or no worker is left, and wakes the stopper. */
  lemma WaitDecides(s: Server, timeUp: bool)
    requires Reachable(s)
    ensures NoClients(s) <==> LiveWorkers(s.workers) == {}
    ensures var t := AfterWaitForClients(s, timeUp);
            && (t.acceptor.Exited? <==> timeUp || LiveWorkers(s.workers) == {})
            && (t.acceptor.Exited? ==> !t.isRunning && (t.stopper.AwaitParked? ==> t.stopper.notified))
            && (t.cycle.drainExpired ==> s.cycle.drainExpired || (timeUp && LiveWorkers(s.workers) != {}))
  {
    CounterIsExact(s);
  }

  lemma DrainingStaysReachable(s: Server, timeUp: bool)
    requires Reachable(s) && MutexFree(s) && (s.acceptor.DrainParked? || (s.acceptor.Draining? && !timeUp))
    ensures Reachable(AfterWaitForClients(s, timeUp))
  {
    StaysReachable(s, ByAcceptor(if timeUp then DrainExpires
                                 else if s.acceptor.Draining? then CheckDrained else WakeForDrain));
  }

  /** Closing takes exactly one client off the count, and one open descriptor that is no other worker's. */
  lemma CloseCounts(s: Server, i: nat)
    requires Reachable(s) && Enabled(s, WorkerCloses(i))
    ensures var t := CloseClient(s, i);
            && t.current == s.current - 1
            && s.workers[i].fd in s.descriptors && t.workers[i].closes == 1
            && forall j :: 0 <= j < |t.workers| && !t.workers[j].pc.Finished? ==> t.workers[j].fd in t.descriptors
  {
    CounterNeverWraps(s, WorkerCloses(i));
    WorkersHoldOpenDescriptors(s);
    StaysReachable(s, WorkerCloses(i));
    WorkersHoldOpenDescriptors(CloseClient(s, i));
  }

  /** The drain of the pipe after a stop, down to `left` bytes, in as many steps as it takes. */
  lemma {:induction false} DrainStaysReachable(s: Server, left: nat, drained: bool)
    requires Reachable(s) && s.stopper.Consuming? && left <= s.pipe && (drained ==> left == 0)
    ensures Reachable(s.(pipe := left, stopper := Joining,
                         cycle := s.cycle.(pipeFault := s.cycle.pipeFault || !drained)))
    decreases s.pipe
  {
    var e := ByStopper(Consume(if left < s.pipe then Data([48]) else if drained then WouldBlock else ReadFailed));
    StaysReachable(s, e);
    if left < s.pipe {
      DrainStaysReachable(Apply(s, e), left, drained);
    }
  }

  /**
   A worker stores bytes behind its buffer exactly if it reads more than a block. So none does whose peer has sent
   no more than that, however its bytes are cut.
   */
  lemma OnlyLongMessagesOverrun(s: Server, i: nat)
    requires Reachable(s) && i < |s.workers|
    ensures s.workers[i].overrun <==> |s.workers[i].received| > BUFFER_SIZE
    ensures |s.workers[i].received| + |s.workers[i].inbox.bytes| <= BUFFER_SIZE ==> !s.workers[i].overrun
  {
    Reached(s);
    assert WorkerOk(s.workers[i], s.now);
  }

  /** The fields of the object that outlive a cycle. */
  datatype Fields = Fields(maxNumberClients: nat, currentNumberClients: nat, isRunning: bool, quitSignal: bool)

  function FieldsOf(s: Server): Fields {
    Fields(s.max, s.current, s.isRunning, s.quit)
  }

  /**
   A cycle leaves no trace. Whenever the server is stopped, after any number of cycles, its fields are those it was
   constructed with exactly if no worker is left, and none is left unless the server thread gave one up. The pipe was
   empty when it was closed, unless stop gave up waiting for the thread: then both bytes were still in it.
   */
  lemma LifecycleCloses(s: Server)
    requires Reachable(s) && s.stopper.Stopped?
    ensures FieldsOf(s) == FieldsOf(Constructed(s.max)) <==> LiveWorkers(s.workers) == {}
    ensures !s.cycle.drainExpired ==> LiveWorkers(s.workers) == {}
    ensures s.acceptor == Exited
    ensures !s.cycle.pipeFault ==> s.pipe == if s.cycle.exitExpired then 2 else 0
  {
    Reached(s);
  }

  /** A server that differs from `s` only in what earlier cycles have left behind: finished workers, counts, time. */
  ghost predicate SameButForHistory(s: Server, t: Server) {
    && LiveWorkers(s.workers) == LiveWorkers(t.workers) == {}
    && t == s.(workers := t.workers, descriptors := t.descriptors, now := t.now, accepted := t.accepted,
               closed := t.closed, abandoned := t.abandoned)
  }

  /** Hence the next cycle starts as the first one did, whichever waits expired before it. */
  lemma CyclesStartAlike(s: Server)
    requires Reachable(s) && ApplicationEnabled(s, StartServer(true))
    ensures SameButForHistory(ApplyApplication(Constructed(s.max), StartServer(true)),
                              ApplyApplication(s, StartServer(true)))
  {
    LifecycleCloses(s);
  }
}
