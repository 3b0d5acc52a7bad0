/**
 The server as an object. Its fields are those of the class, together with where each of its threads stands. There
 is one method for each stretch of code that runs with `mutex_` held or that one system call separates from the
 next. A valid object is in a state that some run of the protocol reaches, and every method keeps it so; hence what
 holds of all runs holds of the object after every method, whichever thread was next.
 */
module ServerObject {
  import opened Bytes
  import opened Common
  import opened Worker
  import P = ServerProtocol
  import T = ServerTheorems
  import Acceptor

  class Server {
    const maxNumberClients: nat
    var currentNumberClients: nat
    var isRunning: bool
    var quitSignal: bool
    const pipe: Pipe

    // The threads
    var acceptor: P.AcceptorPc
    var stopper: P.StopperPc
    var workers: seq<Worker>

    // The kernel
    var descriptors: set<nat>
    var now: int

    // What has happened so far
    ghost var accepted: nat
    ghost var closed: nat
    ghost var abandoned: set<nat>
    ghost var cycle: P.Cycle

    /** The state of the protocol that the object is in. */
    ghost function Snapshot(): P.Server
      reads this, pipe
    {
      P.Server(maxNumberClients, currentNumberClients, isRunning, quitSignal, pipe.bytes, acceptor, stopper,
               workers, descriptors, now, accepted, closed, abandoned, cycle)
    }

    ghost predicate Valid()
      reads this, pipe
    {
      P.Reachable(Snapshot())
    }

    /** In this cycle the server thread has not given a client up, and no call on the pipe has failed. */
    ghost predicate Untroubled()
      reads this
    {
      !cycle.drainExpired && !cycle.pipeFault
    }

    ghost predicate NoWorkerLeft()
      reads this
    {
      P.LiveWorkers(workers) == {}
    }

    /** Nobody holds the lock over a system call. */
    ghost predicate MutexFree()
      reads this
    {
      !stopper.Consuming?
    }

    constructor (maxClients: nat, faultyPipe: bool)
      requires maxClients < SIZE_T_MODULUS
      ensures Valid() && Snapshot() == P.Constructed(maxClients)
      ensures fresh(pipe) && pipe.faulty == faultyPipe
    {
      maxNumberClients, currentNumberClients, isRunning, quitSignal := maxClients, 0, false, true;
      pipe := new Pipe(faultyPipe);
      acceptor, stopper, workers := P.Exited, P.Stopped, [];
      descriptors, now := {}, 0;
      accepted, closed, abandoned, cycle := 0, 0, {}, P.NEW_CYCLE;
      new;
      P.ConstructedIsReachable(maxClients);
    }

    /** What a method does as an event of the protocol, it does to a valid object so that it stays valid. */
    twostate lemma StaysValid(e: P.Event)
      requires old(Valid()) && P.Enabled(old(Snapshot()), e) && Snapshot() == P.Apply(old(Snapshot()), e)
      ensures Valid()
    {
      T.StaysReachable(old(Snapshot()), e);
    }

    /** `clientsCV_.notify_all()`. */
    method NotifyAll()
      modifies this`acceptor, this`stopper
      ensures Snapshot() == P.NotifyAll(old(Snapshot()))
    {
      match acceptor {
        case Parked(fd, _) => acceptor := P.Parked(fd, true);
        case DrainParked(_) => acceptor := P.DrainParked(true);
        case _ =>
      }
      if stopper.AwaitParked? {
        stopper := P.AwaitParked(true);
      }
    }

    /**
     `start`; `succeeds` tells whether socket, pipe, bind and listen all did. It must not be called while a worker is
     left that an earlier stop gave up. Whatever else earlier cycles came to, a server that starts is as new.
     */
    method Start(succeeds: bool) returns (ok: bool)
      requires Valid() && stopper.Stopped? && NoWorkerLeft()
      modifies this`isRunning, this`quitSignal, this`acceptor, this`stopper, this`cycle, pipe`bytes
      ensures Valid() && Snapshot() == P.ApplyApplication(old(Snapshot()), P.StartServer(ok))
      ensures ok == succeeds
      ensures ok ==> isRunning && !quitSignal && pipe.bytes == 0 && cycle == P.NEW_CYCLE
      ensures currentNumberClients == 0
    {
      T.CounterIsExact(Snapshot());
      if !succeeds {
        return false;
      }
      pipe.Open();
      isRunning := true;
      quitSignal := false;
      acceptor, stopper := P.Polling, P.Idle;
      cycle := P.NEW_CYCLE;
      assert Snapshot() == P.ApplyApplication(old(Snapshot()), P.StartServer(true));
      StaysValid(P.ByApplication(P.StartServer(true)));
      return true;
    }

    /** `quitRunningThread`, for either thread. */
    method QuitRunningThread() returns (written: bool)
      modifies this`quitSignal, this`acceptor, this`stopper, this`cycle, pipe`bytes
      ensures Snapshot() == P.Raise(old(Snapshot()), written)
      ensures !pipe.faulty ==> written
    {
      written := pipe.WriteByte();
      cycle := cycle.(pipeFault := cycle.pipeFault || !written);
      quitSignal := true;
      NotifyAll();
    }

    // ---------------------------------------------------------------- the thread of run

    /** The select of `run` and the branch it takes. After quit the thread can only leave its loop, whatever expires. */
    method Poll(r: Selected)
      requires Valid() && P.AcceptorEnabled(Snapshot(), P.Poll(r))
      modifies this`acceptor
      ensures Valid() && Snapshot() == P.ApplyAcceptor(old(Snapshot()), P.Poll(r))
      ensures quitSignal && !cycle.pipeFault ==> acceptor.Quitting?
      ensures acceptor.Accepting? ==> pipe.bytes == 0
      ensures r == Ready(false, true) ==> acceptor.Accepting?
    {
      if quitSignal && !cycle.pipeFault {
        T.QuitReachesAcceptor(Snapshot(), r);
      }
      if !r.Ready? {
        acceptor := P.Quitting;
      } else if r.pipe {
        acceptor := P.Quitting;
      } else if r.socket {
        acceptor := P.Accepting;
      }
      StaysValid(P.ByAcceptor(P.Poll(r)));
    }

    /** The accept4 of `doAccept`. A new descriptor is nobody else's; too many open files do not end the loop. */
    method Accept(r: P.AcceptResult)
      requires Valid() && P.AcceptorEnabled(Snapshot(), P.Accept(r))
      modifies this`acceptor, this`descriptors, this`accepted
      ensures Valid() && Snapshot() == P.ApplyAcceptor(old(Snapshot()), P.Accept(r))
      ensures Acceptor.InLoop(acceptor) <==> !r.AcceptFailed?
      ensures r.Connection? ==>
                forall i :: 0 <= i < |workers| && !workers[i].pc.Finished? ==> workers[i].fd != r.fd
    {
      T.WorkersHoldOpenDescriptors(Snapshot());
      match r {
        case TooManyFiles => acceptor := P.Polling;
        case AcceptFailed => acceptor := P.Quitting;
        case Connection(fd) =>
          acceptor := P.Checking(fd);
          descriptors := descriptors + {fd};
          accepted := accepted + 1;
      }
      StaysValid(P.ByAcceptor(P.Accept(r)));
    }

    /**
     `checkForMaximumNumberClients` from where it holds the lock to where it sleeps or returns. It hands the
     descriptor on exactly if there is room and no quit, and sleeps exactly if the server is full and there is none.
     */
    method CheckForMaximumNumberClients()
      requires Valid() && MutexFree() && (acceptor.Checking? || acceptor.Parked?)
      modifies this`acceptor, this`abandoned, this`cycle
      ensures Valid() && Snapshot() == P.CheckMaximum(old(Snapshot()), old(acceptor).fd)
      ensures acceptor.Admitting? <==> currentNumberClients < maxNumberClients && !quitSignal
      ensures acceptor.Parked? <==> currentNumberClients == maxNumberClients && !quitSignal
      ensures acceptor.Quitting? <==> quitSignal
      ensures abandoned == old(abandoned) + if quitSignal then {old(acceptor).fd} else {}
    {
      var fd := acceptor.fd;
      if currentNumberClients >= maxNumberClients && !quitSignal {
        acceptor := P.Parked(fd, false);
      } else if quitSignal {
        acceptor := P.Quitting;
        abandoned := abandoned + {fd};
        cycle := cycle.(dropped := cycle.dropped + 1);
      } else {
        acceptor := P.Admitting(fd);
      }
      assert Snapshot() == P.CheckMaximum(old(Snapshot()), fd);
      T.CheckStaysReachable(old(Snapshot()));
      T.CheckDecides(old(Snapshot()));
    }

    /** The rest of `doAccept`: count the client and start its thread. There is still room for it. */
    method Admit()
      requires Valid() && MutexFree() && acceptor.Admitting?
      modifies this`currentNumberClients, this`workers, this`acceptor, this`cycle
      ensures Valid() && Snapshot() == P.ApplyAcceptor(old(Snapshot()), P.Admit)
      ensures currentNumberClients == old(currentNumberClients) + 1 <= maxNumberClients
      ensures quitSignal ==> old(cycle).late == 0 && cycle.late == 1
    {
      currentNumberClients := (currentNumberClients + 1) % SIZE_T_MODULUS;
      workers := workers + [NewWorker(acceptor.fd)];
      cycle := if quitSignal then cycle.(late := cycle.late + 1) else cycle;
      acceptor := P.Polling;
      assert Snapshot() == P.ApplyAcceptor(old(Snapshot()), P.Admit);
      StaysValid(P.ByAcceptor(P.Admit));
      T.AdmitCounts(old(Snapshot()));
    }

    /** The acceptor has left its loop. */
    method AcceptorRaises() returns (written: bool)
      requires Valid() && MutexFree() && acceptor.Quitting?
      modifies this`quitSignal, this`acceptor, this`stopper, this`cycle, pipe`bytes
      ensures Valid() && Snapshot() == P.ApplyAcceptor(old(Snapshot()), P.AcceptorRaises(written))
    {
      written := QuitRunningThread();
      acceptor := P.Draining;
      StaysValid(P.ByAcceptor(P.AcceptorRaises(written)));
    }

    /** The end of `waitForClientsToFinish`, and of the thread. */
    method ExitThread()
      modifies this`isRunning, this`acceptor, this`stopper
      ensures Snapshot() == P.ExitThread(old(Snapshot()))
    {
      isRunning := false;
      acceptor := P.Exited;
      NotifyAll();
    }

    /**
     `waitForClientsToFinish` from where it holds the lock to where it lets go of it. With `timeUp` the wait has
     run out, and goes on whether the clients have finished or not; without, only if there is none left.
     */
    method WaitForClientsToFinish(timeUp: bool)
      requires Valid() && MutexFree()
      requires acceptor.DrainParked? || (acceptor.Draining? && !timeUp)
      modifies this`isRunning, this`acceptor, this`stopper, this`cycle
      ensures Valid()
      ensures Snapshot() == T.AfterWaitForClients(old(Snapshot()), timeUp)
      ensures acceptor.Exited? <==> timeUp || NoWorkerLeft()
      ensures acceptor.Exited? ==> !isRunning && (stopper.AwaitParked? ==> stopper.notified)
      ensures cycle.drainExpired ==> old(cycle).drainExpired || (timeUp && !NoWorkerLeft())
    {
      if currentNumberClients != 0 && !timeUp {
        acceptor := P.DrainParked(false);
      } else {
        cycle := cycle.(drainExpired := cycle.drainExpired || currentNumberClients != 0);
        ExitThread();
      }
      assert Snapshot() == T.AfterWaitForClients(old(Snapshot()), timeUp);
      T.DrainingStaysReachable(old(Snapshot()), timeUp);
      T.WaitDecides(old(Snapshot()), timeUp);
    }

    // ---------------------------------------------------------------- the thread of stop

    method CallStop()
      requires Valid() && stopper.Idle?
      modifies this`stopper
      ensures Valid() && Snapshot() == P.ApplyApplication(old(Snapshot()), P.CallStop)
    {
      stopper := P.Raising;
      StaysValid(P.ByApplication(P.CallStop));
    }

    method StopperRaises() returns (written: bool)
      requires Valid() && stopper.Raising?
      modifies this`quitSignal, this`acceptor, this`stopper, this`cycle, pipe`bytes
      ensures Valid() && Snapshot() == P.ApplyStopper(old(Snapshot()), P.StopperRaises(written))
    {
      written := QuitRunningThread();
      stopper := P.Awaiting;
      StaysValid(P.ByStopper(P.StopperRaises(written)));
    }

    /**
     The wait of `waitForRunningThread`. With `timeUp` it has run out. It goes on to drain the pipe exactly if the
     thread has exited, and then, unless that gave one up, no worker is left that could miss the byte.
     */
    method AwaitThread(timeUp: bool)
      requires Valid() && (stopper.AwaitParked? || (stopper.Awaiting? && !timeUp))
      modifies this`stopper, this`cycle
      ensures Valid()
      ensures var e := if timeUp then P.ExitExpires
                       else if old(stopper).Awaiting? then P.CheckExited else P.WakeForExit;
              Snapshot() == P.ApplyStopper(old(Snapshot()), e)
      ensures stopper.Consuming? <==> !isRunning
      ensures stopper.Joining? <==> isRunning && timeUp
      ensures stopper.Consuming? && Untroubled() ==> NoWorkerLeft() && acceptor.Exited?
    {
      ghost var e := if timeUp then P.ExitExpires
                     else if stopper.Awaiting? then P.CheckExited else P.WakeForExit;
      if !isRunning {
        stopper := P.Consuming;
      } else if timeUp {
        stopper := P.Joining;
        cycle := cycle.(exitExpired := true);
      } else {
        stopper := P.AwaitParked(false);
      }
      StaysValid(P.ByStopper(e));
      if !cycle.pipeFault {
        T.NoQuitIsLost(Snapshot());
      }
    }

    /**
     The rest of `waitForRunningThread`: consumePipe with the lock held. Unless the server thread gave one up it takes
     no byte away that a worker has still to see.
     */
    method ConsumeQuitBytes() returns (drained: bool)
      requires Valid() && stopper.Consuming?
      modifies this`stopper, this`cycle, pipe`bytes
      ensures Valid()
      ensures Snapshot() == old(Snapshot()).(pipe := pipe.bytes, stopper := P.Joining, cycle := cycle)
      ensures cycle == old(cycle).(pipeFault := old(cycle).pipeFault || !drained) && (!pipe.faulty ==> drained)
      ensures drained ==> pipe.bytes == 0
      ensures old(Untroubled()) ==> NoWorkerLeft() && acceptor.Exited?
    {
      if !cycle.pipeFault {
        T.NoQuitIsLost(Snapshot());
      }
      drained := ConsumePipe(pipe);
      stopper := P.Joining;
      cycle := cycle.(pipeFault := cycle.pipeFault || !drained);
      T.DrainStaysReachable(old(Snapshot()), pipe.bytes, drained);
    }

    /**
     The end of `stop`: join the thread, close socket and pipe. The fields are those of a new server exactly if no
     worker is left, and none is left unless the server thread gave one up.
     */
    method Join()
      requires Valid() && stopper.Joining? && acceptor.Exited?
      modifies this`stopper
      ensures Valid() && Snapshot() == P.ApplyStopper(old(Snapshot()), P.Join)
      ensures T.FieldsOf(Snapshot()) == T.FieldsOf(P.Constructed(maxNumberClients)) <==> NoWorkerLeft()
      ensures !cycle.drainExpired ==> NoWorkerLeft()
      ensures !cycle.pipeFault ==> pipe.bytes == if cycle.exitExpired then 2 else 0
    {
      stopper := P.Stopped;
      StaysValid(P.ByStopper(P.Join));
      T.LifecycleCloses(Snapshot());
    }

    // ---------------------------------------------------------------- the workers

    /** A system call of worker `i` returns. If it is a select that watches the pipe, quit sends it to close. */
    method WorkerCalls(i: nat, c: WorkerCall)
      requires Valid() && P.Enabled(Snapshot(), P.WorkerCalls(i, c))
      modifies this`workers
      ensures Valid() && Snapshot() == P.Apply(old(Snapshot()), P.WorkerCalls(i, c))
      ensures quitSignal && Untroubled() && (c.SelectMessage? || c.SelectSleep?) ==> workers[i].pc.Closing?
    {
      if quitSignal && Untroubled() && (c.SelectMessage? || c.SelectSleep?) {
        T.QuitReachesWorkers(Snapshot(), i, c);
      }
      workers := workers[i := WorkerApply(workers[i], c, pipe.bytes > 0, now)];
      StaysValid(P.WorkerCalls(i, c));
    }

    /** The counter goes down by exactly one; the descriptor closed was open, and is no other worker's. */
    method CloseClientAndNotify(i: nat)
      requires Valid() && MutexFree() && i < |workers| && workers[i].pc.Closing?
      modifies this`workers, this`descriptors, this`currentNumberClients, this`acceptor, this`stopper, this`closed
      ensures Valid() && Snapshot() == P.CloseClient(old(Snapshot()), i)
      ensures currentNumberClients == old(currentNumberClients) - 1
      ensures old(workers[i].fd in descriptors) && workers[i].closes == 1
      ensures forall j :: 0 <= j < |workers| && !workers[j].pc.Finished? ==> workers[j].fd in descriptors
    {
      T.CloseCounts(Snapshot(), i);
      var w := workers[i];
      descriptors := descriptors - {w.fd};
      workers := workers[i := w.(pc := Finished, closes := w.closes + 1)];
      closed := closed + 1;
      currentNumberClients := (currentNumberClients + SIZE_T_MODULUS - 1) % SIZE_T_MODULUS;
      NotifyAll();
      assert Snapshot() == P.CloseClient(old(Snapshot()), i);
      StaysValid(P.WorkerCloses(i));
    }

    method GetNumberOfClients() returns (n: nat)
      requires Valid()
      ensures n == |P.LiveWorkers(workers)| <= maxNumberClients
    {
      T.CounterIsExact(Snapshot());
      n := currentNumberClients;
    }
  }
}
