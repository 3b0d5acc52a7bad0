/**
 The client as an object, with where each call and the thread in `stop` stand. There is one method for each stretch
 of code that runs with `mutex_` held or that a system call separates from the next. A valid object is in a state that
 some run of the protocol reaches, and every method keeps it so.
 */
module ClientObject {
  import opened Bytes
  import opened Common
  import opened Call
  import P = ClientProtocol
  import T = ClientTheorems

  class Client {
    const pipeValid: bool
    const pipe: Pipe
    var numConnections: nat

    // The threads
    var stopper: P.StopperPc
    var calls: seq<Call>

    // The kernel
    var descriptors: set<nat>

    // What has happened so far
    ghost var targets: set<nat>
    ghost var expired: bool
    ghost var pipeFault: bool

    /** The state of the protocol that the object is in. */
    ghost function Snapshot(): P.Client
      reads this, pipe
    {
      P.Client(pipeValid, numConnections, pipe.bytes, stopper, calls, descriptors, targets, expired, pipeFault)
    }

    ghost predicate Valid()
      reads this, pipe
    {
      P.Reachable(Snapshot())
    }

    /** The calls that a stop has aimed at have all returned. */
    ghost predicate TargetsReturned()
      reads this
    {
      forall i :: i in targets ==> i < |calls| && calls[i].pc.Returned?
    }

    /** `pipeCreated` tells whether pipe2 succeeded. */
    constructor (pipeCreated: bool, faultyPipe: bool)
      requires !pipeCreated ==> faultyPipe
      ensures Valid() && Snapshot() == P.Constructed(pipeCreated)
      ensures fresh(pipe) && pipe.faulty == faultyPipe
    {
      pipeValid, numConnections := pipeCreated, 0;
      pipe := new Pipe(faultyPipe);
      stopper, calls, descriptors := P.Idle, [], {};
      targets, expired, pipeFault := {}, false, false;
      new;
      P.ConstructedIsReachable(pipeCreated);
    }

    /** What a method does as an event of the protocol, it does to a valid object so that it stays valid. */
    twostate lemma StaysValid(e: P.Event)
      requires old(Valid()) && P.Enabled(old(Snapshot()), e) && Snapshot() == P.Apply(old(Snapshot()), e)
      ensures Valid()
    {
      T.StaysReachable(old(Snapshot()), e);
    }

    // ---------------------------------------------------------------- stop

    /** Before a stop the pipe is empty, however many there have been. */
    method CallStop()
      requires Valid() && stopper.Idle?
      modifies this`stopper
      ensures Valid() && Snapshot() == P.ApplyStopper(old(Snapshot()), P.CallStop)
      ensures !pipeFault ==> pipe.bytes == 0
    {
      if !pipeFault {
        T.PipeIsEmptyBetweenStops(Snapshot());
      }
      stopper := P.Stopping;
      StaysValid(P.ByStopper(P.CallStop));
    }

    /**
     `writeToPipeAndWait` from where it locks to where it sleeps or returns. It aims at the calls that are counted
     now; with none of them it leaves the pipe alone.
     */
    method WriteToPipeAndWait() returns (written: bool)
      requires Valid() && stopper.Stopping?
      modifies this`stopper, this`targets, this`expired, this`pipeFault, pipe`bytes
      ensures written ==> pipeValid
      ensures Valid() && Snapshot() == P.ApplyStopper(old(Snapshot()), P.WriteAndWait(written))
      ensures targets == P.CountedCalls(calls)
      ensures numConnections == 0 ==> pipe.bytes == old(pipe.bytes) && stopper.Consuming? && targets == {}
      ensures numConnections > 0 && !pipeFault ==> pipe.bytes == 1 && stopper == P.Parked(false)
    {
      T.StopWrites(Snapshot());
      expired := false;
      if numConnections == 0 {
        targets := {};
        stopper := P.Consuming;
        written := false;
      } else {
        written := pipe.WriteByte();
        pipeFault := pipeFault || !written;
        targets := P.CountedCalls(calls);
        stopper := P.Parked(false);
      }
      assert Snapshot() == P.ApplyStopper(old(Snapshot()), P.WriteAndWait(written));
      StaysValid(P.ByStopper(P.WriteAndWait(written)));
    }

    /**
     The stopper wakes up, or with `timeUp` its wait has run out. Without, it goes on exactly if no call is counted,
     and then every call it aimed at has returned.
     */
    method WakeStopper(timeUp: bool)
      requires Valid() && stopper.Parked?
      modifies this`stopper, this`expired
      ensures Valid()
      ensures Snapshot() == P.ApplyStopper(old(Snapshot()), if timeUp then P.WaitExpires else P.WakeStopper)
      ensures stopper.Consuming? <==> timeUp || P.CountedCalls(calls) == {}
      ensures stopper.Consuming? && !expired ==> TargetsReturned()
    {
      T.ConnectionsAreExact(Snapshot());
      if numConnections == 0 {
        stopper := P.Consuming;
      } else if timeUp {
        expired := true;
        stopper := P.Consuming;
      } else {
        stopper := P.Parked(false);
      }
      StaysValid(P.ByStopper(if timeUp then P.WaitExpires else P.WakeStopper));
      T.TargetsReturnInTime(Snapshot());
    }

    /**
     One turn of the loop of consumePipe at the end of `stop`, which holds no lock: other threads may run before the
     next. It takes no byte away that a call aimed at in time has still to see, and is the last turn, unless the read
     fails, only with the pipe empty.
     */
    method ReadStopByte() returns (r: ReadResult)
      requires Valid() && stopper.Consuming?
      modifies this`stopper, this`pipeFault, pipe`bytes
      ensures !r.EndOfStream? && (r.Data? ==> |r.bytes| == 1 && old(pipe.bytes) > 0)
      ensures r.WouldBlock? ==> old(pipe.bytes) == 0
      ensures Valid() && Snapshot() == P.ApplyStopper(old(Snapshot()), P.Consume(r))
      ensures stopper.Consuming? <==> r.Data?
      ensures stopper.Idle? && !pipeFault ==> pipe.bytes == 0
      ensures !expired ==> TargetsReturned()
    {
      T.TargetsReturnInTime(Snapshot());
      r := pipe.ReadByte();
      if !r.Data? {
        stopper := P.Idle;
        pipeFault := pipeFault || r.ReadFailed?;
      }
      StaysValid(P.ByStopper(P.Consume(r)));
      if stopper.Idle? && !pipeFault {
        T.PipeIsEmptyBetweenStops(Snapshot());
      }
    }

    /**
     The consumePipe at the end of `stop`, when nothing comes between its reads. No byte is taken away that a call
     aimed at in time has still to see, and none is left.
     */
    method ConsumeStopBytes() returns (drained: bool)
      requires Valid() && stopper.Consuming?
      modifies this`stopper, this`pipeFault, pipe`bytes
      ensures Valid()
      ensures Snapshot() == old(Snapshot()).(pipe := pipe.bytes, stopper := P.Idle, pipeFault := pipeFault)
      ensures pipeFault == (old(pipeFault) || !drained) && (!pipe.faulty ==> drained)
      ensures drained ==> pipe.bytes == 0
      ensures !expired ==> TargetsReturned()
    {
      T.TargetsReturnInTime(Snapshot());
      drained := ConsumePipe(pipe);
      stopper := P.Idle;
      pipeFault := pipeFault || !drained;
      T.DrainStaysReachable(old(Snapshot()), pipe.bytes, drained);
    }

    // ---------------------------------------------------------------- sendDelayToServer

    /** Another thread calls sendDelayToServer. */
    method Begin(delay: Count) returns (i: nat)
      requires Valid() && |calls| + 1 < SIZE_T_MODULUS
      modifies this`calls
      ensures Valid() && Snapshot() == P.Apply(old(Snapshot()), P.Send(delay))
      ensures i < |calls| && calls[i] == NewCall(delay)
    {
      i := |calls|;
      calls := calls + [NewCall(delay)];
      StaysValid(P.Send(delay));
    }

    /** A new socket is no other call's; without one the call returns. */
    method CreateSocket(i: nat, r: P.SocketResult)
      requires Valid() && i < |calls| && P.CallEventEnabled(Snapshot(), calls[i], P.CreateSocket(r))
      modifies this`calls, this`descriptors
      ensures Valid() && Snapshot() == P.ApplyCall(old(Snapshot()), i, P.CreateSocket(r))
      ensures forall j :: j in P.Holders(calls) && j != i && r.NewSocket? ==> calls[j].fd != calls[i].fd
    {
      var call := calls[i];
      match r {
        case NoSocket => calls := calls[i := call.(pc := Returned(false))];
        case NewSocket(fd) =>
          calls := calls[i := call.(pc := Connecting, fd := fd, created := call.created + 1)];
          descriptors := descriptors + {fd};
      }
      StaysValid(P.ByCall(i, P.CreateSocket(r)));
      T.SocketsAreClosedOnce(Snapshot());
    }

    method CheckPipeDescriptorsAndRun(i: nat)
      requires Valid() && i < |calls| && calls[i].pc.CheckingPipe?
      modifies this`calls
      ensures Valid() && Snapshot() == P.ApplyCall(old(Snapshot()), i, P.CheckPipe)
    {
      if pipeValid {
        calls := calls[i := calls[i].(pc := Counting)];
      } else {
        calls := calls[i := calls[i].(pc := Dropping)];
      }
      StaysValid(P.ByCall(i, P.CheckPipe));
    }

    /** The close of a call that could not connect, or had no pipe to watch. It was never counted. */
    method Drop(i: nat)
      requires Valid() && i < |calls| && calls[i].pc.Dropping?
      modifies this`calls, this`descriptors
      ensures Valid() && Snapshot() == P.ApplyCall(old(Snapshot()), i, P.Drop)
      ensures calls[i].pc == Returned(false) && calls[i].closes == calls[i].created
    {
      var call := calls[i];
      descriptors := descriptors - {call.fd};
      calls := calls[i := call.(pc := Returned(false), closes := call.closes + 1)];
      StaysValid(P.ByCall(i, P.Drop));
      T.SocketsAreClosedOnce(Snapshot());
    }

    method CountIn(i: nat)
      requires Valid() && i < |calls| && calls[i].pc.Counting?
      modifies this`calls, this`numConnections
      ensures Valid() && Snapshot() == P.ApplyCall(old(Snapshot()), i, P.CountIn)
      ensures numConnections == old(numConnections) + 1
    {
      T.CountingIsExact(Snapshot(), i, P.CountIn);
      numConnections := (numConnections + 1) % SIZE_T_MODULUS;
      calls := calls[i := calls[i].(pc := AwaitWritable)];
      StaysValid(P.ByCall(i, P.CountIn));
    }

    /** A system call of call `i` returns. If it is a select and the stop byte is there, the call is to fail. */
    method CallSteps(i: nat, e: CallStep)
      requires Valid() && P.Enabled(Snapshot(), P.CallSteps(i, e))
      modifies this`calls
      ensures Valid() && Snapshot() == P.Apply(old(Snapshot()), P.CallSteps(i, e))
      ensures pipe.bytes > 0 && (e.SelectWritable? || e.SelectReply?) ==> calls[i].pc == Closing(false)
    {
      calls := calls[i := CallApply(calls[i], e, pipe.bytes > 0)];
      StaysValid(P.CallSteps(i, e));
    }

    /** The counter is not 0 and goes down by exactly one; the socket has been closed once; the stopper is told. */
    method CloseAndNotify(i: nat)
      requires Valid() && i < |calls| && calls[i].pc.Closing?
      modifies this`calls, this`descriptors, this`numConnections, this`stopper
      ensures Valid() && Snapshot() == P.ApplyCall(old(Snapshot()), i, P.CloseAndNotify)
      ensures numConnections == old(numConnections) - 1
      ensures calls[i].pc == Returned(old(calls[i].pc.ok)) && calls[i].closes == calls[i].created
      ensures stopper.Parked? ==> stopper.notified
    {
      T.CountingIsExact(Snapshot(), i, P.CloseAndNotify);
      var call := calls[i];
      descriptors := descriptors - {call.fd};
      numConnections := (numConnections + SIZE_T_MODULUS - 1) % SIZE_T_MODULUS;
      if stopper.Parked? {
        stopper := P.Parked(true);
      }
      calls := calls[i := call.(pc := Returned(call.pc.ok), closes := call.closes + 1)];
      assert Snapshot() == P.ApplyCall(old(Snapshot()), i, P.CloseAndNotify);
      StaysValid(P.ByCall(i, P.CloseAndNotify));
      T.SocketsAreClosedOnce(Snapshot());
    }
  }
}
