/** The guarantees of a client, stated of every state that a run from its construction can reach. */
module ClientTheorems {
  import opened Common
  import opened Call
  import opened ClientProtocol
  import opened ClientInvariants

  lemma Reached(c: Client)
    requires Reachable(c)
    ensures Inv(c)
  {
    var es :| IsRun(Constructed(c.pipeValid), es) && After(Constructed(c.pipeValid), es) == c;
    ConstructedIsSound(c.pipeValid);
    RunKeepsInv(Constructed(c.pipeValid), es);
  }

  /** Whatever any thread does, the client stays in the reachable states. */
  lemma StaysReachable(c: Client, e: Event)
    requires Reachable(c) && Enabled(c, e)
    ensures Reachable(Apply(c, e))
  {
    StepStaysReachable(c, e);
  }

  /** `numConnections_` counts the calls between their increment and their closeAndNotify, and never underflows. */
  lemma ConnectionsAreExact(c: Client)
    requires Reachable(c)
    ensures c.connections == |CountedCalls(c.calls)|
    ensures forall i :: 0 <= i < |c.calls| && c.calls[i].pc.Closing? ==> c.connections > 0
    ensures c.stopper.Parked? && c.connections == 0 ==> c.stopper.notified
  {
    Reached(c);
    forall i | 0 <= i < |c.calls| && c.calls[i].pc.Closing? ensures c.connections > 0 {
      assert i in CountedCalls(c.calls);
    }
  }

  /** Counting in and out changes the counter by exactly one, and nothing else changes it. */
  lemma CountingIsExact(c: Client, i: nat, e: CallEvent)
    requires Reachable(c) && i < |c.calls| && CallEventEnabled(c, c.calls[i], e)
    ensures ApplyCall(c, i, e).connections == match e
                                              case CountIn => c.connections + 1
                                              case CloseAndNotify => c.connections - 1
                                              case _ => c.connections
  {
    Reached(c);
    CallEventCounts(c, i, e);
  }

  /**
   Every socket that a call creates it closes once: a call that has returned has closed what it created, any other
   has closed nothing, and the sockets open are those of calls that have not closed them, one each.
   */
  lemma SocketsAreClosedOnce(c: Client)
    requires Reachable(c)
    ensures forall i :: 0 <= i < |c.calls| ==>
              && c.calls[i].created <= 1
              && c.calls[i].closes == (if c.calls[i].pc.Returned? then c.calls[i].created else 0)
              && (c.calls[i].created > c.calls[i].closes ==> c.calls[i].fd in c.descriptors)
    ensures |c.descriptors| == |Holders(c.calls)|
    ensures forall i, j :: i in Holders(c.calls) && j in Holders(c.calls) && i != j ==> c.calls[i].fd != c.calls[j].fd
  {
    Reached(c);
    forall i | 0 <= i < |c.calls|
      ensures c.calls[i].created <= 1
      ensures c.calls[i].closes == (if c.calls[i].pc.Returned? then c.calls[i].created else 0)
      ensures c.calls[i].created > c.calls[i].closes ==> c.calls[i].fd in c.descriptors
    {
      assert CallOk(c.calls[i]);
    }
  }

  ghost predicate NoNewStop(es: seq<Event>) {
    forall i :: 0 <= i < |es| ==> es[i] != ByStopper(CallStop)
  }

  ghost predicate NoNewWrite(es: seq<Event>) {
    forall i :: 0 <= i < |es| ==> !(es[i].ByStopper? && es[i].stopper.WriteAndWait?)
  }

  lemma TargetsStay(c: Client, e: Event)
    requires Enabled(c, e) && !(e.ByStopper? && e.stopper.WriteAndWait?)
    ensures Apply(c, e).targets == c.targets
  {
  }

  lemma {:induction false} TargetsStayOverRun(c: Client, es: seq<Event>)
    requires IsRun(c, es) && NoNewWrite(es)
    ensures After(c, es).targets == c.targets
    decreases |es|
  {
    if es != [] {
      TargetsStay(c, es[0]);
      TargetsStayOverRun(Apply(c, es[0]), es[1..]);
    }
  }

  lemma StopAimsAtCounted(c: Client, written: bool)
    requires Inv(c) && StopperEnabled(c, WriteAndWait(written))
    ensures ApplyStopper(c, WriteAndWait(written)).targets == CountedCalls(c.calls)
  {
  }

  /**
   Cancel is complete. Unless its wait expires, a stop drains no byte of the pipe, and returns, only after every
   call that was counted when it wrote its byte has returned, whatever other calls do meanwhile.
   */
  lemma CancelIsComplete(c: Client, written: bool, es: seq<Event>, i: nat)
    requires Inv(c) && StopperEnabled(c, WriteAndWait(written))
    requires IsRun(ApplyStopper(c, WriteAndWait(written)), es) && NoNewWrite(es)
    requires i in CountedCalls(c.calls)
    requires var t := After(ApplyStopper(c, WriteAndWait(written)), es);
             (t.stopper.Consuming? || t.stopper.Idle?) && !t.expired
    ensures var t := After(ApplyStopper(c, WriteAndWait(written)), es);
            i < |t.calls| && t.calls[i].pc.Returned?
  {
    var s := ApplyStopper(c, WriteAndWait(written));
    StopAimsAtCounted(c, written);
    StopperKeepsInv(c, WriteAndWait(written));
    TargetsStayOverRun(s, es);
    RunKeepsInv(s, es);
  }

  /** What a stop in progress relies on: whoever is counted has a pipe to watch, and it is empty before the write. */
  lemma StopWrites(c: Client)
    requires Reachable(c)
    ensures c.connections > 0 ==> c.pipeValid
    ensures c.stopper.Stopping? && !c.pipeFault ==> c.pipe == 0
    ensures c.connections == 0 ==> CountedCalls(c.calls) == {}
  {
    Reached(c);
  }

  /** A stop that goes on in time does so with every call that it aimed at returned. */
  lemma TargetsReturnInTime(c: Client)
    requires Reachable(c)
    ensures (c.stopper.Consuming? || c.stopper.Idle?) && !c.expired ==>
              forall i :: i in c.targets ==> i < |c.calls| && c.calls[i].pc.Returned?
  {
    Reached(c);
  }

  /** The drain of the pipe at the end of a stop, down to `left` bytes, with nothing between its reads. */
  lemma {:induction false} DrainStaysReachable(c: Client, left: nat, drained: bool)
    requires Reachable(c) && c.stopper.Consuming? && left <= c.pipe && (drained ==> left == 0)
    ensures Reachable(c.(pipe := left, stopper := Idle, pipeFault := c.pipeFault || !drained))
    decreases c.pipe
  {
    var e := ByStopper(Consume(if left < c.pipe then Data([48]) else if drained then WouldBlock else ReadFailed));
    StaysReachable(c, e);
    if left < c.pipe {
      DrainStaysReachable(Apply(c, e), left, drained);
    }
  }

  lemma ResultStays(c: Client, e: Event, i: nat, ok: bool)
    requires Enabled(c, e) && i < |c.calls| && Result(c.calls[i], ok)
    ensures i < |Apply(c, e).calls| && Result(Apply(c, e).calls[i], ok)
  {
    if !Concerns(e, i) {
      OtherCallsKept(c, e, i);
    }
  }

  lemma {:induction false} ResultStaysOverRun(c: Client, es: seq<Event>, i: nat, ok: bool)
    requires IsRun(c, es) && i < |c.calls| && Result(c.calls[i], ok)
    ensures i < |After(c, es).calls| && Result(After(c, es).calls[i], ok)
    decreases |es|
  {
    if es != [] {
      ResultStays(c, es[0], i, ok);
      ResultStaysOverRun(Apply(c, es[0]), es[1..], i, ok);
    }
  }

  /** A call that evaluates a select while the byte is in the pipe fails, in every run from there. */
  lemma SelectWithByteFails(c: Client, i: nat, e: CallStep, es: seq<Event>)
    requires c.pipe > 0 && Enabled(c, CallSteps(i, e)) && (e.SelectWritable? || e.SelectReply?)
    requires IsRun(Apply(c, CallSteps(i, e)), es)
    ensures var t := After(Apply(c, CallSteps(i, e)), es);
            i < |t.calls| && Result(t.calls[i], false)
  {
    SelectSeesQuit(c.calls[i], e);
    ResultStaysOverRun(Apply(c, CallSteps(i, e)), es, i, false);
  }

  /** A call that saw the pipe readable returns false and leaves the caller's delay alone. */
  lemma CancelledCallsFail(c: Client, i: nat)
    requires Reachable(c) && i < |c.calls| && c.calls[i].cancelled
    ensures Result(c.calls[i], false) && c.calls[i].delay == c.calls[i].asked
  {
    Reached(c);
    assert CallOk(c.calls[i]);
  }

  /** Cancel leaves no residue: between stops the pipe is empty, and never are there two bytes in it. */
  lemma PipeIsEmptyBetweenStops(c: Client)
    requires Reachable(c) && !c.pipeFault
    ensures (c.stopper.Idle? ==> c.pipe == 0) && c.pipe <= 1
  {
    Reached(c);
  }

  /** A call that is not cancelled yet, or has not begun yet. */
  ghost predicate NotCancelled(c: Client, i: nat) {
    i < |c.calls| ==> !c.calls[i].cancelled
  }

  lemma QuietStep(c: Client, e: Event, i: nat)
    requires StopOk(c) && Enabled(c, e) && c.stopper.Idle? && !c.pipeFault && e != ByStopper(CallStop)
    requires NotCancelled(c, i)
    ensures Apply(c, e).stopper.Idle? && !Apply(c, e).pipeFault && NotCancelled(Apply(c, e), i)
  {
    match e {
      case ByCall(j, s) => CallFrame(c, j, s);
      case _ =>
    }
  }

  /**
   Hence, from the return of a stop until the next one is called, no call is cancelled: neither one that was under
   way nor one that begins.
   */
  lemma {:induction false} NothingCancelledBetweenStops(c: Client, es: seq<Event>, i: nat)
    requires Inv(c) && c.stopper.Idle? && !c.pipeFault
    requires IsRun(c, es) && NoNewStop(es)
    requires NotCancelled(c, i)
    ensures NotCancelled(After(c, es), i)
    decreases |es|
  {
    if es != [] {
      QuietStep(c, es[0], i);
      EventKeepsInv(c, es[0]);
      NothingCancelledBetweenStops(Apply(c, es[0]), es[1..], i);
    }
  }
}
