/**
 A stop of the client terminates. Every step of a call lowers a weight of that call, whatever the other threads do, so
 it returns after no more steps than that. With the stop byte in the pipe a counted call can always take its next step;
 so a stop that no new call comes in the way of goes on until it returns.
 */
module ClientStop {
  import opened Bytes
  import opened Common
  import opened Measures
  import opened Call
  import opened ClientProtocol
  import opened ClientInvariants
  import opened ClientTheorems

  // ---------------------------------------------------------------- one call

  /** The steps a call may still take; closing pays for the stopper that it may wake. */
  function CallWeight(c: Call): nat {
    match c.pc
    case Returned(_) => 0
    case Dropping => 1
    case Closing(_) => 2
    case Receiving(position) => 3 + if position <= BUFFER_SIZE then BUFFER_SIZE - position else 0
    case AwaitReply => 4 + BUFFER_SIZE
    case Sending(remaining) => 4 + BUFFER_SIZE + remaining
    case AwaitWritable => 5 + 2 * BUFFER_SIZE
    case Counting => 6 + 2 * BUFFER_SIZE
    case CheckingPipe => 7 + 2 * BUFFER_SIZE
    case Connecting => 8 + 2 * BUFFER_SIZE
    case Creating => 9 + 2 * BUFFER_SIZE
  }

  /** Call `i` itself takes a step. */
  predicate StepOf(e: Event, i: nat) {
    (e.ByCall? || e.CallSteps?) && e.i == i
  }

  lemma SystemCallLowers(c: Call, e: CallStep, pipe: bool)
    requires CallEnabled(c, e, pipe) && !CallApply(c, e, pipe).overrun
    ensures CallWeight(CallApply(c, e, pipe)) < CallWeight(c)
  {
    match e {
      case Connect(_) =>
      case SelectWritable(_) =>
      case WriteBytes(_) =>
      case SelectReply(_) =>
      case ReadBytes(_) =>
    }
  }

  lemma CallEventLowers(c: Client, i: nat, e: CallEvent)
    requires i < |c.calls| && CallEventEnabled(c, c.calls[i], e)
    ensures CallWeight(ApplyCall(c, i, e).calls[i]) + (if e.CloseAndNotify? then 2 else 1) <= CallWeight(c.calls[i])
  {
  }

  lemma StepLowersCall(c: Client, e: Event, i: nat)
    requires Enabled(c, e) && i < |c.calls| && StepOf(e, i)
    requires !Apply(c, e).calls[i].overrun
    ensures CallWeight(Apply(c, e).calls[i]) < CallWeight(c.calls[i])
  {
    match e {
      case ByCall(_, s) => CallEventLowers(c, i, s);
      case CallSteps(_, s) => SystemCallLowers(c.calls[i], s, c.pipe > 0);
    }
  }

  lemma OthersLeaveCall(c: Client, e: Event, i: nat)
    requires Enabled(c, e) && i < |c.calls| && !StepOf(e, i)
    ensures i < |Apply(c, e).calls|
    ensures CallWeight(Apply(c, e).calls[i]) == CallWeight(c.calls[i])
    ensures Apply(c, e).calls[i].overrun == c.calls[i].overrun
  {
    if !Concerns(e, i) {
      OtherCallsKept(c, e, i);
    }
  }

  lemma OverrunStays(c: Client, e: Event, i: nat)
    requires Enabled(c, e) && i < |c.calls| && c.calls[i].overrun
    ensures i < |Apply(c, e).calls| && Apply(c, e).calls[i].overrun
  {
    if !StepOf(e, i) {
      OthersLeaveCall(c, e, i);
    }
  }

  lemma {:induction false} OverrunStaysOverRun(c: Client, es: seq<Event>, i: nat)
    requires IsRun(c, es) && i < |c.calls|
    ensures i < |After(c, es).calls|
    ensures c.calls[i].overrun ==> After(c, es).calls[i].overrun
    decreases |es|
  {
    if es != [] {
      NewCallsAreNew(c, es[0]);
      if c.calls[i].overrun {
        OverrunStays(c, es[0], i);
      }
      OverrunStaysOverRun(Apply(c, es[0]), es[1..], i);
    }
  }

  ghost function OwnSteps(c: Client, es: seq<Event>, i: nat): nat
    requires IsRun(c, es)
    decreases |es|
  {
    if es == [] then 0 else (if StepOf(es[0], i) then 1 else 0) + OwnSteps(Apply(c, es[0]), es[1..], i)
  }

  /**
   A call takes no more steps of its own than its weight, in every run in which it reads at most a block, whatever
   other calls and stops do meanwhile; with all of them taken it has returned.
   */
  lemma {:induction false} CallIsBounded(c: Client, es: seq<Event>, i: nat)
    requires IsRun(c, es) && i < |c.calls|
    requires i < |After(c, es).calls| && !After(c, es).calls[i].overrun
    ensures OwnSteps(c, es, i) + CallWeight(After(c, es).calls[i]) <= CallWeight(c.calls[i])
    ensures CallWeight(After(c, es).calls[i]) == 0 <==> After(c, es).calls[i].pc.Returned?
    decreases |es|
  {
    if es != [] {
      var t := Apply(c, es[0]);
      NewCallsAreNew(c, es[0]);
      OverrunStaysOverRun(t, es[1..], i);
      if StepOf(es[0], i) {
        StepLowersCall(c, es[0], i);
      } else {
        OthersLeaveCall(c, es[0], i);
      }
      CallIsBounded(t, es[1..], i);
    }
  }

  /** No call in this event fails, and no wait runs out. */
  predicate Faultless(c: Client, e: Event) {
    match e
    case ByCall(_, CreateSocket(r)) => r.NewSocket?
    case CallSteps(_, Connect(ok)) => ok
    case CallSteps(_, SelectWritable(r)) => r.Ready?
    case CallSteps(_, WriteBytes(r)) => r.Accepted? && r.n > 0
    case CallSteps(_, SelectReply(r)) => r.Ready?
    case CallSteps(_, ReadBytes(r)) => !r.ReadFailed?
    case ByStopper(WriteAndWait(written)) => written || NoConnections(c)
    case ByStopper(WaitExpires) => false
    case ByStopper(Consume(r)) => !r.ReadFailed?
    case _ => true
  }

  /** With the stop byte in the pipe no counted call is stuck: it has a step that it can take without any fault. */
  lemma CountedCallCanStep(c: Client, i: nat) returns (e: Event)
    requires Inv(c) && c.pipe > 0 && i in CountedCalls(c.calls)
    ensures Enabled(c, e) && StepOf(e, i) && Faultless(c, e)
  {
    var call := c.calls[i];
    assert CallOk(call);
    match call.pc {
      case AwaitWritable => e := CallSteps(i, SelectWritable(Ready(true, call.writable)));
      case Sending(_) => e := CallSteps(i, WriteBytes(Accepted(1)));
      case AwaitReply => e := CallSteps(i, SelectReply(Ready(true, call.inbox.Readable())));
      case Receiving(_) =>
        var waiting := call.inbox.bytes;
        var available := if |waiting| <= BUFFER_SIZE then waiting else waiting[..BUFFER_SIZE];
        e := CallSteps(i, ReadBytes(if available != [] then Data(available)
                                    else if call.inbox.closed then EndOfStream else WouldBlock));
      case Closing(_) => e := ByCall(i, CloseAndNotify);
    }
  }

  // ---------------------------------------------------------------- the whole stop

  function StopperWeight(p: StopperPc, pipe: nat): nat {
    match p
    case Idle => 0
    case Consuming => 1 + pipe
    case Parked(notified) => 2 + Notice(notified) + pipe
    case Stopping => 5 + pipe
  }

  function Measure(c: Client): nat {
    StopperWeight(c.stopper, c.pipe) + Total(c.calls, CallWeight)
  }

  /** A stopper that nobody notified wakes up. */
  predicate Spurious(c: Client, e: Event) {
    e == ByStopper(WakeStopper) && c.stopper.Parked? && !c.stopper.notified
  }

  /** The stopper or a call takes a step. */
  predicate ThreadStep(c: Client, e: Event) {
    (e.ByStopper? || e.ByCall? || e.CallSteps?) && !Spurious(c, e)
  }

  /** Nobody begins a call or another stop. */
  predicate NoneBegins(e: Event) {
    !e.Send? && e != ByStopper(CallStop)
  }

  ghost predicate NoOverrun(calls: seq<Call>) {
    forall i :: 0 <= i < |calls| ==> !calls[i].overrun
  }

  lemma StopperAfterCall(c: Client, i: nat, e: CallEvent)
    requires i < |c.calls| && CallEventEnabled(c, c.calls[i], e)
    ensures var t := ApplyCall(c, i, e);
            StopperWeight(t.stopper, t.pipe) <= StopperWeight(c.stopper, c.pipe) + if e.CloseAndNotify? then 1 else 0
  {
  }

  lemma CallEventDecreases(c: Client, i: nat, e: CallEvent)
    requires i < |c.calls| && CallEventEnabled(c, c.calls[i], e)
    ensures Measure(ApplyCall(c, i, e)) < Measure(c)
  {
    CallFrame(c, i, e);
    CallEventLowers(c, i, e);
    TotalAfterChange(c.calls, CallWeight, i, ApplyCall(c, i, e).calls[i]);
    StopperAfterCall(c, i, e);
  }

  lemma StopperDecreases(c: Client, e: StopperEvent)
    requires StopperEnabled(c, e) && !e.CallStop? && !Spurious(c, ByStopper(e))
    ensures Measure(ApplyStopper(c, e)) < Measure(c)
  {
    StopperFrame(c, e);
  }

  /** Every step of a thread lowers the measure. */
  lemma ThreadStepDecreases(c: Client, e: Event)
    requires Enabled(c, e) && ThreadStep(c, e) && NoneBegins(e) && NoOverrun(Apply(c, e).calls)
    ensures Measure(Apply(c, e)) < Measure(c)
  {
    match e {
      case ByStopper(s) => StopperDecreases(c, s);
      case ByCall(i, s) => CallEventDecreases(c, i, s);
      case CallSteps(i, s) =>
        assert !Apply(c, e).calls[i].overrun;
        SystemCallLowers(c.calls[i], s, c.pipe > 0);
        TotalAfterChange(c.calls, CallWeight, i, CallApply(c.calls[i], s, c.pipe > 0));
    }
  }

  /** Peers and spurious wakeups leave it as it is. */
  lemma OtherStepKeeps(c: Client, e: Event)
    requires StopOk(c) && Enabled(c, e) && !ThreadStep(c, e) && NoneBegins(e)
    ensures Measure(Apply(c, e)) == Measure(c)
  {
    if e.ByPeer? {
      TotalAfterChange(c.calls, CallWeight, e.i, ApplyPeer(c.calls[e.i], e.peer));
    } else {
      assert e == ByStopper(WakeStopper);
      assert ApplyStopper(c, WakeStopper) == c;
    }
  }

  ghost function ThreadSteps(c: Client, es: seq<Event>): nat
    requires IsRun(c, es)
    decreases |es|
  {
    if es == [] then 0
    else (if ThreadStep(c, es[0]) then 1 else 0) + ThreadSteps(Apply(c, es[0]), es[1..])
  }

  lemma {:induction false} NoOverrunBefore(c: Client, es: seq<Event>)
    requires IsRun(c, es) && NoOverrun(After(c, es).calls)
    ensures NoOverrun(c.calls)
  {
    forall i | 0 <= i < |c.calls| ensures !c.calls[i].overrun {
      OverrunStaysOverRun(c, es, i);
    }
  }

  /** No run in which nobody begins and every call reads at most a block has more thread steps than the measure had. */
  lemma {:induction false} StopIsBounded(c: Client, es: seq<Event>)
    requires Inv(c) && IsRun(c, es) && (forall i :: 0 <= i < |es| ==> NoneBegins(es[i]))
    requires NoOverrun(After(c, es).calls)
    ensures ThreadSteps(c, es) + Measure(After(c, es)) <= Measure(c)
    decreases |es|
  {
    if es != [] {
      var e, t := es[0], Apply(c, es[0]);
      EventKeepsInv(c, e);
      NoOverrunBefore(t, es[1..]);
      if ThreadStep(c, e) {
        ThreadStepDecreases(c, e);
      } else {
        OtherStepKeeps(c, e);
      }
      StopIsBounded(t, es[1..]);
    }
  }

  ghost predicate CanStep(c: Client, e: Event) {
    Enabled(c, e) && ThreadStep(c, e) && NoneBegins(e) && Faultless(c, e)
  }

  /** While a stop is in progress some thread can step without any fault, whether its wait has run out or not. */
  lemma Progress(c: Client) returns (e: Event)
    requires Inv(c) && !c.pipeFault && !c.stopper.Idle?
    ensures CanStep(c, e)
  {
    match c.stopper {
      case Stopping => e := ByStopper(WriteAndWait(c.connections > 0));
      case Consuming => e := ByStopper(Consume(if c.pipe > 0 then Data([48]) else WouldBlock));
      case Parked(_) =>
        if NoConnections(c) {
          e := ByStopper(WakeStopper);
        } else {
          var i :| i in CountedCalls(c.calls);
          e := CountedCallCanStep(c, i);
        }
    }
  }

  /**
   A stop completes. While nobody begins a call, the run that follows has no more thread steps than the measure was;
   and where it has got to, either a thread can go on without any fault or the stop has returned. No socket need become
   readable or writable for that.
   */
  lemma StopCompletes(c: Client, es: seq<Event>)
    requires Reachable(c) && IsRun(c, es) && (forall i :: 0 <= i < |es| ==> NoneBegins(es[i]))
    requires var t := After(c, es); !t.pipeFault && NoOverrun(t.calls)
    ensures ThreadSteps(c, es) <= Measure(c)
    ensures (exists e :: CanStep(After(c, es), e)) || After(c, es).stopper.Idle?
  {
    Reached(c);
    StopIsBounded(c, es);
    RunKeepsInv(c, es);
    var t := After(c, es);
    if !t.stopper.Idle? {
      var e := Progress(t);
      assert CanStep(t, e);
    }
  }
}
