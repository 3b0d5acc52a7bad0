/** What holds of a client in every reachable state, over any number of calls and stops. */
module ClientInvariants {
  import opened Bytes
  import opened Common
  import opened Call
  import opened ClientProtocol

  /** The counter counts the calls between their increment and their closeAndNotify. */
  ghost predicate CounterOk(calls: seq<Call>, connections: nat) {
    |calls| < SIZE_T_MODULUS && connections == |CountedCalls(calls)|
  }

  /** Every open socket belongs to one call that has created and not closed it; there are no others. */
  ghost predicate SocketsOk(calls: seq<Call>, open: set<nat>) {
    && (forall i :: 0 <= i < |calls| && HoldsSocket(calls[i]) ==> calls[i].fd in open)
    && (forall i, j :: 0 <= i < j < |calls| && HoldsSocket(calls[i]) && HoldsSocket(calls[j]) ==>
          calls[i].fd != calls[j].fd)
    && |open| == |Holders(calls)|
  }

  /** The stop byte exists only while a stop is in progress; nobody waits for calls that have all finished. */
  ghost predicate StopOk(c: Client) {
    && (c.stopper.Parked? && !c.stopper.notified ==> !NoConnections(c))
    && (!c.pipeFault && (c.stopper.Idle? || c.stopper.Stopping?) ==> c.pipe == 0)
    && (!c.pipeFault && c.stopper.Parked? ==> c.pipe == 1)
    && (!c.pipeFault ==> c.pipe <= 1)
    && (c.connections > 0 ==> c.pipeValid)
  }

  /** The calls a stop is to end are under way or have returned; all have returned when it stops waiting in time. */
  ghost predicate TargetsOk(c: Client) {
    && (forall i :: i in c.targets ==> i < |c.calls| && (Counted(c.calls[i]) || c.calls[i].pc.Returned?))
    && ((c.stopper.Consuming? || c.stopper.Idle?) && !c.expired ==>
          forall i :: i in c.targets ==> c.calls[i].pc.Returned?)
  }

  ghost predicate CallsOk(calls: seq<Call>, pipeValid: bool) {
    forall i :: 0 <= i < |calls| ==> CallOk(calls[i]) && (calls[i].pc.Counting? ==> pipeValid)
  }

  ghost predicate Inv(c: Client) {
    && CounterOk(c.calls, c.connections)
    && SocketsOk(c.calls, c.descriptors)
    && StopOk(c)
    && TargetsOk(c)
    && CallsOk(c.calls, c.pipeValid)
  }

  // ---------------------------------------------------------------- sets of calls

  lemma CountedAfterChange(calls: seq<Call>, i: nat, call: Call)
    requires i < |calls|
    ensures CountedCalls(calls[i := call]) ==
            if Counted(call) then CountedCalls(calls) + {i} else CountedCalls(calls) - {i}
    ensures Counted(calls[i]) <==> i in CountedCalls(calls)
    ensures |CountedCalls(calls[i := call])| ==
            |CountedCalls(calls)| + (if Counted(call) then 1 else 0) - (if Counted(calls[i]) then 1 else 0)
  {
  }

  lemma HoldersAfterChange(calls: seq<Call>, i: nat, call: Call)
    requires i < |calls|
    ensures |Holders(calls[i := call])| ==
            |Holders(calls)| + (if HoldsSocket(call) then 1 else 0) - (if HoldsSocket(calls[i]) then 1 else 0)
  {
    var now := if HoldsSocket(call) then Holders(calls) + {i} else Holders(calls) - {i};
    assert HoldsSocket(calls[i]) <==> i in Holders(calls);
    assert Holders(calls[i := call]) == now;
  }

  lemma SetsAfterSend(calls: seq<Call>, call: Call)
    requires !HoldsSocket(call)
    ensures CountedCalls(calls + [call]) == CountedCalls(calls)
    ensures Holders(calls + [call]) == Holders(calls)
  {
  }

  lemma NoneCounted(calls: seq<Call>)
    requires |CountedCalls(calls)| == 0
    ensures forall i :: 0 <= i < |calls| ==> !Counted(calls[i])
  {
    forall i | 0 <= i < |calls| ensures !Counted(calls[i]) {
      assert i !in CountedCalls(calls);
    }
  }

  lemma SocketsAfterCreate(calls: seq<Call>, i: nat, call: Call, open: set<nat>)
    requires SocketsOk(calls, open) && i < |calls| && !HoldsSocket(calls[i])
    requires HoldsSocket(call) && call.fd !in open
    ensures SocketsOk(calls[i := call], open + {call.fd})
  {
    HoldersAfterChange(calls, i, call);
  }

  lemma SocketsAfterClose(calls: seq<Call>, i: nat, call: Call, open: set<nat>)
    requires SocketsOk(calls, open) && i < |calls| && HoldsSocket(calls[i])
    requires !HoldsSocket(call)
    ensures SocketsOk(calls[i := call], open - {calls[i].fd})
  {
    HoldersAfterChange(calls, i, call);
  }

  lemma SocketsAfterStep(calls: seq<Call>, i: nat, call: Call, open: set<nat>)
    requires SocketsOk(calls, open) && i < |calls|
    requires (HoldsSocket(call) <==> HoldsSocket(calls[i])) && call.fd == calls[i].fd
    ensures SocketsOk(calls[i := call], open)
  {
    HoldersAfterChange(calls, i, call);
  }

  lemma {:induction false} CountedAtMostAll(calls: seq<Call>)
    ensures |CountedCalls(calls)| <= |calls|
  {
    if calls != [] {
      var rest, last := calls[..|calls| - 1], |calls| - 1;
      CountedAtMostAll(rest);
      assert CountedCalls(calls) == CountedCalls(rest) + if Counted(calls[last]) then {last} else {};
    }
  }

  // ---------------------------------------------------------------- the events of one call

  lemma CounterAfterChange(calls: seq<Call>, connections: nat, i: nat, call: Call)
    requires CounterOk(calls, connections) && i < |calls|
    ensures Counted(calls[i]) ==> connections > 0
    ensures var next := connections + (if Counted(call) then 1 else 0) - (if Counted(calls[i]) then 1 else 0);
            0 <= next < SIZE_T_MODULUS && CounterOk(calls[i := call], next)
  {
    CountedAfterChange(calls, i, call);
    CountedAtMostAll(calls[i := call]);
  }

  /** Counting in and out is exact: the `size_t` neither overflows nor underflows. */
  lemma CallEventCounts(c: Client, i: nat, e: CallEvent)
    requires CounterOk(c.calls, c.connections) && i < |c.calls| && CallEventEnabled(c, c.calls[i], e)
    ensures var t := ApplyCall(c, i, e);
            && CounterOk(t.calls, t.connections)
            && t.connections == match e
                                case CountIn => c.connections + 1
                                case CloseAndNotify => c.connections - 1
                                case _ => c.connections
  {
    var call := ApplyCall(c, i, e).calls[i];
    CounterAfterChange(c.calls, c.connections, i, call);
    assert ApplyCall(c, i, e).calls == c.calls[i := call];
  }

  lemma CallEventKeepsSockets(c: Client, i: nat, e: CallEvent)
    requires SocketsOk(c.calls, c.descriptors) && i < |c.calls| && CallEventEnabled(c, c.calls[i], e)
    ensures SocketsOk(ApplyCall(c, i, e).calls, ApplyCall(c, i, e).descriptors)
  {
    var t := ApplyCall(c, i, e);
    var call := t.calls[i];
    match e {
      case CreateSocket(NewSocket(_)) => SocketsAfterCreate(c.calls, i, call, c.descriptors);
      case Drop => SocketsAfterClose(c.calls, i, call, c.descriptors);
      case CloseAndNotify => SocketsAfterClose(c.calls, i, call, c.descriptors);
      case _ => SocketsAfterStep(c.calls, i, call, c.descriptors);
    }
  }

  lemma CallEventKeepsStop(c: Client, i: nat, e: CallEvent)
    requires StopOk(c) && i < |c.calls| && CallEventEnabled(c, c.calls[i], e)
    requires c.calls[i].pc.Counting? ==> c.pipeValid
    requires ApplyCall(c, i, e).connections <= c.connections || e.CountIn?
    requires e.CountIn? ==> ApplyCall(c, i, e).connections == c.connections + 1
    requires c.connections == 0 ==> !e.CloseAndNotify?
    requires !e.CountIn? && !e.CloseAndNotify? ==> ApplyCall(c, i, e).connections == c.connections
    ensures StopOk(ApplyCall(c, i, e))
  {
  }

  lemma CallEventKeepsTargets(c: Client, i: nat, e: CallEvent)
    requires TargetsOk(c) && i < |c.calls| && CallEventEnabled(c, c.calls[i], e)
    ensures TargetsOk(ApplyCall(c, i, e))
  {
  }

  lemma CloseKeepsCall(call: Call, ok: bool)
    requires CallOk(call) && HoldsSocket(call) && (call.pc.Closing? ==> ok == call.pc.ok)
    requires call.pc.Closing? || (call.pc.Dropping? && !ok)
    ensures CallOk(CloseSocket(call, ok))
  {
  }

  lemma CallEventKeepsCall(c: Client, i: nat, e: CallEvent)
    requires i < |c.calls| && CallOk(c.calls[i]) && CallEventEnabled(c, c.calls[i], e)
    ensures CallOk(ApplyCall(c, i, e).calls[i])
  {
    var call := c.calls[i];
    match e {
      case CreateSocket(_) =>
      case CheckPipe =>
      case Drop => CloseKeepsCall(call, false);
      case CountIn =>
      case CloseAndNotify => CloseKeepsCall(call, call.pc.ok);
    }
  }

  lemma CallsAfterChange(calls: seq<Call>, i: nat, call: Call, pipeValid: bool)
    requires CallsOk(calls, pipeValid) && i < |calls| && CallOk(call) && (call.pc.Counting? ==> pipeValid)
    ensures CallsOk(calls[i := call], pipeValid)
  {
  }

  lemma CallEventKeepsInv(c: Client, i: nat, e: CallEvent)
    requires Inv(c) && i < |c.calls| && CallEventEnabled(c, c.calls[i], e)
    ensures Inv(ApplyCall(c, i, e))
  {
    var t := ApplyCall(c, i, e);
    CallEventCounts(c, i, e);
    CallEventKeepsSockets(c, i, e);
    CallEventKeepsStop(c, i, e);
    CallEventKeepsTargets(c, i, e);
    CallEventKeepsCall(c, i, e);
    CallsAfterChange(c.calls, i, t.calls[i], c.pipeValid);
  }

  lemma TargetsAfterStep(c: Client, i: nat, call: Call)
    requires TargetsOk(c) && i < |c.calls|
    requires (Counted(call) <==> Counted(c.calls[i])) && (call.pc.Returned? <==> c.calls[i].pc.Returned?)
    ensures TargetsOk(SetCall(c, i, call))
  {
  }

  /** A call, or its peer, moves on without being counted in or out. */
  lemma StepKeepsInv(c: Client, i: nat, call: Call)
    requires Inv(c) && i < |c.calls| && CallOk(call)
    requires (Counted(call) <==> Counted(c.calls[i])) && (HoldsSocket(call) <==> HoldsSocket(c.calls[i]))
    requires call.fd == c.calls[i].fd && (call.pc.Returned? <==> c.calls[i].pc.Returned?)
    requires call.pc.Counting? ==> c.calls[i].pc.Counting?
    ensures Inv(SetCall(c, i, call))
  {
    CounterAfterChange(c.calls, c.connections, i, call);
    SocketsAfterStep(c.calls, i, call, c.descriptors);
    CallsAfterChange(c.calls, i, call, c.pipeValid);
    TargetsAfterStep(c, i, call);
  }

  // ---------------------------------------------------------------- every actor keeps all of it

  lemma SendKeepsInv(c: Client, delay: Count)
    requires Inv(c) && Enabled(c, Send(delay))
    ensures Inv(Apply(c, Send(delay)))
  {
    SetsAfterSend(c.calls, NewCall(delay));
    NewCallOk(delay);
  }

  lemma StopperKeepsInv(c: Client, e: StopperEvent)
    requires Inv(c) && StopperEnabled(c, e)
    ensures Inv(ApplyStopper(c, e))
  {
    if NoConnections(c) {
      NoneCounted(c.calls);
    }
  }

  lemma CallStepKeepsInv(c: Client, i: nat, e: CallStep)
    requires Inv(c) && Enabled(c, CallSteps(i, e))
    ensures Inv(Apply(c, CallSteps(i, e)))
  {
    CallStaysOk(c.calls[i], e, c.pipe > 0);
    StepKeepsPlace(c.calls[i], e, c.pipe > 0);
    StepKeepsInv(c, i, CallApply(c.calls[i], e, c.pipe > 0));
  }

  lemma PeerKeepsInv(c: Client, i: nat, e: PeerEvent)
    requires Inv(c) && Enabled(c, ByPeer(i, e))
    ensures Inv(Apply(c, ByPeer(i, e)))
  {
    assert CallOk(c.calls[i]);
    StepKeepsInv(c, i, ApplyPeer(c.calls[i], e));
  }

  lemma EventKeepsInv(c: Client, e: Event)
    requires Inv(c) && Enabled(c, e)
    ensures Inv(Apply(c, e))
  {
    match e {
      case Send(delay) => SendKeepsInv(c, delay);
      case ByStopper(s) => StopperKeepsInv(c, s);
      case ByCall(i, s) => CallEventKeepsInv(c, i, s);
      case CallSteps(i, s) => CallStepKeepsInv(c, i, s);
      case ByPeer(i, s) => PeerKeepsInv(c, i, s);
    }
  }

  // ---------------------------------------------------------------- what an event leaves as it was

  lemma StopperFrame(c: Client, e: StopperEvent)
    requires StopperEnabled(c, e)
    ensures var t := ApplyStopper(c, e);
            && t.calls == c.calls
            && (!e.WriteAndWait? ==> t.targets == c.targets)
  {
  }

  lemma CallFrame(c: Client, i: nat, e: CallEvent)
    requires i < |c.calls| && CallEventEnabled(c, c.calls[i], e)
    ensures var t := ApplyCall(c, i, e);
            && t.calls == c.calls[i := t.calls[i]]
            && t.targets == c.targets && t.pipe == c.pipe && t.pipeFault == c.pipeFault
            && (c.stopper.Idle? ==> t.stopper.Idle?)
    ensures var was, now := c.calls[i], ApplyCall(c, i, e).calls[i];
            && now.sent == was.sent && now.received == was.received && now.inbox == was.inbox
            && now.cancelled == was.cancelled
  {
  }

  /** The event is one of call `i`, or of its peer. */
  predicate Concerns(e: Event, i: nat) {
    (e.ByCall? || e.CallSteps? || e.ByPeer?) && e.i == i
  }

  /** A call is changed by its own steps and by its peer, and by nothing else. */
  lemma OtherCallsKept(c: Client, e: Event, i: nat)
    requires Enabled(c, e) && i < |c.calls| && !Concerns(e, i)
    ensures i < |Apply(c, e).calls| && Apply(c, e).calls[i] == c.calls[i]
  {
    match e {
      case ByStopper(s) => StopperFrame(c, s);
      case ByCall(j, s) => CallFrame(c, j, s);
      case _ =>
    }
  }

  lemma NewCallsAreNew(c: Client, e: Event)
    requires Enabled(c, e)
    ensures |Apply(c, e).calls| == |c.calls| + if e.Send? then 1 else 0
    ensures e.Send? ==> Apply(c, e).calls == c.calls + [NewCall(e.delay)]
  {
  }

  lemma ConstructedIsSound(pipeValid: bool)
    ensures Inv(Constructed(pipeValid))
  {
  }

  lemma {:induction false} RunKeepsInv(c: Client, es: seq<Event>)
    requires Inv(c) && IsRun(c, es)
    ensures Inv(After(c, es))
    decreases |es|
  {
    if es != [] {
      EventKeepsInv(c, es[0]);
      RunKeepsInv(Apply(c, es[0]), es[1..]);
    }
  }
}
