/**
 Which calls succeed. A run of client and server together is, to each side, a run of its own; so all that holds of the
 runs of one side holds here. And a call that returns returns true exactly if none of its own steps went wrong.
 */
module Success {
  import opened Bytes
  import opened Common
  import opened EndToEnd
  import Worker
  import Call
  import S = ServerProtocol
  import C = ClientProtocol
  import CI = ClientInvariants
  import CT = ClientTheorems
  import ClientStop

  // ---------------------------------------------------------------- each side has a run of its own

  /** What an event is to the client: one event of its protocol, or none. */
  function ClientView(s: System, e: Event): seq<C.Event>
    requires Enabled(s, e)
  {
    match e
    case ClientStep(a) => [a]
    case CallWrites(i, r) => [C.CallSteps(i, Call.WriteBytes(r))]
    case DeliverDown(i, n) => [C.ByPeer(i, PeerSends(s.wires[i].down[..n]))]
    case _ => []
  }

  /** What an event is to the server. */
  function ServerView(s: System, e: Event): seq<S.Event>
    requires Enabled(s, e)
  {
    match e
    case ServerStep(a) => [a]
    case AdmitCall(_) => [S.ByAcceptor(S.Admit)]
    case WorkerWrites(i, r) => [S.WorkerCalls(s.wires[i].service.worker, Worker.WriteBytes(r))]
    case DeliverUp(i, n) => [S.ByPeer(s.wires[i].service.worker, PeerSends(s.wires[i].up[..n]))]
    case _ => []
  }

  ghost function ClientRun(s: System, es: seq<Event>): seq<C.Event>
    requires IsRun(s, es)
    decreases |es|
  {
    if es == [] then [] else ClientView(s, es[0]) + ClientRun(Apply(s, es[0]), es[1..])
  }

  ghost function ServerRun(s: System, es: seq<Event>): seq<S.Event>
    requires IsRun(s, es)
    decreases |es|
  {
    if es == [] then [] else ServerView(s, es[0]) + ServerRun(Apply(s, es[0]), es[1..])
  }

  lemma ClientViewIsRun(s: System, e: Event)
    requires Enabled(s, e)
    ensures var v := ClientView(s, e);
            if v == [] then Apply(s, e).client == s.client
            else |v| == 1 && C.Enabled(s.client, v[0]) && Apply(s, e).client == C.Apply(s.client, v[0])
  {
  }

  lemma ServerViewIsRun(s: System, e: Event)
    requires Enabled(s, e)
    ensures var v := ServerView(s, e);
            if v == [] then Apply(s, e).server == s.server
            else |v| == 1 && S.Enabled(s.server, v[0]) && Apply(s, e).server == S.Apply(s.server, v[0])
  {
  }

  /** Every run of both together is a run of the client. */
  lemma {:induction false} ClientSideIsARun(s: System, es: seq<Event>)
    requires IsRun(s, es)
    ensures C.IsRun(s.client, ClientRun(s, es)) && C.After(s.client, ClientRun(s, es)) == After(s, es).client
    decreases |es|
  {
    if es != [] {
      var v, rest := ClientView(s, es[0]), ClientRun(Apply(s, es[0]), es[1..]);
      ClientViewIsRun(s, es[0]);
      ClientSideIsARun(Apply(s, es[0]), es[1..]);
      if v == [] {
        assert v + rest == rest;
      } else {
        assert v == [v[0]];
        C.RunBegins(s.client, v[0], rest);
      }
    }
  }

  /** And a run of the server. */
  lemma {:induction false} ServerSideIsARun(s: System, es: seq<Event>)
    requires IsRun(s, es)
    ensures S.IsRun(s.server, ServerRun(s, es)) && S.After(s.server, ServerRun(s, es)) == After(s, es).server
    decreases |es|
  {
    if es != [] {
      var v, rest := ServerView(s, es[0]), ServerRun(Apply(s, es[0]), es[1..]);
      ServerViewIsRun(s, es[0]);
      ServerSideIsARun(Apply(s, es[0]), es[1..]);
      if v == [] {
        assert v + rest == rest;
      } else {
        assert v == [v[0]];
        S.RunBegins(s.server, v[0], rest);
      }
    }
  }

  // ---------------------------------------------------------------- the calls on course

  /**
   The step goes as the caller wants it: the socket is created and connects, there is a pipe to watch, each select is
   in time and finds the socket ready and no stop byte, each write takes something, and the read delivers the whole
   block.
   */
  predicate Smooth(e: C.Event, pipeValid: bool) {
    match e
    case ByCall(_, CreateSocket(r)) => r.NewSocket?
    case ByCall(_, CheckPipe) => pipeValid
    case CallSteps(_, Connect(ok)) => ok
    case CallSteps(_, SelectWritable(r)) => r == Ready(false, true)
    case CallSteps(_, WriteBytes(r)) => r.Accepted? && r.n > 0
    case CallSteps(_, SelectReply(r)) => r == Ready(false, true)
    case CallSteps(_, ReadBytes(r)) => r.Data? && |r.bytes| == BUFFER_SIZE
    case _ => true
  }

  /** All steps of call `i` in this run go so. */
  ghost predicate AllSmooth(es: seq<C.Event>, i: nat, pipeValid: bool) {
    forall k :: 0 <= k < |es| && ClientStop.StepOf(es[k], i) ==> Smooth(es[k], pipeValid)
  }

  /** The call has returned true, or can still. */
  predicate OnCourse(c: Call.Call) {
    && !c.pc.Dropping? && !Call.Result(c, false)
    && (c.pc.Receiving? ==> c.pc.position == 0)
  }

  lemma SystemCallKeepsCourse(c: Call.Call, e: Call.CallStep, pipe: bool, i: nat, pipeValid: bool)
    requires Call.CallOk(c) && Call.CallEnabled(c, e, pipe) && !Call.CallApply(c, e, pipe).overrun
    ensures OnCourse(Call.CallApply(c, e, pipe)) <==> OnCourse(c) && Smooth(C.CallSteps(i, e), pipeValid)
  {
    match e {
      case Connect(_) =>
      case SelectWritable(_) =>
      case WriteBytes(_) =>
      case SelectReply(_) =>
      case ReadBytes(_) =>
    }
  }

  lemma CallEventKeepsCourse(c: C.Client, i: nat, e: C.CallEvent)
    requires i < |c.calls| && C.CallEventEnabled(c, c.calls[i], e)
    ensures OnCourse(C.ApplyCall(c, i, e).calls[i]) <==> OnCourse(c.calls[i]) && Smooth(C.ByCall(i, e), c.pipeValid)
  {
  }

  /** A call is on course after an event exactly if it was before, and the event was smooth if it was its own. */
  lemma EventKeepsCourse(c: C.Client, e: C.Event, i: nat)
    requires C.Reachable(c) && C.Enabled(c, e) && i < |c.calls|
    requires i < |C.Apply(c, e).calls| && !C.Apply(c, e).calls[i].overrun
    ensures OnCourse(C.Apply(c, e).calls[i]) <==>
            OnCourse(c.calls[i]) && (ClientStop.StepOf(e, i) ==> Smooth(e, c.pipeValid))
  {
    if !CI.Concerns(e, i) {
      CI.OtherCallsKept(c, e, i);
    } else {
      assert Call.CallOk(c.calls[i]) by {
        CT.Reached(c);
      }
      match e {
        case ByCall(_, a) => CallEventKeepsCourse(c, i, a);
        case CallSteps(_, a) => SystemCallKeepsCourse(c.calls[i], a, c.pipe > 0, i, c.pipeValid);
        case ByPeer(_, _) =>
      }
    }
  }

  lemma SmoothFirst(es: seq<C.Event>, i: nat, pipeValid: bool)
    requires es != []
    ensures AllSmooth(es, i, pipeValid) <==>
            (ClientStop.StepOf(es[0], i) ==> Smooth(es[0], pipeValid)) && AllSmooth(es[1..], i, pipeValid)
  {
    assert es == [es[0]] + es[1..];
    assert forall k :: 0 < k < |es| ==> es[k] == es[1..][k - 1];
  }

  /** In every run of a client a call that reads at most a block is on course exactly if all its steps were smooth. */
  lemma {:induction false} CourseOverRun(c: C.Client, es: seq<C.Event>, i: nat)
    requires C.Reachable(c) && C.IsRun(c, es)
    requires i < |C.After(c, es).calls| && !C.After(c, es).calls[i].overrun
    ensures OnCourse(C.After(c, es).calls[i]) <==>
            (i < |c.calls| ==> OnCourse(c.calls[i])) && AllSmooth(es, i, c.pipeValid)
    decreases |es|
  {
    if es != [] {
      var e, t, rest := es[0], C.Apply(c, es[0]), es[1..];
      CT.StaysReachable(c, e);
      CI.NewCallsAreNew(c, e);
      CourseOverRun(t, rest, i);
      SmoothFirst(es, i, c.pipeValid);
      if i < |c.calls| {
        ClientStop.OverrunStaysOverRun(t, rest, i);
        EventKeepsCourse(c, e, i);
      }
    }
  }

  /**
   The calls that succeed. In every run of client and server together a call that has returned has returned true
   exactly if all its own steps were smooth; a delay in 0..2147483 has then become one more.
   */
  lemma SuccessExactly(max: nat, pipeValid: bool, es: seq<Event>, i: nat)
    requires max < SIZE_T_MODULUS && IsRun(Start(max, pipeValid), es)
    requires i < |After(Start(max, pipeValid), es).client.calls|
    requires After(Start(max, pipeValid), es).client.calls[i].pc.Returned?
    ensures var call := After(Start(max, pipeValid), es).client.calls[i];
            var smooth := AllSmooth(ClientRun(Start(max, pipeValid), es), i, pipeValid);
            && (call.pc.ok <==> smooth)
            && (smooth && -2147483 <= call.asked <= 2147483 ==> 0 <= call.asked && call.delay == call.asked + 1)
  {
    var s := Start(max, pipeValid);
    NobodyOverruns(max, pipeValid, es, i);
    ClientSideIsARun(s, es);
    C.ConstructedIsReachable(pipeValid);
    CourseOverRun(s.client, ClientRun(s, es), i);
    var call := After(s, es).client.calls[i];
    if call.pc.ok && -2147483 <= call.asked <= 2147483 {
      DelayContract(max, pipeValid, es, i);
    }
  }
}
