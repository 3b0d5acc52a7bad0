/**
 A client and a server together. Each call of sendDelayToServer has a connection: the bytes on their way to the
 server, the bytes on their way back, and the worker that the server admitted for it, if it has. All interleavings
 of the two systems and of the network are runs.
 */
module EndToEnd {
  import opened Bytes
  import opened Common
  import Decimal
  import Worker
  import Call
  import S = ServerProtocol
  import C = ClientProtocol
  import SI = ServerInvariants
  import CI = ClientInvariants

  /** Whether the server has admitted a connection, and which worker serves it. */
  datatype Service = Unserved | ServedBy(worker: nat)

  datatype Wire = Wire(service: Service, up: seq<Byte>, down: seq<Byte>)

  /** Call `i` of the client has `wires[i]`. */
  datatype System = System(server: S.Server, client: C.Client, wires: seq<Wire>)

  function Start(max: nat, pipeValid: bool): System {
    System(S.Constructed(max), C.Constructed(pipeValid), [])
  }

  predicate Linked(s: System, worker: nat) {
    exists i :: 0 <= i < |s.wires| && s.wires[i].service == ServedBy(worker)
  }

  /** Whatever does not move bytes of a connection is a step of one side alone. */
  datatype Event =
    | ServerStep(server: S.Event)
    | ClientStep(client: C.Event)
    | AdmitCall(i: nat)                          // the server admits the connection of call i
    | CallWrites(i: nat, result: WriteResult)    // call i writes
    | WorkerWrites(i: nat, result: WriteResult)  // the worker of call i writes
    | DeliverUp(i: nat, n: nat)                  // n bytes reach the worker of call i
    | DeliverDown(i: nat, n: nat)                // n bytes reach call i

  predicate Served(s: System, i: nat) {
    i < |s.wires| && s.wires[i].service.ServedBy? && s.wires[i].service.worker < |s.server.workers|
  }

  /** A step of the server alone: no bytes to or from a worker that serves one of the client's calls. */
  predicate ServerAlone(s: System, e: S.Event) {
    && (e.ByPeer? && e.peer.PeerSends? ==> !Linked(s, e.i))
    && (e.WorkerCalls? && e.call.WriteBytes? ==> !Linked(s, e.i))
  }

  /** A step of the client alone: no bytes to or from one of its calls. */
  predicate ClientAlone(e: C.Event) {
    && !(e.ByPeer? && e.peer.PeerSends?)
    && !(e.CallSteps? && e.step.WriteBytes?)
  }

  predicate Enabled(s: System, e: Event) {
    match e
    case ServerStep(a) => ServerAlone(s, a) && S.Enabled(s.server, a)
    case ClientStep(a) => ClientAlone(a) && C.Enabled(s.client, a)
    case AdmitCall(i) =>
      i < |s.wires| && s.wires[i].service.Unserved? && S.Enabled(s.server, S.ByAcceptor(S.Admit))
    case CallWrites(i, r) => i < |s.wires| && C.Enabled(s.client, C.CallSteps(i, Call.WriteBytes(r)))
    case WorkerWrites(i, r) =>
      Served(s, i) && S.Enabled(s.server, S.WorkerCalls(s.wires[i].service.worker, Worker.WriteBytes(r)))
    case DeliverUp(i, n) =>
      && Served(s, i) && n <= |s.wires[i].up|
      && S.Enabled(s.server, S.ByPeer(s.wires[i].service.worker, PeerSends(s.wires[i].up[..n])))
    case DeliverDown(i, n) =>
      && i < |s.wires| && n <= |s.wires[i].down|
      && C.Enabled(s.client, C.ByPeer(i, PeerSends(s.wires[i].down[..n])))
  }

  /** The bytes that a write put on the stream. */
  function Written(message: Block, remaining: nat, r: WriteResult): seq<Byte>
    requires remaining <= BUFFER_SIZE && WriteAllows(r, remaining)
  {
    if r.Accepted? then message[BUFFER_SIZE - remaining..BUFFER_SIZE - remaining + r.n] else []
  }

  function Apply(s: System, e: Event): System
    requires Enabled(s, e)
  {
    match e
    case ServerStep(a) => s.(server := S.Apply(s.server, a))
    case ClientStep(a) =>
      s.(client := C.Apply(s.client, a), wires := if a.Send? then s.wires + [Wire(Unserved, [], [])] else s.wires)
    case AdmitCall(i) =>
      s.(server := S.Apply(s.server, S.ByAcceptor(S.Admit)),
         wires := s.wires[i := s.wires[i].(service := ServedBy(|s.server.workers|))])
    case CallWrites(i, r) =>
      var call := s.client.calls[i];
      s.(client := C.Apply(s.client, C.CallSteps(i, Call.WriteBytes(r))),
         wires := s.wires[i := s.wires[i].(up := s.wires[i].up + Written(call.message, call.pc.remaining, r))])
    case WorkerWrites(i, r) =>
      var worker := s.wires[i].service.worker;
      var w := s.server.workers[worker];
      s.(server := S.Apply(s.server, S.WorkerCalls(worker, Worker.WriteBytes(r))),
         wires := s.wires[i := s.wires[i].(down := s.wires[i].down + Written(w.buffer, w.pc.remaining, r))])
    case DeliverUp(i, n) =>
      var wire := s.wires[i];
      s.(server := S.Apply(s.server, S.ByPeer(wire.service.worker, PeerSends(wire.up[..n]))),
         wires := s.wires[i := wire.(up := wire.up[n..])])
    case DeliverDown(i, n) =>
      var wire := s.wires[i];
      s.(client := C.Apply(s.client, C.ByPeer(i, PeerSends(wire.down[..n]))),
         wires := s.wires[i := wire.(down := wire.down[n..])])
  }

  ghost predicate IsRun(s: System, es: seq<Event>)
    decreases |es|
  {
    es == [] || (Enabled(s, es[0]) && IsRun(Apply(s, es[0]), es[1..]))
  }

  ghost function After(s: System, es: seq<Event>): System
    requires IsRun(s, es)
    decreases |es|
  {
    if es == [] then s else After(Apply(s, es[0]), es[1..])
  }

  /** A run goes on with one more event. */
  lemma {:induction false} Then(s: System, es: seq<Event>, e: Event) returns (longer: seq<Event>)
    requires IsRun(s, es) && Enabled(After(s, es), e)
    ensures longer == es + [e]
    ensures IsRun(s, longer) && After(s, longer) == Apply(After(s, es), e)
    decreases |es|
  {
    longer := es + [e];
    if es == [] {
      assert longer[1..] == [];
    } else {
      var rest := Then(Apply(s, es[0]), es[1..], e);
      assert longer[1..] == rest;
    }
  }

  // ---------------------------------------------------------------- no byte is lost, added or reordered

  function WorkerOf(s: System, wire: Wire): Worker.Worker {
    if wire.service.ServedBy? && wire.service.worker < |s.server.workers| then s.server.workers[wire.service.worker]
    else Worker.NewWorker(0)
  }

  /** The bytes one side wrote are those the other has read, those it can read, and those on their way. */
  ghost predicate StreamsOk(call: Call.Call, w: Worker.Worker, wire: Wire) {
    && call.sent == w.received + w.inbox.bytes + wire.up
    && w.sent == call.received + call.inbox.bytes + wire.down
  }

  ghost predicate Streams(s: System) {
    && |s.wires| == |s.client.calls|
    && (forall i :: 0 <= i < |s.wires| ==> StreamsOk(s.client.calls[i], WorkerOf(s, s.wires[i]), s.wires[i]))
  }

  /** A worker serves one call. */
  ghost predicate Links(s: System) {
    && (forall i :: 0 <= i < |s.wires| && s.wires[i].service.ServedBy? ==>
          s.wires[i].service.worker < |s.server.workers|)
    && (forall i, j :: 0 <= i < j < |s.wires| && s.wires[i].service.ServedBy? ==>
          s.wires[i].service != s.wires[j].service)
  }

  ghost predicate Wired(s: System) {
    Links(s) && Streams(s)
  }

  ghost predicate Inv(s: System) {
    SI.Inv(s.server) && CI.Inv(s.client) && Wired(s)
  }

  /** What a worker has read or can read, and what it has written. */
  ghost predicate SameWorkerStreams(v: Worker.Worker, w: Worker.Worker) {
    v.received + v.inbox.bytes == w.received + w.inbox.bytes && v.sent == w.sent
  }

  ghost predicate SameCallStreams(a: Call.Call, b: Call.Call) {
    a.received + a.inbox.bytes == b.received + b.inbox.bytes && a.sent == b.sent
  }

  lemma WorkerCallMovesBytes(w: Worker.Worker, c: Worker.WorkerCall, pipe: bool, now: int)
    requires Worker.WorkerEnabled(w, c, pipe, now) && !c.WriteBytes?
    ensures SameWorkerStreams(w, Worker.WorkerApply(w, c, pipe, now))
  {
    match c {
      case ReadBytes(_) =>
      case _ =>
    }
  }

  lemma CallStepMovesBytes(c: Call.Call, e: Call.CallStep, pipe: bool)
    requires Call.CallEnabled(c, e, pipe) && !e.WriteBytes?
    ensures SameCallStreams(c, Call.CallApply(c, e, pipe))
  {
    match e {
      case ReadBytes(_) =>
      case _ =>
    }
  }

  /** A step of the server alone moves bytes only within a worker. */
  lemma ServerAloneMovesBytes(s: System, e: S.Event, i: nat)
    requires S.Enabled(s.server, e) && ServerAlone(s, e)
    requires i < |s.server.workers| && Linked(s, i)
    ensures i < |S.Apply(s.server, e).workers|
    ensures SameWorkerStreams(s.server.workers[i], S.Apply(s.server, e).workers[i])
  {
    if !SI.Concerns(e, i) {
      SI.OtherWorkersKept(s.server, e, i);
    } else if e.WorkerCalls? {
      WorkerCallMovesBytes(s.server.workers[i], e.call, s.server.pipe > 0, s.server.now);
    }
  }

  lemma ServerStepKeepsStreams(s: System, e: S.Event)
    requires Wired(s) && Enabled(s, ServerStep(e))
    ensures Wired(Apply(s, ServerStep(e)))
  {
    var t := Apply(s, ServerStep(e));
    forall i | 0 <= i < |s.wires| && s.wires[i].service.ServedBy?
      ensures s.wires[i].service.worker < |t.server.workers|
      ensures SameWorkerStreams(WorkerOf(s, s.wires[i]), WorkerOf(t, s.wires[i]))
    {
      assert Linked(s, s.wires[i].service.worker);
      ServerAloneMovesBytes(s, e, s.wires[i].service.worker);
    }
  }

  /** A step of the client alone moves bytes only within a call. */
  lemma ClientAloneMovesBytes(c: C.Client, e: C.Event, i: nat)
    requires C.Enabled(c, e) && ClientAlone(e) && i < |c.calls|
    ensures i < |C.Apply(c, e).calls|
    ensures SameCallStreams(c.calls[i], C.Apply(c, e).calls[i])
  {
    if !CI.Concerns(e, i) {
      CI.OtherCallsKept(c, e, i);
    } else if e.CallSteps? {
      CallStepMovesBytes(c.calls[i], e.step, c.pipe > 0);
    } else if e.ByCall? {
      CI.CallFrame(c, i, e.call);
    }
  }

  lemma ClientStepKeepsStreams(s: System, e: C.Event)
    requires Wired(s) && Enabled(s, ClientStep(e))
    ensures Wired(Apply(s, ClientStep(e)))
  {
    var t := Apply(s, ClientStep(e));
    CI.NewCallsAreNew(s.client, e);
    forall i | 0 <= i < |s.wires| ensures SameCallStreams(s.client.calls[i], t.client.calls[i]) {
      ClientAloneMovesBytes(s.client, e, i);
    }
  }

  lemma AdmitKeepsStreams(s: System, i: nat)
    requires Wired(s) && Enabled(s, AdmitCall(i))
    ensures Wired(Apply(s, AdmitCall(i)))
  {
  }

  lemma OneWireChanges(s: System, t: System, i: nat)
    requires Wired(s) && i < |s.wires|
    requires |t.wires| == |s.wires| == |t.client.calls| && |t.server.workers| == |s.server.workers|
    requires t.wires[i].service == s.wires[i].service
    requires StreamsOk(t.client.calls[i], WorkerOf(t, t.wires[i]), t.wires[i])
    requires forall j :: 0 <= j < |s.wires| && j != i ==>
               t.wires[j] == s.wires[j] && t.client.calls[j] == s.client.calls[j]
    requires forall w :: 0 <= w < |s.server.workers| && s.wires[i].service != ServedBy(w) ==>
               t.server.workers[w] == s.server.workers[w]
    ensures Wired(t)
  {
  }

  lemma CallWriteMovesBytes(call: Call.Call, r: WriteResult, pipe: bool, w: Worker.Worker, wire: Wire)
    requires StreamsOk(call, w, wire) && Call.CallEnabled(call, Call.WriteBytes(r), pipe)
    ensures StreamsOk(Call.CallApply(call, Call.WriteBytes(r), pipe), w,
                      wire.(up := wire.up + Written(call.message, call.pc.remaining, r)))
  {
  }

  lemma WorkerWriteMovesBytes(call: Call.Call, w: Worker.Worker, r: WriteResult, pipe: bool, now: int, wire: Wire)
    requires StreamsOk(call, w, wire) && Worker.WorkerEnabled(w, Worker.WriteBytes(r), pipe, now)
    ensures StreamsOk(call, Worker.WorkerApply(w, Worker.WriteBytes(r), pipe, now),
                      wire.(down := wire.down + Written(w.buffer, w.pc.remaining, r)))
  {
  }

  lemma DeliveryUpMovesBytes(call: Call.Call, w: Worker.Worker, wire: Wire, n: nat)
    requires StreamsOk(call, w, wire) && n <= |wire.up|
    ensures StreamsOk(call, S.ApplyPeer(w, PeerSends(wire.up[..n])), wire.(up := wire.up[n..]))
  {
  }

  lemma DeliveryDownMovesBytes(call: Call.Call, w: Worker.Worker, wire: Wire, n: nat)
    requires StreamsOk(call, w, wire) && n <= |wire.down|
    ensures StreamsOk(C.ApplyPeer(call, PeerSends(wire.down[..n])), w, wire.(down := wire.down[n..]))
  {
  }

  lemma CallWriteKeepsStreams(s: System, i: nat, r: WriteResult)
    requires Wired(s) && Enabled(s, CallWrites(i, r))
    ensures Wired(Apply(s, CallWrites(i, r)))
  {
    CallWriteMovesBytes(s.client.calls[i], r, s.client.pipe > 0, WorkerOf(s, s.wires[i]), s.wires[i]);
    OneWireChanges(s, Apply(s, CallWrites(i, r)), i);
  }

  lemma WorkerWriteKeepsStreams(s: System, i: nat, r: WriteResult)
    requires Wired(s) && Enabled(s, WorkerWrites(i, r))
    ensures Wired(Apply(s, WorkerWrites(i, r)))
  {
    WorkerWriteMovesBytes(s.client.calls[i], WorkerOf(s, s.wires[i]), r, s.server.pipe > 0, s.server.now, s.wires[i]);
    OneWireChanges(s, Apply(s, WorkerWrites(i, r)), i);
  }

  lemma DeliverUpKeepsStreams(s: System, i: nat, n: nat)
    requires Wired(s) && Enabled(s, DeliverUp(i, n))
    ensures Wired(Apply(s, DeliverUp(i, n)))
  {
    DeliveryUpMovesBytes(s.client.calls[i], WorkerOf(s, s.wires[i]), s.wires[i], n);
    OneWireChanges(s, Apply(s, DeliverUp(i, n)), i);
  }

  lemma DeliverDownKeepsStreams(s: System, i: nat, n: nat)
    requires Wired(s) && Enabled(s, DeliverDown(i, n))
    ensures Wired(Apply(s, DeliverDown(i, n)))
  {
    DeliveryDownMovesBytes(s.client.calls[i], WorkerOf(s, s.wires[i]), s.wires[i], n);
    OneWireChanges(s, Apply(s, DeliverDown(i, n)), i);
  }

  /** A step that moves bytes on a connection. */
  predicate Transfers(e: Event) {
    e.CallWrites? || e.WorkerWrites? || e.DeliverUp? || e.DeliverDown?
  }

  lemma TransferKeepsStreams(s: System, e: Event)
    requires Wired(s) && Enabled(s, e) && Transfers(e)
    ensures Wired(Apply(s, e))
  {
    match e {
      case CallWrites(i, r) => CallWriteKeepsStreams(s, i, r);
      case WorkerWrites(i, r) => WorkerWriteKeepsStreams(s, i, r);
      case DeliverUp(i, n) => DeliverUpKeepsStreams(s, i, n);
      case DeliverDown(i, n) => DeliverDownKeepsStreams(s, i, n);
    }
  }

  /** A step that moves none. */
  lemma OtherStepKeepsStreams(s: System, e: Event)
    requires Wired(s) && Enabled(s, e) && !Transfers(e)
    ensures Wired(Apply(s, e))
  {
    match e {
      case ServerStep(a) => ServerStepKeepsStreams(s, a);
      case ClientStep(a) => ClientStepKeepsStreams(s, a);
      case AdmitCall(i) => AdmitKeepsStreams(s, i);
    }
  }

  lemma StepKeepsStreams(s: System, e: Event)
    requires Wired(s) && Enabled(s, e)
    ensures Wired(Apply(s, e))
  {
    if Transfers(e) {
      TransferKeepsStreams(s, e);
    } else {
      OtherStepKeepsStreams(s, e);
    }
  }

  /** A step of the system is at most one step of each side. */
  lemma StepKeepsSides(s: System, e: Event)
    requires SI.Inv(s.server) && CI.Inv(s.client) && Enabled(s, e)
    ensures SI.Inv(Apply(s, e).server) && CI.Inv(Apply(s, e).client)
  {
    match e {
      case ServerStep(a) => SI.StepKeepsInv(s.server, a);
      case ClientStep(a) => CI.EventKeepsInv(s.client, a);
      case AdmitCall(i) => SI.StepKeepsInv(s.server, S.ByAcceptor(S.Admit));
      case CallWrites(i, r) => CI.EventKeepsInv(s.client, C.CallSteps(i, Call.WriteBytes(r)));
      case WorkerWrites(i, r) =>
        SI.StepKeepsInv(s.server, S.WorkerCalls(s.wires[i].service.worker, Worker.WriteBytes(r)));
      case DeliverUp(i, n) =>
        SI.StepKeepsInv(s.server, S.ByPeer(s.wires[i].service.worker, PeerSends(s.wires[i].up[..n])));
      case DeliverDown(i, n) => CI.EventKeepsInv(s.client, C.ByPeer(i, PeerSends(s.wires[i].down[..n])));
    }
  }

  /** Every state that a run of both together reaches. */
  lemma {:induction false} RunKeepsInv(s: System, es: seq<Event>)
    requires Inv(s) && IsRun(s, es)
    ensures Inv(After(s, es))
    decreases |es|
  {
    if es != [] {
      StepKeepsStreams(s, es[0]);
      StepKeepsSides(s, es[0]);
      RunKeepsInv(Apply(s, es[0]), es[1..]);
    }
  }

  // ---------------------------------------------------------------- the contract

  lemma IntFits(n: int)
    requires -0x8000_0000 <= n < 0x8000_0000
    ensures ToInt32(n) == n
  {
  }

  lemma MessageReadsBack(n: Count)
    requires -0x8000_0000 <= n < 0x8000_0000
    ensures Worker.ReadNumber(Call.Message(n)) == n
  {
    Decimal.DecimalRoundTrip(n, Zeros());
    IntFits(n);
  }

  /** The worker that a message with delay `n` reaches answers with `n + 1`. */
  lemma ReplyIsOneMore(n: Count)
    requires -0x8000_0000 <= n < 0x7fff_ffff
    ensures Worker.ReadNumber(Worker.Reply(Call.Message(n))) == n + 1
  {
    MessageReadsBack(n);
    IntFits(n + 1);
    Decimal.DecimalRoundTrip(n + 1, Call.Message(n));
  }

  /** The two sides of a connection send each other a block at most, and so stay inside their buffers. */
  lemma PairStaysInBuffers(call: Call.Call, w: Worker.Worker, wire: Wire, now: int)
    requires Call.CallOk(call) && Worker.WorkerOk(w, now) && StreamsOk(call, w, wire)
    ensures |w.received| + |w.inbox.bytes| <= BUFFER_SIZE && !w.overrun
    ensures |call.received| + |call.inbox.bytes| <= BUFFER_SIZE && !call.overrun
  {
    assert |call.sent| <= BUFFER_SIZE;
    assert !w.overrun;
  }

  /** A call that has read a whole block has read the reply of a worker that had read the whole message. */
  lemma SuccessMeansReply(call: Call.Call, w: Worker.Worker, wire: Wire, now: int)
    requires Call.CallOk(call) && Worker.WorkerOk(w, now) && StreamsOk(call, w, wire)
    requires Call.Result(call, true)
    ensures w.attempts == 1
    ensures w.received == Call.Message(call.asked)
    ensures call.received == Worker.Reply(Call.Message(call.asked))
    ensures call.delay == Worker.ReadNumber(call.received)
  {
    PairStaysInBuffers(call, w, wire, now);
  }

  lemma ContractOfPair(call: Call.Call, w: Worker.Worker, wire: Wire, now: int)
    requires Call.CallOk(call) && Worker.WorkerOk(w, now) && StreamsOk(call, w, wire)
    requires -2147483 <= call.asked <= 2147483
    ensures Call.Result(call, true) ==>
              && call.delay == call.asked + 1 && call.asked >= 0
              && w.attempts == 1 && w.readAt + 1000 * call.asked <= w.sleptUntil <= now
    ensures !Call.Result(call, true) ==> call.delay == call.asked
  {
    if Call.Result(call, true) {
      SuccessMeansReply(call, w, wire, now);
      MessageReadsBack(call.asked);
      ReplyIsOneMore(call.asked);
      Worker.SleepIsExact(call.asked);
    }
  }

  lemma Reached(max: nat, pipeValid: bool, es: seq<Event>)
    requires max < SIZE_T_MODULUS && IsRun(Start(max, pipeValid), es)
    ensures Inv(After(Start(max, pipeValid), es))
  {
    SI.ConstructedIsSound(max);
    CI.ConstructedIsSound(pipeValid);
    RunKeepsInv(Start(max, pipeValid), es);
  }

  /**
   Nobody overruns. In every run of client and server together no call stores a byte behind its buffer, however its
   reply is cut, nor does the worker that serves it.
   */
  lemma NobodyOverruns(max: nat, pipeValid: bool, es: seq<Event>, i: nat)
    requires max < SIZE_T_MODULUS && IsRun(Start(max, pipeValid), es)
    requires i < |After(Start(max, pipeValid), es).client.calls|
    ensures var s := After(Start(max, pipeValid), es);
            !s.client.calls[i].overrun && (Served(s, i) ==> !s.server.workers[s.wires[i].service.worker].overrun)
  {
    Reached(max, pipeValid, es);
    var s := After(Start(max, pipeValid), es);
    var w := WorkerOf(s, s.wires[i]);
    Worker.NewWorkerOk(0, s.server.now);
    assert Worker.WorkerOk(w, s.server.now);
    PairStaysInBuffers(s.client.calls[i], w, s.wires[i], s.server.now);
  }

  /**
   The contract of sendDelayToServer. In every run of client and server together, a call that was given a delay in
   0..2147483 and returned true has made it one more, and the worker that answered it slept at least that many
   milliseconds; any other call, under way or returned false, has left the delay alone. A negative delay is never
   answered with true.
   */
  lemma DelayContract(max: nat, pipeValid: bool, es: seq<Event>, i: nat)
    requires max < SIZE_T_MODULUS && IsRun(Start(max, pipeValid), es)
    requires i < |After(Start(max, pipeValid), es).client.calls|
    requires -2147483 <= After(Start(max, pipeValid), es).client.calls[i].asked <= 2147483
    ensures var s := After(Start(max, pipeValid), es);
            var call := s.client.calls[i];
            && (call.pc == Call.Returned(true) ==>
                  && call.delay == call.asked + 1 && 0 <= call.asked
                  && Served(s, i)
                  && var w := s.server.workers[s.wires[i].service.worker];
                     w.readAt + 1000 * call.asked <= w.sleptUntil <= s.server.now)
            && (call.pc != Call.Returned(true) && call.pc != Call.Closing(true) ==> call.delay == call.asked)
  {
    Reached(max, pipeValid, es);
    var s := After(Start(max, pipeValid), es);
    var w := WorkerOf(s, s.wires[i]);
    Worker.NewWorkerOk(0, s.server.now);
    assert Worker.WorkerOk(w, s.server.now);
    ContractOfPair(s.client.calls[i], w, s.wires[i], s.server.now);
  }
}
