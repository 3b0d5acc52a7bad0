/**
 The other half of the contract: for every delay in 0..2147483 there is a run of client and server in which the call
 returns true. With DelayContract this says exactly which delays can be answered.
 */
module Answered {
  import opened Bytes
  import opened Common
  import opened EndToEnd
  import Worker
  import Call
  import S = ServerProtocol
  import C = ClientProtocol

  lemma ServerThen(s: System, es: seq<Event>, e: S.Event) returns (longer: seq<Event>, server: S.Server)
    requires IsRun(s, es) && S.Enabled(After(s, es).server, e) && ServerAlone(After(s, es), e)
    ensures IsRun(s, longer) && After(s, longer) == After(s, es).(server := server)
    ensures server == S.Apply(After(s, es).server, e)
  {
    longer := Then(s, es, ServerStep(e));
    server := S.Apply(After(s, es).server, e);
  }

  lemma ClientThen(s: System, es: seq<Event>, e: C.Event) returns (longer: seq<Event>, client: C.Client)
    requires IsRun(s, es) && C.Enabled(After(s, es).client, e) && ClientAlone(e) && !e.Send?
    ensures IsRun(s, longer) && After(s, longer) == After(s, es).(client := client)
    ensures client == C.Apply(After(s, es).client, e)
  {
    longer := Then(s, es, ClientStep(e));
    client := C.Apply(After(s, es).client, e);
  }

  /** The call as it waits to write. */
  function Waiting(delay: Count): Call.Call {
    Call.NewCall(delay).(pc := Call.AwaitWritable, fd := 3, created := 1)
  }

  function Listening(max: nat): S.Server {
    S.Constructed(max).(isRunning := true, quit := false, acceptor := S.Polling, stopper := S.Idle)
  }

  function Connected(call: Call.Call): C.Client {
    C.Constructed(true).(connections := 1, descriptors := {3}, calls := [call])
  }

  function Serving(max: nat, w: Worker.Worker): S.Server {
    Listening(max).(current := 1, descriptors := {7}, accepted := 1, workers := [w])
  }

  lemma CallBegins(max: nat, delay: Count) returns (es: seq<Event>)
    requires 0 < max < SIZE_T_MODULUS
    ensures IsRun(Start(max, true), es)
    ensures After(Start(max, true), es) ==
            System(Listening(max), C.Constructed(true).(calls := [Call.NewCall(delay)]), [Wire(Unserved, [], [])])
  {
    var s := Start(max, true);
    var server;
    es, server := ServerThen(s, [], S.ByApplication(S.StartServer(true)));
    es := Then(s, es, ClientStep(C.Send(delay)));
  }

  lemma CallConnects(max: nat, delay: Count) returns (es: seq<Event>)
    requires 0 < max < SIZE_T_MODULUS
    ensures IsRun(Start(max, true), es)
    ensures After(Start(max, true), es) == System(Listening(max), Connected(Waiting(delay)), [Wire(Unserved, [], [])])
  {
    var s := Start(max, true);
    var client;
    es := CallBegins(max, delay);
    es, client := ClientThen(s, es, C.ByCall(0, C.CreateSocket(C.NewSocket(3))));
    es, client := ClientThen(s, es, C.CallSteps(0, Call.Connect(true)));
    es, client := ClientThen(s, es, C.ByCall(0, C.CheckPipe));
    es, client := ClientThen(s, es, C.ByCall(0, C.CountIn));
  }

  function Asked(delay: Count): Call.Call {
    var m := Call.Message(delay);
    Waiting(delay).(pc := Call.AwaitReply, writable := true, message := m, sent := m)
  }

  lemma CallWritesMessage(max: nat, delay: Count) returns (es: seq<Event>)
    requires 0 < max < SIZE_T_MODULUS
    ensures IsRun(Start(max, true), es)
    ensures After(Start(max, true), es) ==
            System(Listening(max), Connected(Asked(delay)), [Wire(Unserved, Call.Message(delay), [])])
  {
    var s, m := Start(max, true), Call.Message(delay);
    var client;
    es := CallConnects(max, delay);
    es, client := ClientThen(s, es, C.ByPeer(0, PeerDrains));
    es, client := ClientThen(s, es, C.CallSteps(0, Call.SelectWritable(Ready(false, true))));
    assert m[0..BUFFER_SIZE] == m && [] + m == m;
    es := Then(s, es, CallWrites(0, Accepted(BUFFER_SIZE)));
  }

  lemma ServerAccepts(max: nat, delay: Count) returns (es: seq<Event>)
    requires 0 < max < SIZE_T_MODULUS
    ensures IsRun(Start(max, true), es)
    ensures After(Start(max, true), es) ==
            System(Listening(max).(acceptor := S.Admitting(7), descriptors := {7}, accepted := 1),
                   Connected(Asked(delay)), [Wire(Unserved, Call.Message(delay), [])])
  {
    var s := Start(max, true);
    var server;
    es := CallWritesMessage(max, delay);
    es, server := ServerThen(s, es, S.ByAcceptor(S.Poll(Ready(false, true))));
    es, server := ServerThen(s, es, S.ByAcceptor(S.Accept(S.Connection(7))));
    es, server := ServerThen(s, es, S.ByAcceptor(S.CheckCapacity));
  }

  lemma ServerAdmits(max: nat, delay: Count) returns (es: seq<Event>)
    requires 0 < max < SIZE_T_MODULUS
    ensures IsRun(Start(max, true), es)
    ensures After(Start(max, true), es) ==
            System(Serving(max, Worker.NewWorker(7)), Connected(Asked(delay)),
                   [Wire(ServedBy(0), Call.Message(delay), [])])
  {
    es := ServerAccepts(max, delay);
    es := Then(Start(max, true), es, AdmitCall(0));
  }

  lemma MessageArrives(max: nat, delay: Count) returns (es: seq<Event>)
    requires 0 < max < SIZE_T_MODULUS
    ensures IsRun(Start(max, true), es)
    ensures After(Start(max, true), es) ==
            System(Serving(max, Worker.NewWorker(7).(inbox := Inbox(Call.Message(delay), false))),
                   Connected(Asked(delay)), [Wire(ServedBy(0), [], [])])
  {
    var m := Call.Message(delay);
    es := ServerAdmits(max, delay);
    assert m[..BUFFER_SIZE] == m && [] + m == m && m[BUFFER_SIZE..] == [];
    es := Then(Start(max, true), es, DeliverUp(0, BUFFER_SIZE));
  }

  /** The worker as it begins to sleep. */
  function Asleep(delay: Count): Worker.Worker {
    var m := Call.Message(delay);
    Worker.NewWorker(7).(pc := Worker.Sleeping(Worker.SleepMicros(delay)), buffer := m, received := m, asked := delay)
  }

  /** The worker as it begins to read. */
  lemma WorkerIsToRead(max: nat, delay: Count) returns (es: seq<Event>)
    requires 0 < max < SIZE_T_MODULUS
    ensures IsRun(Start(max, true), es)
    ensures var w := Worker.NewWorker(7).(pc := Worker.Receiving(0), inbox := Inbox(Call.Message(delay), false));
            After(Start(max, true), es) ==
            System(Serving(max, w), Connected(Asked(delay)), [Wire(ServedBy(0), [], [])])
  {
    var server;
    es := MessageArrives(max, delay);
    es, server := ServerThen(Start(max, true), es, S.WorkerCalls(0, Worker.SelectMessage(Ready(false, true))));
  }

  lemma WorkerReads(max: nat, delay: Count) returns (es: seq<Event>)
    requires 0 < max < SIZE_T_MODULUS && 0 <= delay <= 2147483
    ensures IsRun(Start(max, true), es)
    ensures After(Start(max, true), es) ==
            System(Serving(max, Asleep(delay)), Connected(Asked(delay)), [Wire(ServedBy(0), [], [])])
  {
    var s, m := Start(max, true), Call.Message(delay);
    var server;
    es := WorkerIsToRead(max, delay);
    MessageReadsBack(delay);
    assert Store(Zeros(), 0, m) == m && [] + m == m && m[BUFFER_SIZE..] == [];
    es, server := ServerThen(s, es, S.WorkerCalls(0, Worker.ReadBytes(Data(m))));
  }

  /** Time passes. */
  lemma {:induction false} TimePasses(s: System, es: seq<Event>, n: nat) returns (longer: seq<Event>)
    requires IsRun(s, es)
    ensures IsRun(s, longer)
    ensures var t := After(s, es); After(s, longer) == t.(server := t.server.(now := t.server.now + n))
    decreases n
  {
    longer := es;
    if n > 0 {
      longer := TimePasses(s, es, n - 1);
      var server;
      longer, server := ServerThen(s, longer, S.Tick);
    }
  }

  /** The worker with its reply, and the reply. */
  function Replying(delay: Count): Worker.Worker {
    var w := Asleep(delay);
    w.(pc := Worker.AwaitWritable, buffer := Worker.Reply(w.buffer), sleptUntil := Worker.SleepMicros(delay),
       writable := true)
  }

  lemma WorkerSleeps(max: nat, delay: Count) returns (es: seq<Event>)
    requires 0 < max < SIZE_T_MODULUS && 0 <= delay <= 2147483
    ensures IsRun(Start(max, true), es)
    ensures After(Start(max, true), es) ==
            System(Serving(max, Replying(delay)).(now := Worker.SleepMicros(delay)), Connected(Asked(delay)),
                   [Wire(ServedBy(0), [], [])])
  {
    var s := Start(max, true);
    var server;
    Worker.SleepIsExact(delay);
    es := WorkerReads(max, delay);
    es := TimePasses(s, es, Worker.SleepMicros(delay));
    es, server := ServerThen(s, es, S.WorkerCalls(0, Worker.SelectSleep(Expired)));
    es, server := ServerThen(s, es, S.ByPeer(0, PeerDrains));
  }

  lemma WorkerReplies(max: nat, delay: Count) returns (es: seq<Event>)
    requires 0 < max < SIZE_T_MODULUS && 0 <= delay <= 2147483
    ensures IsRun(Start(max, true), es)
    ensures var s := After(Start(max, true), es);
            && s.client == Connected(Asked(delay))
            && s.wires == [Wire(ServedBy(0), [], Worker.Reply(Call.Message(delay)))]
  {
    var s, r := Start(max, true), Worker.Reply(Call.Message(delay));
    var server;
    es := WorkerSleeps(max, delay);
    es, server := ServerThen(s, es, S.WorkerCalls(0, Worker.SelectWritable(Ready(false, true))));
    assert r[0..BUFFER_SIZE] == r && [] + r == r;
    es := Then(s, es, WorkerWrites(0, Accepted(BUFFER_SIZE)));
  }

  lemma ReplyArrives(max: nat, delay: Count) returns (es: seq<Event>)
    requires 0 < max < SIZE_T_MODULUS && 0 <= delay <= 2147483
    ensures IsRun(Start(max, true), es)
    ensures After(Start(max, true), es).client ==
            Connected(Asked(delay).(inbox := Inbox(Worker.Reply(Call.Message(delay)), false)))
  {
    var s, r := Start(max, true), Worker.Reply(Call.Message(delay));
    es := WorkerReplies(max, delay);
    assert r[..BUFFER_SIZE] == r && [] + r == r;
    es := Then(s, es, DeliverDown(0, BUFFER_SIZE));
  }

  /** The call as it begins to read. */
  lemma CallIsToRead(max: nat, delay: Count) returns (es: seq<Event>)
    requires 0 < max < SIZE_T_MODULUS && 0 <= delay <= 2147483
    ensures IsRun(Start(max, true), es)
    ensures After(Start(max, true), es).client ==
            Connected(Asked(delay).(pc := Call.Receiving(0), message := Zeros(),
                                    inbox := Inbox(Worker.Reply(Call.Message(delay)), false)))
  {
    var client;
    es := ReplyArrives(max, delay);
    es, client := ClientThen(Start(max, true), es, C.CallSteps(0, Call.SelectReply(Ready(false, true))));
  }

  /** The call has read its reply and is about to close. */
  lemma CallReads(max: nat, delay: Count) returns (es: seq<Event>)
    requires 0 < max < SIZE_T_MODULUS && 0 <= delay <= 2147483
    ensures IsRun(Start(max, true), es)
    ensures var calls := After(Start(max, true), es).client.calls;
            |calls| == 1 && calls[0].asked == delay && calls[0].pc == Call.Closing(true) && calls[0].delay == delay + 1
  {
    var s, r := Start(max, true), Worker.Reply(Call.Message(delay));
    var client;
    es := CallIsToRead(max, delay);
    ReplyIsOneMore(delay);
    assert Store(Zeros(), 0, r) == r;
    es, client := ClientThen(s, es, C.CallSteps(0, Call.ReadBytes(Data(r))));
  }

  /** The delay can be answered: here is a run in which it is. */
  lemma DelayIsAnswered(max: nat, delay: Count) returns (es: seq<Event>)
    requires 0 < max < SIZE_T_MODULUS && 0 <= delay <= 2147483
    ensures IsRun(Start(max, true), es)
    ensures var calls := After(Start(max, true), es).client.calls;
            |calls| == 1 && calls[0].asked == delay && calls[0].pc == Call.Returned(true) && calls[0].delay == delay + 1
  {
    var client;
    es := CallReads(max, delay);
    es, client := ClientThen(Start(max, true), es, C.ByCall(0, C.CloseAndNotify));
  }

  /** A call with this delay returns true at the end of this run. */
  ghost predicate Answers(max: nat, delay: Count, es: seq<Event>, i: nat) {
    && IsRun(Start(max, true), es)
    && i < |After(Start(max, true), es).client.calls|
    && After(Start(max, true), es).client.calls[i].asked == delay
    && After(Start(max, true), es).client.calls[i].pc == Call.Returned(true)
  }

  /** Of all delays whose microseconds an `int` can hold, exactly those that are not negative can be answered. */
  lemma AnswerableDelays(max: nat, delay: Count)
    requires 0 < max < SIZE_T_MODULUS && -2147483 <= delay <= 2147483
    ensures (exists es, i :: Answers(max, delay, es, i)) <==> 0 <= delay
  {
    if 0 <= delay {
      var es := DelayIsAnswered(max, delay);
      assert Answers(max, delay, es, 0);
    }
    forall es, i | Answers(max, delay, es, i) ensures 0 <= delay {
      DelayContract(max, true, es, i);
    }
  }
}
