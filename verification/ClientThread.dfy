/**
 `Client::sendDelayToServer` as the sequential code that one thread runs, on arrays and a socket; and the proof that
 this code and the call of the protocol are the same: on the same answers of the kernel they come to the same, in every
 run, and there is a run with all answers that are possible.
 */
module ClientThread {
  import opened Bytes
  import opened Common
  import opened Call
  import Decimal
  import Measures
  import C = ClientProtocol
  import I = ClientInvariants
  import T = ClientTheorems
  import ClientStop

  /** What the system calls before the first select answer, and the two selects. */
  datatype Answers = Answers(created: bool, connected: bool, pipeValid: bool, writable: Selected, reply: Selected)

  /** `arrivals` and `grants` are the answers of the socket that the call does not ask for. */
  datatype Outcome = Outcome(
    ok: bool,
    delay: Count,
    sent: seq<Byte>,
    closes: nat,
    arrivals: seq<ReadResult>,
    grants: seq<WriteResult>)

  /** From a read of the reply on. */
  ghost function FromRead(delay: Count, sent: seq<Byte>, read: ReadOutcome, grants: seq<WriteResult>): Outcome {
    Outcome(read.ok, if read.ok then ToInt32(Decimal.Atoi(read.buffer)) else delay, sent, 1, read.rest, grants)
  }

  /** From the second select on. */
  ghost function FromReply(delay: Count, sent: seq<Byte>, arrivals: seq<ReadResult>, grants: seq<WriteResult>,
                           reply: Selected): Outcome {
    if reply == Ready(false, true) then FromRead(delay, sent, ReadLoop(arrivals, 0, Zeros()), grants)
    else Outcome(false, delay, sent, 1, arrivals, grants)
  }

  /** From the end of writeMessage on; `whole` tells whether it got everything on the stream. */
  ghost function FromWrites(delay: Count, sent: seq<Byte>, whole: bool, arrivals: seq<ReadResult>,
                            grants: seq<WriteResult>, reply: Selected): Outcome {
    if whole then FromReply(delay, sent, arrivals, grants, reply)
    else Outcome(false, delay, sent, 1, arrivals, grants)
  }

  /** From the first select on. */
  ghost function FromSelect(delay: Count, sent: seq<Byte>, arrivals: seq<ReadResult>, grants: seq<WriteResult>,
                            a: Answers): Outcome {
    if a.writable == Ready(false, true) then
      var n := WriteLoop(grants, BUFFER_SIZE);
      FromWrites(delay, sent + Message(delay)[..n], n == BUFFER_SIZE, arrivals, WriteRest(grants, BUFFER_SIZE), a.reply)
    else Outcome(false, delay, sent, 1, arrivals, grants)
  }

  /** What a call comes to whose thread and socket get these answers. */
  ghost function Comes(delay: Count, arrivals: seq<ReadResult>, grants: seq<WriteResult>, a: Answers): Outcome {
    if !a.created then Outcome(false, delay, [], 0, arrivals, grants)
    else if !a.connected || !a.pipeValid then Outcome(false, delay, [], 1, arrivals, grants)
    else FromSelect(delay, [], arrivals, grants, a)
  }

  /** The call gets as far as to read the reply. */
  ghost predicate ReadsReply(grants: seq<WriteResult>, a: Answers) {
    && a.created && a.connected && a.pipeValid && a.writable == Ready(false, true)
    && WriteLoop(grants, BUFFER_SIZE) == BUFFER_SIZE && a.reply == Ready(false, true)
  }

  /** Sends the delay and waits for the answer. On every path it closes once the socket that it created. */
  method SendDelayToServer(socket: Socket, delay: Count, a: Answers) returns (ok: bool, serverDelay: Count)
    modifies socket
    ensures var out := Comes(delay, old(socket.arrivals), old(socket.grants), a);
            && ok == out.ok && serverDelay == out.delay
            && socket.sent == old(socket.sent) + out.sent
            && socket.closes == old(socket.closes) + out.closes
            && socket.arrivals == out.arrivals && socket.grants == out.grants
    ensures socket.overrun ==
            (old(socket.overrun) || (ReadsReply(old(socket.grants), a) && !StaysInBuffer(old(socket.arrivals), 0)))
  {
    ghost var arrivals, grants := socket.arrivals, socket.grants;
    ok, serverDelay := false, delay;
    if !a.created {
      return;
    }
    if !a.connected || !a.pipeValid {
      socket.Close();
      return;
    }
    if !a.writable.Ready? || a.writable.pipe || !a.writable.socket {
      socket.Close();
      return;
    }
    var message := new Byte[BUFFER_SIZE](_ => NUL);
    assert message[..] == Zeros();
    Decimal.TextFits(serverDelay);
    Decimal.CopyText(message, Decimal.ToString(serverDelay));
    assert message[..] == Message(delay);
    var written := WriteMessage(socket, message);
    ghost var sent := Message(delay)[..WriteLoop(grants, BUFFER_SIZE)];
    assert Comes(delay, arrivals, grants, a) == FromWrites(delay, sent, written, arrivals, socket.grants, a.reply);
    if !written {
      socket.Close();
      return;
    }
    if !a.reply.Ready? || a.reply.pipe || !a.reply.socket {
      socket.Close();
      return;
    }
    var read := ReadMessage(socket, message);
    if !read {
      socket.Close();
      return;
    }
    serverDelay := ToInt32(Decimal.Atoi(message[..]));
    socket.Close();
    ok := true;
  }

  /**
   When it returns true: exactly if the socket was created and connected, there was a pipe, both selects found the
   socket ready and no stop byte, the writes took a whole block, and the first read delivered one.
   */
  lemma SendIsTrueExactly(delay: Count, arrivals: seq<ReadResult>, grants: seq<WriteResult>, a: Answers)
    requires KernelReads(arrivals) && StaysInBuffer(arrivals, 0)
    ensures Comes(delay, arrivals, grants, a).ok <==>
            && a.created && a.connected && a.pipeValid
            && a.writable == a.reply == Ready(false, true)
            && AcceptedBytes(grants) >= BUFFER_SIZE
            && NextRead(arrivals).Data? && |NextRead(arrivals).bytes| == BUFFER_SIZE
    ensures !Comes(delay, arrivals, grants, a).ok ==> Comes(delay, arrivals, grants, a).delay == delay
  {
    WriteLoopDelivers(grants, BUFFER_SIZE);
    FirstReadDecides(arrivals, Zeros());
  }

  // ---------------------------------------------------------------- the answers that a call gets

  /** The answers still to come; `remaining` are the bytes that the writes have left to write. */
  datatype Tape = Tape(a: Answers, arrivals: seq<ReadResult>, grants: seq<WriteResult>, remaining: nat)

  /** This step gets the next answer of its kind. */
  predicate Hears(t: Tape, e: C.Event) {
    match e
    case ByCall(_, CreateSocket(r)) => r.NewSocket? == t.a.created
    case CallSteps(_, Connect(ok)) => ok == t.a.connected
    case CallSteps(_, SelectWritable(r)) => r == t.a.writable
    case CallSteps(_, WriteBytes(r)) => r == NextWrite(t.grants, t.remaining)
    case CallSteps(_, SelectReply(r)) => r == t.a.reply
    case CallSteps(_, ReadBytes(r)) => r == NextRead(t.arrivals)
    case _ => true
  }

  /** The answers to come after it. */
  function Next(t: Tape, e: C.Event): Tape {
    match e
    case CallSteps(_, ReadBytes(_)) => t.(arrivals := Rest(t.arrivals))
    case CallSteps(_, WriteBytes(r)) =>
      t.(grants := Rest(t.grants), remaining := if r.Accepted? && r.n <= t.remaining then t.remaining - r.n else 0)
    case _ => t
  }

  ghost predicate HearsAll(t: Tape, steps: seq<C.Event>)
    decreases |steps|
  {
    steps == [] || (Hears(t, steps[0]) && HearsAll(Next(t, steps[0]), steps[1..]))
  }

  ghost function Left(t: Tape, steps: seq<C.Event>): Tape
    decreases |steps|
  {
    if steps == [] then t else Left(Next(t, steps[0]), steps[1..])
  }

  /** The steps of call `i` in a run, in order, with their answers. */
  function OwnSteps(es: seq<C.Event>, i: nat): seq<C.Event> {
    if es == [] then [] else (if ClientStop.StepOf(es[0], i) then [es[0]] else []) + OwnSteps(es[1..], i)
  }

  lemma OwnStepsBegin(e: C.Event, rest: seq<C.Event>, i: nat, t: Tape)
    ensures var own := ClientStop.StepOf(e, i);
            && (HearsAll(t, OwnSteps([e] + rest, i)) <==>
                  if own then Hears(t, e) && HearsAll(Next(t, e), OwnSteps(rest, i))
                  else HearsAll(t, OwnSteps(rest, i)))
            && Left(t, OwnSteps([e] + rest, i)) == Left(if own then Next(t, e) else t, OwnSteps(rest, i))
  {
    assert ([e] + rest)[1..] == rest;
    if ClientStop.StepOf(e, i) {
      assert ([e] + OwnSteps(rest, i))[1..] == OwnSteps(rest, i);
    } else {
      assert [] + OwnSteps(rest, i) == OwnSteps(rest, i);
    }
  }

  // ---------------------------------------------------------------- they decide what it comes to

  /** A call and the answers to come agree on what it has to write; it has closed only if it has returned. */
  ghost predicate Fits(c: Call, t: Tape) {
    && (!c.pc.Returned? ==> c.closes == 0)
    && (c.pc.Sending? ==> 0 < c.pc.remaining == t.remaining <= BUFFER_SIZE)
    && (c.pc.Creating? || c.pc.Connecting? || c.pc.CheckingPipe? || c.pc.Counting? || c.pc.AwaitWritable? ==>
          t.remaining == BUFFER_SIZE)
  }

  /** All that a call has sent when its loop of writeMessage is over. */
  ghost function SentInAll(c: Call, grants: seq<WriteResult>): seq<Byte>
    requires c.pc.Sending? && 0 < c.pc.remaining <= BUFFER_SIZE
  {
    var from := BUFFER_SIZE - c.pc.remaining;
    c.sent + c.message[from..from + WriteLoop(grants, c.pc.remaining)]
  }

  /** What it is to come to. */
  ghost function Destined(c: Call, t: Tape): Outcome
    requires Fits(c, t)
  {
    match c.pc
    case Creating =>
      if !t.a.created then Outcome(false, c.delay, c.sent, 0, t.arrivals, t.grants)
      else if !t.a.connected || !t.a.pipeValid then Outcome(false, c.delay, c.sent, 1, t.arrivals, t.grants)
      else FromSelect(c.delay, c.sent, t.arrivals, t.grants, t.a)
    case Connecting =>
      if !t.a.connected || !t.a.pipeValid then Outcome(false, c.delay, c.sent, 1, t.arrivals, t.grants)
      else FromSelect(c.delay, c.sent, t.arrivals, t.grants, t.a)
    case CheckingPipe =>
      if !t.a.pipeValid then Outcome(false, c.delay, c.sent, 1, t.arrivals, t.grants)
      else FromSelect(c.delay, c.sent, t.arrivals, t.grants, t.a)
    case Dropping => Outcome(false, c.delay, c.sent, 1, t.arrivals, t.grants)
    case Counting => FromSelect(c.delay, c.sent, t.arrivals, t.grants, t.a)
    case AwaitWritable => FromSelect(c.delay, c.sent, t.arrivals, t.grants, t.a)
    case Sending(remaining) =>
      FromWrites(c.delay, SentInAll(c, t.grants), WriteLoop(t.grants, remaining) == remaining, t.arrivals,
                 WriteRest(t.grants, remaining), t.a.reply)
    case AwaitReply => FromReply(c.delay, c.sent, t.arrivals, t.grants, t.a.reply)
    case Receiving(position) => FromRead(c.delay, c.sent, ReadLoop(t.arrivals, position, c.message), t.grants)
    case Closing(ok) => Outcome(ok, c.delay, c.sent, 1, t.arrivals, t.grants)
    case Returned(ok) => Outcome(ok, c.delay, c.sent, c.closes, t.arrivals, t.grants)
  }

  /** `d` is `c` after this write. */
  ghost predicate Wrote(c: Call, d: Call, r: WriteResult) {
    && c.pc.Sending? && c.pc.remaining <= BUFFER_SIZE && WriteAllows(r, c.pc.remaining)
    && d.message == c.message && d.closes == c.closes && d.delay == c.delay && d.inbox == c.inbox
    && (var from := BUFFER_SIZE - c.pc.remaining;
        d.sent == c.sent + c.message[from..from + if r.Accepted? then r.n else 0])
    && d.pc == match AfterWrite(c.pc.remaining, r)
               case MoreToWrite(remaining) => Sending(remaining)
               case Delivered => AwaitReply
               case Lost => Closing(false)
  }

  lemma WriteOnce(c: Call, r: WriteResult, pipe: bool)
    requires c.pc.Sending? && c.pc.remaining <= BUFFER_SIZE && WriteAllows(r, c.pc.remaining)
    ensures CallEnabled(c, WriteBytes(r), pipe) && Wrote(c, CallApply(c, WriteBytes(r), pipe), r)
  {
  }

  /** One write on, a call is to send the same. */
  lemma OneWriteOn(call: Call, d: Call, grants: seq<WriteResult>)
    requires call.pc.Sending? && 0 < call.pc.remaining && Wrote(call, d, NextWrite(grants, call.pc.remaining))
    ensures var whole := WriteLoop(grants, call.pc.remaining) == call.pc.remaining;
            match d.pc
            case Sending(left) =>
              && SentInAll(call, grants) == SentInAll(d, Rest(grants))
              && (whole <==> WriteLoop(Rest(grants), left) == left)
            case AwaitReply => SentInAll(call, grants) == d.sent && whole
            case _ => SentInAll(call, grants) == d.sent && !whole
  {
    var from, r := BUFFER_SIZE - call.pc.remaining, NextWrite(grants, call.pc.remaining);
    if d.pc.Sending? {
      SlicesJoin(call.message, from, from + r.n, from + WriteLoop(grants, call.pc.remaining));
    }
  }

  lemma WrittenGoesOn(c: Call, d: Call, t: Tape, i: nat, r: WriteResult)
    requires Fits(c, t) && Hears(t, C.CallSteps(i, WriteBytes(r))) && Wrote(c, d, r)
    ensures var u := Next(t, C.CallSteps(i, WriteBytes(r))); Fits(d, u) && Destined(d, u) == Destined(c, t)
  {
    OneWriteOn(c, d, t.grants);
  }

  lemma WriteGoesOn(c: Call, t: Tape, i: nat, r: WriteResult, pipe: bool)
    requires var e := C.CallSteps(i, WriteBytes(r)); Fits(c, t) && Hears(t, e) && CallEnabled(c, e.step, pipe)
    ensures var d, u := CallApply(c, WriteBytes(r), pipe), Next(t, C.CallSteps(i, WriteBytes(r)));
            Fits(d, u) && Destined(d, u) == Destined(c, t)
  {
    WriteOnce(c, r, pipe);
    WrittenGoesOn(c, CallApply(c, WriteBytes(r), pipe), t, i, r);
  }

  lemma ReadGoesOn(c: Call, t: Tape, i: nat, r: ReadResult, pipe: bool)
    requires var e := C.CallSteps(i, ReadBytes(r)); Fits(c, t) && Hears(t, e) && CallEnabled(c, e.step, pipe)
    ensures var d, u := CallApply(c, ReadBytes(r), pipe), Next(t, C.CallSteps(i, ReadBytes(r)));
            Fits(d, u) && Destined(d, u) == Destined(c, t)
  {
  }

  lemma SelectGoesOn(c: Call, t: Tape, i: nat, s: CallStep, pipe: bool)
    requires s.Connect? || s.SelectWritable? || s.SelectReply?
    requires Fits(c, t) && Hears(t, C.CallSteps(i, s)) && CallEnabled(c, s, pipe)
    ensures var d := CallApply(c, s, pipe); Fits(d, t) && Destined(d, t) == Destined(c, t)
  {
    match s {
      case Connect(_) =>
      case SelectReply(_) =>
      case SelectWritable(_) =>
        assert [] + Message(c.delay) == Message(c.delay);
    }
  }

  lemma EventGoesOn(c: C.Client, t: Tape, i: nat, e: C.CallEvent)
    requires i < |c.calls| && C.CallEventEnabled(c, c.calls[i], e) && c.pipeValid == t.a.pipeValid
    requires Fits(c.calls[i], t) && Hears(t, C.ByCall(i, e))
    ensures var d := C.ApplyCall(c, i, e).calls[i]; Fits(d, t) && Destined(d, t) == Destined(c.calls[i], t)
  {
    match e {
      case CreateSocket(_) =>
      case CheckPipe =>
      case Drop =>
      case CountIn =>
      case CloseAndNotify =>
    }
  }

  lemma SystemCallGoesOn(c: Call, t: Tape, i: nat, s: CallStep, pipe: bool)
    requires Fits(c, t) && Hears(t, C.CallSteps(i, s)) && CallEnabled(c, s, pipe)
    ensures var d, u := CallApply(c, s, pipe), Next(t, C.CallSteps(i, s));
            Fits(d, u) && Destined(d, u) == Destined(c, t)
  {
    match s {
      case WriteBytes(r) => WriteGoesOn(c, t, i, r, pipe);
      case ReadBytes(r) => ReadGoesOn(c, t, i, r, pipe);
      case _ => SelectGoesOn(c, t, i, s, pipe);
    }
  }

  /** Every answer that a call gets leaves it destined to the same. */
  lemma StepGoesOn(c: C.Client, t: Tape, i: nat, e: C.Event)
    requires C.Enabled(c, e) && i < |c.calls| && ClientStop.StepOf(e, i) && c.pipeValid == t.a.pipeValid
    requires Fits(c.calls[i], t) && Hears(t, e)
    ensures var d := C.Apply(c, e).calls[i]; Fits(d, Next(t, e)) && Destined(d, Next(t, e)) == Destined(c.calls[i], t)
  {
    match e {
      case ByCall(_, s) => EventGoesOn(c, t, i, s);
      case CallSteps(_, s) => SystemCallGoesOn(c.calls[i], t, i, s, c.pipe > 0);
    }
  }

  lemma PipeStays(c: C.Client, e: C.Event)
    requires C.Enabled(c, e)
    ensures C.Apply(c, e).pipeValid == c.pipeValid
  {
  }

  /** So do its peer and everybody else. */
  lemma OthersGoOn(c: C.Client, e: C.Event, i: nat, t: Tape)
    requires C.Enabled(c, e) && i < |c.calls| && !ClientStop.StepOf(e, i) && Fits(c.calls[i], t)
    ensures i < |C.Apply(c, e).calls|
    ensures Fits(C.Apply(c, e).calls[i], t) && Destined(C.Apply(c, e).calls[i], t) == Destined(c.calls[i], t)
  {
    if !I.Concerns(e, i) {
      I.OtherCallsKept(c, e, i);
    }
  }

  /** What it was destined to before any event it is after it. */
  lemma CallGoesOn(c: C.Client, e: C.Event, i: nat, t: Tape, u: Tape)
    requires C.Enabled(c, e) && i < |c.calls| && c.pipeValid == t.a.pipeValid && Fits(c.calls[i], t)
    requires if ClientStop.StepOf(e, i) then Hears(t, e) && u == Next(t, e) else u == t
    ensures i < |C.Apply(c, e).calls| && C.Apply(c, e).pipeValid == u.a.pipeValid
    ensures Fits(C.Apply(c, e).calls[i], u) && Destined(C.Apply(c, e).calls[i], u) == Destined(c.calls[i], t)
  {
    PipeStays(c, e);
    if ClientStop.StepOf(e, i) {
      StepGoesOn(c, t, i, e);
    } else {
      OthersGoOn(c, e, i, t);
    }
  }

  lemma {:induction false} RunGoesOn(c: C.Client, es: seq<C.Event>, i: nat, t: Tape)
    requires C.IsRun(c, es) && i < |c.calls| && c.pipeValid == t.a.pipeValid
    requires Fits(c.calls[i], t) && HearsAll(t, OwnSteps(es, i))
    ensures i < |C.After(c, es).calls|
    ensures var d, u := C.After(c, es).calls[i], Left(t, OwnSteps(es, i));
            Fits(d, u) && Destined(d, u) == Destined(c.calls[i], t)
    decreases |es|
  {
    if es != [] {
      var e, rest := es[0], es[1..];
      assert es == [e] + rest;
      OwnStepsBegin(e, rest, i, t);
      var u := if ClientStop.StepOf(e, i) then Next(t, e) else t;
      CallGoesOn(c, e, i, t, u);
      RunGoesOn(C.Apply(c, e), rest, i, u);
    }
  }

  /**
   The answers decide. In every run of the client in which a new call gets these answers, each step the next of its
   kind, and returns, it comes to just what SendDelayToServer comes to on the same answers: result, delay, bytes sent
   and closes; and it asks for no more and no fewer of them.
   */
  lemma AnswersDecide(c: C.Client, es: seq<C.Event>, i: nat, arrivals: seq<ReadResult>, grants: seq<WriteResult>,
                      a: Answers)
    requires C.IsRun(c, es) && i < |c.calls| && c.calls[i] == NewCall(c.calls[i].delay) && a.pipeValid == c.pipeValid
    requires HearsAll(Tape(a, arrivals, grants, BUFFER_SIZE), OwnSteps(es, i))
    requires i < |C.After(c, es).calls| && C.After(c, es).calls[i].pc.Returned?
    ensures var d, left := C.After(c, es).calls[i], Left(Tape(a, arrivals, grants, BUFFER_SIZE), OwnSteps(es, i));
            Outcome(d.pc.ok, d.delay, d.sent, d.closes, left.arrivals, left.grants)
            == Comes(c.calls[i].delay, arrivals, grants, a)
  {
    RunGoesOn(c, es, i, Tape(a, arrivals, grants, BUFFER_SIZE));
  }

  // ---------------------------------------------------------------- and there is a run with each of them

  /** In this run from `c` call `i` gets these answers and returns. */
  ghost predicate ComesTo(c: C.Client, es: seq<C.Event>, i: nat, t: Tape) {
    && C.IsRun(c, es)
    && i < |C.After(c, es).calls| && C.After(c, es).calls[i].pc.Returned?
    && HearsAll(t, OwnSteps(es, i))
  }

  lemma Prepend(c: C.Client, e: C.Event, rest: seq<C.Event>, i: nat, t: Tape) returns (es: seq<C.Event>)
    requires C.Enabled(c, e) && (ClientStop.StepOf(e, i) ==> Hears(t, e))
    requires ComesTo(C.Apply(c, e), rest, i, if ClientStop.StepOf(e, i) then Next(t, e) else t)
    ensures ComesTo(c, es, i, t)
  {
    es := [e] + rest;
    C.RunBegins(c, e, rest);
    OwnStepsBegin(e, rest, i, t);
  }

  /** A system call, and then the run goes on. */
  lemma StepThen(c: C.Client, i: nat, e: CallStep, rest: seq<C.Event>, t: Tape) returns (es: seq<C.Event>)
    requires i < |c.calls| && CallEnabled(c.calls[i], e, c.pipe > 0) && Hears(t, C.CallSteps(i, e))
    requires ComesTo(C.SetCall(c, i, CallApply(c.calls[i], e, c.pipe > 0)), rest, i, Next(t, C.CallSteps(i, e)))
    ensures ComesTo(c, es, i, t)
  {
    es := Prepend(c, C.CallSteps(i, e), rest, i, t);
  }

  /** The peer does something, and then the run goes on. */
  lemma PeerThen(c: C.Client, i: nat, e: PeerEvent, rest: seq<C.Event>, t: Tape) returns (es: seq<C.Event>)
    requires i < |c.calls| && c.calls[i].inbox.Admits(e)
    requires ComesTo(C.SetCall(c, i, C.ApplyPeer(c.calls[i], e)), rest, i, t)
    ensures ComesTo(c, es, i, t)
  {
    es := Prepend(c, C.ByPeer(i, e), rest, i, t);
  }

  /** Call `i` is counted and nobody has called stop. */
  ghost predicate UnderWay(c: C.Client, i: nat, call: Call) {
    && i < |c.calls| && c.calls[i] == call
    && c.stopper.Idle? && c.pipe == 0 && c.connections > 0 && c.pipeValid
  }

  /** A call that is about to close. */
  lemma CloseRuns(c: C.Client, i: nat, call: Call, t: Tape) returns (es: seq<C.Event>)
    requires i < |c.calls| && c.calls[i] == call && call.pc.Closing?
    ensures ComesTo(c, es, i, t)
  {
    es := Prepend(c, C.ByCall(i, C.CloseAndNotify), [], i, t);
  }

  /** The client after another thread has written the stop byte. */
  function Stopping(c: C.Client): C.Client {
    c.(stopper := C.Parked(false), pipe := c.pipe + 1, targets := C.CountedCalls(c.calls), expired := false)
  }

  lemma StopRuns(c: C.Client, rest: seq<C.Event>, i: nat, t: Tape) returns (es: seq<C.Event>)
    requires c.stopper.Idle? && c.pipeValid && c.connections > 0 && ComesTo(Stopping(c), rest, i, t)
    ensures ComesTo(c, es, i, t)
  {
    var d := C.Apply(c, C.ByStopper(C.CallStop));
    es := Prepend(d, C.ByStopper(C.WriteAndWait(true)), rest, i, t);
    es := Prepend(c, C.ByStopper(C.CallStop), es, i, t);
  }

  /** A select answers, after another thread has written the stop byte if need be, and the call closes. */
  lemma GivesUp(c: C.Client, i: nat, call: Call, e: CallStep, pipe: bool, t: Tape) returns (es: seq<C.Event>)
    requires UnderWay(c, i, call) && CallEnabled(call, e, pipe)
    requires CallApply(call, e, pipe) == call.(pc := Closing(false), cancelled := CallApply(call, e, pipe).cancelled)
    requires Hears(t, C.CallSteps(i, e)) && Next(t, C.CallSteps(i, e)) == t
    ensures ComesTo(c, es, i, t)
  {
    var u := if pipe then Stopping(c) else c;
    assert u.calls == c.calls && (u.pipe > 0 <==> pipe);
    var d := CallApply(call, e, pipe);
    es := CloseRuns(C.SetCall(u, i, d), i, d, t);
    es := StepThen(u, i, e, es, t);
    if pipe {
      es := StopRuns(c, es, i, t);
    }
  }

  /** `d` is `c` after this read. */
  ghost predicate Got(c: Call, d: Call, r: ReadResult) {
    && c.pc.Receiving?
    && (r.Data? ==> d.inbox == Inbox([], false))
    && match AfterRead(c.pc.position, r)
       case MoreToRead(position) => d.pc == Receiving(position)
       case Broken => d.pc == Closing(false)
       case Complete => d.pc == Closing(true)
  }

  lemma ReadOnce(c: Call, r: ReadResult, pipe: bool)
    requires c.pc.Receiving? && Supplies(c.inbox, r)
    ensures CallEnabled(c, ReadBytes(r), pipe) && Got(c, CallApply(c, ReadBytes(r), pipe), r)
  {
  }

  /** The loop of readMessage is the call receiving. */
  lemma {:induction false} ReadRuns(c: C.Client, i: nat, call: Call, t: Tape) returns (es: seq<C.Event>)
    requires UnderWay(c, i, call) && call.pc.Receiving?
    requires KernelReads(t.arrivals) && Supplies(call.inbox, NextRead(t.arrivals))
    ensures ComesTo(c, es, i, t)
    decreases |t.arrivals|, 1
  {
    var r := NextRead(t.arrivals);
    ReadOnce(call, r, c.pipe > 0);
    var d := CallApply(call, ReadBytes(r), c.pipe > 0);
    es := GotRuns(C.SetCall(c, i, d), i, call, d, t);
    es := StepThen(c, i, ReadBytes(r), es, t);
  }

  /** Once `call` has read what comes next, and is `d`. */
  lemma {:induction false} GotRuns(c: C.Client, i: nat, call: Call, d: Call, t: Tape) returns (es: seq<C.Event>)
    requires UnderWay(c, i, d) && KernelReads(t.arrivals) && Got(call, d, NextRead(t.arrivals))
    ensures ComesTo(c, es, i, t.(arrivals := Rest(t.arrivals)))
    decreases |t.arrivals|, 0
  {
    var u := t.(arrivals := Rest(t.arrivals));
    if d.pc.Receiving? {
      var next := Delivery(NextRead(u.arrivals));
      var x := C.ApplyPeer(d, next);
      es := ReadRuns(C.SetCall(c, i, x), i, x, u);
      es := PeerThen(c, i, next, es, u);
    } else {
      es := CloseRuns(c, i, d, u);
    }
  }

  /** Answers that the kernel can give: a socket that is ready has something to read. */
  ghost predicate Possible(a: Answers, arrivals: seq<ReadResult>) {
    && KernelReads(arrivals) && CanAnswer(a.writable, true) && CanAnswer(a.reply, true)
    && (a.reply == Ready(false, true) ==> NextRead(arrivals) != WouldBlock)
  }

  /** From the second select on, if it finds the socket readable and the pipe not. */
  lemma ReplyRuns(c: C.Client, i: nat, call: Call, t: Tape) returns (es: seq<C.Event>)
    requires UnderWay(c, i, call) && call.pc.AwaitReply? && call.inbox == Inbox([], false)
    requires Possible(t.a, t.arrivals) && t.a.reply == Ready(false, true)
    ensures ComesTo(c, es, i, t)
  {
    var first, r := NextRead(t.arrivals), Ready(false, true);
    var sends := if first.ReadFailed? then PeerSends([NUL]) else Delivery(first);
    var d := C.ApplyPeer(call, sends);
    var x := CallApply(d, SelectReply(r), false);
    var u := C.SetCall(c, i, d);
    es := ReadRuns(C.SetCall(u, i, x), i, x, t);
    es := StepThen(u, i, SelectReply(r), es, t);
    es := PeerThen(c, i, sends, es, t);
  }

  /** From the second select on. */
  lemma SentRuns(c: C.Client, i: nat, call: Call, t: Tape) returns (es: seq<C.Event>)
    requires UnderWay(c, i, call) && call.pc.AwaitReply? && call.inbox == Inbox([], false) && Possible(t.a, t.arrivals)
    ensures ComesTo(c, es, i, t)
  {
    var reply := t.a.reply;
    if reply == Ready(false, true) {
      es := ReplyRuns(c, i, call, t);
    } else {
      var sends := PeerSends(if reply.Ready? && reply.socket then [NUL] else []);
      var d := C.ApplyPeer(call, sends);
      es := GivesUp(C.SetCall(c, i, d), i, d, SelectReply(reply), reply.Ready? && reply.pipe, t);
      es := PeerThen(c, i, sends, es, t);
    }
  }

  /** From some point of the loop of writeMessage on. */
  lemma {:induction false} WriteRuns(c: C.Client, i: nat, call: Call, t: Tape) returns (es: seq<C.Event>)
    requires UnderWay(c, i, call) && call.inbox == Inbox([], false) && Possible(t.a, t.arrivals)
    requires call.pc.Sending? && 0 < call.pc.remaining == t.remaining <= BUFFER_SIZE
    ensures ComesTo(c, es, i, t)
    decreases |t.grants|, 1
  {
    var r := NextWrite(t.grants, call.pc.remaining);
    WriteOnce(call, r, c.pipe > 0);
    var d := CallApply(call, WriteBytes(r), c.pipe > 0);
    es := WrittenRuns(C.SetCall(c, i, d), i, call, d, r, t);
    es := StepThen(c, i, WriteBytes(r), es, t);
  }

  /** Once `call` has written what comes next, and is `d`. */
  lemma {:induction false} WrittenRuns(c: C.Client, i: nat, call: Call, d: Call, r: WriteResult, t: Tape)
    returns (es: seq<C.Event>)
    requires UnderWay(c, i, d) && d.inbox == Inbox([], false) && Possible(t.a, t.arrivals)
    requires Wrote(call, d, r) && 0 < call.pc.remaining == t.remaining && r == NextWrite(t.grants, t.remaining)
    ensures ComesTo(c, es, i, Next(t, C.CallSteps(i, WriteBytes(r))))
    decreases |t.grants|, 0
  {
    var u := Next(t, C.CallSteps(i, WriteBytes(r)));
    match d.pc {
      case Sending(_) => es := WriteRuns(c, i, d, u);
      case AwaitReply => es := SentRuns(c, i, d, u);
      case Closing(_) => es := CloseRuns(c, i, d, u);
    }
  }

  /** A new call as it waits for its socket to become writable. */
  function Waiting(delay: Count, fd: nat): Call {
    NewCall(delay).(pc := AwaitWritable, fd := fd, created := 1)
  }

  /** From the first select on. */
  lemma CountedRuns(c: C.Client, i: nat, delay: Count, fd: nat, t: Tape) returns (es: seq<C.Event>)
    requires UnderWay(c, i, Waiting(delay, fd)) && Possible(t.a, t.arrivals) && t.remaining == BUFFER_SIZE
    ensures ComesTo(c, es, i, t)
  {
    var call, r := Waiting(delay, fd), t.a.writable;
    var drains := if r.Ready? && r.socket then PeerDrains else PeerSends([]);
    var d := C.ApplyPeer(call, drains);
    var u := C.SetCall(c, i, d);
    if r == Ready(false, true) {
      var x := CallApply(d, SelectWritable(r), false);
      es := WriteRuns(C.SetCall(u, i, x), i, x, t);
      es := StepThen(u, i, SelectWritable(r), es, t);
    } else {
      es := GivesUp(u, i, d, SelectWritable(r), r.Ready? && r.pipe, t);
    }
    es := PeerThen(c, i, drains, es, t);
  }

  /** The call that could not connect, or has no pipe to watch. */
  lemma DropRuns(c: C.Client, i: nat, t: Tape) returns (es: seq<C.Event>)
    requires i < |c.calls| && c.calls[i].pc.Dropping?
    ensures ComesTo(c, es, i, t)
  {
    es := Prepend(c, C.ByCall(i, C.Drop), [], i, t);
  }

  /** From checkPipeDescriptorsAndRun on. */
  lemma CheckRuns(c: C.Client, i: nat, delay: Count, fd: nat, t: Tape) returns (es: seq<C.Event>)
    requires i < |c.calls| && c.calls[i] == Waiting(delay, fd).(pc := CheckingPipe)
    requires c.stopper.Idle? && c.pipe == 0 && c.connections + 1 < SIZE_T_MODULUS
    requires Possible(t.a, t.arrivals) && t.a.pipeValid == c.pipeValid && t.remaining == BUFFER_SIZE
    ensures ComesTo(c, es, i, t)
  {
    var d := C.Apply(c, C.ByCall(i, C.CheckPipe));
    if c.pipeValid {
      es := CountedRuns(C.Apply(d, C.ByCall(i, C.CountIn)), i, delay, fd, t);
      es := Prepend(d, C.ByCall(i, C.CountIn), es, i, t);
    } else {
      es := DropRuns(d, i, t);
    }
    es := Prepend(c, C.ByCall(i, C.CheckPipe), es, i, t);
  }

  /** From the connect on. */
  lemma ConnectRuns(c: C.Client, i: nat, delay: Count, fd: nat, t: Tape) returns (es: seq<C.Event>)
    requires i < |c.calls| && c.calls[i] == Waiting(delay, fd).(pc := Connecting)
    requires c.stopper.Idle? && c.pipe == 0 && c.connections + 1 < SIZE_T_MODULUS
    requires Possible(t.a, t.arrivals) && t.a.pipeValid == c.pipeValid && t.remaining == BUFFER_SIZE
    ensures ComesTo(c, es, i, t)
  {
    var call := Waiting(delay, fd).(pc := if t.a.connected then CheckingPipe else Dropping);
    if t.a.connected {
      es := CheckRuns(C.SetCall(c, i, call), i, delay, fd, t);
    } else {
      es := DropRuns(C.SetCall(c, i, call), i, t);
    }
    es := StepThen(c, i, Connect(t.a.connected), es, t);
  }

  lemma RoomToCount(c: C.Client, i: nat)
    requires C.Reachable(c) && i < |c.calls| && !Counted(c.calls[i])
    ensures c.connections + 1 < SIZE_T_MODULUS
  {
    T.Reached(c);
    I.CounterAfterChange(c.calls, c.connections, i, c.calls[i].(pc := AwaitWritable));
  }

  /**
   The sequential code follows the protocol: for all answers that the kernel can give there is a run of the client in
   which the call gets just these answers; it returns with what SendDelayToServer comes to on them.
   */
  lemma SendIsARun(c: C.Client, i: nat, arrivals: seq<ReadResult>, grants: seq<WriteResult>, a: Answers)
    returns (es: seq<C.Event>)
    requires C.Reachable(c) && c.stopper.Idle? && !c.pipeFault
    requires i < |c.calls| && c.calls[i] == NewCall(c.calls[i].delay)
    requires Possible(a, arrivals) && a.pipeValid == c.pipeValid
    ensures ComesTo(c, es, i, Tape(a, arrivals, grants, BUFFER_SIZE))
    ensures var d, out := C.After(c, es).calls[i], Comes(c.calls[i].delay, arrivals, grants, a);
            d.pc.ok == out.ok && d.delay == out.delay && d.sent == out.sent && d.closes == out.closes
  {
    var delay, t := c.calls[i].delay, Tape(a, arrivals, grants, BUFFER_SIZE);
    RoomToCount(c, i);
    T.PipeIsEmptyBetweenStops(c);
    if a.created {
      var fd := Measures.FreshDescriptor(c.descriptors);
      var e := C.ByCall(i, C.CreateSocket(C.NewSocket(fd)));
      es := ConnectRuns(C.Apply(c, e), i, delay, fd, t);
      es := Prepend(c, e, es, i, t);
    } else {
      es := Prepend(c, C.ByCall(i, C.CreateSocket(C.NoSocket)), [], i, t);
    }
    AnswersDecide(c, es, i, arrivals, grants, a);
  }
}
