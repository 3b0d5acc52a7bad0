/**
 `Server::runClient` and `Server::sleep` as the sequential code that one thread runs, on arrays and a socket; and the
 proof that this code and the worker of the protocol are the same: on the same answers of the kernel they come to the
 same, in every run, and there is a run with all answers that are possible.
 */
module ServerThread {
  import opened Bytes
  import opened Common
  import opened Worker
  import Decimal
  import S = ServerProtocol
  import SI = ServerInvariants

  /** Sleeps on the select that answers `r`; unless it is disturbed it counts the number in the buffer up. */
  method Sleep(buffer: array<Byte>, r: Selected) returns (disturbed: bool)
    requires buffer.Length == BUFFER_SIZE
    modifies buffer
    ensures disturbed <==> !r.Expired?
    ensures buffer[..] == if r.Expired? then Reply(old(buffer[..])) else old(buffer[..])
  {
    var sleepingTime := ToInt32(Decimal.Atoi(buffer[..]));
    if r.Expired? {
      sleepingTime := ToInt32(sleepingTime + 1);
      Decimal.TextFits(sleepingTime);
      Decimal.CopyText(buffer, Decimal.ToString(sleepingTime));
      return false;
    }
    if r.Failed? {
      return true;
    }
    if r.pipe {
      return true; // stop was called
    }
    return true; // the peer closed or sent more, or nothing was ready
  }

  /** What the three selects of one thread answer. */
  datatype Answers = Answers(message: Selected, sleep: Selected, writable: Selected)

  /** The bytes that a client is sent, and the answers of its socket that its thread does not ask for. */
  datatype Service = Service(sent: seq<Byte>, arrivals: seq<ReadResult>, grants: seq<WriteResult>)

  /** From the last select on, with `block` to send and `sent` sent before. */
  ghost function FromSelect(sent: seq<Byte>, block: Block, arrivals: seq<ReadResult>, grants: seq<WriteResult>,
                            writable: Selected): Service {
    if writable.Ready? && writable.socket
    then Service(sent + block[..WriteLoop(grants, BUFFER_SIZE)], arrivals, WriteRest(grants, BUFFER_SIZE))
    else Service(sent, arrivals, grants)
  }

  /** From the sleep on. */
  ghost function FromSleep(sent: seq<Byte>, message: Block, arrivals: seq<ReadResult>, grants: seq<WriteResult>,
                           a: Answers): Service {
    if a.sleep.Expired? then FromSelect(sent, Reply(message), arrivals, grants, a.writable)
    else Service(sent, arrivals, grants)
  }

  /** From a read of the message on. */
  ghost function FromRead(sent: seq<Byte>, read: ReadOutcome, grants: seq<WriteResult>, a: Answers): Service {
    if read.ok then FromSleep(sent, read.buffer, read.rest, grants, a) else Service(sent, read.rest, grants)
  }

  /** What becomes of a client whose socket and whose thread get these answers. */
  ghost function Served(arrivals: seq<ReadResult>, grants: seq<WriteResult>, a: Answers): Service {
    if a.message == Ready(false, true) then FromRead([], ReadLoop(arrivals, 0, Zeros()), grants, a)
    else Service([], arrivals, grants)
  }

  /** The rest of runClient, once it has read its message. */
  method AnswerMessage(socket: Socket, clientBuffer: array<Byte>, a: Answers)
    requires clientBuffer.Length == BUFFER_SIZE
    modifies clientBuffer, socket`sent, socket`grants, socket`closes
    ensures socket.closes == old(socket.closes) + 1
    ensures var served := FromSleep([], old(clientBuffer[..]), socket.arrivals, old(socket.grants), a);
            socket.sent == old(socket.sent) + served.sent && socket.grants == served.grants
  {
    var disturbed := Sleep(clientBuffer, a.sleep);
    if disturbed {
      socket.Close();
      return;
    }
    if !a.writable.Ready? {
      socket.Close();
      return;
    }
    if !a.writable.socket {
      socket.Close();
      return;
    }
    var written := WriteMessage(socket, clientBuffer);
    socket.Close();
  }

  /** Serves one client. On every path it closes the socket once. */
  method RunClient(socket: Socket, a: Answers)
    modifies socket
    ensures socket.closes == old(socket.closes) + 1
    ensures socket.overrun ==
            (old(socket.overrun) || (a.message == Ready(false, true) && !StaysInBuffer(old(socket.arrivals), 0)))
    ensures var served := Served(old(socket.arrivals), old(socket.grants), a);
            && socket.sent == old(socket.sent) + served.sent
            && socket.arrivals == served.arrivals && socket.grants == served.grants
  {
    var clientBuffer := new Byte[BUFFER_SIZE](_ => NUL);
    if !a.message.Ready? {
      socket.Close();
      return;
    }
    if a.message.pipe {
      socket.Close();
      return;
    }
    if !a.message.socket {
      socket.Close();
      return;
    }
    var ok := ReadMessage(socket, clientBuffer);
    if !ok {
      socket.Close();
      return;
    }
    AnswerMessage(socket, clientBuffer, a);
  }

  /**
   When the whole reply is sent: exactly if the first select found the message and no quit, the first read delivered a
   block, the sleep ran out, the last select found room, and the writes took a block. Anything sent is the start of it.
   */
  lemma ReplyIsWholeExactly(arrivals: seq<ReadResult>, grants: seq<WriteResult>, a: Answers)
    requires KernelReads(arrivals) && StaysInBuffer(arrivals, 0)
    ensures var sent, first := Served(arrivals, grants, a).sent, NextRead(arrivals);
            && (|sent| == BUFFER_SIZE <==>
                  && a.message == Ready(false, true)
                  && first.Data? && |first.bytes| == BUFFER_SIZE
                  && a.sleep.Expired?
                  && a.writable.Ready? && a.writable.socket
                  && AcceptedBytes(grants) >= BUFFER_SIZE)
            && (sent != [] ==> first.Data? && |first.bytes| == BUFFER_SIZE && sent <= Reply(first.bytes))
  {
    WriteLoopDelivers(grants, BUFFER_SIZE);
    FirstReadDecides(arrivals, Zeros());
    if NextRead(arrivals).Data? && |NextRead(arrivals).bytes| == BUFFER_SIZE {
      assert Store(Zeros(), 0, NextRead(arrivals).bytes) == NextRead(arrivals).bytes;
    }
  }

  // ---------------------------------------------------------------- the answers that a worker gets

  /** The answers still to come; `remaining` are the bytes that the writes have left to write. */
  datatype Tape = Tape(a: Answers, arrivals: seq<ReadResult>, grants: seq<WriteResult>, remaining: nat)

  /** This call gets the next answer of its kind. */
  predicate Hears(t: Tape, c: WorkerCall) {
    match c
    case SelectMessage(r) => r == t.a.message
    case ReadBytes(r) => r == NextRead(t.arrivals)
    case SelectSleep(r) => r == t.a.sleep
    case SelectWritable(r) => r == t.a.writable
    case WriteBytes(r) => r == NextWrite(t.grants, t.remaining)
  }

  /** The answers to come after it. */
  function Next(t: Tape, c: WorkerCall): Tape {
    match c
    case ReadBytes(_) => t.(arrivals := Rest(t.arrivals))
    case WriteBytes(r) =>
      t.(grants := Rest(t.grants), remaining := if r.Accepted? && r.n <= t.remaining then t.remaining - r.n else 0)
    case _ => t
  }

  ghost predicate HearsAll(t: Tape, calls: seq<WorkerCall>)
    decreases |calls|
  {
    calls == [] || (Hears(t, calls[0]) && HearsAll(Next(t, calls[0]), calls[1..]))
  }

  ghost function Left(t: Tape, calls: seq<WorkerCall>): Tape
    decreases |calls|
  {
    if calls == [] then t else Left(Next(t, calls[0]), calls[1..])
  }

  function OwnCall(e: S.Event, i: nat): seq<WorkerCall> {
    if e.WorkerCalls? && e.i == i then [e.call] else []
  }

  /** The system calls of worker `i` in a run, in order, with their answers. */
  function OwnCalls(es: seq<S.Event>, i: nat): seq<WorkerCall> {
    if es == [] then [] else OwnCall(es[0], i) + OwnCalls(es[1..], i)
  }

  lemma OwnCallsBegin(e: S.Event, rest: seq<S.Event>, i: nat, t: Tape)
    ensures OwnCalls([e] + rest, i) == OwnCall(e, i) + OwnCalls(rest, i)
    ensures HearsAll(t, OwnCalls([e] + rest, i)) <==>
            if OwnCall(e, i) == [] then HearsAll(t, OwnCalls(rest, i))
            else Hears(t, OwnCall(e, i)[0]) && HearsAll(Next(t, OwnCall(e, i)[0]), OwnCalls(rest, i))
    ensures Left(t, OwnCalls([e] + rest, i)) ==
            if OwnCall(e, i) == [] then Left(t, OwnCalls(rest, i))
            else Left(Next(t, OwnCall(e, i)[0]), OwnCalls(rest, i))
  {
    assert ([e] + rest)[1..] == rest;
    if OwnCall(e, i) == [] {
      assert [] + OwnCalls(rest, i) == OwnCalls(rest, i);
    } else {
      assert (OwnCall(e, i) + OwnCalls(rest, i))[1..] == OwnCalls(rest, i);
    }
  }

  // ---------------------------------------------------------------- they decide what becomes of its client

  /** A worker and the answers to come agree on what it has to write; it has closed if it has finished. */
  ghost predicate Fits(w: Worker, t: Tape) {
    && w.closes == (if w.pc.Finished? then 1 else 0)
    && (w.pc.Sending? ==> 0 < w.pc.remaining == t.remaining <= BUFFER_SIZE)
    && (w.pc.AwaitMessage? || w.pc.Receiving? || w.pc.Sleeping? || w.pc.AwaitWritable? ==> t.remaining == BUFFER_SIZE)
  }

  /** What is to become of its client. */
  ghost function Destined(w: Worker, t: Tape): Service
    requires Fits(w, t)
  {
    match w.pc
    case AwaitMessage =>
      if t.a.message == Ready(false, true)
      then FromRead(w.sent, ReadLoop(t.arrivals, 0, Zeros()), t.grants, t.a)
      else Service(w.sent, t.arrivals, t.grants)
    case Receiving(position) => FromRead(w.sent, ReadLoop(t.arrivals, position, w.buffer), t.grants, t.a)
    case Sleeping(_) => FromSleep(w.sent, w.buffer, t.arrivals, t.grants, t.a)
    case AwaitWritable => FromSelect(w.sent, w.buffer, t.arrivals, t.grants, t.a.writable)
    case Sending(remaining) =>
      var from := BUFFER_SIZE - remaining;
      Service(w.sent + w.buffer[from..from + WriteLoop(t.grants, remaining)], t.arrivals,
              WriteRest(t.grants, remaining))
    case _ => Service(w.sent, t.arrivals, t.grants)
  }

  /** `v` is `w` after this write. */
  ghost predicate Wrote(w: Worker, v: Worker, r: WriteResult) {
    && w.pc.Sending? && w.pc.remaining <= BUFFER_SIZE && WriteAllows(r, w.pc.remaining)
    && v.buffer == w.buffer && v.closes == w.closes
    && (var from := BUFFER_SIZE - w.pc.remaining;
        v.sent == w.sent + w.buffer[from..from + if r.Accepted? then r.n else 0])
    && v.pc == match AfterWrite(w.pc.remaining, r)
               case MoreToWrite(remaining) => Sending(remaining)
               case _ => Closing
  }

  lemma WriteOnce(w: Worker, r: WriteResult, pipe: bool, now: int)
    requires w.pc.Sending? && w.pc.remaining <= BUFFER_SIZE && WriteAllows(r, w.pc.remaining)
    ensures WorkerEnabled(w, WriteBytes(r), pipe, now) && Wrote(w, WorkerApply(w, WriteBytes(r), pipe, now), r)
  {
  }

  lemma WrittenGoesOn(w: Worker, v: Worker, t: Tape, r: WriteResult)
    requires Fits(w, t) && Hears(t, WriteBytes(r)) && Wrote(w, v, r)
    ensures var u := Next(t, WriteBytes(r)); Fits(v, u) && Destined(v, u) == Destined(w, t)
  {
    if v.pc.Sending? {
      var from := BUFFER_SIZE - w.pc.remaining;
      SlicesJoin(w.buffer, from, from + r.n, from + WriteLoop(t.grants, w.pc.remaining));
    }
  }

  lemma WriteGoesOn(w: Worker, t: Tape, r: WriteResult, pipe: bool, now: int)
    requires Fits(w, t) && Hears(t, WriteBytes(r)) && WorkerEnabled(w, WriteBytes(r), pipe, now)
    ensures var v, u := WorkerApply(w, WriteBytes(r), pipe, now), Next(t, WriteBytes(r));
            Fits(v, u) && Destined(v, u) == Destined(w, t)
  {
    WriteOnce(w, r, pipe, now);
    WrittenGoesOn(w, WorkerApply(w, WriteBytes(r), pipe, now), t, r);
  }

  lemma ReadGoesOn(w: Worker, t: Tape, r: ReadResult, pipe: bool, now: int)
    requires Fits(w, t) && Hears(t, ReadBytes(r)) && WorkerEnabled(w, ReadBytes(r), pipe, now)
    ensures var v, u := WorkerApply(w, ReadBytes(r), pipe, now), Next(t, ReadBytes(r));
            Fits(v, u) && Destined(v, u) == Destined(w, t)
  {
  }

  lemma SelectGoesOn(w: Worker, t: Tape, c: WorkerCall, pipe: bool, now: int)
    requires c.SelectMessage? || c.SelectSleep? || c.SelectWritable?
    requires Fits(w, t) && Hears(t, c) && WorkerEnabled(w, c, pipe, now)
    ensures var v := WorkerApply(w, c, pipe, now); Fits(v, t) && Destined(v, t) == Destined(w, t)
  {
  }

  /** Every answer that a worker gets leaves it destined to the same. */
  lemma CallGoesOn(w: Worker, t: Tape, c: WorkerCall, pipe: bool, now: int)
    requires Fits(w, t) && Hears(t, c) && WorkerEnabled(w, c, pipe, now)
    ensures var v, u := WorkerApply(w, c, pipe, now), Next(t, c); Fits(v, u) && Destined(v, u) == Destined(w, t)
  {
    match c {
      case WriteBytes(r) => WriteGoesOn(w, t, r, pipe, now);
      case ReadBytes(r) => ReadGoesOn(w, t, r, pipe, now);
      case _ => SelectGoesOn(w, t, c, pipe, now);
    }
  }

  /** So do its close, its peer and everybody else. */
  lemma OthersGoOn(s: S.Server, e: S.Event, i: nat, t: Tape)
    requires S.Enabled(s, e) && i < |s.workers| && OwnCall(e, i) == [] && Fits(s.workers[i], t)
    ensures i < |S.Apply(s, e).workers|
    ensures Fits(S.Apply(s, e).workers[i], t) && Destined(S.Apply(s, e).workers[i], t) == Destined(s.workers[i], t)
  {
    if !SI.Concerns(e, i) {
      SI.OtherWorkersKept(s, e, i);
    }
  }

  lemma {:induction false} RunGoesOn(s: S.Server, es: seq<S.Event>, i: nat, t: Tape)
    requires S.IsRun(s, es) && i < |s.workers| && Fits(s.workers[i], t) && HearsAll(t, OwnCalls(es, i))
    ensures i < |S.After(s, es).workers|
    ensures var w, u := S.After(s, es).workers[i], Left(t, OwnCalls(es, i));
            Fits(w, u) && Destined(w, u) == Destined(s.workers[i], t)
    decreases |es|
  {
    if es != [] {
      var e, rest := es[0], es[1..];
      assert es == [e] + rest;
      OwnCallsBegin(e, rest, i, t);
      if OwnCall(e, i) == [] {
        OthersGoOn(s, e, i, t);
        RunGoesOn(S.Apply(s, e), rest, i, t);
      } else {
        CallGoesOn(s.workers[i], t, e.call, s.pipe > 0, s.now);
        RunGoesOn(S.Apply(s, e), rest, i, Next(t, e.call));
      }
    }
  }

  /**
   The answers decide. In every run of the server in which a new worker gets these answers, each call the next of its
   kind, and finishes, it has closed once, sent just the bytes that RunClient sends on the same answers, and asked for
   no more and no fewer of them.
   */
  lemma AnswersDecide(s: S.Server, es: seq<S.Event>, i: nat, arrivals: seq<ReadResult>, grants: seq<WriteResult>,
                      a: Answers)
    requires S.IsRun(s, es) && i < |s.workers| && s.workers[i] == NewWorker(s.workers[i].fd)
    requires HearsAll(Tape(a, arrivals, grants, BUFFER_SIZE), OwnCalls(es, i))
    requires i < |S.After(s, es).workers| && S.After(s, es).workers[i].pc.Finished?
    ensures var w, left := S.After(s, es).workers[i], Left(Tape(a, arrivals, grants, BUFFER_SIZE), OwnCalls(es, i));
            w.closes == 1 && Service(w.sent, left.arrivals, left.grants) == Served(arrivals, grants, a)
  {
    RunGoesOn(s, es, i, Tape(a, arrivals, grants, BUFFER_SIZE));
  }

  // ---------------------------------------------------------------- and there is a run with each of them

  /** In this run from `s` worker `i` gets these answers and finishes. */
  ghost predicate Serves(s: S.Server, es: seq<S.Event>, i: nat, t: Tape) {
    && S.IsRun(s, es)
    && i < |S.After(s, es).workers| && S.After(s, es).workers[i].pc.Finished?
    && HearsAll(t, OwnCalls(es, i))
  }

  lemma Prepend(s: S.Server, e: S.Event, rest: seq<S.Event>, i: nat, t: Tape) returns (es: seq<S.Event>)
    requires S.Enabled(s, e) && OwnCall(e, i) == [] && Serves(S.Apply(s, e), rest, i, t)
    ensures Serves(s, es, i, t)
  {
    es := [e] + rest;
    S.RunBegins(s, e, rest);
    OwnCallsBegin(e, rest, i, t);
  }

  /** A system call of the worker, and then the run goes on. */
  lemma CallThen(s: S.Server, i: nat, c: WorkerCall, rest: seq<S.Event>, t: Tape) returns (es: seq<S.Event>)
    requires i < |s.workers| && WorkerEnabled(s.workers[i], c, s.pipe > 0, s.now) && Hears(t, c)
    requires Serves(S.SetWorker(s, i, WorkerApply(s.workers[i], c, s.pipe > 0, s.now)), rest, i, Next(t, c))
    ensures Serves(s, es, i, t)
  {
    es := [S.WorkerCalls(i, c)] + rest;
    S.RunBegins(s, S.WorkerCalls(i, c), rest);
    OwnCallsBegin(S.WorkerCalls(i, c), rest, i, t);
  }

  /** Its peer does something, and then the run goes on. */
  lemma PeerThen(s: S.Server, i: nat, e: PeerEvent, rest: seq<S.Event>, t: Tape) returns (es: seq<S.Event>)
    requires i < |s.workers| && s.workers[i].inbox.Admits(e)
    requires Serves(S.SetWorker(s, i, S.ApplyPeer(s.workers[i], e)), rest, i, t)
    ensures Serves(s, es, i, t)
  {
    es := Prepend(s, S.ByPeer(i, e), rest, i, t);
  }

  /** Worker `i` is there, and nobody holds the lock. */
  ghost predicate UnderWay(s: S.Server, i: nat) {
    i < |s.workers| && S.MutexFree(s)
  }

  /** And nobody has called stop. */
  ghost predicate Undisturbed(s: S.Server, i: nat) {
    UnderWay(s, i) && s.stopper.Idle? && s.pipe == 0
  }

  lemma CloseRuns(s: S.Server, i: nat, t: Tape) returns (es: seq<S.Event>)
    requires UnderWay(s, i) && s.workers[i].pc.Closing?
    ensures Serves(s, es, i, t)
  {
    es := Prepend(s, S.WorkerCloses(i), [], i, t);
  }

  /** The loop of writeMessage is the worker sending. */
  lemma {:induction false} WriteRuns(s: S.Server, i: nat, w: Worker, t: Tape) returns (es: seq<S.Event>)
    requires UnderWay(s, i) && s.workers[i] == w && w.pc.Sending? && 0 < w.pc.remaining == t.remaining <= BUFFER_SIZE
    ensures Serves(s, es, i, t)
    decreases |t.grants|, 1
  {
    var r := NextWrite(t.grants, w.pc.remaining);
    WriteOnce(w, r, s.pipe > 0, s.now);
    var v := WorkerApply(w, WriteBytes(r), s.pipe > 0, s.now);
    es := WrittenRuns(S.SetWorker(s, i, v), i, w, v, r, t);
    es := CallThen(s, i, WriteBytes(r), es, t);
  }

  /** Once `w` has written what `r` says, and is `v`. */
  lemma {:induction false} WrittenRuns(s: S.Server, i: nat, w: Worker, v: Worker, r: WriteResult, t: Tape)
    returns (es: seq<S.Event>)
    requires UnderWay(s, i) && s.workers[i] == v
    requires Wrote(w, v, r) && 0 < w.pc.remaining == t.remaining && r == NextWrite(t.grants, t.remaining)
    ensures Serves(s, es, i, Next(t, WriteBytes(r)))
    decreases |t.grants|, 0
  {
    if v.pc.Sending? {
      es := WriteRuns(s, i, v, Next(t, WriteBytes(r)));
    } else {
      es := CloseRuns(s, i, Next(t, WriteBytes(r)));
    }
  }

  /** From the end of the sleep on. */
  lemma ReplyRuns(s: S.Server, i: nat, w: Worker, t: Tape) returns (es: seq<S.Event>)
    requires UnderWay(s, i) && s.workers[i] == w && w.pc.AwaitWritable? && t.remaining == BUFFER_SIZE
    requires SelectAllows(t.a.writable, false, true, false)
    ensures Serves(s, es, i, t)
  {
    var c := SelectWritable(t.a.writable);
    var v := S.ApplyPeer(w, PeerDrains);
    var u := S.SetWorker(s, i, v);
    var x := WorkerApply(v, c, u.pipe > 0, u.now);
    if t.a.writable.Ready? {
      es := WriteRuns(S.SetWorker(u, i, x), i, x, t);
    } else {
      es := CloseRuns(S.SetWorker(u, i, x), i, t);
    }
    es := CallThen(u, i, c, es, t);
    es := PeerThen(s, i, PeerDrains, es, t);
  }

  /** Time passes. */
  lemma {:induction false} TimeRuns(s: S.Server, n: nat, rest: seq<S.Event>, i: nat, t: Tape)
    returns (es: seq<S.Event>)
    requires Serves(s.(now := s.now + n), rest, i, t)
    ensures Serves(s, es, i, t)
    decreases n
  {
    if n == 0 {
      es := rest;
    } else {
      es := TimeRuns(S.Apply(s, S.Tick), n - 1, rest, i, t);
      es := Prepend(s, S.Tick, es, i, t);
    }
  }

  /** The server after `stop` has raised quit. */
  function Quit(s: S.Server): S.Server
    requires s.stopper.Idle?
  {
    S.Raise(s.(stopper := S.Raising), true).(stopper := S.Awaiting)
  }

  /** Stop is called and raises quit. */
  lemma QuitRuns(s: S.Server, rest: seq<S.Event>, i: nat, t: Tape) returns (es: seq<S.Event>)
    requires s.stopper.Idle? && Serves(Quit(s), rest, i, t)
    ensures Serves(s, es, i, t)
  {
    var u := S.Apply(s, S.ByApplication(S.CallStop));
    es := Prepend(u, S.ByStopper(S.StopperRaises(true)), rest, i, t);
    es := Prepend(s, S.ByApplication(S.CallStop), es, i, t);
  }

  /** A select that tells the worker to close, after quit has been raised if its answer says so. */
  lemma DisturbedRuns(s: S.Server, i: nat, w: Worker, r: Selected, c: WorkerCall, t: Tape)
    returns (es: seq<S.Event>)
    requires Undisturbed(s, i) && s.workers[i] == w && r.Ready? && w.inbox.Readable() == r.socket
    requires WorkerEnabled(w, c, r.pipe, s.now) && WorkerApply(w, c, r.pipe, s.now) == w.(pc := Closing)
    requires Hears(t, c) && Next(t, c) == t
    ensures Serves(s, es, i, t)
  {
    var u := if r.pipe then Quit(s) else s;
    assert u.workers == s.workers && u.now == s.now && (u.pipe > 0 <==> r.pipe);
    es := CloseRuns(S.SetWorker(u, i, w.(pc := Closing)), i, t);
    es := CallThen(u, i, c, es, t);
    if r.pipe {
      es := QuitRuns(s, es, i, t);
    }
  }

  /** What the peer does for a select to find the socket readable, or not. */
  function Stirs(socket: bool): PeerEvent {
    PeerSends(if socket then [NUL] else [])
  }

  /** From the end of a sleep on that runs out. */
  lemma TimeOverRuns(s: S.Server, i: nat, w: Worker, t: Tape) returns (es: seq<S.Event>)
    requires Undisturbed(s, i) && s.workers[i] == w && w.pc.Sleeping? && w.inbox == Inbox([], false)
    requires w.readAt <= w.pc.wakeAt <= s.now && t.a.sleep == Expired && t.remaining == BUFFER_SIZE
    requires SelectAllows(t.a.writable, false, true, false)
    ensures Serves(s, es, i, t)
  {
    var v := WorkerApply(w, SelectSleep(Expired), false, s.now);
    es := ReplyRuns(S.SetWorker(s, i, v), i, v, t);
    es := CallThen(s, i, SelectSleep(Expired), es, t);
  }

  /** From the sleep on. */
  lemma SleepRuns(s: S.Server, i: nat, w: Worker, t: Tape) returns (es: seq<S.Event>)
    requires Undisturbed(s, i) && s.workers[i] == w && w.pc.Sleeping? && w.inbox == Inbox([], false)
    requires CanAnswer(t.a.sleep, true) && (!t.a.sleep.Failed? ==> w.readAt <= w.pc.wakeAt)
    requires SelectAllows(t.a.writable, false, true, false) && t.remaining == BUFFER_SIZE
    ensures Serves(s, es, i, t)
  {
    match t.a.sleep {
      case Expired =>
        var n: nat := if s.now < w.pc.wakeAt then w.pc.wakeAt - s.now else 0;
        es := TimeOverRuns(s.(now := s.now + n), i, w, t);
        es := TimeRuns(s, n, es, i, t);
      case Failed =>
        es := CloseRuns(S.SetWorker(s, i, w.(pc := Closing)), i, t);
        es := CallThen(s, i, SelectSleep(Failed), es, t);
      case Ready(_, socket) =>
        var v := S.ApplyPeer(w, Stirs(socket));
        es := DisturbedRuns(S.SetWorker(s, i, v), i, v, t.a.sleep, SelectSleep(t.a.sleep), t);
        es := PeerThen(s, i, Stirs(socket), es, t);
    }
  }

  /** `v` is `w` after this read. */
  ghost predicate Got(w: Worker, v: Worker, r: ReadResult) {
    && w.pc.Receiving?
    && (r.Data? ==> v.inbox == Inbox([], false) && v.buffer == StoreWithin(w.buffer, w.pc.position, r.bytes))
    && match AfterRead(w.pc.position, r)
       case MoreToRead(position) => v.pc == Receiving(position)
       case Broken => v.pc == Closing
       case Complete => v.pc == Sleeping(v.readAt + SleepMicros(ReadNumber(v.buffer)))
  }

  lemma ReadOnce(w: Worker, r: ReadResult, pipe: bool, now: int)
    requires w.pc.Receiving? && Supplies(w.inbox, r)
    ensures WorkerEnabled(w, ReadBytes(r), pipe, now) && Got(w, WorkerApply(w, ReadBytes(r), pipe, now), r)
  {
  }

  /** From some point of the loop of readMessage on. */
  lemma {:induction false} ReadRuns(s: S.Server, i: nat, w: Worker, t: Tape) returns (es: seq<S.Event>)
    requires Undisturbed(s, i) && s.workers[i] == w && w.pc.Receiving? && t.remaining == BUFFER_SIZE
    requires KernelReads(t.arrivals) && Supplies(w.inbox, NextRead(t.arrivals))
    requires CanAnswer(t.a.sleep, true) && SelectAllows(t.a.writable, false, true, false)
    requires !t.a.sleep.Failed? ==> SleepMicros(ReadNumber(ReadLoop(t.arrivals, w.pc.position, w.buffer).buffer)) >= 0
    ensures Serves(s, es, i, t)
    decreases |t.arrivals|, 1
  {
    var r := NextRead(t.arrivals);
    ReadOnce(w, r, s.pipe > 0, s.now);
    var v := WorkerApply(w, ReadBytes(r), s.pipe > 0, s.now);
    es := GotRuns(S.SetWorker(s, i, v), i, w, v, t);
    es := CallThen(s, i, ReadBytes(r), es, t);
  }

  /** Once `w` has read what comes next, and is `v`. */
  lemma {:induction false} GotRuns(s: S.Server, i: nat, w: Worker, v: Worker, t: Tape) returns (es: seq<S.Event>)
    requires Undisturbed(s, i) && s.workers[i] == v && KernelReads(t.arrivals) && t.remaining == BUFFER_SIZE
    requires Got(w, v, NextRead(t.arrivals))
    requires CanAnswer(t.a.sleep, true) && SelectAllows(t.a.writable, false, true, false)
    requires !t.a.sleep.Failed? ==> SleepMicros(ReadNumber(ReadLoop(t.arrivals, w.pc.position, w.buffer).buffer)) >= 0
    ensures Serves(s, es, i, t.(arrivals := Rest(t.arrivals)))
    decreases |t.arrivals|, 0
  {
    var u := t.(arrivals := Rest(t.arrivals));
    match AfterRead(w.pc.position, NextRead(t.arrivals)) {
      case Broken => es := CloseRuns(s, i, u);
      case Complete => es := SleepRuns(s, i, v, u);
      case MoreToRead(_) =>
        var next := Delivery(NextRead(u.arrivals));
        var x := S.ApplyPeer(v, next);
        es := ReadRuns(S.SetWorker(s, i, x), i, x, u);
        es := PeerThen(s, i, next, es, u);
    }
  }

  /**
   Answers that the kernel can give: a select without a timeout returns with something ready, or fails; a socket that
   is ready has something to read; and a sleep of less than no time is refused.
   */
  ghost predicate Possible(a: Answers, arrivals: seq<ReadResult>) {
    && KernelReads(arrivals)
    && CanAnswer(a.message, false) && CanAnswer(a.sleep, true) && SelectAllows(a.writable, false, true, false)
    && (a.message.Ready? && a.message.socket ==> NextRead(arrivals) != WouldBlock)
    && (!a.sleep.Failed? ==> SleepMicros(ReadNumber(ReadLoop(arrivals, 0, Zeros()).buffer)) >= 0)
  }

  /** From the first select on, once there is something to read. */
  lemma ReadableRuns(s: S.Server, i: nat, w: Worker, t: Tape) returns (es: seq<S.Event>)
    requires Undisturbed(s, i) && s.workers[i] == w && w.pc.AwaitMessage? && t.remaining == BUFFER_SIZE
    requires w.inbox.Readable() && Supplies(w.inbox, NextRead(t.arrivals)) && Possible(t.a, t.arrivals)
    requires t.a.message == Ready(false, true)
    ensures Serves(s, es, i, t)
  {
    var x := w.(pc := Receiving(0), buffer := Zeros());
    es := ReadRuns(S.SetWorker(s, i, x), i, x, t);
    es := CallThen(s, i, SelectMessage(Ready(false, true)), es, t);
  }

  /** From the first select on, if it finds the socket readable and the pipe not. */
  lemma MessageRuns(s: S.Server, i: nat, w: Worker, t: Tape) returns (es: seq<S.Event>)
    requires Undisturbed(s, i) && s.workers[i] == w && w == NewWorker(w.fd) && t.remaining == BUFFER_SIZE
    requires Possible(t.a, t.arrivals) && t.a.message == Ready(false, true)
    ensures Serves(s, es, i, t)
  {
    var first := NextRead(t.arrivals);
    var sends := if first.ReadFailed? then Stirs(true) else Delivery(first);
    var v := S.ApplyPeer(w, sends);
    es := ReadableRuns(S.SetWorker(s, i, v), i, v, t);
    es := PeerThen(s, i, sends, es, t);
  }

  /** From the first select on, if it fails or finds quit raised. */
  lemma NoMessageRuns(s: S.Server, i: nat, w: Worker, t: Tape) returns (es: seq<S.Event>)
    requires Undisturbed(s, i) && s.workers[i] == w && w == NewWorker(w.fd)
    requires t.a.message.Failed? || (t.a.message.Ready? && t.a.message.pipe)
    ensures Serves(s, es, i, t)
  {
    var r := t.a.message;
    if r.Failed? {
      es := CloseRuns(S.SetWorker(s, i, w.(pc := Closing)), i, t);
      es := CallThen(s, i, SelectMessage(Failed), es, t);
    } else {
      var v := S.ApplyPeer(w, Stirs(r.socket));
      es := DisturbedRuns(S.SetWorker(s, i, v), i, v, r, SelectMessage(r), t);
      es := PeerThen(s, i, Stirs(r.socket), es, t);
    }
  }

  /**
   The sequential code follows the protocol: for all answers that the kernel can give there is a run of the server in
   which the worker gets just these answers; it finishes with what RunClient comes to on them.
   */
  lemma RunClientIsARun(s: S.Server, i: nat, arrivals: seq<ReadResult>, grants: seq<WriteResult>, a: Answers)
    returns (es: seq<S.Event>)
    requires i < |s.workers| && s.workers[i] == NewWorker(s.workers[i].fd) && s.stopper.Idle? && s.pipe == 0
    requires Possible(a, arrivals)
    ensures Serves(s, es, i, Tape(a, arrivals, grants, BUFFER_SIZE))
    ensures var w := S.After(s, es).workers[i]; w.closes == 1 && w.sent == Served(arrivals, grants, a).sent
  {
    var t := Tape(a, arrivals, grants, BUFFER_SIZE);
    if a.message == Ready(false, true) {
      es := MessageRuns(s, i, s.workers[i], t);
    } else {
      es := NoMessageRuns(s, i, s.workers[i], t);
    }
    AnswersDecide(s, es, i, arrivals, grants, a);
  }
}
