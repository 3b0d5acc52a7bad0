/** One call of `Client::sendDelayToServer`, one system call per step. */
module Call {
  import opened Bytes
  import opened Common
  import Decimal

  datatype CallPc =
    | Creating                     // about to create the socket
    | Connecting                   // about to connect
    | CheckingPipe                 // about to lock in checkPipeDescriptorsAndRun
    | Dropping                     // about to close the socket of a call that was never counted
    | Counting                     // about to lock and increase numConnections_
    | AwaitWritable                // in the first select, on pipe and socket, with a timeout
    | Sending(remaining: nat)      // in the loop of writeMessage
    | AwaitReply                   // in the second select, on pipe and socket, with a timeout
    | Receiving(position: nat)     // in the loop of readMessage
    | Closing(ok: bool)            // about to call closeAndNotify and return `ok`
    | Returned(ok: bool)

  /**
   A call with its socket. `delay` is the caller's variable, `message` the local buffer; `inbox` and `writable` are
   the kernel's. The fields from `asked` on are history: the delay at the call, the bytes written and read, the
   sockets created and closed, whether the call left because it saw the pipe readable, and whether a read has stored
   bytes behind the buffer. Those bytes are dropped here; what they do to the program is undefined.
   */
  datatype Call = Call(
    pc: CallPc,
    fd: nat,
    message: Block,
    delay: Count,
    inbox: Inbox,
    writable: bool,
    asked: Count,
    sent: seq<Byte>,
    received: seq<Byte>,
    created: nat,
    closes: nat,
    cancelled: bool,
    overrun: bool)

  function NewCall(delay: Count): Call {
    Call(Creating, 0, Zeros(), delay, Inbox([], false), false, delay, [], [], 0, 0, false, false)
  }

  /** The message that carries a delay. */
  function Message(delay: Count): Block
  {
    Decimal.TextFits(delay);
    Decimal.StrCpy(Zeros(), Decimal.ToString(delay))
  }

  datatype CallStep =
    | Connect(ok: bool)
    | SelectWritable(r: Selected)
    | WriteBytes(taken: WriteResult)
    | SelectReply(r: Selected)
    | ReadBytes(chunk: ReadResult)

  predicate CallEnabled(c: Call, e: CallStep, pipe: bool) {
    match e
    case Connect(_) => c.pc.Connecting?
    case SelectWritable(r) => c.pc.AwaitWritable? && SelectAllows(r, pipe, c.writable, true)
    case WriteBytes(r) => c.pc.Sending? && c.pc.remaining <= BUFFER_SIZE && WriteAllows(r, c.pc.remaining)
    case SelectReply(r) => c.pc.AwaitReply? && SelectAllows(r, pipe, c.inbox.Readable(), true)
    case ReadBytes(r) => c.pc.Receiving? && ReadAllows(r, c.inbox)
  }

  function CallApply(c: Call, e: CallStep, pipe: bool): Call
    requires CallEnabled(c, e, pipe)
  {
    match e
    case Connect(ok) => c.(pc := if ok then CheckingPipe else Dropping)
    case SelectWritable(r) =>
      if !r.Ready? then c.(pc := Closing(false))
      else if r.pipe then c.(pc := Closing(false), cancelled := true)
      else if !r.socket then c.(pc := Closing(false))
      else c.(pc := Sending(BUFFER_SIZE), message := Message(c.delay))
    case WriteBytes(r) =>
      var position := BUFFER_SIZE - c.pc.remaining;
      var next := if r.Accepted? then c.(sent := c.sent + c.message[position..position + r.n]) else c;
      (match AfterWrite(c.pc.remaining, r)
       case MoreToWrite(remaining) => next.(pc := Sending(remaining))
       case Delivered => next.(pc := AwaitReply)
       case Lost => next.(pc := Closing(false)))
    case SelectReply(r) =>
      if !r.Ready? then c.(pc := Closing(false))
      else if r.pipe then c.(pc := Closing(false), cancelled := true)
      else if !r.socket then c.(pc := Closing(false))
      else c.(pc := Receiving(0), message := Zeros())
    case ReadBytes(r) =>
      var next := c.(
        inbox := c.inbox.Taken(r),
        message := if r.Data? then StoreWithin(c.message, c.pc.position, r.bytes) else c.message,
        received := if r.Data? then c.received + r.bytes else c.received,
        overrun := c.overrun || Overruns(c.pc.position, r));
      (match AfterRead(c.pc.position, r)
       case MoreToRead(position) => next.(pc := Receiving(position))
       case Broken => next.(pc := Closing(false))
       case Complete => next.(pc := Closing(true), delay := ToInt32(Decimal.Atoi(next.message))))
  }

  /** The call has been counted in `numConnections_` and has not yet taken itself out again. */
  predicate Counted(c: Call) {
    c.pc.AwaitWritable? || c.pc.Sending? || c.pc.AwaitReply? || c.pc.Receiving? || c.pc.Closing?
  }

  /** Its socket is open. */
  predicate HoldsSocket(c: Call) {
    Counted(c) || c.pc.Connecting? || c.pc.CheckingPipe? || c.pc.Dropping? || c.pc.Counting?
  }

  predicate Result(c: Call, ok: bool) {
    (c.pc.Closing? || c.pc.Returned?) && c.pc.ok == ok
  }

  /**
   What was written is the start of the message; a call has overrun exactly if it has read more than a block, and one
   that succeeds without has read a whole block and parsed it.
   */
  ghost predicate CallBufferOk(c: Call) {
    && c.sent <= Message(c.asked)
    && (!c.pc.Sending? && !c.pc.AwaitReply? && !c.pc.Receiving? && !Result(c, true) && !Result(c, false) ==>
          c.sent == [])
    && (c.pc.Sending? ==>
          && c.message == Message(c.asked)
          && 0 < c.pc.remaining <= BUFFER_SIZE && |c.sent| == BUFFER_SIZE - c.pc.remaining)
    && (c.pc.AwaitReply? || c.pc.Receiving? || Result(c, true) ==> c.sent == Message(c.asked))
    && (!c.pc.Receiving? && !Result(c, true) && !Result(c, false) ==> c.received == [])
    && (c.pc.Receiving? ==> c.pc.position == |c.received|)
    && (c.overrun <==> |c.received| > BUFFER_SIZE)
    && (Result(c, true) && !c.overrun ==>
          |c.received| == BUFFER_SIZE && c.delay == ToInt32(Decimal.Atoi(c.received)))
  }

  /** What holds of one call in every state. */
  ghost predicate CallOk(c: Call) {
    && c.created == (if HoldsSocket(c) || c.closes == 1 then 1 else 0)
    && c.closes <= 1
    && (HoldsSocket(c) || c.pc.Creating? ==> c.closes == 0)
    && (c.cancelled ==> Result(c, false))
    && (!Result(c, true) ==> c.delay == c.asked)
    && CallBufferOk(c)
  }

  lemma NewCallOk(delay: Count)
    ensures CallOk(NewCall(delay))
  {
  }

  lemma WriteKeepsBuffer(c: Call, r: WriteResult, pipe: bool)
    requires CallOk(c) && CallEnabled(c, WriteBytes(r), pipe)
    ensures CallBufferOk(CallApply(c, WriteBytes(r), pipe))
  {
  }

  lemma ReadKeepsBuffer(c: Call, r: ReadResult, pipe: bool)
    requires CallOk(c) && CallEnabled(c, ReadBytes(r), pipe)
    ensures CallBufferOk(CallApply(c, ReadBytes(r), pipe))
  {
    var next := CallApply(c, ReadBytes(r), pipe);
    if Result(next, true) && !next.overrun {
      assert c.received == [];
      assert next.message == r.bytes == next.received;
    }
  }

  lemma StepKeepsRest(c: Call, e: CallStep, pipe: bool)
    requires CallOk(c) && CallEnabled(c, e, pipe)
    ensures var t := CallApply(c, e, pipe);
            && t.created == (if HoldsSocket(t) || t.closes == 1 then 1 else 0)
            && t.closes <= 1
            && (HoldsSocket(t) || t.pc.Creating? ==> t.closes == 0)
            && (t.cancelled ==> Result(t, false))
            && (!Result(t, true) ==> t.delay == t.asked)
  {
  }

  /** Every system call keeps what holds of the call. */
  lemma CallStaysOk(c: Call, e: CallStep, pipe: bool)
    requires CallOk(c) && CallEnabled(c, e, pipe)
    ensures CallOk(CallApply(c, e, pipe))
  {
    StepKeepsRest(c, e, pipe);
    match e {
      case WriteBytes(r) => WriteKeepsBuffer(c, r, pipe);
      case ReadBytes(r) => ReadKeepsBuffer(c, r, pipe);
      case _ =>
    }
  }

  /** A system call neither counts a call in or out nor creates or closes its socket. */
  lemma StepKeepsPlace(c: Call, e: CallStep, pipe: bool)
    requires CallEnabled(c, e, pipe)
    ensures var t := CallApply(c, e, pipe);
            && (Counted(t) <==> Counted(c)) && (HoldsSocket(t) <==> HoldsSocket(c))
            && t.fd == c.fd && !t.pc.Returned? && !c.pc.Returned? && !t.pc.Counting?
  {
  }

  /** A select evaluated with the pipe readable ends the call, whatever else is ready, and without an answer. */
  lemma SelectSeesQuit(c: Call, e: CallStep)
    requires CallEnabled(c, e, true) && (e.SelectWritable? || e.SelectReply?)
    ensures CallApply(c, e, true).pc == Closing(false)
  {
  }
}
