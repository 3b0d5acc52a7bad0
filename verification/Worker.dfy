/** The thread that serves one client: `Server::runClient` and `Server::sleep`, one system call per step. */
module Worker {
  import opened Bytes
  import opened Common
  import Decimal

  datatype WorkerPc =
    | AwaitMessage                 // in the first select, on pipe and socket, no timeout
    | Receiving(position: nat)     // in the loop of readMessage
    | Sleeping(wakeAt: int)        // in the select of sleep, on pipe and socket
    | AwaitWritable                // in the last select, on the socket alone
    | Sending(remaining: nat)      // in the loop of writeMessage
    | Closing                      // about to call closeClientAndNotify
    | Finished

  /** The microseconds a select is asked to sleep: `sleepingTime * 1000` in `int` arithmetic. */
  function SleepMicros(sleepingTime: int): int {
    ToInt32(sleepingTime * 1000)
  }

  function ReadNumber(buffer: Block): int {
    ToInt32(Decimal.Atoi(buffer))
  }

  /** What `sleep` leaves in the buffer when the time is over. */
  function Reply(buffer: Block): Block {
    var n := ToInt32(ReadNumber(buffer) + 1);
    Decimal.TextFits(n);
    Decimal.StrCpy(buffer, Decimal.ToString(n))
  }

  /**
   A worker with its socket. `inbox` and `writable` are the kernel's; the fields from `received` on are history:
   all bytes read, all bytes written, the time the message was complete and the number in it, when the sleep
   timed out, how often a reply was attempted and the descriptor closed, and whether a read has stored bytes behind
   the buffer. Those bytes are dropped here; what they do to the program is undefined.
   */
  datatype Worker = Worker(
    pc: WorkerPc,
    fd: nat,
    buffer: Block,
    inbox: Inbox,
    writable: bool,
    received: seq<Byte>,
    sent: seq<Byte>,
    readAt: int,
    asked: int,
    sleptUntil: int,
    attempts: nat,
    closes: nat,
    overrun: bool)

  function NewWorker(fd: nat): Worker {
    Worker(AwaitMessage, fd, Zeros(), Inbox([], false), false, [], [], 0, 0, 0, 0, 0, false)
  }

  datatype WorkerCall =
    | SelectMessage(r: Selected)
    | ReadBytes(chunk: ReadResult)
    | SelectSleep(r: Selected)
    | SelectWritable(r: Selected)
    | WriteBytes(taken: WriteResult)

  /** Whether the system call a worker is in may answer this, with the pipe readable or not, at time `now`. */
  predicate WorkerEnabled(w: Worker, c: WorkerCall, pipe: bool, now: int) {
    match c
    case SelectMessage(r) =>
      w.pc.AwaitMessage? && SelectAllows(r, pipe, w.inbox.Readable(), false)
    case ReadBytes(r) => w.pc.Receiving? && ReadAllows(r, w.inbox)
    case SelectSleep(r) =>
      && w.pc.Sleeping?
      && SelectAllows(r, pipe, w.inbox.Readable(), true)
      && (!r.Failed? ==> w.readAt <= w.pc.wakeAt) // a negative timeout is refused
      && (r.Expired? ==> w.pc.wakeAt <= now)
    case SelectWritable(r) =>
      w.pc.AwaitWritable? && SelectAllows(r, false, w.writable, false)
    case WriteBytes(r) =>
      w.pc.Sending? && w.pc.remaining <= BUFFER_SIZE && WriteAllows(r, w.pc.remaining)
  }

  /** The worker after that answer. */
  function WorkerApply(w: Worker, c: WorkerCall, pipe: bool, now: int): Worker
    requires WorkerEnabled(w, c, pipe, now)
  {
    match c
    case SelectMessage(r) =>
      if !r.Ready? || r.pipe || !r.socket then w.(pc := Closing)
      else w.(pc := Receiving(0), buffer := Zeros())
    case ReadBytes(r) =>
      var next := w.(
        inbox := w.inbox.Taken(r),
        buffer := if r.Data? then StoreWithin(w.buffer, w.pc.position, r.bytes) else w.buffer,
        received := if r.Data? then w.received + r.bytes else w.received,
        overrun := w.overrun || Overruns(w.pc.position, r));
      (match AfterRead(w.pc.position, r)
       case MoreToRead(position) => next.(pc := Receiving(position))
       case Broken => next.(pc := Closing)
       case Complete =>
         var sleepingTime := ReadNumber(next.buffer);
         next.(pc := Sleeping(now + SleepMicros(sleepingTime)), readAt := now, asked := sleepingTime))
    case SelectSleep(r) =>
      if r.Expired? then w.(pc := AwaitWritable, buffer := Reply(w.buffer), sleptUntil := now)
      else w.(pc := Closing)
    case SelectWritable(r) =>
      if !r.Ready? || !r.socket then w.(pc := Closing)
      else w.(pc := Sending(BUFFER_SIZE), attempts := w.attempts + 1)
    case WriteBytes(r) =>
      var position := BUFFER_SIZE - w.pc.remaining;
      var next := if r.Accepted? then w.(sent := w.sent + w.buffer[position..position + r.n]) else w;
      (match AfterWrite(w.pc.remaining, r)
       case MoreToWrite(remaining) => next.(pc := Sending(remaining))
       case _ => next.(pc := Closing))
  }

  /** A reply is attempted at most once, by a worker whose sleep timed out no earlier than it was asked to. */
  ghost predicate ReplyOk(w: Worker, now: int) {
    && w.attempts <= 1
    && (w.pc.AwaitMessage? || w.pc.Receiving? || w.pc.Sleeping? || w.pc.AwaitWritable? ==> w.attempts == 0)
    && (w.pc.Sending? ==> w.attempts == 1)
    && (w.attempts == 0 ==> w.sent == [])
    && (w.pc.Sleeping? ==> w.pc.wakeAt == w.readAt + SleepMicros(w.asked))
    && (w.attempts == 1 || w.pc.AwaitWritable? ==>
          SleepMicros(w.asked) >= 0 && w.readAt + SleepMicros(w.asked) <= w.sleptUntil <= now)
  }

  /** The loops count what they have read and written. A worker has overrun exactly if it has read more than a block. */
  ghost predicate TransferOk(w: Worker) {
    && (w.overrun <==> |w.received| > BUFFER_SIZE)
    && (w.pc.AwaitMessage? ==> w.received == [])
    && (w.pc.Receiving? ==> w.pc.position == |w.received|)
    && (w.pc.Sending? ==> 0 < w.pc.remaining <= BUFFER_SIZE && |w.sent| == BUFFER_SIZE - w.pc.remaining)
    && (w.pc.Sending? ==> w.sent <= w.buffer)
  }

  /** The buffer holds the message read, then the reply to it, and what was written is the start of that reply. */
  ghost predicate BufferOk(w: Worker) {
    && (w.pc.Sleeping? ==> w.received == w.buffer && w.asked == ReadNumber(w.buffer))
    && (w.attempts == 1 || w.pc.AwaitWritable? ==>
          && |w.received| == BUFFER_SIZE
          && w.asked == ReadNumber(w.received)
          && w.buffer == Reply(w.received)
          && w.sent <= w.buffer)
  }

  /** What holds of one worker at time `now`, in every state. */
  ghost predicate WorkerOk(w: Worker, now: int) {
    && w.closes == (if w.pc.Finished? then 1 else 0)
    && ReplyOk(w, now)
    && TransferOk(w)
    && (!w.overrun ==> BufferOk(w))
  }

  lemma NewWorkerOk(fd: nat, now: int)
    ensures WorkerOk(NewWorker(fd), now)
  {
  }

  lemma ReplyStaysOk(w: Worker, c: WorkerCall, pipe: bool, now: int)
    requires ReplyOk(w, now) && WorkerEnabled(w, c, pipe, now)
    ensures ReplyOk(WorkerApply(w, c, pipe, now), now)
  {
  }

  lemma TransferStaysOk(w: Worker, c: WorkerCall, pipe: bool, now: int)
    requires ReplyOk(w, now) && TransferOk(w) && WorkerEnabled(w, c, pipe, now)
    ensures TransferOk(WorkerApply(w, c, pipe, now))
  {
    if c.WriteBytes? && c.taken.Accepted? {
      PrefixGrows(w.sent, w.buffer, c.taken.n);
    }
  }

  lemma ReadKeepsBuffer(w: Worker, r: ReadResult, pipe: bool, now: int)
    requires WorkerOk(w, now) && WorkerEnabled(w, ReadBytes(r), pipe, now)
    requires !WorkerApply(w, ReadBytes(r), pipe, now).overrun
    ensures BufferOk(WorkerApply(w, ReadBytes(r), pipe, now))
  {
  }

  lemma SleepKeepsBuffer(w: Worker, r: Selected, pipe: bool, now: int)
    requires BufferOk(w) && ReplyOk(w, now) && WorkerEnabled(w, SelectSleep(r), pipe, now)
    ensures BufferOk(WorkerApply(w, SelectSleep(r), pipe, now))
  {
  }

  lemma WriteKeepsBuffer(w: Worker, r: WriteResult, pipe: bool, now: int)
    requires BufferOk(w) && TransferOk(w) && ReplyOk(w, now) && WorkerEnabled(w, WriteBytes(r), pipe, now)
    ensures BufferOk(WorkerApply(w, WriteBytes(r), pipe, now))
  {
    if r.Accepted? {
      PrefixGrows(w.sent, w.buffer, r.n);
    }
  }

  /** Every system call of a worker keeps what holds of it. */
  lemma WorkerStaysOk(w: Worker, c: WorkerCall, pipe: bool, now: int)
    requires WorkerOk(w, now) && WorkerEnabled(w, c, pipe, now)
    ensures WorkerOk(WorkerApply(w, c, pipe, now), now)
  {
    ReplyStaysOk(w, c, pipe, now);
    TransferStaysOk(w, c, pipe, now);
    if !WorkerApply(w, c, pipe, now).overrun {
      match c {
        case SelectMessage(_) =>
        case ReadBytes(r) => ReadKeepsBuffer(w, r, pipe, now);
        case SelectSleep(r) => SleepKeepsBuffer(w, r, pipe, now);
        case SelectWritable(_) =>
        case WriteBytes(r) => WriteKeepsBuffer(w, r, pipe, now);
      }
    }
  }

  /** `sleepingTime * 1000` is exact in an `int` for precisely these times. */
  lemma SleepIsExact(sleepingTime: int)
    ensures SleepMicros(sleepingTime) == sleepingTime * 1000 <==> -2147483 <= sleepingTime <= 2147483
  {
  }
}
