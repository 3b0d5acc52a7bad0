/**
 The helpers server and client share: the outcome of `select`, the read and write loops over partial
 transfers, and the pipe whose bytes carry the quit signal.

 What the kernel decides is data here: `Selected`, `ReadResult` and `WriteResult` are the possible outcomes of
 one call, and a `Socket` object carries the outcomes its calls are going to have.
 */
module Common {
  import opened Bytes

  /** One `select`: it failed, its time expired, or it returned with the bits of the pipe and of the socket. */
  datatype Selected = Failed | Expired | Ready(pipe: bool, socket: bool)

  /**
   What `select` may answer when `pipe` and `socket` say which of the two is ready: the exact set of ready
   descriptors if there is one, else a timeout if it was given one. It may fail at any time.
   */
  predicate SelectAllows(r: Selected, pipe: bool, socket: bool, timed: bool) {
    match r
    case Failed => true
    case Expired => timed && !pipe && !socket
    case Ready(p, k) => (pipe || socket) && p == pipe && k == socket
  }

  /** An answer that a select on pipe and socket can give in some state of the two. */
  predicate CanAnswer(r: Selected, timed: bool) {
    SelectAllows(r, r.Ready? && r.pipe, r.Ready? && r.socket, timed)
  }

  /** What the other side of a connection does; `PeerDrains` makes room to write to it. */
  datatype PeerEvent =
    | PeerSends(bytes: seq<Byte>)
    | PeerCloses
    | PeerDrains

  /** Bytes the kernel holds for a reader, and whether the peer has closed behind them. */
  datatype Inbox = Inbox(bytes: seq<Byte>, closed: bool) {
    predicate Readable() {
      bytes != [] || closed
    }

    /** A peer that has closed sends no more. */
    predicate Admits(e: PeerEvent) {
      e.PeerSends? ==> !closed
    }

    function After(e: PeerEvent): Inbox {
      match e
      case PeerSends(more) => this.(bytes := bytes + more)
      case PeerCloses => this.(closed := true)
      case PeerDrains => this
    }

    function Taken(r: ReadResult): Inbox
      requires r.Data? ==> |r.bytes| <= |bytes|
    {
      if r.Data? then this.(bytes := bytes[|r.bytes|..]) else this
    }
  }

  /** One `read`: some bytes, 0, -1 with EAGAIN, or -1 with another error. */
  datatype ReadResult = Data(bytes: seq<Byte>) | EndOfStream | WouldBlock | ReadFailed

  /** What a `read` of BUFFER_SIZE bytes may answer. */
  predicate ReadAllows(r: ReadResult, inbox: Inbox) {
    match r
    case Data(b) => 0 < |b| <= BUFFER_SIZE && b <= inbox.bytes
    case EndOfStream => inbox.bytes == [] && inbox.closed
    case WouldBlock => inbox.bytes == [] && !inbox.closed
    case ReadFailed => true
  }

  /** What the peer does for the next read to answer `r`. */
  function Delivery(r: ReadResult): PeerEvent {
    match r
    case Data(bytes) => PeerSends(bytes)
    case EndOfStream => PeerCloses
    case _ => PeerSends([])
  }

  /** The inbox holds that, and no more. */
  ghost predicate Supplies(inbox: Inbox, r: ReadResult) {
    ReadAllows(r, inbox) && (r.Data? ==> inbox == Inbox(r.bytes, false))
  }

  /** One `write`: how many bytes it took, or -1. */
  datatype WriteResult = Accepted(n: nat) | WriteFailed

  predicate WriteAllows(r: WriteResult, remaining: nat) {
    r.Accepted? ==> r.n <= remaining
  }

  /** Where `readMessage` stands after one `read`. */
  datatype ReadStep = MoreToRead(position: nat) | Complete | Broken

  function AfterRead(position: nat, r: ReadResult): ReadStep {
    match r
    case Data(b) => if |b| < BUFFER_SIZE then MoreToRead(position + |b|) else Complete
    case _ => Broken
  }

  /** Where `writeMessage` stands after one `write`. */
  datatype WriteStep = MoreToWrite(remaining: nat) | Delivered | Lost

  function AfterWrite(remaining: nat, r: WriteResult): WriteStep
    requires WriteAllows(r, remaining)
  {
    match r
    case WriteFailed => Lost
    case Accepted(n) =>
      if n == 0 then Lost else if n == remaining then Delivered else MoreToWrite(remaining - n)
  }

  /** The outcomes the next `read` calls are going to have; once they are used up nothing is available. */
  function NextRead(arrivals: seq<ReadResult>): ReadResult {
    if arrivals == [] then WouldBlock else arrivals[0]
  }

  function Rest<T>(s: seq<T>): seq<T> {
    if s == [] then [] else s[1..]
  }

  /** `read` hands over between 1 and BUFFER_SIZE bytes at a time. */
  ghost predicate KernelReads(arrivals: seq<ReadResult>) {
    forall i :: 0 <= i < |arrivals| && arrivals[i].Data? ==> 0 < |arrivals[i].bytes| <= BUFFER_SIZE
  }

  /** A `read` at `position` that stores behind the end of the buffer. */
  predicate Overruns(position: nat, r: ReadResult) {
    r.Data? && position + |r.bytes| > BUFFER_SIZE
  }

  /** Every `read` the loop makes from `position` on stores inside the buffer. */
  ghost predicate StaysInBuffer(arrivals: seq<ReadResult>, position: nat) {
    var r := NextRead(arrivals);
    r.Data? ==>
      && !Overruns(position, r)
      && (AfterRead(position, r).MoreToRead? ==> StaysInBuffer(Rest(arrivals), position + |r.bytes|))
  }

  /** `rest` are the answers that were not asked for. */
  datatype ReadOutcome = ReadOutcome(ok: bool, buffer: Block, rest: seq<ReadResult>)

  /** What `readMessage` returns, leaves in the buffer and leaves unread. */
  ghost function ReadLoop(arrivals: seq<ReadResult>, position: nat, buffer: Block): ReadOutcome
    decreases |arrivals|
  {
    var r := NextRead(arrivals);
    if !r.Data? then ReadOutcome(false, buffer, Rest(arrivals))
    else
      var stored := StoreWithin(buffer, position, r.bytes);
      if |r.bytes| < BUFFER_SIZE then ReadLoop(Rest(arrivals), position + |r.bytes|, stored)
      else ReadOutcome(true, stored, Rest(arrivals))
  }

  function NextWrite(grants: seq<WriteResult>, remaining: nat): (r: WriteResult)
    ensures WriteAllows(r, remaining)
  {
    if grants == [] then WriteFailed
    else if grants[0].Accepted? && grants[0].n > remaining then Accepted(remaining)
    else grants[0]
  }

  /** How many of the last `remaining` bytes `writeMessage` gets on the stream. */
  function WriteLoop(grants: seq<WriteResult>, remaining: nat): (sent: nat)
    requires 0 < remaining
    ensures sent <= remaining
  {
    var r := NextWrite(grants, remaining);
    match AfterWrite(remaining, r)
    case Lost => 0
    case Delivered => remaining
    case MoreToWrite(left) => r.n + WriteLoop(Rest(grants), left)
  }

  /** And which of the grants it leaves unused. */
  ghost function WriteRest(grants: seq<WriteResult>, remaining: nat): seq<WriteResult>
    requires 0 < remaining
    decreases |grants|
  {
    var r := NextWrite(grants, remaining);
    match AfterWrite(remaining, r)
    case MoreToWrite(left) => WriteRest(Rest(grants), left)
    case _ => Rest(grants)
  }

  /**
   The kernel's side of one connection: what its next calls answer, and what it has been given. `overrun` tells that
   a read stored bytes behind the buffer it was given.
   */
  class Socket {
    var arrivals: seq<ReadResult>
    var grants: seq<WriteResult>
    var sent: seq<Byte>
    var closes: nat
    ghost var overrun: bool

    constructor (arrivals: seq<ReadResult>, grants: seq<WriteResult>)
      ensures this.arrivals == arrivals && this.grants == grants && sent == [] && closes == 0 && !overrun
    {
      this.arrivals, this.grants, sent, closes := arrivals, grants, [], 0;
      overrun := false;
    }

    /** `read(descriptor, buffer + position, BUFFER_SIZE)`. */
    method Read(buffer: array<Byte>, position: nat) returns (r: ReadResult)
      requires buffer.Length == BUFFER_SIZE
      modifies this`arrivals, this`overrun, buffer
      ensures r == NextRead(old(arrivals)) && arrivals == Rest(old(arrivals))
      ensures overrun == (old(overrun) || Overruns(position, r))
      ensures buffer[..] == if r.Data? then StoreWithin(old(buffer[..]), position, r.bytes) else old(buffer[..])
    {
      r := NextRead(arrivals);
      arrivals := Rest(arrivals);
      overrun := overrun || Overruns(position, r);
      if r.Data? {
        forall i | 0 <= i < |r.bytes| && position + i < BUFFER_SIZE {
          buffer[position + i] := r.bytes[i];
        }
      }
    }

    /** `write(descriptor, message + position, remaining)`. */
    method Write(message: array<Byte>, position: nat, remaining: nat) returns (r: WriteResult)
      requires position + remaining == message.Length
      modifies this`grants, this`sent
      ensures r == NextWrite(old(grants), remaining) && grants == Rest(old(grants))
      ensures sent == old(sent) + if r.Accepted? then message[position..position + r.n] else []
    {
      r := NextWrite(grants, remaining);
      grants := Rest(grants);
      if r.Accepted? {
        sent := sent + message[position..position + r.n];
      }
    }

    method Close()
      modifies this`closes
      ensures closes == old(closes) + 1
    {
      closes := closes + 1;
    }
  }

  /**
   Reads one message. It is complete only when a single `read` delivers the whole block. Every `read` asks for a
   whole block, wherever in the buffer it is to go.
   */
  method ReadMessage(socket: Socket, buffer: array<Byte>) returns (ok: bool)
    requires buffer.Length == BUFFER_SIZE
    modifies buffer, socket`arrivals, socket`overrun
    ensures ReadOutcome(ok, buffer[..], socket.arrivals) == ReadLoop(old(socket.arrivals), 0, Zeros())
    ensures socket.overrun == (old(socket.overrun) || !StaysInBuffer(old(socket.arrivals), 0))
  {
    ghost var all := socket.arrivals;
    var bufferPosition := 0;
    forall i | 0 <= i < BUFFER_SIZE {
      buffer[i] := NUL;
    }
    assert buffer[..] == Zeros();
    while true
      invariant 0 <= bufferPosition
      invariant old(socket.overrun) || !StaysInBuffer(all, 0) <==>
                socket.overrun || !StaysInBuffer(socket.arrivals, bufferPosition)
      invariant ReadLoop(all, 0, Zeros()) == ReadLoop(socket.arrivals, bufferPosition, buffer[..])
      decreases |socket.arrivals|
    {
      var r := socket.Read(buffer, bufferPosition);
      if r.Data? {
        if |r.bytes| < BUFFER_SIZE {
          bufferPosition := bufferPosition + |r.bytes|;
        } else {
          return true;
        }
      } else {
        return false;
      }
    }
  }

  /** Writes one message, going on after each partial write. */
  method WriteMessage(socket: Socket, message: array<Byte>) returns (ok: bool)
    requires message.Length == BUFFER_SIZE
    modifies socket`grants, socket`sent
    ensures var n := WriteLoop(old(socket.grants), BUFFER_SIZE);
            ok == (n == BUFFER_SIZE) && socket.sent == old(socket.sent) + message[..n]
    ensures socket.grants == WriteRest(old(socket.grants), BUFFER_SIZE)
  {
    ghost var all := socket.grants;
    var remainingBytesToSend := BUFFER_SIZE;
    while remainingBytesToSend != 0
      invariant 0 <= remainingBytesToSend <= BUFFER_SIZE
      invariant socket.sent == old(socket.sent) + message[..BUFFER_SIZE - remainingBytesToSend]
      invariant WriteLoop(all, BUFFER_SIZE) ==
                BUFFER_SIZE - remainingBytesToSend
                + if remainingBytesToSend == 0 then 0 else WriteLoop(socket.grants, remainingBytesToSend)
      invariant WriteRest(all, BUFFER_SIZE) ==
                if remainingBytesToSend == 0 then socket.grants else WriteRest(socket.grants, remainingBytesToSend)
    {
      var position := BUFFER_SIZE - remainingBytesToSend;
      var r := socket.Write(message, position, remainingBytesToSend);
      if r.WriteFailed? || r.n == 0 {
        assert socket.sent == old(socket.sent) + message[..position];
        return false;
      }
      assert message[..position] + message[position..position + r.n] == message[..position + r.n];
      remainingBytesToSend := remainingBytesToSend - r.n;
    }
    assert message[..BUFFER_SIZE] == message[..];
    return true;
  }

  lemma SlicesJoin(b: Block, from: nat, middle: nat, to: nat)
    requires from <= middle <= to <= BUFFER_SIZE
    ensures b[from..middle] + b[middle..to] == b[from..to]
  {
  }

  /** The bytes of a script of reads, in order. */
  ghost function Stream(arrivals: seq<ReadResult>): seq<Byte> {
    if arrivals == [] || !arrivals[0].Data? then [] else arrivals[0].bytes + Stream(arrivals[1..])
  }

  lemma StoreTwice(buffer: Block, position: nat, a: seq<Byte>, b: seq<Byte>)
    requires position + |a| + |b| <= BUFFER_SIZE
    ensures Store(Store(buffer, position, a), position + |a|, b) == Store(buffer, position, a + b)
  {
  }

  /** What is left of a script of reads after the first that delivers nothing. */
  ghost function Unread(arrivals: seq<ReadResult>): seq<ReadResult> {
    if arrivals == [] || !arrivals[0].Data? then Rest(arrivals) else Unread(arrivals[1..])
  }

  /** Reads that deliver a tail of one message and no more never leave the buffer, and store it where it belongs. */
  lemma {:induction false} ChunksFillBuffer(arrivals: seq<ReadResult>, position: nat, buffer: Block)
    requires KernelReads(arrivals)
    requires position + |Stream(arrivals)| <= BUFFER_SIZE
    ensures StaysInBuffer(arrivals, position)
    ensures 0 < position ==> !ReadLoop(arrivals, position, buffer).ok
    ensures ReadLoop(arrivals, position, buffer).buffer == Store(buffer, position, Stream(arrivals))
    ensures var read := ReadLoop(arrivals, position, buffer);
            read.rest == if read.ok then Rest(arrivals) else Unread(arrivals)
    decreases |arrivals|
  {
    if arrivals != [] && arrivals[0].Data? {
      var b := arrivals[0].bytes;
      var next := Store(buffer, position, b);
      if |b| < BUFFER_SIZE {
        ChunksFillBuffer(arrivals[1..], position + |b|, next);
        StoreTwice(buffer, position, b, Stream(arrivals[1..]));
      } else {
        assert Stream(arrivals) == b + Stream(arrivals[1..]) == b;
      }
    } else {
      assert Store(buffer, position, []) == buffer;
    }
  }

  /**
   Framing. However one message is cut into reads, the loop stays inside the buffer and leaves the message there;
   it reports success exactly when the first read delivered the whole block, and else goes on until a read delivers
   nothing.
   */
  lemma Framing(arrivals: seq<ReadResult>, message: Block)
    requires KernelReads(arrivals)
    requires Stream(arrivals) == message
    ensures StaysInBuffer(arrivals, 0)
    ensures ReadLoop(arrivals, 0, Zeros()).buffer == message
    ensures ReadLoop(arrivals, 0, Zeros()).ok <==> arrivals[0] == Data(message)
    ensures var read := ReadLoop(arrivals, 0, Zeros());
            read.rest == if read.ok then arrivals[1..] else Unread(arrivals)
  {
    ChunksFillBuffer(arrivals, 0, Zeros());
    assert Store(Zeros(), 0, message) == message;
    var b := arrivals[0].bytes;
    if |b| < BUFFER_SIZE {
      ChunksFillBuffer(arrivals[1..], |b|, Store(Zeros(), 0, b));
    } else {
      assert b == message;
    }
  }

  lemma {:induction false} LateReadsFail(arrivals: seq<ReadResult>, position: nat, buffer: Block)
    requires 0 < position && StaysInBuffer(arrivals, position)
    ensures !ReadLoop(arrivals, position, buffer).ok
    decreases |arrivals|
  {
    var r := NextRead(arrivals);
    if AfterRead(position, r).MoreToRead? {
      LateReadsFail(Rest(arrivals), position + |r.bytes|, StoreWithin(buffer, position, r.bytes));
    }
  }

  /** A loop that stays inside its buffer succeeds exactly if its first read delivers a whole block. */
  lemma FirstReadDecides(arrivals: seq<ReadResult>, buffer: Block)
    requires KernelReads(arrivals) && StaysInBuffer(arrivals, 0)
    ensures ReadLoop(arrivals, 0, buffer).ok <==>
            NextRead(arrivals).Data? && |NextRead(arrivals).bytes| == BUFFER_SIZE
  {
    var r := NextRead(arrivals);
    if AfterRead(0, r).MoreToRead? {
      LateReadsFail(Rest(arrivals), |r.bytes|, StoreWithin(buffer, 0, r.bytes));
    }
  }

  /** A message that stops short of the block is never reported as read. */
  lemma ShortMessageRefused(arrivals: seq<ReadResult>)
    requires KernelReads(arrivals)
    requires |Stream(arrivals)| < BUFFER_SIZE
    ensures StaysInBuffer(arrivals, 0)
    ensures !ReadLoop(arrivals, 0, Zeros()).ok
  {
    ChunksFillBuffer(arrivals, 0, Zeros());
    if arrivals != [] && arrivals[0].Data? {
      ChunksFillBuffer(arrivals[1..], |arrivals[0].bytes|, Store(Zeros(), 0, arrivals[0].bytes));
    }
  }

  /** The bytes a script of writes takes before the first that fails or takes nothing. */
  ghost function AcceptedBytes(grants: seq<WriteResult>): nat {
    if grants == [] || !grants[0].Accepted? || grants[0].n == 0 then 0 else grants[0].n + AcceptedBytes(grants[1..])
  }

  /**
   The write loop delivers the whole block exactly when the partial writes, up to the first that fails or takes
   nothing, add up to it; otherwise it delivers just those bytes.
   */
  lemma {:induction false} WriteLoopDelivers(grants: seq<WriteResult>, remaining: nat)
    requires 0 < remaining
    ensures WriteLoop(grants, remaining)
         == if AcceptedBytes(grants) < remaining then AcceptedBytes(grants) else remaining
    decreases |grants|
  {
    var r := NextWrite(grants, remaining);
    if AfterWrite(remaining, r).MoreToWrite? {
      WriteLoopDelivers(grants[1..], remaining - r.n);
    }
  }

  /** The self pipe: a count of bytes. A faulty pipe is one whose calls may fail for no reason of its contents. */
  class Pipe {
    const faulty: bool
    var bytes: nat

    constructor (faulty: bool)
      ensures this.faulty == faulty && bytes == 0
    {
      this.faulty, bytes := faulty, 0;
    }

    /** `pipe2`: a new pipe is empty. */
    method Open()
      modifies this`bytes
      ensures bytes == 0
    {
      bytes := 0;
    }

    /** `write(end, "0", 1)`. */
    method WriteByte() returns (written: bool)
      modifies this`bytes
      ensures !faulty ==> written
      ensures bytes == old(bytes) + if written then 1 else 0
    {
      written := true;
      if faulty {
        written := *;
      }
      if written {
        bytes := bytes + 1;
      }
    }

    /** `read(end, &ch, 1)` on the non-blocking end. */
    method ReadByte() returns (r: ReadResult)
      modifies this`bytes
      ensures r.ReadFailed? ==> faulty
      ensures r.Data? ==> r == Data([48]) && old(bytes) > 0 && bytes == old(bytes) - 1
      ensures !r.Data? ==> bytes == old(bytes)
      ensures r.WouldBlock? ==> bytes == 0
      ensures !r.EndOfStream?
    {
      var fails := false;
      if faulty {
        fails := *;
      }
      if fails {
        r := ReadFailed;
      } else if bytes > 0 {
        bytes := bytes - 1;
        r := Data([48]);
      } else {
        r := WouldBlock;
      }
    }
  }

  /** Reads bytes until there are none left, or until a read fails. */
  method ConsumePipe(pipe: Pipe) returns (drained: bool)
    modifies pipe`bytes
    ensures pipe.bytes <= old(pipe.bytes)
    ensures drained ==> pipe.bytes == 0
    ensures !pipe.faulty ==> drained
  {
    var done := false;
    while !done
      invariant pipe.bytes <= old(pipe.bytes)
      invariant done ==> pipe.bytes == 0
      decreases !done, pipe.bytes
    {
      var r := pipe.ReadByte();
      if r.EndOfStream? {
        return false;
      }
      if !r.Data? {
        if !r.WouldBlock? {
          return false;
        }
        done := true;
      }
    }
    return true;
  }

  /** Reads of one byte each. */
  ghost function Drip(n: nat): seq<ReadResult> {
    if n == 0 then [] else [Data([NUL])] + Drip(n - 1)
  }

  lemma {:induction false} DripStays(n: nat, position: nat)
    ensures KernelReads(Drip(n)) && |Stream(Drip(n))| == n
    ensures StaysInBuffer(Drip(n), position) <==> n == 0 || position + n <= BUFFER_SIZE
  {
    if n > 0 {
      DripStays(n - 1, position + 1);
      assert Drip(n)[1..] == Drip(n - 1);
    }
  }

  /** A byte, and then a whole block: the second read stores its last byte behind the buffer. */
  lemma ByteThenBlockOverruns()
    ensures KernelReads([Data([NUL]), Data(Zeros())])
    ensures !StaysInBuffer([Data([NUL]), Data(Zeros())], 0)
  {
    assert Rest([Data([NUL]), Data(Zeros())]) == [Data(Zeros())];
  }

  /** The loop stays inside the buffer however its peer's bytes are cut exactly if there is no more than one block. */
  lemma BufferHolds(total: nat)
    ensures (forall arrivals :: KernelReads(arrivals) && |Stream(arrivals)| == total ==> StaysInBuffer(arrivals, 0))
            <==> total <= BUFFER_SIZE
  {
    if total <= BUFFER_SIZE {
      forall arrivals | KernelReads(arrivals) && |Stream(arrivals)| == total ensures StaysInBuffer(arrivals, 0) {
        ChunksFillBuffer(arrivals, 0, Zeros());
      }
    } else {
      DripStays(total, 0);
    }
  }
}
