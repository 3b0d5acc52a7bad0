/**
 One `Client` object as a transition system: any number of concurrent calls of sendDelayToServer, and one thread
 that calls `stop` again and again. Critical sections of `mutex_` and single system calls are the events.
 */
module ClientProtocol {
  import opened Bytes
  import opened Common
  import opened Call

  datatype StopperPc =
    | Idle                      // no stop is in progress
    | Stopping                  // about to lock in writeToPipeAndWait
    | Parked(notified: bool)    // waiting there for the calls to finish, with a time limit
    | Consuming                 // in consumePipe, without the lock

  /**
   `connections` is a `size_t`, `descriptors` the sockets of calls that are open. The rest is history: `targets`
   are the calls that were counted when the last stop wrote its byte, `expired` tells that its wait ran out,
   `pipeFault` that a call on the pipe failed, ever.
   */
  datatype Client = Client(
    pipeValid: bool,
    connections: nat,
    pipe: nat,
    stopper: StopperPc,
    calls: seq<Call>,
    descriptors: set<nat>,
    targets: set<nat>,
    expired: bool,
    pipeFault: bool)

  datatype SocketResult = NewSocket(fd: nat) | NoSocket

  datatype StopperEvent =
    | CallStop
    | WriteAndWait(written: bool)
    | WakeStopper
    | WaitExpires
    | Consume(answer: ReadResult)

  /** What call i does besides the system calls of `CallStep`. */
  datatype CallEvent =
    | CreateSocket(result: SocketResult)
    | CheckPipe
    | Drop
    | CountIn
    | CloseAndNotify

  datatype Event =
    | Send(delay: Count)
    | ByStopper(stopper: StopperEvent)
    | ByCall(i: nat, call: CallEvent)
    | CallSteps(i: nat, step: CallStep)
    | ByPeer(i: nat, peer: PeerEvent)

  function Constructed(pipeValid: bool): Client {
    Client(pipeValid, 0, 0, Idle, [], {}, {}, false, false)
  }

  function CountedCalls(calls: seq<Call>): set<nat> {
    set i: nat | i < |calls| && Counted(calls[i])
  }

  function Holders(calls: seq<Call>): set<nat> {
    set i: nat | i < |calls| && HoldsSocket(calls[i])
  }

  predicate NoConnections(c: Client) {
    c.connections == 0
  }

  /** The loop of `wait_for`: go on with the condition true, or sleep. */
  function AwaitConnections(c: Client): Client {
    if NoConnections(c) then c.(stopper := Consuming) else c.(stopper := Parked(false))
  }

  predicate StopperEnabled(c: Client, e: StopperEvent) {
    match e
    case CallStop => c.stopper.Idle?
    case WriteAndWait(written) => c.stopper.Stopping? && (written ==> c.pipeValid)
    case WakeStopper => c.stopper.Parked?
    case WaitExpires => c.stopper.Parked?
    case Consume(r) => && c.stopper.Consuming?
                       && (r.Data? ==> |r.bytes| == 1 && c.pipe > 0)
                       && (r.WouldBlock? ==> c.pipe == 0)
                       && !r.EndOfStream?
  }

  function ApplyStopper(c: Client, e: StopperEvent): Client
    requires StopperEnabled(c, e)
  {
    match e
    case CallStop => c.(stopper := Stopping)
    case WriteAndWait(written) =>
      if NoConnections(c) then c.(stopper := Consuming, targets := {}, expired := false)
      else AwaitConnections(c.(
        pipe := if written then c.pipe + 1 else c.pipe,
        pipeFault := c.pipeFault || !written,
        targets := CountedCalls(c.calls),
        expired := false))
    case WakeStopper => AwaitConnections(c)
    case WaitExpires => if NoConnections(c) then c.(stopper := Consuming) else c.(stopper := Consuming, expired := true)
    case Consume(r) =>
      (match r
       case Data(_) => c.(pipe := c.pipe - 1)
       case WouldBlock => c.(stopper := Idle)
       case _ => c.(stopper := Idle, pipeFault := true))
  }

  function SetCall(c: Client, i: nat, call: Call): Client
    requires i < |c.calls|
  {
    c.(calls := c.calls[i := call])
  }

  /** The call closes its socket and returns. */
  function CloseSocket(call: Call, ok: bool): Call {
    call.(pc := Returned(ok), closes := call.closes + 1)
  }

  predicate CallEventEnabled(c: Client, call: Call, e: CallEvent) {
    match e
    case CreateSocket(r) => call.pc.Creating? && (r.NewSocket? ==> r.fd !in c.descriptors)
    case CheckPipe => call.pc.CheckingPipe?
    case Drop => call.pc.Dropping?
    case CountIn => call.pc.Counting?
    case CloseAndNotify => call.pc.Closing?
  }

  function ApplyCall(c: Client, i: nat, e: CallEvent): Client
    requires i < |c.calls| && CallEventEnabled(c, c.calls[i], e)
  {
    var call := c.calls[i];
    match e
    case CreateSocket(NoSocket) => SetCall(c, i, call.(pc := Returned(false)))
    case CreateSocket(NewSocket(fd)) =>
      SetCall(c, i, call.(pc := Connecting, fd := fd, created := call.created + 1))
      .(descriptors := c.descriptors + {fd})
    case CheckPipe => SetCall(c, i, call.(pc := if c.pipeValid then Counting else Dropping))
    case Drop => SetCall(c, i, CloseSocket(call, false)).(descriptors := c.descriptors - {call.fd})
    case CountIn =>
      SetCall(c, i, call.(pc := AwaitWritable)).(connections := (c.connections + 1) % SIZE_T_MODULUS)
    case CloseAndNotify =>
      SetCall(c, i, CloseSocket(call, call.pc.ok)).(
        descriptors := c.descriptors - {call.fd},
        connections := (c.connections + SIZE_T_MODULUS - 1) % SIZE_T_MODULUS,
        stopper := if c.stopper.Parked? then Parked(true) else c.stopper)
  }

  function ApplyPeer(call: Call, e: PeerEvent): Call {
    call.(inbox := call.inbox.After(e), writable := call.writable || e.PeerDrains?)
  }

  predicate Enabled(c: Client, e: Event) {
    match e
    case Send(_) => |c.calls| + 1 < SIZE_T_MODULUS // no machine makes as many calls
    case ByStopper(s) => StopperEnabled(c, s)
    case ByCall(i, s) => i < |c.calls| && CallEventEnabled(c, c.calls[i], s)
    case CallSteps(i, s) => i < |c.calls| && CallEnabled(c.calls[i], s, c.pipe > 0)
    case ByPeer(i, s) => i < |c.calls| && c.calls[i].inbox.Admits(s)
  }

  function Apply(c: Client, e: Event): Client
    requires Enabled(c, e)
  {
    match e
    case Send(delay) => c.(calls := c.calls + [NewCall(delay)])
    case ByStopper(s) => ApplyStopper(c, s)
    case ByCall(i, s) => ApplyCall(c, i, s)
    case CallSteps(i, s) => SetCall(c, i, CallApply(c.calls[i], s, c.pipe > 0))
    case ByPeer(i, s) => SetCall(c, i, ApplyPeer(c.calls[i], s))
  }

  ghost predicate IsRun(c: Client, es: seq<Event>)
    decreases |es|
  {
    es == [] || (Enabled(c, es[0]) && IsRun(Apply(c, es[0]), es[1..]))
  }

  ghost function After(c: Client, es: seq<Event>): Client
    requires IsRun(c, es)
    decreases |es|
  {
    if es == [] then c else After(Apply(c, es[0]), es[1..])
  }

  /** A run begins with an event and goes on from there. */
  lemma RunBegins(c: Client, e: Event, rest: seq<Event>)
    requires Enabled(c, e) && IsRun(Apply(c, e), rest)
    ensures IsRun(c, [e] + rest) && After(c, [e] + rest) == After(Apply(c, e), rest)
  {
    assert ([e] + rest)[1..] == rest;
  }

  /** A run goes on with one more event. */
  lemma {:induction false} Then(c: Client, es: seq<Event>, e: Event) returns (longer: seq<Event>)
    requires IsRun(c, es) && Enabled(After(c, es), e)
    ensures longer == es + [e]
    ensures IsRun(c, longer) && After(c, longer) == Apply(After(c, es), e)
    decreases |es|
  {
    longer := es + [e];
    if es == [] {
      assert longer[1..] == [];
    } else {
      var rest := Then(Apply(c, es[0]), es[1..], e);
      assert longer[1..] == rest;
    }
  }

  /** A state in which some run has taken the client since it was constructed. */
  ghost predicate Reachable(c: Client) {
    exists es :: IsRun(Constructed(c.pipeValid), es) && After(Constructed(c.pipeValid), es) == c
  }

  lemma ConstructedIsReachable(pipeValid: bool)
    ensures Reachable(Constructed(pipeValid))
  {
    assert IsRun(Constructed(pipeValid), []);
  }

  lemma StepStaysReachable(c: Client, e: Event)
    requires Reachable(c) && Enabled(c, e) && Apply(c, e).pipeValid == c.pipeValid
    ensures Reachable(Apply(c, e))
  {
    var es :| IsRun(Constructed(c.pipeValid), es) && After(Constructed(c.pipeValid), es) == c;
    var longer := Then(Constructed(c.pipeValid), es, e);
  }
}
