/**
 The simple server that the threads implement: a pool of sessions with room for `capacity` of them. Every run of
 the server is a run of the pool, although the lock is released between the check for room and the admission; and
 every run of the pool is one of the server, so that it uses all its room.
 */
module Pool {
  import opened Bytes
  import opened Common
  import Measures
  import opened ServerProtocol
  import opened ServerInvariants
  import opened ServerTheorems
  import opened Worker
  import Acceptor

  /** Sessions are numbered in the order in which they are admitted; no number is used twice. */
  datatype Pool = Pool(capacity: nat, sessions: set<nat>, admitted: nat)

  datatype PoolEvent = Acquire | Release(session: nat)

  predicate PoolEnabled(p: Pool, e: PoolEvent) {
    match e
    case Acquire => |p.sessions| < p.capacity
    case Release(session) => session in p.sessions
  }

  function PoolApply(p: Pool, e: PoolEvent): Pool
    requires PoolEnabled(p, e)
  {
    match e
    case Acquire => Pool(p.capacity, p.sessions + {p.admitted}, p.admitted + 1)
    case Release(session) => p.(sessions := p.sessions - {session})
  }

  ghost predicate IsPoolRun(p: Pool, es: seq<PoolEvent>)
    decreases |es|
  {
    es == [] || (PoolEnabled(p, es[0]) && IsPoolRun(PoolApply(p, es[0]), es[1..]))
  }

  ghost function PoolAfter(p: Pool, es: seq<PoolEvent>): Pool
    requires IsPoolRun(p, es)
    decreases |es|
  {
    if es == [] then p else PoolAfter(PoolApply(p, es[0]), es[1..])
  }

  /** The pool that a state of the server stands for. */
  ghost function PoolOf(s: Server): Pool {
    Pool(s.max, LiveWorkers(s.workers), |s.workers|)
  }

  /** What an event means to the pool: most mean nothing. */
  function Meaning(e: Event): seq<PoolEvent> {
    match e
    case ByAcceptor(Admit) => [Acquire]
    case WorkerCloses(i) => [Release(i)]
    case _ => []
  }

  function Meanings(es: seq<Event>): seq<PoolEvent> {
    if es == [] then [] else Meaning(es[0]) + Meanings(es[1..])
  }

  lemma AcceptorRefines(s: Server, e: AcceptorEvent)
    requires BoundKept(s) && s.current == |LiveWorkers(s.workers)| && AcceptorEnabled(s, e)
    ensures var t := ApplyAcceptor(s, e);
            if e.Admit? then |LiveWorkers(s.workers)| < s.max && PoolOf(t) == PoolApply(PoolOf(s), Acquire)
            else PoolOf(t) == PoolOf(s)
  {
    AcceptorFrame(s, e);
    if e.Admit? {
      LiveAfterAppend(s.workers, NewWorker(s.acceptor.fd));
    }
  }

  lemma CloseRefines(s: Server, i: nat)
    requires Enabled(s, WorkerCloses(i))
    ensures PoolEnabled(PoolOf(s), Release(i)) && PoolOf(CloseClient(s, i)) == PoolApply(PoolOf(s), Release(i))
  {
  }

  /** A call of a worker, or its peer, leaves it live. */
  lemma WorkerEventsRefine(s: Server, i: nat, w: Worker)
    requires i < |s.workers| && (w.pc.Finished? <==> s.workers[i].pc.Finished?)
    ensures PoolOf(SetWorker(s, i, w)) == PoolOf(s)
  {
    LiveAfterCall(s.workers, i, w);
  }

  lemma OthersRefine(s: Server, e: Event)
    requires Enabled(s, e) && !e.ByAcceptor? && !e.WorkerCloses?
    ensures PoolOf(Apply(s, e)) == PoolOf(s)
  {
    match e {
      case ByApplication(_) =>
      case ByStopper(a) => StopperFrame(s, a);
      case WorkerCalls(i, c) => WorkerEventsRefine(s, i, WorkerApply(s.workers[i], c, s.pipe > 0, s.now));
      case ByPeer(i, a) => WorkerEventsRefine(s, i, ApplyPeer(s.workers[i], a));
      case Tick =>
    }
  }

  /** One step of the server is one step of the pool, or none. */
  lemma StepRefines(s: Server, e: Event)
    requires Inv(s) && Enabled(s, e)
    ensures IsPoolRun(PoolOf(s), Meaning(e))
    ensures PoolAfter(PoolOf(s), Meaning(e)) == PoolOf(Apply(s, e))
  {
    match e {
      case ByAcceptor(a) => AcceptorRefines(s, a);
      case WorkerCloses(i) => CloseRefines(s, i);
      case _ => OthersRefine(s, e);
    }
  }

  lemma {:induction false} PoolRunsCompose(p: Pool, first: seq<PoolEvent>, second: seq<PoolEvent>)
    requires IsPoolRun(p, first) && IsPoolRun(PoolAfter(p, first), second)
    ensures IsPoolRun(p, first + second)
    ensures PoolAfter(p, first + second) == PoolAfter(PoolAfter(p, first), second)
    decreases |first|
  {
    if first == [] {
      assert first + second == second;
    } else {
      PoolRunsCompose(PoolApply(p, first[0]), first[1..], second);
      assert (first + second)[1..] == first[1..] + second;
    }
  }

  /** Every run of the server, seen through its sessions, is a run of the bounded pool. */
  lemma {:induction false} RunRefines(s: Server, es: seq<Event>)
    requires Inv(s) && IsRun(s, es)
    ensures IsPoolRun(PoolOf(s), Meanings(es))
    ensures PoolAfter(PoolOf(s), Meanings(es)) == PoolOf(After(s, es))
    decreases |es|
  {
    if es != [] {
      StepRefines(s, es[0]);
      StepKeepsInv(s, es[0]);
      RunRefines(Apply(s, es[0]), es[1..]);
      PoolRunsCompose(PoolOf(s), Meaning(es[0]), Meanings(es[1..]));
    }
  }

  /** The pool itself never holds more sessions than it has room for. */
  lemma {:induction false} PoolIsBounded(p: Pool, es: seq<PoolEvent>)
    requires |p.sessions| <= p.capacity && IsPoolRun(p, es)
    ensures |PoolAfter(p, es).sessions| <= p.capacity == PoolAfter(p, es).capacity
    decreases |es|
  {
    if es != [] {
      PoolIsBounded(PoolApply(p, es[0]), es[1..]);
    }
  }

  /** From its construction on the server is the bounded pool, and so never serves more than `max` at a time. */
  lemma ServerRefinesPool(max: nat, es: seq<Event>)
    requires max < SIZE_T_MODULUS && IsRun(Constructed(max), es)
    ensures IsPoolRun(Pool(max, {}, 0), Meanings(es))
    ensures var p := PoolAfter(Pool(max, {}, 0), Meanings(es));
            p == PoolOf(After(Constructed(max), es)) && |p.sessions| <= max
  {
    assert PoolOf(Constructed(max)) == Pool(max, {}, 0);
    ConstructedIsSound(max);
    RunRefines(Constructed(max), es);
    PoolIsBounded(Pool(max, {}, 0), Meanings(es));
  }

  // ---------------------------------------------------------------- every run of the pool

  lemma {:induction false} MeaningsCompose(first: seq<Event>, second: seq<Event>)
    ensures Meanings(first + second) == Meanings(first) + Meanings(second)
    decreases |first|
  {
    if first == [] {
      assert first + second == second;
      assert [] + Meanings(second) == Meanings(second);
    } else {
      MeaningsCompose(first[1..], second);
      assert (first + second)[1..] == first[1..] + second;
    }
  }

  /** The server serves, its thread polls, and every worker that is left waits for its message. */
  ghost predicate Resting(s: Server) {
    && Reachable(s) && s.acceptor.Polling? && s.stopper.Idle? && !s.quit
    && (forall i :: 0 <= i < |s.workers| ==> s.workers[i].pc.AwaitMessage? || s.workers[i].pc.Finished?)
  }

  /** The server runs to another resting state and means this to the pool on its way. */
  ghost predicate Plays(s: Server, es: seq<Event>, ps: seq<PoolEvent>) {
    IsRun(s, es) && Meanings(es) == ps && Resting(After(s, es))
  }

  lemma {:induction false} ReachableOverRun(s: Server, es: seq<Event>)
    requires Reachable(s) && IsRun(s, es)
    ensures Reachable(After(s, es))
    decreases |es|
  {
    if es != [] {
      StaysReachable(s, es[0]);
      ReachableOverRun(Apply(s, es[0]), es[1..]);
    }
  }

  lemma PlaysAcquire(s: Server) returns (es: seq<Event>)
    requires Resting(s) && |LiveWorkers(s.workers)| < s.max
    ensures Plays(s, es, [Acquire])
  {
    CounterIsExact(s);
    var fd := Measures.FreshDescriptor(s.descriptors);
    es := Acceptor.RoomIsUsed(s, fd);
    ReachableOverRun(s, es);
    assert es[3..] == [ByAcceptor(Admit)] && Meanings(es[3..]) == [Acquire];
    assert es[2..][1..] == es[3..] && es[1..][1..] == es[2..];
    assert Meanings(es[2..]) == Meanings(es[3..]) && Meanings(es[1..]) == Meanings(es[2..]);
  }

  lemma PlaysRelease(s: Server, i: nat) returns (es: seq<Event>)
    requires Resting(s) && i in LiveWorkers(s.workers)
    ensures Plays(s, es, [Release(i)])
  {
    var fails, closes := WorkerCalls(i, SelectMessage(Failed)), WorkerCloses(i);
    es := Then(s, [], fails);
    es := Then(s, es, closes);
    ReachableOverRun(s, es);
    assert es[1..] == [closes] && Meanings([closes]) == [Release(i)];
  }

  /** One step of the pool, whichever is possible. */
  lemma PlaysStep(s: Server, e: PoolEvent) returns (es: seq<Event>)
    requires Resting(s) && PoolEnabled(PoolOf(s), e)
    ensures Plays(s, es, [e]) && PoolOf(After(s, es)) == PoolApply(PoolOf(s), e)
  {
    match e {
      case Acquire => es := PlaysAcquire(s);
      case Release(i) => es := PlaysRelease(s, i);
    }
    Reached(s);
    RunRefines(s, es);
    assert PoolAfter(PoolOf(s), [e]) == PoolApply(PoolOf(s), e);
  }

  lemma {:induction false} PlaysRun(s: Server, ps: seq<PoolEvent>) returns (es: seq<Event>)
    requires Resting(s) && IsPoolRun(PoolOf(s), ps)
    ensures Plays(s, es, ps)
    decreases |ps|
  {
    if ps == [] {
      es := [];
    } else {
      var first := PlaysStep(s, ps[0]);
      var rest := PlaysRun(After(s, first), ps[1..]);
      RunsCompose(s, first, rest);
      MeaningsCompose(first, rest);
      es := first + rest;
      assert ps == [ps[0]] + ps[1..];
    }
  }

  /** The converse: every run of the pool is what some run of the server means to it. The server uses all its room. */
  lemma PoolRefinesServer(max: nat, ps: seq<PoolEvent>) returns (es: seq<Event>)
    requires max < SIZE_T_MODULUS && IsPoolRun(Pool(max, {}, 0), ps)
    ensures IsRun(Constructed(max), es) && Meanings(es) == ps
  {
    var s, start := Constructed(max), ByApplication(StartServer(true));
    ConstructedIsReachable(max);
    StaysReachable(s, start);
    assert PoolOf(Apply(s, start)) == Pool(max, {}, 0);
    var rest := PlaysRun(Apply(s, start), ps);
    RunBegins(s, start, rest);
    es := [start] + rest;
    assert es[1..] == rest;
  }
}
