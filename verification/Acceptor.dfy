/**
 What the thread of `Server::run` does with its connections: it uses all the room there is, keeps one client waiting
 when there is none, and leaves its loop for the causes that the code names and no others.
 */
module Acceptor {
  import opened Bytes
  import opened Common
  import opened Worker
  import opened ServerProtocol
  import opened ServerInvariants
  import opened ServerTheorems

  // ---------------------------------------------------------------- what ends the loop

  /** The thread is in the loop of `run`, in doAccept included. */
  predicate InLoop(a: AcceptorPc) {
    a.Polling? || a.Accepting? || a.Checking? || a.Parked? || a.Admitting?
  }

  /** The select failed or found the pipe readable, accept4 failed for another reason than too many files, or quit. */
  predicate EndsLoop(s: Server, e: Event) {
    match e
    case ByAcceptor(Poll(r)) => !r.Ready? || r.pipe
    case ByAcceptor(Accept(r)) => r.AcceptFailed?
    case ByAcceptor(CheckCapacity) => s.quit
    case ByAcceptor(WakeForRoom) => s.quit
    case _ => false
  }

  lemma AcceptorEndsLoopExactly(s: Server, e: AcceptorEvent)
    requires AcceptorEnabled(s, e) && InLoop(s.acceptor)
    ensures InLoop(ApplyAcceptor(s, e).acceptor) <==> !EndsLoop(s, ByAcceptor(e))
  {
    match e {
      case Poll(_) =>
      case Accept(_) =>
      case CheckCapacity =>
      case WakeForRoom =>
      case Admit =>
    }
  }

  /** The loop ends exactly for these. */
  lemma LoopEndsExactly(s: Server, e: Event)
    requires Enabled(s, e) && InLoop(s.acceptor) && !e.ByApplication?
    ensures InLoop(Apply(s, e).acceptor) <==> !EndsLoop(s, e)
  {
    match e {
      case ByAcceptor(a) => AcceptorEndsLoopExactly(s, a);
      case ByStopper(_) =>
      case WorkerCloses(_) =>
      case _ =>
    }
  }

  /** The server is started, nobody has called stop, and its thread is in the loop. */
  predicate Serving(s: Server) {
    s.stopper.Idle? && InLoop(s.acceptor) && !s.quit
  }

  /** A call of stop, a failing select of `run`, or an accept4 that fails for another reason than too many files. */
  predicate Cause(e: Event) {
    || e == ByApplication(CallStop)
    || e == ByAcceptor(Poll(Failed))
    || e == ByAcceptor(Accept(AcceptFailed))
  }

  lemma ServingEndsExactly(s: Server, e: Event)
    requires Reachable(s) && Serving(s) && Enabled(s, e)
    ensures Serving(Apply(s, e)) <==> !Cause(e)
  {
    assert SignalsExact(s) && QuitByteKept(s) by {
      Reached(s);
    }
    if !e.ByApplication? {
      LoopEndsExactly(s, e);
    }
    match e {
      case ByAcceptor(a) => OnlyQuittingRaises(s, a);
      case WorkerCloses(_) =>
      case _ =>
    }
  }

  lemma OnlyQuittingRaises(s: Server, e: AcceptorEvent)
    requires AcceptorEnabled(s, e) && InLoop(s.acceptor)
    ensures ApplyAcceptor(s, e).quit == s.quit && ApplyAcceptor(s, e).stopper == s.stopper
  {
    AcceptorFrame(s, e);
  }

  /**
   Quit has a cause. If a run takes a serving server to where quit is raised, or is about to be, then at the step where
   it ceased to serve stop was called, the select of `run` failed, or accept4 failed for another reason than too many
   files.
   */
  lemma {:induction false} QuitHasCause(s: Server, es: seq<Event>) returns (k: nat)
    requires Reachable(s) && Serving(s) && IsRun(s, es) && !Serving(After(s, es))
    ensures k < |es| && Cause(es[k]) && Serving(At(s, es, k))
    decreases |es|
  {
    if es != [] {
      ServingEndsExactly(s, es[0]);
      StaysReachable(s, es[0]);
      if Cause(es[0]) {
        k := 0;
      } else {
        var rest := QuitHasCause(Apply(s, es[0]), es[1..]);
        k := rest + 1;
      }
    }
  }

  /** Every start that succeeds leads to a serving server. */
  lemma StartServes(s: Server)
    requires Enabled(s, ByApplication(StartServer(true)))
    ensures Serving(Apply(s, ByApplication(StartServer(true))))
  {
  }

  ghost predicate NoStart(es: seq<Event>) {
    forall i :: 0 <= i < |es| ==> es[i] != ByApplication(StartServer(true))
  }

  lemma LeftForGoodStep(s: Server, e: Event)
    requires Enabled(s, e) && !InLoop(s.acceptor) && e != ByApplication(StartServer(true))
    ensures var t := Apply(s, e); !InLoop(t.acceptor) && t.accepted == s.accepted && |t.workers| == |s.workers|
  {
    match e {
      case ByAcceptor(a) => AcceptorFrame(s, a);
      case ByStopper(_) =>
      case _ =>
    }
  }

  /** Once out of its loop the thread accepts no descriptor and admits no client, in any run until the next start. */
  lemma {:induction false} LoopIsLeftForGood(s: Server, es: seq<Event>)
    requires !InLoop(s.acceptor) && IsRun(s, es) && NoStart(es)
    ensures !InLoop(After(s, es).acceptor)
    ensures After(s, es).accepted == s.accepted && |After(s, es).workers| == |s.workers|
    decreases |es|
  {
    if es != [] {
      LeftForGoodStep(s, es[0]);
      LoopIsLeftForGood(Apply(s, es[0]), es[1..]);
    }
  }

  // ---------------------------------------------------------------- the room is used

  ghost predicate AcceptorOnly(es: seq<Event>) {
    forall i :: 0 <= i < |es| ==> es[i].ByAcceptor?
  }

  /** The thread polls, nobody has raised quit, and this number is free for the next descriptor. */
  ghost predicate Polls(s: Server, fd: nat) {
    Reachable(s) && s.acceptor.Polling? && !s.quit && fd !in s.descriptors
  }

  lemma PollingIsFree(s: Server)
    requires Reachable(s) && !s.quit
    ensures s.pipe == 0 && MutexFree(s)
  {
    Reached(s);
  }

  /** A client connects and is accepted. */
  lemma ClientIsAccepted(s: Server, fd: nat) returns (es: seq<Event>)
    requires Polls(s, fd)
    ensures es == [ByAcceptor(Poll(Ready(false, true))), ByAcceptor(Accept(Connection(fd)))]
    ensures IsRun(s, es)
    ensures After(s, es) ==
            s.(acceptor := Checking(fd), descriptors := s.descriptors + {fd}, accepted := s.accepted + 1)
  {
    PollingIsFree(s);
    es := Then(s, [], ByAcceptor(Poll(Ready(false, true))));
    es := Then(s, es, ByAcceptor(Accept(Connection(fd))));
  }

  /**
   The room is used. Whenever the thread polls with fewer clients than the bound, a client that connects is admitted,
   and nobody else has to take a step: there is one more worker, with the new descriptor, and the thread polls again.
   */
  lemma RoomIsUsed(s: Server, fd: nat) returns (es: seq<Event>)
    requires Polls(s, fd) && s.current < s.max
    ensures es == [ByAcceptor(Poll(Ready(false, true))), ByAcceptor(Accept(Connection(fd))),
                   ByAcceptor(CheckCapacity), ByAcceptor(Admit)]
    ensures IsRun(s, es)
    ensures After(s, es) == s.(current := s.current + 1, workers := s.workers + [NewWorker(fd)],
                               descriptors := s.descriptors + {fd}, accepted := s.accepted + 1)
  {
    PollingIsFree(s);
    es := ClientIsAccepted(s, fd);
    es := Then(s, es, ByAcceptor(CheckCapacity));
    es := Then(s, es, ByAcceptor(Admit));
  }

  /** With as many clients as the bound it is held, and the thread waits for room. */
  lemma FullServerWaits(s: Server, fd: nat) returns (es: seq<Event>)
    requires Polls(s, fd) && s.current == s.max
    ensures IsRun(s, es) && AcceptorOnly(es)
    ensures After(s, es) ==
            s.(acceptor := Parked(fd, false), descriptors := s.descriptors + {fd}, accepted := s.accepted + 1)
  {
    PollingIsFree(s);
    es := ClientIsAccepted(s, fd);
    es := Then(s, es, ByAcceptor(CheckCapacity));
  }

  /** And it is admitted as soon as another client has gone. */
  lemma WaitingClientIsAdmitted(s: Server, i: nat) returns (es: seq<Event>)
    requires Reachable(s) && s.acceptor.Parked? && !s.quit && i < |s.workers| && s.workers[i].pc.Closing?
    ensures es == [WorkerCloses(i), ByAcceptor(WakeForRoom), ByAcceptor(Admit)] && IsRun(s, es)
    ensures var t := After(s, es);
            && t.current == s.current && t.acceptor == Polling
            && t.workers == CloseClient(s, i).workers + [NewWorker(s.acceptor.fd)]
  {
    PollingIsFree(s);
    CounterNeverWraps(s, WorkerCloses(i));
    CounterIsExact(s);
    es := Then(s, [], WorkerCloses(i));
    es := Then(s, es, ByAcceptor(WakeForRoom));
    es := Then(s, es, ByAcceptor(Admit));
  }

  /** After too many open files the server serves on: the next client that connects is admitted if there is room. */
  lemma TooManyFilesIsSurvived(s: Server, fd: nat) returns (es: seq<Event>)
    requires Reachable(s) && Serving(s) && AcceptorEnabled(s, Accept(TooManyFiles))
    requires s.current < s.max && fd !in s.descriptors
    ensures es != [] && es[0] == ByAcceptor(Accept(TooManyFiles)) && IsRun(s, es) && AcceptorOnly(es)
    ensures Serving(After(s, es)) && After(s, es).workers == s.workers + [NewWorker(fd)]
  {
    var e := ByAcceptor(Accept(TooManyFiles));
    StaysReachable(s, e);
    ServingEndsExactly(s, e);
    var rest := RoomIsUsed(Apply(s, e), fd);
    RunBegins(s, e, rest);
    es := [e] + rest;
  }
}
