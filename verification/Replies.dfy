/** When a worker replies: at most once, on time, and never after quit or after its peer has gone. */
module Replies {
  import opened Bytes
  import opened Common
  import opened Worker
  import opened ServerProtocol
  import opened ServerInvariants
  import opened ServerTheorems

  /** At or before the select of `sleep`. */
  predicate BeforeSleepEnds(w: Worker) {
    w.pc.AwaitMessage? || w.pc.Receiving? || w.pc.Sleeping?
  }

  predicate ClosingUp(w: Worker) {
    w.pc.Closing? || w.pc.Finished?
  }

  /** Worker `i` has not replied and cannot any more because of quit. */
  ghost predicate SilencedByQuit(s: Server, i: nat) {
    && i < |s.workers|
    && s.workers[i].attempts == 0
    && (ClosingUp(s.workers[i]) || (s.quit && BeforeSleepEnds(s.workers[i])))
  }

  lemma QuitStepSilences(s: Server, e: Event, i: nat)
    requires ControlOk(s) && s.current == |LiveWorkers(s.workers)|
    requires Enabled(s, e) && SilencedByQuit(s, i)
    requires !s.cycle.drainExpired && !s.cycle.pipeFault
    ensures SilencedByQuit(Apply(s, e), i)
  {
    if Concerns(e, i) {
      if i in LiveWorkers(s.workers) && s.quit {
        ByteThereForWorkers(s, i);
      }
    } else {
      OtherWorkersKept(s, e, i);
      Frame(s, e);
      if i in LiveWorkers(s.workers) && s.quit {
        ByteThereForWorkers(s, i);
      }
    }
  }

  /** A run in no state of which the server thread has given a client up, or a call on the pipe failed. */
  ghost predicate Untroubled(s: Server, es: seq<Event>)
    requires IsRun(s, es)
    decreases |es|
  {
    !s.cycle.drainExpired && !s.cycle.pipeFault && (es == [] || Untroubled(Apply(s, es[0]), es[1..]))
  }

  /**
   No reply after quit. A worker that is at or before its sleep when quit is raised never replies, in any run in
   which no timed wait expires, be it over later cycles.
   */
  lemma {:induction false} NoReplyAfterQuit(s: Server, es: seq<Event>, i: nat)
    requires Inv(s) && IsRun(s, es) && Untroubled(s, es) && SilencedByQuit(s, i)
    ensures SilencedByQuit(After(s, es), i)
    ensures After(s, es).workers[i].attempts == 0 && After(s, es).workers[i].sent == []
    decreases |es|
  {
    if es == [] {
      assert WorkerOk(s.workers[i], s.now);
    } else {
      QuitStepSilences(s, es[0], i);
      StepKeepsInv(s, es[0]);
      NoReplyAfterQuit(Apply(s, es[0]), es[1..], i);
    }
  }

  /** Worker `i` has not replied and cannot any more because its peer has closed. */
  ghost predicate SilencedByPeer(s: Server, i: nat) {
    && i < |s.workers|
    && s.workers[i].attempts == 0
    && (ClosingUp(s.workers[i]) || (s.workers[i].inbox.closed && BeforeSleepEnds(s.workers[i])))
  }

  lemma PeerStepSilences(s: Server, e: Event, i: nat)
    requires Enabled(s, e) && SilencedByPeer(s, i)
    ensures SilencedByPeer(Apply(s, e), i)
  {
    if !Concerns(e, i) {
      OtherWorkersKept(s, e, i);
    }
  }

  /** No reply to a peer that closed before the sleep was over, in any run. */
  lemma {:induction false} NoReplyAfterPeerCloses(s: Server, es: seq<Event>, i: nat)
    requires Inv(s) && IsRun(s, es) && SilencedByPeer(s, i)
    ensures SilencedByPeer(After(s, es), i)
    ensures After(s, es).workers[i].attempts == 0 && After(s, es).workers[i].sent == []
    decreases |es|
  {
    if es == [] {
      assert WorkerOk(s.workers[i], s.now);
    } else {
      PeerStepSilences(s, es[0], i);
      StepKeepsInv(s, es[0]);
      NoReplyAfterPeerCloses(Apply(s, es[0]), es[1..], i);
    }
  }

  /** The sleep of worker `i` times out in this step, with nothing to read on pipe or socket and its time over. */
  ghost predicate SleepsOut(s: Server, e: Event, i: nat) {
    && i < |s.workers|
    && e == WorkerCalls(i, SelectSleep(Expired))
    && s.pipe == 0
    && s.workers[i].inbox == Inbox([], false)
    && s.workers[i].pc.Sleeping?
    && s.workers[i].readAt + SleepMicros(s.workers[i].asked) <= s.now
  }

  /** Worker `i` does not exist yet, or has not slept out yet. */
  ghost predicate NotSleptOut(s: Server, i: nat) {
    i < |s.workers| ==> s.workers[i].attempts == 0 && (BeforeSleepEnds(s.workers[i]) || ClosingUp(s.workers[i]))
  }

  /** Only the timeout takes a worker past its sleep, and a timeout is answered only when nothing else can be. */
  lemma OnlyTimeoutLeadsOn(w: Worker, c: WorkerCall, pipe: bool, now: int)
    requires ReplyOk(w, now) && WorkerEnabled(w, c, pipe, now) && BeforeSleepEnds(w)
    ensures var t := WorkerApply(w, c, pipe, now);
            || (t.attempts == 0 && (BeforeSleepEnds(t) || ClosingUp(t)))
            || (&& c == SelectSleep(Expired) && w.pc.Sleeping? && !pipe && w.inbox == Inbox([], false)
                && w.readAt + SleepMicros(w.asked) <= now)
  {
  }

  lemma OnlySleepingOutLeadsOn(s: Server, e: Event, i: nat)
    requires Reachable(s) && Enabled(s, e) && NotSleptOut(s, i)
    ensures NotSleptOut(Apply(s, e), i) || SleepsOut(s, e, i)
  {
    if i >= |s.workers| {
      if i < |Apply(s, e).workers| {
        NewWorkersAreNew(s, e, i);
      }
    } else if !Concerns(e, i) {
      OtherWorkersKept(s, e, i);
    } else if e.WorkerCalls? {
      assert WorkerOk(s.workers[i], s.now) by {
        Reached(s);
      }
      OnlyTimeoutLeadsOn(s.workers[i], e.call, s.pipe > 0, s.now);
    }
  }

  /** The last select of worker `i` finds its socket writable in this step. */
  ghost predicate FindsRoom(s: Server, e: Event, i: nat) {
    && i < |s.workers|
    && e == WorkerCalls(i, SelectWritable(Ready(false, true)))
    && s.workers[i].pc.AwaitWritable? && s.workers[i].writable
  }

  lemma OnlyRoomLeadsOn(s: Server, e: Event, i: nat)
    requires Enabled(s, e) && i < |s.workers| && s.workers[i].attempts == 0
    ensures i < |Apply(s, e).workers|
    ensures Apply(s, e).workers[i].attempts == 0 || FindsRoom(s, e, i)
  {
    if !Concerns(e, i) {
      OtherWorkersKept(s, e, i);
    }
  }

  lemma {:induction false} RoomInRun(s: Server, es: seq<Event>, i: nat) returns (k: nat)
    requires IsRun(s, es) && i < |s.workers| && s.workers[i].attempts == 0
    requires i < |After(s, es).workers| && After(s, es).workers[i].attempts > 0
    ensures k < |es| && FindsRoom(At(s, es, k), es[k], i)
    decreases |es|
  {
    if es != [] {
      OnlyRoomLeadsOn(s, es[0], i);
      if FindsRoom(s, es[0], i) {
        k := 0;
      } else {
        var rest := RoomInRun(Apply(s, es[0]), es[1..], i);
        k := rest + 1;
      }
    }
  }

  lemma {:induction false} CauseInRun(s: Server, es: seq<Event>, i: nat) returns (k: nat, room: nat)
    requires Reachable(s) && IsRun(s, es) && NotSleptOut(s, i)
    requires i < |After(s, es).workers| && After(s, es).workers[i].attempts > 0
    ensures k < room < |es| && SleepsOut(At(s, es, k), es[k], i) && FindsRoom(At(s, es, room), es[room], i)
    decreases |es|
  {
    if es != [] {
      var t := Apply(s, es[0]);
      OnlySleepingOutLeadsOn(s, es[0], i);
      StaysReachable(s, es[0]);
      if SleepsOut(s, es[0], i) {
        var rest := RoomInRun(t, es[1..], i);
        k, room := 0, rest + 1;
      } else {
        var rest, more := CauseInRun(t, es[1..], i);
        k, room := rest + 1, more + 1;
      }
    }
  }

  /**
   A reply has a cause: in every run, a worker that has attempted one slept out at some step of that run, when the
   pipe was empty, its peer had neither closed nor sent, and the time it was asked to sleep was over; and at a later
   step its last select found its socket writable.
   */
  lemma ReplyHasCause(max: nat, es: seq<Event>, i: nat) returns (k: nat, room: nat)
    requires max < SIZE_T_MODULUS && IsRun(Constructed(max), es)
    requires i < |After(Constructed(max), es).workers| && After(Constructed(max), es).workers[i].attempts > 0
    ensures k < room < |es|
    ensures SleepsOut(At(Constructed(max), es, k), es[k], i) && FindsRoom(At(Constructed(max), es, room), es[room], i)
  {
    ConstructedIsReachable(max);
    k, room := CauseInRun(Constructed(max), es, i);
  }

  /**
   In every reachable state each worker has attempted at most one reply, for any time in 0..2147483 not before that
   many milliseconds had passed since it read it; and unless its peer sent more than a block, with the bytes of the
   number it read plus one.
   */
  lemma ReplyDiscipline(s: Server, i: nat)
    requires Reachable(s) && i < |s.workers|
    ensures var w := s.workers[i];
            && w.attempts <= 1
            && (w.sent != [] ==> w.attempts == 1)
            && (w.attempts == 1 && 0 <= w.asked <= 2147483 ==> w.readAt + 1000 * w.asked <= w.sleptUntil)
            && (w.attempts == 1 && |w.received| <= BUFFER_SIZE ==>
                  |w.received| == BUFFER_SIZE && w.asked == ReadNumber(w.received) && w.sent <= Reply(w.received))
  {
    Reached(s);
    var w := s.workers[i];
    assert WorkerOk(w, s.now);
    SleepIsExact(w.asked);
  }

  // ---------------------------------------------------------------- which workers reply in full

  /**
   The call goes as the client wants it: the first select finds the message and no quit, one read takes it whole, the
   sleep runs out, the last select finds room, and each write takes something.
   */
  predicate Smooth(c: WorkerCall) {
    match c
    case SelectMessage(r) => r == Ready(false, true)
    case ReadBytes(r) => r.Data? && |r.bytes| == BUFFER_SIZE
    case SelectSleep(r) => r.Expired?
    case SelectWritable(r) => r == Ready(false, true)
    case WriteBytes(r) => r.Accepted? && r.n > 0
  }

  /** All calls of worker `i` in this run go so. */
  ghost predicate AllSmooth(es: seq<Event>, i: nat) {
    forall k :: 0 <= k < |es| && es[k].WorkerCalls? && es[k].i == i ==> Smooth(es[k].call)
  }

  /** The worker has sent its whole reply, or can still. */
  predicate OnCourse(w: Worker) {
    && (ClosingUp(w) ==> |w.sent| == BUFFER_SIZE)
    && (w.pc.Receiving? ==> w.pc.position == 0)
  }

  lemma WriteKeepsCourse(w: Worker, r: WriteResult, pipe: bool, now: int)
    requires TransferOk(w) && WorkerEnabled(w, WriteBytes(r), pipe, now)
    ensures OnCourse(WorkerApply(w, WriteBytes(r), pipe, now)) <==> OnCourse(w) && Smooth(WriteBytes(r))
  {
  }

  lemma CallKeepsCourse(w: Worker, c: WorkerCall, pipe: bool, now: int)
    requires WorkerOk(w, now) && WorkerEnabled(w, c, pipe, now) && !WorkerApply(w, c, pipe, now).overrun
    ensures OnCourse(WorkerApply(w, c, pipe, now)) <==> OnCourse(w) && Smooth(c)
  {
    match c {
      case SelectMessage(_) =>
      case ReadBytes(_) =>
      case SelectSleep(_) =>
      case SelectWritable(_) =>
      case WriteBytes(r) => WriteKeepsCourse(w, r, pipe, now);
    }
  }

  /** A worker is on course after an event exactly if it was before, and the event was smooth if it was its own call. */
  lemma EventKeepsCourse(s: Server, e: Event, i: nat)
    requires Reachable(s) && Enabled(s, e) && i < |s.workers|
    requires i < |Apply(s, e).workers| && !Apply(s, e).workers[i].overrun
    ensures OnCourse(Apply(s, e).workers[i]) <==>
            OnCourse(s.workers[i]) && (e.WorkerCalls? && e.i == i ==> Smooth(e.call))
  {
    if !Concerns(e, i) {
      OtherWorkersKept(s, e, i);
    } else if e.WorkerCalls? {
      assert WorkerOk(s.workers[i], s.now) by {
        Reached(s);
      }
      CallKeepsCourse(s.workers[i], e.call, s.pipe > 0, s.now);
    }
  }

  lemma OverrunStays(s: Server, e: Event, i: nat)
    requires Enabled(s, e) && i < |s.workers|
    ensures i < |Apply(s, e).workers| && (s.workers[i].overrun ==> Apply(s, e).workers[i].overrun)
  {
    if !Concerns(e, i) {
      OtherWorkersKept(s, e, i);
    }
  }

  lemma {:induction false} OverrunStaysOverRun(s: Server, es: seq<Event>, i: nat)
    requires IsRun(s, es) && i < |s.workers|
    ensures i < |After(s, es).workers| && (s.workers[i].overrun ==> After(s, es).workers[i].overrun)
    decreases |es|
  {
    if es != [] {
      OverrunStays(s, es[0], i);
      OverrunStaysOverRun(Apply(s, es[0]), es[1..], i);
    }
  }

  lemma SmoothFirst(es: seq<Event>, i: nat)
    requires es != []
    ensures AllSmooth(es, i) <==>
            (es[0].WorkerCalls? && es[0].i == i ==> Smooth(es[0].call)) && AllSmooth(es[1..], i)
  {
    assert es == [es[0]] + es[1..];
    assert forall k :: 0 < k < |es| ==> es[k] == es[1..][k - 1];
  }

  lemma {:induction false} CourseOverRun(s: Server, es: seq<Event>, i: nat)
    requires Reachable(s) && IsRun(s, es)
    requires i < |After(s, es).workers| && !After(s, es).workers[i].overrun
    ensures OnCourse(After(s, es).workers[i]) <==> (i < |s.workers| ==> OnCourse(s.workers[i])) && AllSmooth(es, i)
    decreases |es|
  {
    if es != [] {
      var e, t, rest := es[0], Apply(s, es[0]), es[1..];
      StaysReachable(s, e);
      CourseOverRun(t, rest, i);
      SmoothFirst(es, i);
      if i < |s.workers| {
        OverrunStays(s, e, i);
        OverrunStaysOverRun(t, rest, i);
        EventKeepsCourse(s, e, i);
      } else if i < |t.workers| {
        NewWorkersAreNew(s, e, i);
      }
    }
  }

  /**
   The workers that reply. In every run a worker that has finished, and was sent at most a block, has sent its whole
   reply exactly if all its own calls were smooth; what it has sent is in any case the start of that reply.
   */
  lemma RepliesExactly(max: nat, es: seq<Event>, i: nat)
    requires max < SIZE_T_MODULUS && IsRun(Constructed(max), es)
    requires i < |After(Constructed(max), es).workers| && After(Constructed(max), es).workers[i].pc.Finished?
    requires |After(Constructed(max), es).workers[i].received| <= BUFFER_SIZE
    ensures var w := After(Constructed(max), es).workers[i];
            && (|w.sent| == BUFFER_SIZE <==> AllSmooth(es, i))
            && (w.sent != [] ==> |w.received| == BUFFER_SIZE && w.sent <= Reply(w.received))
  {
    ConstructedIsReachable(max);
    MaxStays(Constructed(max), es);
    var s := After(Constructed(max), es);
    OnlyLongMessagesOverrun(s, i);
    CourseOverRun(Constructed(max), es, i);
    ReplyDiscipline(s, i);
  }
}
