/** Runs that go wrong, on every storage of the kind described: of the code as written, and, at
    the end, of either version. */
module Departures {
  import opened Protocol
  import opened Invariant
  import opened Preservation
  import opened Chains
  import opened Outcomes
  import opened Runs
  import opened Calls
  import opened AsWritten
  import opened Synchronous

  // ------------------------------------------------ calls that wait

  /** A data request that an open and empty storage hands to a backend that answers later. */
  lemma DataInFlight(c: Config, s: State, k: Kind, size: nat, done: bool)
    requires s.flags.isOpen && !s.flags.isClosed && s.queue == [] && s.pending == 0 && WF(s) && s.next !in s.reqs
    requires !Lifecycle(k) && k in c.ops && c.reply(s.next).Later?
    ensures var t := DataCall(c, s, k, size, done).0;
            && t.queue == [] && t.pending == 1 && t.flags == s.flags && t.next == s.next + 1
            && t.at.inFlight == s.at.inFlight + {s.next} && t.at.stalled == s.at.stalled
            && t.reqs.Keys == s.reqs.Keys + {s.next} && t.reqs[s.next].kind == k
            && (forall x :: x in s.reqs ==> t.reqs[x].kind == s.reqs[x].kind)
  {
    var id := s.next;
    var s1 := Issue(s, k, size, done);
    assert AutoOpen(c, s1, id) == s1 || (s.flags.needsOpen && !s.flags.isOpen);
    var s2 := Start(Pick(s1, id), id);
    assert Run(c, s1, id) == Dispatch(c, s2, id);
    assert Dispatch(c, s2, id).0 == Invoke(s2, id);
  }

  /** `t` is `s` with a data request queued behind its own open. */
  ghost predicate TwoQueued(s: State, t: State, r: Req) {
    && t.queue == s.queue + [s.next + 1, s.next] && t.pending == s.pending && t.log.dones == s.log.dones
    && t.at.inFlight == s.at.inFlight && t.at.stalled == s.at.stalled && t.flags == s.flags
    && t.reqs.Keys == s.reqs.Keys + {s.next, s.next + 1} && t.next == s.next + 2
    && t.reqs[s.next] == r && t.reqs[s.next + 1].kind == Open
    && (forall x :: x in s.reqs && x != s.next && x != s.next + 1 ==> t.reqs[x] == s.reqs[x])
  }

  /** A data call made while the automatic open of the storage has to wait queues both. */
  lemma DataWaits(c: Config, s: State, k: Kind, size: nat, done: bool)
    requires WF(s) && s.pending > 0 && OpensFirst(s.flags)
    requires s.next !in s.reqs && s.next + 1 !in s.reqs && s.next !in s.queue
    ensures TwoQueued(s, DataCall(c, s, k, size, done).0, Req(k, done, 0, size, true))
  {
    var s1 := Issue(s, k, size, done);
    IssueIs(s, k, size, done);
    hide LifecycleCall, Issue;
    CallWaits(c, s1, Open, false);
    LifecycleCallIs(c, s1, Open, false);
  }

  /** The same between calls. */
  lemma DataWaitsStep(c: Config, s: State, k: Kind, size: nat, done: bool)
    requires Boundary(s) && NoDestroy(s) && s.pending == 1 && OpensFirst(s.flags) && |s.queue| < 8 && !Lifecycle(k)
    ensures var a := IssueData(k, size, done);
            && WF(s) && Enabled(s, a) && var t := Step(c, s, a);
               Boundary(t) && NoDestroy(t) && TwoQueued(s, t, Req(k, done, 0, size, true))
  {
    hide Boundary, Inv, DataCall, Clean, TwoQueued, Drained;
    BoundaryIs(s);
    DataWaits(c, s, k, size, done);
    CallKeeps(c, s, IssueData(k, size, done));
    TwoQueuedNoDestroy(s, Step(c, s, IssueData(k, size, done)), Req(k, done, 0, size, true));
  }

  lemma TwoQueuedNoDestroy(s: State, t: State, r: Req)
    requires TwoQueued(s, t, r) && NoDestroy(s) && !r.kind.Destroy?
    ensures NoDestroy(t)
  {
  }

  lemma DestroyWaits(c: Config, s: State, done: bool)
    requires WF(s) && s.pending > 0 && s.next !in s.reqs && s.next + 1 !in s.reqs
    ensures var t := DestroyCall(c, s, done).0;
            && t.queue == s.queue + [s.next, s.next + 1] && t.pending == s.pending && t.flags == s.flags
            && t.reqs.Keys == s.reqs.Keys + {s.next, s.next + 1} && (forall x :: x in s.reqs ==> t.reqs[x] == s.reqs[x])
            && t.reqs[s.next].kind == Close && t.reqs[s.next + 1].kind == Destroy
            && t.at.inFlight == s.at.inFlight && t.at.stalled == s.at.stalled && t.mem.storage == s.mem.storage
  {
    hide LifecycleCall;
    CallWaits(c, s, Close, false);
    LifecycleCallIs(c, s, Close, false);
    CallWaits(c, LifecycleCall(c, s, Close, false).0, Destroy, done);
  }

  // ------------------------------------------------ released too early, as written

  /** On any idle open storage: a write that the backend answers later, then a close, then the
      answer to the write.  The drain loop starts the close (or finds it done) and then takes
      off and releases a request that was not called back, or the head of an empty queue. */
  lemma CloseAfterWriteFaults(c: Config, s: State, size: nat)
    requires c.policy.AsWritten? && Boundary(s) && s.pending == 0 && NoDestroy(s)
    requires s.flags.isOpen && !s.flags.isClosed && Write in c.ops && c.reply(s.next).Later?
    ensures var a1 := IssueData(Write, size, false);
            var a2 := IssueClose(false);
            var a3 := Complete(s.next, 0, 0, false);
            && WF(s) && Enabled(s, a1) && var s1 := Step(c, s, a1);
               Enabled(s1, a2) && var s2 := Step(c, s1, a2);
               Enabled(s2, a3) && Step(c, s2, a3).mem.fault
  {
    hide Boundary, Inv, DataCall, LifecycleCall, Callback, Clean, Unsupported, RouteOf, Drained, Sound;
    CloseBehindWrite(c, s, size);
    var s2 := Step(c, Step(c, s, IssueData(Write, size, false)), IssueClose(false));
    BoundaryIs(s);
    BoundaryIs(s2);
    assert Waiting(s2, s.next)[0] == s.next + 1;
    CloseSupported(c, s2.flags);
    DataCompletionIff(c, s2, s.next, 0, 0, false);
  }

  /** The write is in flight and the close waits. */
  lemma CloseBehindWrite(c: Config, s: State, size: nat)
    requires Boundary(s) && s.pending == 0 && NoDestroy(s)
    requires s.flags.isOpen && !s.flags.isClosed && Write in c.ops && c.reply(s.next).Later?
    ensures var a1 := IssueData(Write, size, false);
            && WF(s) && Enabled(s, a1) && var s1 := Step(c, s, a1);
               Enabled(s1, IssueClose(false)) && var s2 := Step(c, s1, IssueClose(false));
               && Boundary(s2) && Waiting(s2, s.next) == [s.next + 1]
               && s2.pending == 1 && s2.at.stalled == s.at.stalled
               && s.next in s2.reqs && s.next + 1 in s2.reqs && s.next in s2.at.inFlight
               && s2.reqs[s.next].kind == Write && s2.reqs[s.next + 1].kind == Close
  {
    hide Boundary, Inv, DataCall, LifecycleCall, Clean, RouteOf, Drained;
    BoundaryIs(s);
    DataInFlight(c, s, Write, size, false);
    CallKeeps(c, s, IssueData(Write, size, false));
    var s1 := Step(c, s, IssueData(Write, size, false));
    BoundaryIs(s1);
    CallWaits(c, s1, Close, false);
    CallKeeps(c, s1, IssueClose(false));
  }

  lemma CloseSupported(c: Config, f: Flags)
    ensures !Unsupported(c, f, Close) && !Unsupported(c, f, Open)
  {
  }

  // ------------------------------------------------ new storages

  lemma FirstOpenEnabled(heap: bool)
    ensures Boundary(Initial(heap)) && WF(Initial(heap)) && Enabled(Initial(heap), IssueOpen(true))
    ensures Initial(heap).flags == Flags(false, false, false, true)
  {
    InitialBoundary(heap);
  }

  lemma FirstOpen(c: Config, heap: bool)
    requires Open in c.ops && c.reply(0).Later?
    ensures var t := LifecycleCall(c, Initial(heap), Open, true).0;
            && t.queue == [0] && t.pending == 1 && t.next == 1 && t.flags == Initial(heap).flags && t.log.dones == []
            && t.at.inFlight == {0} && t.at.stalled == {} && t.reqs == map[0 := Req(Open, true, 0, 0, true)]
            && t.mem.storage == Initial(heap).mem.storage
  {
    var s1 := Push(Issue(Initial(heap), Open, 0, true), 0);
    var s2 := Start(Pick(s1, 0), 0);
    assert Run(c, s1, 0) == Dispatch(c, s2, 0);
    assert Dispatch(c, s2, 0).0 == Invoke(s2, 0);
  }

  /** A storage whose first open (id 0) the backend will answer later. */
  ghost predicate Opening(s: State) {
    && Boundary(s) && NoDestroy(s) && WF(s)
    && s.queue == [0] && s.pending == 1 && s.next == 1 && s.flags == Flags(false, false, false, true)
    && s.at.inFlight == {0} && s.at.stalled == {} && s.log.dones == []
    && s.reqs == map[0 := Req(Open, true, 0, 0, true)]
  }

  lemma OpeningAt(c: Config, heap: bool)
    requires Open in c.ops && c.reply(0).Later?
    ensures WF(Initial(heap)) && Enabled(Initial(heap), IssueOpen(true))
    ensures var s := Step(c, Initial(heap), IssueOpen(true)); Opening(s) && s.mem.storage == Initial(heap).mem.storage
  {
    FirstOpenEnabled(heap);
    FirstOpen(c, heap);
    hide Boundary, LifecycleCall;
    CallKeeps(c, Initial(heap), IssueOpen(true));
  }

  /** Two data calls while the storage opens, and then the success of the open. */
  ghost predicate ReadsFault(c: Config, s: State, k: Kind, n: nat, done: bool)
    requires WF(s)
  {
    var a := IssueData(k, n, done);
    var a3 := Complete(0, 0, 0, false);
    && Enabled(s, a) && var s1 := Step(c, s, a);
       Enabled(s1, a) && var s2 := Step(c, s1, a);
       Enabled(s2, a3) && Step(c, s2, a3).mem.fault
  }

  /** Two data requests wait for the storage to open. */
  ghost predicate TwoWait(s: State, k: Kind) {
    && Boundary(s) && WF(s) && s.queue == [0, 2, 1, 4, 3] && s.pending == 1 && {0, 1, 2, 3, 4} <= s.reqs.Keys
    && s.reqs[0].kind == Open && s.reqs[1].kind == k && s.reqs[2].kind == Open && s.reqs[4].kind == Open
    && s.flags == Flags(false, false, false, true) && 0 in s.at.inFlight && s.at.stalled == {}
  }

  lemma TwoWaitAt(c: Config, s: State, k: Kind, n: nat, done: bool)
    requires Opening(s) && !Lifecycle(k)
    ensures var a := IssueData(k, n, done);
            && WF(s) && Enabled(s, a) && var s1 := Step(c, s, a);
               Enabled(s1, a) && TwoWait(Step(c, s1, a), k)
  {
    var a := IssueData(k, n, done);
    hide Boundary, Enabled, Step;
    DataWaitsStep(c, s, k, n, done);
    DataWaitsStep(c, Step(c, s, a), k, n, done);
    assert [0] + [2, 1] + [4, 3] == [0, 2, 1, 4, 3];
    BoundaryIs(Step(c, Step(c, s, a), a));
  }

  lemma OpeningFaults(c: Config, s: State, k: Kind, n: nat, done: bool)
    requires c.policy.AsWritten? && Opening(s) && !Lifecycle(k) && k in c.ops && c.reply(1).Now?
    ensures WF(s) && ReadsFault(c, s, k, n, done)
  {
    var a := IssueData(k, n, done);
    hide Boundary, Inv, DataCall, Callback, Clean, Opening, Known, VerdictOf, VerdictOn, Waiting, Drained, Sound;
    TwoWaitAt(c, s, k, n, done);
    var s2 := Step(c, Step(c, s, a), a);
    BoundaryIs(s2);
    OpeningVerdict(c, s2, k);
    CompletionIff(c, s2, 0, 0, 0, false);
  }

  /** The open's drain finds the automatic open of the first data request done, the request
      itself is answered at once, and behind it another open waits. */
  lemma OpeningVerdict(c: Config, s: State, k: Kind)
    requires TwoWait(s, k) && !Lifecycle(k) && k in c.ops && c.reply(1).Now?
    ensures 0 in s.reqs && Known(s.reqs, Waiting(s, 0)) && VerdictOn(c, s, 0, 0) == Faults
  {
    hide Boundary;
    var g := Flags(true, false, false, false);
    assert Waiting(s, 0) == [2, 1, 4, 3];
    assert [2, 1, 4, 3][1..] == [1, 4, 3] && [1, 4, 3][1..] == [4, 3];
    assert VerdictOf(c, g, s.reqs, [4, 3], k) == Faults by { assert [4, 3][0] == 4; }
    assert VerdictOf(c, g, s.reqs, [1, 4, 3], Open) == Faults;
    assert VerdictOf(c, g, s.reqs, [2, 1, 4, 3], Open) == Faults;
  }

  /** On any new storage whose backend opens later and answers data requests at once, two data
      calls before the open succeeds are enough. */
  lemma TwoReadsFault(c: Config, heap: bool, k: Kind, n: nat, done: bool)
    requires c.policy.AsWritten? && Open in c.ops && c.reply(0).Later? && !Lifecycle(k) && k in c.ops && c.reply(1).Now?
    ensures WF(Initial(heap)) && Enabled(Initial(heap), IssueOpen(true))
    ensures ReadsFault(c, Step(c, Initial(heap), IssueOpen(true)), k, n, done)
  {
    hide Opening, ReadsFault, Enabled, LifecycleCall;
    OpeningAt(c, heap);
    OpeningFaults(c, Step(c, Initial(heap), IssueOpen(true)), k, n, done);
  }

  // ------------------------------------------------ left behind, as written

  lemma FinishLives(s: State, id: Id, r: Req, err: int, wasClosed: bool, needsFree: bool, x: Id)
    requires s.at.stack != [] && !r.kind.Destroy? && x in s.mem.live
    requires x != id || (!needsFree && Lifecycle(r.kind))
    ensures x in Finish(s, id, r, err, wasClosed, needsFree).mem.live
  {
  }

  /** A lifecycle request is run although `x`, marked with an error, waits before it. */
  ghost predicate Bypasses(h: State, x: Id, id: Id) {
    && WF(h) && h.queue == [x, id] && h.pending == 1 && x != id && x in h.reqs && id in h.reqs
    && h.reqs[x].err != 0 && h.reqs[x].done && !h.reqs[x].kind.Destroy?
    && Lifecycle(h.reqs[id].kind) && !h.reqs[id].kind.Destroy? && id in h.mem.live && x !in h.at.stalled
  }

  /** What the callback of that request leaves to its drain. */
  lemma BypassLeaves(h: State, x: Id, id: Id, err: int, size: nat, foreign: bool)
    requires Bypasses(h, x, id)
    ensures var l := Leave(h, id, err, size, foreign);
            && WF(l) && l.queue == [x, id] && l.pending == 0 && x in l.reqs && l.reqs[x].err != 0
            && l.reqs[x].done && !l.reqs[x].kind.Destroy? && id in l.mem.live && id in l.at.called
            && l.at.stack == h.at.stack + [id]
  {
  }

  /** The turn of the loop that a lifecycle request is given. */
  lemma BypassTurn(c: Config, l: State, x: Id, id: Id, k: Kind)
    requires c.policy.AsWritten? && WF(l) && l.queue == [x, id] && Lifecycle(k)
    ensures IsHead(l, x) && Drain(c, l, k) == Run(c, l, x).0
  {
    hide Run;
  }

  /** The drain tells `x` and stops. */
  lemma BypassDrains(c: Config, l: State, x: Id, id: Id, k: Kind)
    requires c.policy.AsWritten? && WF(l) && l.queue == [x, id] && l.pending == 0 && x != id && Lifecycle(k)
    requires x in l.reqs && l.reqs[x].err != 0 && l.reqs[x].done && !l.reqs[x].kind.Destroy?
    requires id in l.mem.live && id in l.at.called
    ensures var d := Drain(c, l, k);
            && d.queue == [id] && d.pending == 0 && x in d.log.dones && id in d.mem.live && id in d.at.called
            && d.at.stack == l.at.stack
  {
    BypassTurn(c, l, x, id, k);
    hide Run, Drain, Finish, Leave;
    MarkedIs(c, l, x);
    MarkedMoves(c, l, x);
    var m := Clamp(Leave(Pick(l, x), x, l.reqs[x].err, 0, false));
    FinishLives(m, x, l.reqs[x], l.reqs[x].err, l.flags.isClosed, true, id);
  }

  lemma BypassTells(c: Config, h: State, x: Id, id: Id, err: int, size: nat, foreign: bool)
    requires c.policy.AsWritten? && Bypasses(h, x, id)
    ensures var t := Callback(c, h, id, err, size, foreign).0;
            t.queue == [id] && t.pending == 0 && x in t.log.dones && id in t.at.called && id in t.mem.live
  {
    var l, r := Leave(h, id, err, size, foreign), h.reqs[id];
    BypassLeaves(h, x, id, err, size, foreign);
    hide Leave, Drain, Finish, Callback;
    BypassDrains(c, l, x, id, r.kind);
    CallbackDrains(c, h, id, err, size, foreign);
    var d := Drain(c, l, r.kind);
    Ends(d, id, r, err, h.flags.isClosed, false);
    FinishTells(d, id, r, err, h.flags.isClosed, false);
    FinishLives(d, id, r, err, h.flags.isClosed, false, id);
  }

  /** The next open or close on a storage on which a request was left behind, if it is answered
      at once: its drain tells that request, and leaves the new one in its place, called back
      but queued and never released. */
  lemma NextCallTells(c: Config, s: State, k: Kind, done: bool, x: Id)
    requires c.policy.AsWritten? && Inv(s) && WF(s) && s.queue == [x] && s.pending == 0
    requires x in s.reqs && s.reqs[x].err != 0 && s.reqs[x].done && !s.reqs[x].kind.Destroy?
    requires (k.Open? || k.Close?) && Response(c, s.flags, k, s.next).Now?
    ensures var t := LifecycleCall(c, s, k, done).0;
            && t.queue == [s.next] && t.pending == 0 && x in t.log.dones
            && s.next in t.at.called && s.next in t.mem.live
  {
    hide Inv, Run, LifecycleCall, Callback;
    NewIs(s, k, done, x);
    LifecycleCallIs(c, s, k, done);
    var q, id := Queued(s, k, done), s.next;
    RunIs(c, q, id);
    HandedLives(c, q, id, x);
    var a := Response(c, s.flags, k, s.next);
    BypassTells(c, Handed(c, q, id), x, id, a.err, a.size, a.foreign);
  }

  lemma NewIs(s: State, k: Kind, done: bool, x: Id)
    requires Inv(s) && WF(s) && s.queue == [x] && s.pending == 0
    ensures var q := Queued(s, k, done);
            && s.next !in s.reqs && WF(q) && q.queue == [x, s.next] && x != s.next && x !in q.at.stalled
            && q.pending == 0 && q.flags == s.flags && q.reqs == s.reqs[s.next := Req(k, done, 0, 0, true)]
            && s.next in q.mem.live
  {
    hide Fifo, DoneOnce, Accounted, FlagsOk, ClosedIdle;
    QueuedIs(s, k, done);
    CountedZero(s);
  }

  lemma HandedLives(c: Config, q: State, id: Id, x: Id)
    requires WF(q) && q.queue == [x, id] && q.pending == 0 && x != id && x in q.reqs && id in q.reqs
    requires q.reqs[x].err != 0 && q.reqs[x].done && !q.reqs[x].kind.Destroy? && x !in q.at.stalled
    requires Lifecycle(q.reqs[id].kind) && !q.reqs[id].kind.Destroy? && id in q.mem.live
    ensures Bypasses(Handed(c, q, id), x, id)
  {
  }

  /** A data call, then the failure of the open (id 0): the data request (id 1) waits on with
      nothing in flight, and has not been told.  A close tells it, and waits in its place. */
  ghost predicate LeftBehind(c: Config, s: State, k: Kind, size: nat, err: int)
    requires WF(s)
  {
    var a1 := IssueData(k, size, true);
    var a2 := Complete(0, err, 0, false);
    var a3 := IssueClose(false);
    && Enabled(s, a1) && var s1 := Step(c, s, a1);
       Enabled(s1, a2) && var s2 := Step(c, s1, a2);
       && s2.queue == [1] && s2.pending == 0 && 1 !in s2.log.dones
       && Enabled(s2, a3) && var s3 := Step(c, s2, a3);
          && s3.queue == [s2.next] && s3.pending == 0 && 1 in s3.log.dones
          && s2.next in s3.at.called && s2.next in s3.mem.live
  }

  /** The open has failed, as written: only its first follower, an automatic open, was told. */
  lemma OpeningFails(c: Config, s: State, k: Kind, size: nat, err: int)
    requires c.policy.AsWritten? && Opening(s) && !Lifecycle(k) && err != 0
    ensures var a1 := IssueData(k, size, true); var a2 := Complete(0, err, 0, false);
            && WF(s) && Enabled(s, a1) && var s1 := Step(c, s, a1);
               Enabled(s1, a2) && var t := Step(c, s1, a2);
               && t.queue == [1] && t.pending == 0 && 1 !in t.log.dones && Inv(t) && NoDestroy(t)
               && 1 in t.reqs && t.reqs[1].err == err && t.reqs[1].done && t.reqs[1].kind == k && !t.flags.isOpen
  {
    hide Boundary, Inv, Clean, Callback, DataCall, Drained, Sound, VerdictOn, VerdictOf, Known;
    BoundaryIs(s);
    DataWaitsStep(c, s, k, size, true);
    var s1 := Step(c, s, IssueData(k, size, true));
    BoundaryIs(s1);
    assert s1.queue == [0, 2, 1] && s1.queue[1..] == [2, 1] && s1.queue[1..][1..] == [1];
    FailedOpenIff(c, s1, 0, err, 0, false);
    CompletionIff(c, s1, 0, err, 0, false);
    FailedVerdict(c, s1, err);
    assert forall x :: x in WithDone(s1.reqs, [2]) ==> x == 2;
    var t := Step(c, s1, Complete(0, err, 0, false));
    assert t == Callback(c, s1, 0, err, 0, false).0 && 1 in t.queue;
    assert SameRequests(s1, t);
  }

  lemma FailedVerdict(c: Config, s: State, err: int)
    requires s.queue == [0, 2, 1] && s.pending == 1 && 0 in s.reqs && s.reqs[0].kind == Open && err != 0
    requires Known(s.reqs, Waiting(s, 0))
    ensures VerdictOn(c, s, 0, err) == Strands
  {
  }

  lemma StrandedFrom(c: Config, s: State, k: Kind, size: nat, err: int)
    requires c.policy.AsWritten? && Opening(s) && !Lifecycle(k) && err != 0
    ensures WF(s) && LeftBehind(c, s, k, size, err)
  {
    hide Boundary, Inv, Clean, Callback, DataCall, LifecycleCall, Opening;
    OpeningFails(c, s, k, size, err);
    var s2 := Step(c, Step(c, s, IssueData(k, size, true)), Complete(0, err, 0, false));
    NextCallTells(c, s2, Close, false, 1);
  }

  /** On any new storage whose backend opens later, an open, a data call and the failure of
      the open leave the data request untold, although nothing is in flight; only a further
      call tells it, and is itself left behind. */
  lemma RequestStranded(c: Config, heap: bool, k: Kind, size: nat, err: int)
    requires c.policy.AsWritten? && Open in c.ops && c.reply(0).Later? && !Lifecycle(k) && err != 0
    ensures WF(Initial(heap)) && Enabled(Initial(heap), IssueOpen(true))
    ensures LeftBehind(c, Step(c, Initial(heap), IssueOpen(true)), k, size, err)
  {
    hide Opening, LeftBehind, Enabled, LifecycleCall;
    OpeningAt(c, heap);
    StrandedFrom(c, Step(c, Initial(heap), IssueOpen(true)), k, size, err);
  }

  // ------------------------------------------------ the storage released under a callback

  /** The open has failed, and behind it wait the close and the destroy of a destroy call. */
  lemma FailedOpenTakes(c: Config, s: State, err: int)
    requires s.queue == [0, 1, 2] && s.pending == 1 && {0, 1, 2} <= s.reqs.Keys && err != 0
    requires s.reqs[0].kind == Open && s.reqs[2].kind == Destroy
    ensures Known(s.reqs, Waiting(s, 0)) && TakesDestroy(c, s, 0, err)
  {
    assert Waiting(s, 0) == [1, 2] && [1, 2][..2] == [1, 2] && 2 in [1, 2];
  }

  lemma DestroyWaitsStep(c: Config, s: State, done: bool)
    requires Opening(s)
    ensures var a := IssueDestroy(done);
            && WF(s) && Enabled(s, a) && var t := Step(c, s, a);
               && Boundary(t) && t.queue == [0, 1, 2] && t.pending == 1 && {0, 1, 2} <= t.reqs.Keys
               && t.reqs[0].kind == Open && t.reqs[1].kind == Close && t.reqs[2].kind == Destroy
               && 0 in t.at.inFlight && t.at.stalled == {} && t.mem.storage == s.mem.storage
  {
    hide Boundary, DestroyCall;
    DestroyWaits(c, s, done);
    CallKeeps(c, s, IssueDestroy(done));
  }

  /** On a new storage, as soon as it has been allocated: an open that the backend answers later,
      a destroy call, and the failure of the open.  Repaired, the open's drain tells the close
      and the destroy, and the destroy releases the storage that the drain goes on reading. */
  lemma ReleasedUnderOpen(c: Config, done: bool, err: int)
    requires c.policy.Repaired? && Open in c.ops && c.reply(0).Later? && err != 0
    ensures var a0, a1, a2 := IssueOpen(true), IssueDestroy(done), Complete(0, err, 0, false);
            && WF(Initial(true)) && Enabled(Initial(true), a0) && var s0 := Step(c, Initial(true), a0);
               Enabled(s0, a1) && var s1 := Step(c, s0, a1);
               Enabled(s1, a2) && !Step(c, s1, a2).mem.storage.held && Step(c, s1, a2).mem.storage.dangling
  {
    hide Boundary, Inv, Clean, LifecycleCall, DestroyCall, Callback, Opening, TakesDestroy, Known, Drained;
    OpeningAt(c, true);
    var s0 := Step(c, Initial(true), IssueOpen(true));
    DestroyWaitsStep(c, s0, done);
    var s1 := Step(c, s0, IssueDestroy(done));
    BoundaryIs(s1);
    FailedOpenTakes(c, s1, err);
    ReleasedUnderIff(c, s1, 0, err, 0, false);
  }

  /** A close that an open and empty storage hands to a backend that answers later. */
  lemma CloseInFlight(c: Config, s: State)
    requires WF(s) && s.queue == [] && s.pending == 0 && s.next !in s.reqs
    requires s.flags.isOpen && !s.flags.isClosed && Close in c.ops && c.reply(s.next).Later?
    ensures var t := LifecycleCall(c, s, Close, false).0;
            && t.queue == [s.next] && t.pending == 1 && t.flags == s.flags && t.next == s.next + 1
            && t.at.inFlight == s.at.inFlight + {s.next} && t.at.stalled == s.at.stalled
            && t.mem.storage == s.mem.storage
            && t.reqs.Keys == s.reqs.Keys + {s.next} && t.reqs[s.next].kind == Close
            && LifecycleCall(c, s, Close, false).1 == 0
  {
    hide Run, LifecycleCall, Queued;
    QueuedIs(s, Close, false);
    LifecycleCallIs(c, s, Close, false);
    var q := Queued(s, Close, false);
    RunIs(c, q, s.next);
    HandedSimilar(c, q, s.next);
  }

  /** A close is in flight, and a destroy behind it. */
  ghost predicate Closing(s: State, k: Id) {
    && Boundary(s) && WF(s) && s.queue == [k, k + 1] && s.pending == 1 && k in s.at.inFlight && k !in s.at.stalled
    && k in s.reqs && s.reqs[k].kind == Close && k + 1 in s.reqs && s.reqs[k + 1].kind == Destroy
  }

  lemma ClosingAt(c: Config, s: State, done: bool)
    requires Boundary(s) && NoDestroy(s) && s.pending == 0
    requires s.flags.isOpen && !s.flags.isClosed && Close in c.ops && c.reply(s.next).Later?
    ensures var a := IssueDestroy(done);
            && WF(s) && Enabled(s, a) && var t := Step(c, s, a);
               Closing(t, s.next) && t.flags == s.flags && t.mem.storage == s.mem.storage
  {
    hide Boundary, Inv, LifecycleCall, RouteOf;
    BoundaryIs(s);
    CloseInFlight(c, s);
    CallWaits(c, LifecycleCall(c, s, Close, false).0, Destroy, done);
    CallKeeps(c, s, IssueDestroy(done));
  }

  /** The close's drain takes the destroy off if and only if that is answered at once. */
  lemma ClosingTakes(c: Config, s: State, k: Id, err: int)
    requires Closing(s, k)
    ensures Known(s.reqs, Waiting(s, k))
    ensures TakesDestroy(c, s, k, err) <==> Response(c, s.flags, Destroy, k + 1).Now?
    ensures VerdictOn(c, s, k, err) == Well
  {
    hide Boundary;
    var g := SettleFlags(s.flags, Close, err);
    assert Waiting(s, k) == [k + 1] && [k + 1][..1] == [k + 1] && [k + 1][..0] == [] && k + 1 in [k + 1];
    assert Response(c, g, Destroy, k + 1) == Response(c, s.flags, Destroy, k + 1);
    assert [k + 1][1..] == [];
    assert ChainOf(c, g, s.reqs, [k + 1]).left == if Response(c, g, Destroy, k + 1).Now? then 1 else 0;
    assert VerdictOf(c, g, s.reqs, [k + 1], Close) == Well;
    NoneDestroys(s.reqs);
  }

  /** On any idle open storage from `ras_storage_new`, repaired or as written: a destroy call
      whose close the backend answers later, and the answer.  The close's callback goes on
      reading a released storage if and only if the destroy is answered at once. */
  lemma ReleasedUnderClose(c: Config, s: State, done: bool, err: int)
    requires Boundary(s) && NoDestroy(s) && s.pending == 0 && s.mem.storage == Struct(true, true, false)
    requires s.flags.isOpen && !s.flags.isClosed && Close in c.ops && c.reply(s.next).Later?
    ensures var a1, a2 := IssueDestroy(done), Complete(s.next, err, 0, false);
            && WF(s) && Enabled(s, a1) && var s1 := Step(c, s, a1);
               Enabled(s1, a2)
               && (Step(c, s1, a2).mem.storage.dangling <==> Response(c, s.flags, Destroy, s.next + 1).Now?)
  {
    hide Boundary, Inv, Clean, DestroyCall, Callback, RouteOf, TakesDestroy, Known, Drained, Waiting, VerdictOn;
    ClosingAt(c, s, done);
    var s1 := Step(c, s, IssueDestroy(done));
    BoundaryIs(s1);
    ClosingTakes(c, s1, s.next, err);
    ClosingTakes(Repair(c), s1, s.next, err);
    RepairRoutes(c, s.flags, s.next + 1);
    var a2 := Complete(s.next, err, 0, false);
    if c.policy.AsWritten? { StepIff(c, s1, a2); } else { assert Repair(c) == c; }
    ReleasedUnderIff(Repair(c), s1, s.next, err, 0, false);
  }

  lemma RepairRoutes(c: Config, f: Flags, id: Id)
    ensures Response(Repair(c), f, Destroy, id) == Response(c, f, Destroy, id)
  {
  }

  /** Such a storage is one call away from a new one. */
  lemma NewOpens(c: Config)
    requires Response(c, Initial(true).flags, Open, 0).Now? && Response(c, Initial(true).flags, Open, 0).err == 0
    ensures WF(Initial(true)) && Enabled(Initial(true), IssueOpen(true))
    ensures var s := Step(c, Initial(true), IssueOpen(true));
            && Boundary(s) && NoDestroy(s) && s.pending == 0 && s.flags.isOpen && !s.flags.isClosed
            && s.mem.storage == Struct(true, true, false)
  {
    hide Boundary, LifecycleCall, Queued, RouteOf, Inv;
    FirstOpenEnabled(true);
    BoundaryIs(Initial(true));
    LifecycleKeeps(Repair(c), Initial(true), Open, true);
    QueuedIs(Initial(true), Open, true);
    LifecycleCallGoes(c, Initial(true), Open, true);
    CallKeeps(c, Initial(true), IssueOpen(true));
  }
}
