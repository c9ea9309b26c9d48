/** Data requests issued too early wait behind their own open, so that none is ever started
    on a storage that is not open (repaired drain; runs without close and destroy). */
module StallFreedom {
  import opened Protocol
  import opened Invariant
  import opened Preservation
  import opened Chains
  import opened Outcomes
  import opened Runs
  import opened Calls

  /** A lifecycle request, or one that has an error to report, or one directly behind an open. */
  ghost predicate FrontedAt(reqs: map<Id, Req>, q: seq<Id>, k: nat)
    requires k < |q|
  {
    && q[k] in reqs
    && var r := reqs[q[k]];
       Lifecycle(r.kind) || r.err != 0 || (k > 0 && q[k-1] in reqs && reqs[q[k-1]].kind.Open?)
  }

  ghost predicate Fronted(s: State) {
    forall k :: 0 <= k < |s.queue| ==> FrontedAt(s.reqs, s.queue, k)
  }

  ghost predicate NoCloses(s: State) {
    forall x :: x in s.reqs ==> !s.reqs[x].kind.Close? && !s.reqs[x].kind.Destroy?
  }

  ghost predicate Flowing(s: State) {
    && WF(s) && Unique(s.queue) && NoCloses(s)
    && s.at.stalled == {} && !s.flags.isClosed && s.flags.needsOpen == !s.flags.isOpen
    && (s.flags.isOpen || Fronted(s))
  }

  lemma LeaveFronted(s: State, id: Id, err: int, size: nat, foreign: bool)
    requires Flowing(s) && id in s.reqs && (IsHead(s, id) || id !in s.queue)
    ensures var l := Leave(s, id, err, size, foreign); WF(l) && (l.flags.isOpen || Fronted(l))
  {
    var l := Leave(s, id, err, size, foreign);
    var n := if IsHead(s, id) then 1 else 0;
    assert l.queue == s.queue[n..];
    if !l.flags.isOpen {
      forall k | 0 <= k < |l.queue| ensures FrontedAt(l.reqs, l.queue, k) {
        assert l.queue[k] == s.queue[k + n] && l.queue[k] != id;
        if !(s.reqs[id].kind.Open? && err != 0) {
          assert FrontedAt(s.reqs, s.queue, k + n);
          if n == 1 { assert FrontedAt(s.reqs, s.queue, 0); }
        }
      }
    }
  }

  lemma LeaveFlows(s: State, id: Id, err: int, size: nat, foreign: bool)
    requires Flowing(s) && id in s.reqs && (IsHead(s, id) || id !in s.queue)
    ensures Flowing(Leave(s, id, err, size, foreign))
  {
    hide Fronted;
    LeaveFronted(s, id, err, size, foreign);
  }

  lemma FinishFlows(s: State, id: Id, r: Req, err: int, wasClosed: bool, needsFree: bool)
    requires Flowing(s) && s.at.stack != [] && !r.kind.Destroy?
    ensures var t := Finish(s, id, r, err, wasClosed, needsFree); Flowing(t) && t.flags == s.flags
  {
  }

  lemma StartFlows(s: State, id: Id)
    requires Flowing(s) && id in s.reqs
    ensures Flowing(Pick(s, id)) && Flowing(Started(s, id)) && Flowing(Invoke(s, id))
  {
    var t := Started(s, id);
    if !s.flags.isOpen {
      forall k | 0 <= k < |t.queue| ensures FrontedAt(t.reqs, t.queue, k) { assert FrontedAt(s.reqs, s.queue, k); }
    }
  }

  lemma {:induction false} RunFlows(c: Config, s: State, id: Id)
    requires c.policy.Repaired? && Flowing(s) && id in s.reqs
    requires IsHead(s, id) || (id !in s.queue && (Lifecycle(s.reqs[id].kind) || s.flags.isOpen))
    ensures Flowing(Run(c, s, id).0)
    decreases Behind(s, id), 4
  {
    StartFlows(s, id);
    if IsHead(s, id) && !s.flags.isOpen { assert FrontedAt(s.reqs, s.queue, 0); }
    if s.reqs[id].err != 0 {
      CallbackFlows(c, Pick(s, id), id, s.reqs[id].err, 0, false);
    } else {
      assert Lifecycle(s.reqs[id].kind) || s.flags.isOpen;
      DispatchFlows(c, Started(s, id), id);
    }
  }

  lemma {:induction false} DispatchFlows(c: Config, s: State, id: Id)
    requires c.policy.Repaired? && Flowing(s) && id in s.reqs && s.pending > 0 && (IsHead(s, id) || id !in s.queue)
    requires Lifecycle(s.reqs[id].kind) || s.flags.isOpen
    ensures Flowing(Dispatch(c, s, id).0)
    decreases Behind(s, id), 3
  {
    StartFlows(s, id);
    match RouteOf(c, s.flags, s.reqs[id].kind)
    case Immediate(err) => CallbackFlows(c, s, id, err, 0, false);
    case Backend =>
      match c.reply(id)
      case Later =>
      case Now(err, size, foreign) => CallbackFlows(c, Invoke(s, id), id, err, size, foreign);
  }

  lemma {:induction false} CallbackFlows(c: Config, s: State, id: Id, err: int, size: nat, foreign: bool)
    requires c.policy.Repaired? && Flowing(s) && id in s.reqs && (IsHead(s, id) || id !in s.queue)
    ensures Flowing(Callback(c, s, id, err, size, foreign).0)
    decreases Behind(s, id), 2
  {
    hide Leave, Finish;
    var l := Leave(s, id, err, size, foreign);
    LeaveFlows(s, id, err, size, foreign);
    LeaveKept(s, id, err, size, foreign);
    DrainFlows(c, l, s.reqs[id].kind);
    FinishFlows(Dequeue(c, s, id, err, size, foreign), id, s.reqs[id], err, s.flags.isClosed, IsHead(s, id));
  }

  lemma {:induction false} DrainFlows(c: Config, s: State, k: Kind)
    requires c.policy.Repaired? && Flowing(s)
    ensures Flowing(Drain(c, s, k))
    decreases |s.queue|, 0
  {
    if s.queue != [] && s.pending == 0 {
      RunFlows(c, s, s.queue[0]);
      var s1 := Run(c, s, s.queue[0]).0;
      if s1.pending == 0 { DrainFlows(c, s1, k); }
    }
  }

  // ------------------------------------------------ public calls

  lemma PushFlows(s: State, id: Id)
    requires Flowing(s) && id in s.reqs && id !in s.queue
    requires s.flags.isOpen || Lifecycle(s.reqs[id].kind)
          || (s.queue != [] && var last := s.queue[|s.queue| - 1]; last in s.reqs && s.reqs[last].kind.Open?)
    ensures Flowing(Push(s, id))
  {
    var t := Push(s, id);
    if !s.flags.isOpen {
      forall k | 0 <= k < |t.queue| ensures FrontedAt(t.reqs, t.queue, k) {
        if k < |s.queue| { assert FrontedAt(s.reqs, s.queue, k); }
      }
    }
  }

  /** The automatic open of the next data call would be made now and would fail at once. */
  ghost predicate OpenFailsNow(c: Config, s: State, openId: Id) {
    OpensFirst(s.flags) && s.pending == 0 && Refuses(c, s.flags, openId)
  }

  lemma OpenCallFlows(c: Config, s: State, done: bool)
    requires c.policy.Repaired? && Flowing(s) && Inv(s) && Drained(s) && NoDestroy(s) && s.pending + 1 < INT_MIN
    ensures Flowing(LifecycleCall(c, s, Open, done).0)
  {
    hide Partition, Counted, Fifo, DoneOnce, Accounted, FlagsOk, ClosedIdle, Flowing;
    IssuePushKeeps(s, Open, done);
    FreshId(s);
    assert s.next !in s.queue by { NotQueued(s, s.next); }
    IssueFlows(s, Open, 0, done);
    PushFlows(Issue(s, Open, 0, done), s.next);
    var s1 := Push(Issue(s, Open, 0, done), s.next);
    if s1.pending == 0 { RunFlows(c, s1, s.next); }
  }

  lemma NotQueued(s: State, id: Id)
    requires WF(s) && id !in s.reqs
    ensures id !in s.queue
  {
  }

  lemma IssueFlows(s: State, k: Kind, size: nat, done: bool)
    requires Flowing(s) && s.next !in s.reqs && !k.Close? && !k.Destroy?
    ensures Flowing(Issue(s, k, size, done))
  {
    var t := Issue(s, k, size, done);
    if !s.flags.isOpen {
      forall k | 0 <= k < |t.queue| ensures FrontedAt(t.reqs, t.queue, k) { assert FrontedAt(s.reqs, s.queue, k); }
    }
  }

  /** An open issued while the storage is not open ends open, or last in the queue, unless it
      fails at once. */
  lemma OpenCallFronts(c: Config, s: State, done: bool)
    requires Drained(s) && s.flags.needsOpen && !s.flags.isOpen && s.next !in s.reqs && WF(s) && s.next !in s.at.stalled
    ensures var t := LifecycleCall(c, s, Open, done).0;
            if OpenFailsNow(c, s, s.next) then !t.flags.isOpen && t.queue == []
            else t.flags.isOpen || (t.queue != [] && t.queue[|t.queue| - 1] == s.next)
  {
    hide LifecycleCall, Queued;
    QueuedIs(s, Open, done);
    LifecycleCallGoes(c, s, Open, done);
  }

  /** The state in which the data request is placed, whatever the automatic open did. */
  ghost predicate Placeable(t: State, r: Req, id: Id, failed: bool) {
    && Inv(t) && Drained(t) && Flowing(t) && id in t.at.created && id in t.reqs && t.reqs[id].err == 0 && id !in t.queue
    && SameStatics(r, t.reqs[id])
    && if failed then !t.flags.isOpen && t.queue == []
       else || t.flags.isOpen
            || (t.queue != [] && var last := t.queue[|t.queue| - 1]; last in t.reqs && t.reqs[last].kind.Open?)
  }

  lemma AutoOpenFlows(c: Config, s: State, id: Id)
    requires c.policy.Repaired? && Flowing(s) && Inv(s) && Drained(s) && NoDestroy(s) && s.pending + 1 < INT_MIN
    requires id in s.at.created && s.reqs[id].err == 0 && !s.reqs[id].queued
    ensures Placeable(AutoOpen(c, s, id), s.reqs[id], id, OpenFailsNow(c, s, s.next))
  {
    hide Counted, Fifo, DoneOnce, Accounted, FlagsOk, ClosedIdle, Flowing, LifecycleCall;
    FreshId(s);
    FlowingFlags(s);
    if !s.flags.isOpen {
      var (s1, ret) := LifecycleCall(c, s, Open, false);
      LifecycleKeeps(c, s, Open, false);
      OpenCallFlows(c, s, false);
      OpenCallFronts(c, s, false);
      SetErrKeeps(s1, id, 0);
      SetErrFlows(s1, id);
    }
  }

  lemma FlowingFlags(s: State)
    requires Flowing(s)
    ensures s.flags.needsOpen == !s.flags.isOpen && !s.flags.isClosed && s.at.stalled == {} && WF(s)
  {
  }

  lemma SetErrFlows(s: State, id: Id)
    requires Flowing(s) && id in s.reqs && id !in s.queue
    ensures Flowing(SetErr(s, id, 0))
  {
    var t := SetErr(s, id, 0);
    if !s.flags.isOpen {
      forall k | 0 <= k < |t.queue| ensures FrontedAt(t.reqs, t.queue, k) { assert FrontedAt(s.reqs, s.queue, k); }
    }
  }

  /** In a flowing state a data call stalls its request exactly when its automatic open fails
      at once, and otherwise leads to a flowing state. */
  lemma DataCallFlows(c: Config, s: State, k: Kind, size: nat, done: bool)
    requires c.policy.Repaired? && Boundary(s) && Flowing(s) && !Lifecycle(k)
    requires s.pending + 2 < INT_MIN && |s.queue| + 2 < QUEUE_MAX
    ensures var t := DataCall(c, s, k, size, done).0;
            && (OpenFailsNow(c, s, s.next + 1) <==> t.at.stalled == {s.next})
            && (!OpenFailsNow(c, s, s.next + 1) <==> Flowing(t))
  {
    hide Partition, Counted, Fifo, DoneOnce, Accounted, FlagsOk, ClosedIdle, Flowing, AutoOpen;
    var id := s.next;
    var s1 := Issue(s, k, size, done);
    IssueKeeps(s, k, size, done);
    FreshId(s);
    IssueFlows(s, k, size, done);
    FlowingNoDestroy(s1);
    AutoOpenFlows(c, s1, id);
    var s2 := AutoOpen(c, s1, id);
    FlowingFlags(s2);
    var t := DataCall(c, s, k, size, done).0;
    if OpenFailsNow(c, s, s.next + 1) {
      NowhereStalls(c, s2, id);
      assert t.at.stalled == {id};
      if Flowing(t) { FlowingFlags(t); assert false; }
    } else {
      if s2.queue != [] { PushFlows(s2, id); } else { RunFlows(c, s2, id); }
      FlowingFlags(t);
      assert id !in t.at.stalled;
    }
  }

  lemma NowhereStalls(c: Config, s: State, id: Id)
    requires WF(s) && id in s.reqs && s.reqs[id].err == 0 && !Lifecycle(s.reqs[id].kind) && !s.flags.isOpen
    ensures Run(c, s, id).0 == Stall(Start(Pick(s, id), id), id)
  {
    assert Run(c, s, id) == Dispatch(c, Start(Pick(s, id), id), id);
  }

  lemma FlowingNoDestroy(s: State)
    requires Flowing(s)
    ensures NoDestroy(s)
  {
  }

  // ------------------------------------------------ runs

  /** No close, no destroy, and no automatic open that fails inside the call that makes it. */
  ghost predicate Gentle(c: Config, s: State, a: Action) {
    match a
    case IssueData(_, _, _) => !OpenFailsNow(c, s, s.next + 1)
    case IssueOpen(_) => true
    case Complete(_, _, _, _) => true
    case _ => false
  }

  ghost predicate GentleRun(c: Config, s: State, run: seq<Action>)
    requires WF(s) && Runnable(c, s, run)
    decreases |run|
  {
    run == [] || (Gentle(c, s, run[0]) && GentleRun(c, Step(c, s, run[0]), run[1..]))
  }

  lemma GentleStep(c: Config, s: State, a: Action)
    requires c.policy.Repaired? && Boundary(s) && Flowing(s) && Enabled(s, a) && Gentle(c, s, a)
    ensures Flowing(Step(c, s, a))
  {
    hide Fifo, DoneOnce, Accounted, FlagsOk, ClosedIdle, Flowing, LifecycleCall, DataCall, Callback;
    match a
    case IssueData(k, size, done) => DataCallFlows(c, s, k, size, done);
    case IssueOpen(done) => OpenCallFlows(c, s, done);
    case Complete(id, err, size, foreign) =>
      assert IsHead(s, id) || id !in s.queue;
      CallbackFlows(c, s, id, err, size, foreign);
  }

  /** In every gentle run no data request is ever started on a storage that is not open. */
  lemma {:induction false} NeverStalls(c: Config, s: State, run: seq<Action>)
    requires c.policy.Repaired? && Boundary(s) && Flowing(s) && Runnable(c, s, run) && GentleRun(c, s, run)
    ensures var t := Exec(c, s, run); t.at.stalled == {} && Flowing(t) && Boundary(t)
    decreases |run|
  {
    hide Inv, Drained, Step, Enabled, Gentle, Flowing;
    FlowingFlags(s);
    if run != [] {
      StepKeeps(c, s, run[0]);
      GentleStep(c, s, run[0]);
      NeverStalls(c, Step(c, s, run[0]), run[1..]);
    }
  }

  lemma InitialFlows(heap: bool)
    ensures Flowing(Initial(heap)) && Boundary(Initial(heap))
  {
    InitialBoundary(heap);
  }

  /** From a new storage on. */
  lemma NeverStallsFromNew(c: Config, heap: bool, run: seq<Action>)
    requires c.policy.Repaired? && Runnable(c, Initial(heap), run) && GentleRun(c, Initial(heap), run)
    ensures Exec(c, Initial(heap), run).at.stalled == {}
  {
    InitialFlows(heap);
    NeverStalls(c, Initial(heap), run);
  }

  // ------------------------------------------------ stalled requests

  /** Whatever the state of the storage, closed ones included, and whatever the drain loop, a
      data call leaves its request to wait for nothing exactly when StallsNow says so. */
  lemma DataCallStallsIff(c: Config, s: State, k: Kind, size: nat, done: bool)
    requires Boundary(s) && Enabled(s, IssueData(k, size, done))
    ensures var t := Step(c, s, IssueData(k, size, done));
            t.at.stalled == s.at.stalled + if StallsNow(c, s) then {s.next} else {}
  {
    hide Inv, Drained, Clean, DataCall;
    BoundaryIs(s);
    DataCallGoes(c, s, k, size, done);
  }

  /** From `s` to `t` nothing that waits has moved, the stalled `x` included, and nothing that
      waits has been run. */
  ghost predicate Stuck(s: State, t: State, x: Id) {
    && x in t.at.stalled && t.log.ran == s.log.ran && t.log.removed == s.log.removed
    && t.mem.storage == s.mem.storage && s.next <= t.next
  }

  lemma StuckTrans(s: State, t: State, u: State, x: Id)
    requires Stuck(s, t, x) && Stuck(t, u, x)
    ensures Stuck(s, u, x)
  {
  }

  lemma TwoInFlight(s: State, x: Id, y: Id)
    requires Inv(s) && x in s.at.stalled && y in s.at.inFlight && y !in s.at.stalled && y in s.reqs
    ensures 1 < s.pending < INT_MIN && !Lifecycle(s.reqs[y].kind) && !IsHead(s, y)
  {
    hide Fifo, DoneOnce, Accounted, FlagsOk, ClosedIdle;
    TwoOf(s.at.inFlight, x, y);
  }

  lemma TwoOf(a: set<Id>, x: Id, y: Id)
    requires x in a && y in a && x != y
    ensures |a| >= 2
  {
    assert |a - {x}| == |a| - 1 && y in a - {x};
  }

  lemma CompletionSticks(c: Config, s: State, x: Id, id: Id, err: int, size: nat, foreign: bool)
    requires Inv(s) && WF(s) && x in s.at.stalled && id in s.at.inFlight && id !in s.at.stalled && id in s.reqs
    ensures Stuck(s, Callback(c, s, id, err, size, foreign).0, x)
    ensures Callback(c, s, id, err, size, foreign) == Callback(Repair(c), s, id, err, size, foreign)
  {
    TwoInFlight(s, x, id);
    hide Inv, Callback, Leave, SettleFlags;
    CallbackAmid(c, s, id, err, size, foreign);
    AmidAgrees(c, s, id, err, size, foreign);
  }

  lemma RunSticks(c: Config, s: State, x: Id, id: Id)
    requires WF(s) && x in s.at.stalled && 0 < s.pending && s.pending + 1 < INT_MIN && s.queue == []
    requires id in s.reqs && id != x && s.reqs[id].err == 0 && !s.reqs[id].queued && !Lifecycle(s.reqs[id].kind)
    ensures Stuck(s, Run(c, s, id).0, x)
  {
    hide Run, Callback, Leave, RouteOf;
    RunIs(c, s, id);
    HandedSimilar(c, s, id);
    var h := Handed(c, s, id);
    match Response(c, s.flags, s.reqs[id].kind, id)
    case Later =>
    case Now(err, size, foreign) => CallbackAmid(c, h, id, err, size, foreign);
  }

  lemma DataSticks(c: Config, s: State, k: Kind, size: nat, done: bool, x: Id)
    requires Inv(s) && WF(s) && x in s.at.stalled && s.pending > 0 && s.pending + 2 < INT_MIN && !Lifecycle(k)
    ensures Stuck(s, DataCall(c, s, k, size, done).0, x)
  {
    hide Fifo, DoneOnce, Accounted, FlagsOk, ClosedIdle, Counted, LifecycleCall, Run, Issue;
    FreshId(s);
    IssueIs(s, k, size, done);
    var s1 := Issue(s, k, size, done);
    if OpensFirst(s.flags) {
      CallWaits(c, s1, Open, false);
    } else if s.queue == [] {
      RunSticks(c, s1, x, s.next);
    }
  }

  lemma DestroySticks(c: Config, s: State, done: bool, x: Id)
    requires Inv(s) && WF(s) && x in s.at.stalled && s.pending > 0
    ensures Stuck(s, DestroyCall(c, s, done).0, x)
  {
    hide Fifo, DoneOnce, Accounted, FlagsOk, ClosedIdle, Counted, LifecycleCall;
    FreshId(s);
    CallWaits(c, s, Close, false);
    CallWaits(c, LifecycleCall(c, s, Close, false).0, Destroy, done);
  }

  lemma StalledPending(s: State, x: Id)
    requires Inv(s) && x in s.at.stalled
    ensures s.pending > 0
  {
    CountedZero(s);
  }

  lemma StepAgrees(c: Config, s: State, a: Action, x: Id)
    requires Boundary(s) && Enabled(s, a) && x in s.at.stalled
    ensures Step(c, s, a) == Step(Repair(c), s, a)
  {
    hide Boundary, Inv, Drained, Clean, Callback, DataCall, LifecycleCall, DestroyCall, Stuck;
    BoundaryIs(s);
    if a.Complete? { CompletionSticks(c, s, x, a.id, a.err, a.size, a.foreign); } else { CallsAgree(c, s, a); }
  }

  /** No step undoes a stall, whatever the drain loop. */
  lemma StepSticks(c: Config, s: State, a: Action, x: Id)
    requires Boundary(s) && Enabled(s, a) && x in s.at.stalled
    ensures Stuck(s, Step(c, s, a), x) && Boundary(Step(c, s, a))
  {
    hide Boundary, Inv, Drained, Clean, Callback, DataCall, LifecycleCall, DestroyCall;
    StepAgrees(c, s, a, x);
    StepKeeps(Repair(c), s, a);
    BoundaryIs(s);
    StalledPending(s, x);
    match a
    case IssueData(k, size, done) => DataSticks(c, s, k, size, done, x);
    case IssueOpen(done) => CallWaits(c, s, Open, done);
    case IssueClose(done) => CallWaits(c, s, Close, done);
    case IssueDestroy(done) => DestroySticks(c, s, done, x);
    case Complete(id, err, size, foreign) => CompletionSticks(c, s, x, id, err, size, foreign);
  }

  lemma {:induction false} RunsStick(c: Config, s: State, run: seq<Action>, x: Id)
    requires Boundary(s) && Runnable(c, s, run) && x in s.at.stalled
    ensures Stuck(s, Exec(c, s, run), x) && Boundary(Exec(c, s, run))
    decreases |run|
  {
    BoundaryIs(s);
    hide Boundary, Step, Enabled, Inv;
    if run != [] {
      var s1 := Step(c, s, run[0]);
      StepSticks(c, s, run[0], x);
      RunsStick(c, s1, run[1..], x);
      StuckTrans(s, s1, Exec(c, s, run), x);
    }
  }

  /** A stalled request is stalled for good, whatever happens next and whatever the drain loop:
      it is never called back and counts as pending for ever; no open, close or destroy issued
      after it is ever run, but all wait; and the storage is never released. */
  lemma StalledForGood(c: Config, s: State, run: seq<Action>, x: Id)
    requires Boundary(s) && Runnable(c, s, run) && x in s.at.stalled
    ensures var t := Exec(c, s, run);
            && x in t.at.stalled && x !in t.at.called && t.pending > 0
            && t.mem.storage == s.mem.storage && t.log.ran == s.log.ran
            && (forall y :: y in t.reqs && y >= s.next && Lifecycle(t.reqs[y].kind) ==>
                  y in t.queue && y !in t.at.inFlight && y !in t.log.ran)
  {
    RunsStick(c, s, run, x);
    var t := Exec(c, s, run);
    hide DoneOnce, Accounted, FlagsOk, ClosedIdle, Step;
    StalledPending(t, x);
    forall y | y in t.reqs && y >= s.next && Lifecycle(t.reqs[y].kind)
      ensures y in t.queue && y !in t.at.inFlight && y !in t.log.ran
    {
      assert y in t.log.pushed;
      assert y !in s.log.pushed;
      assert y !in s.log.removed;
    }
  }
}
