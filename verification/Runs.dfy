/** Runs: any sequence of public calls and late callbacks, against any backend. */
module Runs {
  import opened Protocol
  import opened Invariant
  import opened Preservation
  import opened Chains
  import opened Outcomes

  datatype Action =
    | IssueData(kind: Kind, size: nat, done: bool)
    | IssueOpen(done: bool)
    | IssueClose(done: bool)
    | IssueDestroy(done: bool)
    | Complete(id: Id, err: int, size: nat, foreign: bool)

  /** A call may be made while there is room for the two requests it can queue and before
      destroy has been called; a request the backend was handed may be called back. */
  ghost predicate Enabled(s: State, a: Action) {
    match a
    case Complete(id, _, _, _) => id in s.reqs && id in s.at.inFlight && id !in s.at.stalled
    case _ =>
      && NoDestroy(s) && |s.queue| + 2 < QUEUE_MAX && s.pending + 2 < INT_MIN
      && (a.IssueData? ==> !Lifecycle(a.kind))
  }

  ghost function Step(c: Config, s: State, a: Action): (t: State)
    requires WF(s) && Enabled(s, a)
    ensures WF(t)
  {
    match a
    case IssueData(k, size, done) => DataCall(c, s, k, size, done).0
    case IssueOpen(done) => LifecycleCall(c, s, Open, done).0
    case IssueClose(done) => LifecycleCall(c, s, Close, done).0
    case IssueDestroy(done) => DestroyCall(c, s, done).0
    case Complete(id, err, size, foreign) => Callback(c, s, id, err, size, foreign).0
  }

  ghost predicate Runnable(c: Config, s: State, run: seq<Action>)
    requires WF(s)
    decreases |run|
  {
    run == [] || (Enabled(s, run[0]) && Runnable(c, Step(c, s, run[0]), run[1..]))
  }

  ghost function Exec(c: Config, s: State, run: seq<Action>): (t: State)
    requires WF(s) && Runnable(c, s, run)
    ensures WF(t)
    decreases |run|
  {
    if run == [] then s else Exec(c, Step(c, s, run[0]), run[1..])
  }

  /** Between calls nothing is half done, and what waits fits the queue. */
  ghost predicate Boundary(s: State) {
    Inv(s) && Drained(s) && Clean(s) && s.at.stack == [] && s.at.created == {} && |s.queue| < QUEUE_MAX
  }

  /** Everything issued before is still there, unchanged but for error and size. */
  ghost predicate Extends(s: State, t: State) {
    forall x :: x in s.reqs ==> x in t.reqs && SameStatics(s.reqs[x], t.reqs[x])
  }

  /** What has been issued is below `next`. */
  lemma FreshId(s: State)
    requires Partition(s)
    ensures s.next !in s.reqs && s.next !in s.at.created && s.next !in s.at.called && s.next !in s.at.stalled
    ensures s.next + 1 !in s.reqs && s.next + 1 !in s.at.stalled
  {
  }

  lemma InvFresh(s: State)
    requires Inv(s)
    ensures WF(s) && s.next !in s.reqs && s.next + 1 !in s.reqs
    ensures s.next !in s.at.stalled && s.next + 1 !in s.at.stalled
    ensures s.next !in s.queue && forall x :: x in s.reqs ==> x < s.next
  {
    hide Fifo, DoneOnce, Accounted, Counted;
  }

  /** The parts of what holds between calls */
  lemma BoundaryIs(s: State)
    requires Boundary(s)
    ensures Inv(s) && Clean(s) && Drained(s) && WF(s) && s.at.stack == [] && s.at.created == {} && !s.mem.fault
    ensures s.next !in s.reqs && s.next + 1 !in s.reqs && s.next !in s.queue && s.next !in s.at.stalled
    ensures (forall x :: x in s.reqs ==> x < s.next) && (s.pending == 0 ==> s.queue == [])
  {
    hide Fifo, DoneOnce, Counted;
  }

  lemma IssuePushKeeps(s: State, k: Kind, done: bool)
    requires Inv(s) && NoDestroy(s)
    ensures var t := Push(Issue(s, k, 0, done), s.next);
            && Inv(t) && Extends(s, t) && t.at.created == s.at.created && s.next !in s.reqs
            && t.pending == s.pending && t.queue == s.queue + [s.next] && t.reqs[s.next] == Req(k, done, 0, 0, true)
            && t.at.stack == s.at.stack && t.next == s.next + 1 && t.at.called == s.at.called
            && s.next !in t.at.called && s.next !in t.at.created && t.at.inFlight == s.at.inFlight
  {
    hide Partition, Counted, Fifo, DoneOnce, Accounted, FlagsOk, ClosedIdle;
    FreshId(s);
    IssueKeeps(s, k, 0, done);
    var s1 := Issue(s, k, 0, done);
    forall x | x in s1.queue && x in s1.reqs ensures !s1.reqs[x].kind.Destroy? { }
    PushKeeps(s1, s.next);
  }

  lemma LifecycleRunReturns(c: Config, s: State, id: Id)
    requires WF(s) && id in s.reqs && s.reqs[id].err == 0 && Lifecycle(s.reqs[id].kind)
    ensures Run(c, s, id).1 == 0
  {
    hide Run;
    RunReturns(c, s, id);
  }

  /** A lifecycle call always returns 0: even a synchronous failure is reported only to the callback. */
  lemma LifecycleKeeps(c: Config, s: State, k: Kind, done: bool)
    requires c.policy.Repaired? && Inv(s) && Drained(s) && NoDestroy(s) && s.pending + 1 < INT_MIN && Lifecycle(k)
    ensures var (t, ret) := LifecycleCall(c, s, k, done);
            && Inv(t) && Drained(t) && Extends(s, t) && ret == 0
            && t.at.created == s.at.created && t.at.stack == s.at.stack
            && t.pending <= s.pending + 1 && |t.queue| <= |s.queue| + 1
            && (k.Destroy? || NoDestroy(t)) && s.next !in s.reqs
            && t.reqs.Keys == s.reqs.Keys + {s.next} && t.reqs[s.next].kind == k && t.reqs[s.next].done == done
            && t.next == s.next + 1
  {
    hide Partition, Counted, Fifo, DoneOnce, Accounted, FlagsOk, ClosedIdle;
    IssuePushKeeps(s, k, done);
    var s1 := Push(Issue(s, k, 0, done), s.next);
    if s1.pending == 0 {
      assert s1.at.inFlight == {} by { CountedZero(s1); }
      RunKeeps(c, s1, s.next);
      LifecycleRunReturns(c, s1, s.next);
    }
  }

  lemma IssuePushClean(s: State, k: Kind, size: nat, done: bool)
    requires Clean(s) && s.next !in s.reqs
    ensures Clean(Issue(s, k, size, done)) && Clean(Push(Issue(s, k, size, done), s.next))
  {
  }

  lemma PushClean(s: State, id: Id)
    requires Clean(s) && id in s.reqs && s.reqs[id].err == 0
    ensures Clean(Push(s, id))
  {
  }

  lemma SetErrClean(s: State, id: Id)
    requires Clean(s) && id in s.reqs
    ensures Clean(SetErr(s, id, 0))
  {
  }

  lemma LifecycleClean(c: Config, s: State, k: Kind, done: bool)
    requires c.policy.Repaired? && Inv(s) && Clean(s) && Drained(s) && NoDestroy(s) && s.pending + 1 < INT_MIN
    requires Lifecycle(k)
    ensures Clean(LifecycleCall(c, s, k, done).0)
  {
    hide Partition, Counted, Fifo, DoneOnce, Accounted, FlagsOk, ClosedIdle, Clean;
    IssuePushKeeps(s, k, done);
    IssuePushClean(s, k, 0, done);
    var s1 := Push(Issue(s, k, 0, done), s.next);
    if s1.pending == 0 {
      assert s1.at.inFlight == {} by { CountedZero(s1); }
      RunClean(c, s1, s.next);
    }
  }

  lemma SetErrPlaces(s: State, id: Id, err: int)
    requires WF(s) && Partition(s) && Counted(s) && FlagsOk(s) && ClosedIdle(s) && id in s.reqs
    ensures var t := SetErr(s, id, err); WF(t) && Partition(t) && Counted(t) && FlagsOk(t) && ClosedIdle(t)
  {
  }

  lemma SetErrRecords(s: State, id: Id, err: int)
    requires Fifo(s) && DoneOnce(s) && Accounted(s) && id in s.reqs
    ensures var t := SetErr(s, id, err); Fifo(t) && DoneOnce(t) && Accounted(t)
  {
    HeldSame(s, SetErr(s, id, err));
    hide Held;
  }

  lemma SetErrKeeps(s: State, id: Id, err: int)
    requires Inv(s) && id in s.reqs
    ensures Inv(SetErr(s, id, err))
  {
    hide *;
    InvCore(s);
    CoreParts(s);
    SetErrPlaces(s, id, err);
    SetErrRecords(s, id, err);
    CoreOf(SetErr(s, id, err));
  }

  lemma DataKeeps(c: Config, s: State, k: Kind, size: nat, done: bool)
    requires c.policy.Repaired? && Boundary(s) && NoDestroy(s) && !Lifecycle(k)
    requires s.pending + 2 < INT_MIN && |s.queue| + 2 < QUEUE_MAX
    ensures Boundary(DataCall(c, s, k, size, done).0) && NoDestroy(DataCall(c, s, k, size, done).0)
  {
    hide Partition, Counted, Fifo, DoneOnce, Accounted, FlagsOk, ClosedIdle, Run, LifecycleCall, Clean;
    FreshId(s);
    IssuePushClean(s, k, size, done);
    var id := s.next;
    var s1 := Issue(s, k, size, done);
    IssueKeeps(s, k, size, done);
    assert s1.at.created == {id};
    if s.flags.needsOpen && !s.flags.isOpen {
      LifecycleKeeps(c, s1, Open, false);
      LifecycleClean(c, s1, Open, false);
      SetErrKeeps(LifecycleCall(c, s1, Open, false).0, id, 0);
      SetErrClean(LifecycleCall(c, s1, Open, false).0, id);
    }
    var s2 := AutoOpen(c, s1, id);
    assert Inv(s2) && Drained(s2) && s2.at.created == {id} && NoDestroy(s2);
    assert s2.reqs[id].err == 0 && !s2.reqs[id].queued;
    if s2.queue != [] {
      PushKeeps(s2, id);
      PushClean(s2, id);
    } else {
      RunKeeps(c, s2, id);
      RunClean(c, s2, id);
    }
  }

  lemma DestroyKeeps(c: Config, s: State, done: bool)
    requires c.policy.Repaired? && Boundary(s) && NoDestroy(s)
    requires s.pending + 2 < INT_MIN && |s.queue| + 2 < QUEUE_MAX
    ensures Boundary(DestroyCall(c, s, done).0) && DestroyCall(c, s, done).1 == 0
  {
    hide Partition, Counted, Fifo, DoneOnce, Accounted, FlagsOk, ClosedIdle, LifecycleCall, Clean;
    LifecycleKeeps(c, s, Close, false);
    LifecycleClean(c, s, Close, false);
    LifecycleKeeps(c, LifecycleCall(c, s, Close, false).0, Destroy, done);
    LifecycleClean(c, LifecycleCall(c, s, Close, false).0, Destroy, done);
  }

  lemma StepKeeps(c: Config, s: State, a: Action)
    requires c.policy.Repaired? && Boundary(s) && Enabled(s, a)
    ensures Boundary(Step(c, s, a))
  {
    hide Inv, Partition, Counted, Fifo, DoneOnce, Accounted, FlagsOk, Clean;
    hide LifecycleCall, DataCall, DestroyCall, Callback;
    match a
    case IssueData(k, size, done) => DataKeeps(c, s, k, size, done);
    case IssueOpen(done) => LifecycleKeeps(c, s, Open, done); LifecycleClean(c, s, Open, done);
    case IssueClose(done) => LifecycleKeeps(c, s, Close, done); LifecycleClean(c, s, Close, done);
    case IssueDestroy(done) => DestroyKeeps(c, s, done);
    case Complete(id, err, size, foreign) =>
      InvParts(s, id);
      CallbackKeeps(c, s, id, err, size, foreign);
      CallbackClean(c, s, id, err, size, foreign);
  }

  lemma InitialBoundary(heap: bool)
    ensures Boundary(Initial(heap))
  {
  }

  lemma {:induction false} RunsKeep(c: Config, s: State, run: seq<Action>)
    requires c.policy.Repaired? && Boundary(s) && Runnable(c, s, run)
    ensures Boundary(Exec(c, s, run))
    decreases |run|
  {
    hide Partition, Counted, Fifo, DoneOnce, Accounted, FlagsOk, ClosedIdle, Drained, Step, Enabled;
    if run != [] {
      StepKeeps(c, s, run[0]);
      RunsKeep(c, Step(c, s, run[0]), run[1..]);
    }
  }
}
