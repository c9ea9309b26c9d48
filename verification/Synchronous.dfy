/** Runs of the code as written that stay sound, and backends that call back before they return. */
module Synchronous {
  import opened Protocol
  import opened Invariant
  import opened Preservation
  import opened Chains
  import opened Outcomes
  import opened Runs
  import opened Calls
  import opened Theorems
  import opened AsWritten

  // ------------------------------------------------ the code as written, run by run

  /** The guard of a step, known before it is made: a completion that the drain loop as written
      will handle well.  Calls need none. */
  ghost predicate Guarded(c: Config, s: State, a: Action) {
    a.Complete? && a.id in s.reqs && Known(s.reqs, Waiting(s, a.id)) ==> VerdictOn(c, s, a.id, a.err).Well?
  }

  lemma GuardedAgrees(c: Config, s: State, a: Action)
    requires c.policy.AsWritten? && Boundary(s) && Enabled(s, a) && Sound(Step(c, s, a))
    ensures Step(c, s, a) == Step(Repair(c), s, a)
  {
    match a
    case Complete(id, err, size, foreign) =>
      BoundaryIs(s);
      hide Inv, Clean, Drained, Callback, Sound;
      SoundIffRepaired(c, s, id, err, size, foreign);
    case _ => CallsAgree(c, s, a);
  }

  /** A step of the code as written leads from one state between calls to another exactly if it
      is guarded; and then it is a step of the repaired code. */
  lemma StepIff(c: Config, s: State, a: Action)
    requires c.policy.AsWritten? && Boundary(s) && Enabled(s, a)
    ensures Guarded(c, s, a) <==> Sound(Step(c, s, a))
    ensures Guarded(c, s, a) ==> Step(c, s, a) == Step(Repair(c), s, a) && Boundary(Step(c, s, a))
  {
    BoundaryIs(s);
    StepKeeps(Repair(c), s, a);
    BoundaryIs(Step(Repair(c), s, a));
    if a.Complete? {
      hide Boundary, Inv, Clean, Drained, Callback;
      CompletionIff(c, s, a.id, a.err, a.size, a.foreign);
    } else {
      CallsAgree(c, s, a);
    }
    if Sound(Step(c, s, a)) { GuardedAgrees(c, s, a); }
  }

  ghost predicate GuardedRun(c: Config, s: State, run: seq<Action>)
    requires WF(s) && Runnable(c, s, run)
    decreases |run|
  {
    run == [] || (Guarded(c, s, run[0]) && GuardedRun(c, Step(c, s, run[0]), run[1..]))
  }

  /** No step of the run releases too early or leaves requests behind. */
  ghost predicate SoundRun(c: Config, s: State, run: seq<Action>)
    requires WF(s) && Runnable(c, s, run)
    decreases |run|
  {
    run == [] || (Sound(Step(c, s, run[0])) && SoundRun(c, Step(c, s, run[0]), run[1..]))
  }

  /** A run of the code as written is sound at every step if and only if every step is guarded,
      and then it is a run of the repaired code. */
  lemma {:induction false} SoundRunIff(c: Config, s: State, run: seq<Action>)
    requires c.policy.AsWritten? && Boundary(s) && Runnable(c, s, run)
    ensures WF(s)
    ensures SoundRun(c, s, run) <==> GuardedRun(c, s, run)
    ensures GuardedRun(c, s, run) ==> Runnable(Repair(c), s, run) && Exec(c, s, run) == Exec(Repair(c), s, run)
    decreases |run|
  {
    BoundaryIs(s);
    if run != [] {
      hide Boundary, Step, Enabled, Sound, Guarded;
      StepIff(c, s, run[0]);
      if Guarded(c, s, run[0]) { SoundRunIff(c, Step(c, s, run[0]), run[1..]); }
    }
  }

  /** The code as written keeps everything that the repaired code keeps in every run in which no
      completion meets a queue that its drain loop cannot handle. */
  lemma SoundRuns(c: Config, heap: bool, run: seq<Action>)
    requires c.policy.AsWritten? && RunOf(c, heap, run) && GuardedRun(c, Initial(heap), run)
    ensures var t := Final(c, heap, run);
            && Exclusive(t) && CounterExact(t) && OwnedOnce(t) && InOrder(t) && Conserved(t) && IdleWhenClosed(t)
            && Runnable(Repair(c), Initial(heap), run)
            && (t.mem.storage.dangling <==> TearingRun(Repair(c), Initial(heap), run))
  {
    hide Boundary, Exclusive, CounterExact, OwnedOnce, InOrder, Conserved, IdleWhenClosed;
    InitialBoundary(heap);
    SoundRunIff(c, Initial(heap), run);
    EveryRun(Repair(c), heap, run);
  }

  // ------------------------------------------------ synchronous backends, the code as written

  ghost predicate Idle(s: State) { Boundary(s) && s.pending == 0 }

  lemma IdleMeans(s: State)
    requires Idle(s)
    ensures s.queue == [] && s.at.inFlight == {} && s.at.stalled == {} && s.reqs.Keys == s.at.called && WF(s)
    ensures s.next !in s.reqs && Inv(s) && Drained(s)
  {
    assert forall x :: x in s.reqs ==> x in s.at.called;
  }

  lemma SyncLifecycle(c: Config, s: State, k: Kind, done: bool)
    requires Answers(c) && Idle(s) && Lifecycle(k)
    ensures WF(s) && LifecycleCall(c, s, k, done).0.pending == 0
  {
    IdleMeans(s);
    QueuedIs(s, k, done);
    hide Idle, Inv, LifecycleCall, Queued;
    LifecycleCallGoes(c, s, k, done);
  }

  /** With a backend that answers at once, a data call comes back to an idle storage exactly
      when it does not stall; otherwise its request is stalled for good. */
  lemma SyncDataIff(c: Config, s: State, k: Kind, size: nat, done: bool)
    requires Answers(c) && Idle(s) && Enabled(s, IssueData(k, size, done))
    ensures var t := Step(c, s, IssueData(k, size, done));
            (Idle(t) <==> !StallsNow(c, s)) && (StallsNow(c, s) ==> t.at.stalled == {s.next} && Boundary(t))
  {
    IdleMeans(s);
    CallKeeps(c, s, IssueData(k, size, done));
    hide Boundary, Inv, Drained, DataCall;
    DataCallGoes(c, s, k, size, done);
  }

  /** A call that a synchronous run may make. */
  ghost predicate SyncCall(c: Config, s: State, a: Action) {
    Enabled(s, a) && !a.Complete? && (a.IssueData? ==> !StallsNow(c, s))
  }

  lemma DestroyIs(c: Config, s: State, done: bool)
    requires Boundary(s) && NoDestroy(s) && s.pending + 2 < INT_MIN
    ensures WF(s)
    ensures var s1 := LifecycleCall(c, s, Close, false).0; var t := DestroyCall(c, s, done).0;
            t == LifecycleCall(c, s1, Destroy, done).0 && s1.next in t.reqs && t.reqs[s1.next].kind.Destroy?
  {
    BoundaryIs(s);
    InvFresh(s);
    hide Inv, LifecycleCall;
    LifecycleCallGoes(c, s, Close, false);
    LifecycleKeeps(Repair(c), s, Close, false);
    var s1 := LifecycleCall(c, s, Close, false).0;
    LifecycleKeeps(Repair(c), s1, Destroy, done);
    InvFresh(s1);
    LifecycleCallGoes(c, s1, Destroy, done);
  }

  lemma SyncStep(c: Config, s: State, a: Action)
    requires Answers(c) && Idle(s) && SyncCall(c, s, a)
    ensures WF(s) && Idle(Step(c, s, a)) && (a.IssueDestroy? ==> DestroyDone(Step(c, s, a)))
  {
    CallKeeps(c, s, a);
    match a
    case IssueData(k, size, done) => SyncDataIff(c, s, k, size, done);
    case IssueOpen(done) => SyncLifecycle(c, s, Open, done);
    case IssueClose(done) => SyncLifecycle(c, s, Close, done);
    case IssueDestroy(done) => SyncDestroy(c, s, done);
  }

  lemma IdleIff(s: State)
    ensures Idle(s) <==> Boundary(s) && s.pending == 0
  {
  }

  lemma DestroyStep(c: Config, s: State, done: bool)
    requires WF(s) && Enabled(s, IssueDestroy(done))
    ensures Step(c, s, IssueDestroy(done)) == DestroyCall(c, s, done).0
    ensures NoDestroy(s) && s.pending + 2 < INT_MIN && Enabled(s, IssueClose(false))
    ensures Step(c, s, IssueClose(false)) == LifecycleCall(c, s, Close, false).0
  {
  }

  lemma DestroyDoneBy(t: State, x: Id)
    requires x in t.at.called && x in t.reqs && t.reqs[x].kind.Destroy?
    ensures DestroyDone(t)
  {
  }

  lemma SyncDestroy(c: Config, s: State, done: bool)
    requires Answers(c) && Idle(s) && Enabled(s, IssueDestroy(done)) && WF(s)
    ensures Idle(Step(c, s, IssueDestroy(done))) && DestroyDone(Step(c, s, IssueDestroy(done)))
  {
    assert Lifecycle(Close) && Lifecycle(Destroy);
    hide *;
    IdleIff(s);
    DestroyStep(c, s, done);
    CallKeeps(c, s, IssueDestroy(done));
    CallKeeps(c, s, IssueClose(false));
    DestroyIs(c, s, done);
    var s1 := LifecycleCall(c, s, Close, false).0;
    SyncLifecycle(c, s, Close, false);
    IdleIff(s1);
    SyncLifecycle(c, s1, Destroy, done);
    var t := Step(c, s, IssueDestroy(done));
    IdleIff(t);
    IdleMeans(t);
    DestroyDoneBy(t, s1.next);
  }

  ghost predicate SyncRun(c: Config, s: State, run: seq<Action>)
    requires WF(s)
    decreases |run|
  {
    run == [] || (SyncCall(c, s, run[0]) && SyncRun(c, Step(c, s, run[0]), run[1..]))
  }

  lemma {:induction false} SyncRunKeeps(c: Config, s: State, run: seq<Action>)
    requires Answers(c) && Idle(s) && WF(s) && SyncRun(c, s, run)
    ensures Runnable(c, s, run) && Idle(Exec(c, s, run))
    ensures run != [] && run[|run| - 1].IssueDestroy? ==> DestroyDone(Exec(c, s, run))
    decreases |run|
  {
    hide Idle, Step, Enabled, StallsNow, DestroyDone;
    if run != [] {
      SyncStep(c, s, run[0]);
      SyncRunKeeps(c, Step(c, s, run[0]), run[1..]);
    }
  }

  /** Whatever the drain loop, with a backend that answers at once every run of calls that do
      not stall returns to an idle storage: nothing queued or in flight, each `done` called
      once, no request left allocated; and after a final destroy every allocation is freed. */
  lemma SynchronousRuns(c: Config, heap: bool, run: seq<Action>)
    requires Answers(c) && SyncRun(c, Initial(heap), run)
    ensures Runnable(c, Initial(heap), run)
    ensures var t := Exec(c, Initial(heap), run);
            && t.queue == [] && t.pending == 0 && t.reqs.Keys == t.at.called && OwnedOnce(t)
            && t.mem.allocs == t.mem.frees + (if t.mem.storage.held then 1 else 0)
            && (run != [] && run[|run| - 1].IssueDestroy? ==> t.mem.allocs == t.mem.frees)
  {
    InitialBoundary(heap);
    SyncRunKeeps(c, Initial(heap), run);
    var t := Exec(c, Initial(heap), run);
    hide Boundary, OwnedOnce, DestroyDone, Inv;
    IdleMeans(t);
    OwnedOnceAt(t);
    ConservedAt(t);
    assert t.mem.buffers == {};
    assert t.reqs.Keys - t.at.called == {};
  }
}
