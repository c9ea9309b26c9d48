/** What every run of the scheduler satisfies. */
module Theorems {
  import opened Protocol
  import opened Invariant
  import opened Preservation
  import opened Steady
  import opened Chains
  import opened Outcomes
  import opened Runs
  import opened Calls

  ghost predicate RunOf(c: Config, heap: bool, run: seq<Action>) { Runnable(c, Initial(heap), run) }

  ghost function Final(c: Config, heap: bool, run: seq<Action>): State
    requires RunOf(c, heap, run)
  {
    Exec(c, Initial(heap), run)
  }

  lemma FinalBoundary(c: Config, heap: bool, run: seq<Action>)
    requires c.policy.Repaired? && RunOf(c, heap, run)
    ensures Boundary(Final(c, heap, run))
  {
    InitialBoundary(heap);
    RunsKeep(c, Initial(heap), run);
  }

  // ------------------------------------------------ the repaired drain, every run

  /** Lifecycle requests exclude everything; only data requests overlap; nothing waits for nothing. */
  ghost predicate Exclusive(t: State) {
    && t.at.inFlight <= t.reqs.Keys
    && (forall x :: x in t.at.inFlight && Lifecycle(t.reqs[x].kind) ==>
          IsHead(t, x) && t.pending == 1 && t.at.inFlight == {x})
    && (forall x, y :: x in t.at.inFlight && y in t.at.inFlight && x != y ==>
          !Lifecycle(t.reqs[x].kind) && !Lifecycle(t.reqs[y].kind))
    && (t.pending == 0 ==> t.queue == [])
  }

  lemma ExclusiveAt(t: State)
    requires Boundary(t)
    ensures Exclusive(t)
  {
    hide Fifo, DoneOnce, Accounted;
  }

  /** The unsigned counter is the number of requests started and not yet called back. */
  ghost predicate CounterExact(t: State) { t.pending == |t.at.inFlight| < INT_MIN }

  lemma CounterExactAt(t: State)
    requires Boundary(t)
    ensures CounterExact(t)
  {
    hide Fifo, DoneOnce, Accounted, Partition;
  }

  /** Every issued request is waiting, in flight or called back, and only a head is two of
      these.  A request called back has had its `done` called once and is released; any
      other has not, and is not. */
  ghost predicate OwnedOnce(t: State) {
    && (forall x :: x in t.reqs <==> x in t.queue || x in t.at.inFlight || x in t.at.called)
    && t.at.called !! t.at.inFlight && (forall x :: x in t.queue ==> x !in t.at.called)
    && (forall x :: x in t.queue && x in t.at.inFlight ==> IsHead(t, x))
    && ReleasedOnce(t)
  }

  ghost predicate ReleasedOnce(t: State) {
    && t.mem.live == t.reqs.Keys - t.at.called && !t.mem.fault
    && (forall x :: x in t.reqs ==>
          multiset(t.log.dones)[x] == if x in t.at.called && t.reqs[x].done then 1 else 0)
    && (forall x :: x in t.log.dones ==> x in t.at.called)
  }

  lemma ReleasedOnceAt(t: State)
    requires DoneOnce(t) && Accounted(t) && t.at.stack == []
    ensures ReleasedOnce(t)
  {
    forall x | x in t.log.dones ensures x in t.at.called {
      assert multiset(t.log.dones)[x] > 0;
    }
    assert forall x :: x in t.mem.live <==> x in t.reqs.Keys - t.at.called;
  }

  lemma OwnedOnceAt(t: State)
    requires Boundary(t)
    ensures OwnedOnce(t)
  {
    hide Fifo, DoneOnce, Accounted, ReleasedOnce;
    ReleasedOnceAt(t);
  }

  /** Queued requests leave and run in the order they were pushed, each once. */
  ghost predicate InOrder(t: State) {
    && t.log.pushed == t.log.removed + t.queue && Unique(t.log.pushed)
    && t.log.ran <= t.log.pushed
    && |t.log.ran| - |t.log.removed| == (if HeadInFlight(t) then 1 else 0)
  }

  lemma InOrderAt(t: State)
    requires Boundary(t)
    ensures InOrder(t)
  {
    hide DoneOnce, Accounted;
  }

  /** Has a destroy been called back? */
  ghost predicate DestroyDone(t: State) {
    exists x :: x in t.at.called && x in t.reqs && t.reqs[x].kind.Destroy?
  }

  /** The requests in flight that own a buffer: stats, and reads of at least one byte. */
  ghost function Buffers(t: State): set<Id> {
    set x | x in t.at.inFlight && x in t.reqs && (t.reqs[x].kind.Stat? || (t.reqs[x].kind.Read? && t.reqs[x].size > 0))
  }

  /** Allocations minus frees is the storage, the requests not called back and the buffers of
      requests in flight.  The storage is allocated until a destroy is called back, if it was
      allocated at all; so that after that, and when all else is called back, nothing is. */
  ghost predicate Conserved(t: State) {
    && t.mem.allocs == t.mem.frees + |t.reqs.Keys - t.at.called| + |Buffers(t)|
         + (if t.mem.storage.held then 1 else 0)
    && t.mem.buffers == Buffers(t)
    && (t.mem.storage.held <==> t.mem.storage.heap && !DestroyDone(t))
    && (t.reqs.Keys == t.at.called && (t.mem.storage.heap ==> DestroyDone(t)) ==> t.mem.allocs == t.mem.frees)
  }

  lemma StorageAt(t: State)
    requires Held(t) && t.at.stack == []
    ensures t.mem.storage.held <==> t.mem.storage.heap && !DestroyDone(t)
  {
    if x :| x in t.at.called && x in t.reqs && t.reqs[x].kind.Destroy? { assert Returned(t, x); }
    if Destroyed(t) {
      var x :| x in t.reqs && t.reqs[x].kind.Destroy? && Returned(t, x);
      assert x in t.at.called;
    }
  }

  lemma BuffersAt(t: State)
    requires Apart(t) && Accounted(t) && t.at.stack == []
    ensures t.mem.buffers == Buffers(t) && (t.reqs.Keys == t.at.called ==> t.mem.buffers == {})
  {
    assert forall x :: x in t.mem.buffers ==> x in t.at.inFlight && x in t.reqs;
    assert forall x :: x in t.mem.buffers <==> x in Buffers(t);
    if t.reqs.Keys == t.at.called {
      assert forall x :: x !in t.mem.buffers;
    }
  }

  lemma ConservedAt(t: State)
    requires Boundary(t)
    ensures Conserved(t)
  {
    hide Fifo, DoneOnce, DestroyDone;
    StorageAt(t);
    assert forall x :: x in t.mem.live <==> x in t.reqs.Keys - t.at.called;
    assert t.mem.live == t.reqs.Keys - t.at.called;
    assert forall x :: x !in t.mem.values;
    assert t.mem.values == {};
    BuffersAt(t);
    hide Buffers;
    if t.reqs.Keys == t.at.called { assert t.mem.live == {}; }
  }

  /** Once closed, the backend has no data request to work on. */
  ghost predicate IdleWhenClosed(t: State) {
    && t.at.inFlight <= t.reqs.Keys
    && (t.flags.isClosed ==> forall x :: x in t.at.inFlight && !Lifecycle(t.reqs[x].kind) ==> x in t.at.stalled)
  }

  lemma IdleWhenClosedAt(t: State)
    requires Boundary(t)
    ensures IdleWhenClosed(t)
  {
    hide Fifo, DoneOnce, Accounted;
  }

  /** The step is a completion that takes a destroy off the queue while the storage is there. */
  ghost predicate Tears(c: Config, s: State, a: Action) {
    && a.Complete? && s.mem.storage.held
    && a.id in s.reqs && Known(s.reqs, Waiting(s, a.id)) && TakesDestroy(c, s, a.id, a.err)
  }

  ghost predicate TearingRun(c: Config, s: State, run: seq<Action>)
    requires WF(s) && Runnable(c, s, run)
    decreases |run|
  {
    run != [] && (Tears(c, s, run[0]) || TearingRun(c, Step(c, s, run[0]), run[1..]))
  }

  lemma StepTears(c: Config, s: State, a: Action)
    requires c.policy.Repaired? && Boundary(s) && Enabled(s, a)
    ensures Step(c, s, a).mem.storage.dangling <==> s.mem.storage.dangling || Tears(c, s, a)
  {
    match a
    case Complete(id, err, size, foreign) =>
      assert s.at.stack == [] && id in s.at.inFlight && Inv(s) && Clean(s);
      hide Inv, Clean, Callback, TakesDestroy, Drained, Release;
      CompletionIs(c, s, id, err, size, foreign);
      if s.mem.storage.held {
        ReleasedUnderIff(c, s, id, err, size, foreign);
      } else {
        ReleasedBefore(c, s, id, err, size, foreign);
      }
    case _ => CallsAgree(c, s, a);
  }

  lemma ReleasedBefore(c: Config, s: State, id: Id, err: int, size: nat, foreign: bool)
    requires id in s.reqs && WF(s) && Known(s.reqs, Waiting(s, id)) && !s.mem.storage.held
    requires Completes(s, id, CompletionOf(c, s, id, err), Callback(c, s, id, err, size, foreign).0)
    ensures Callback(c, s, id, err, size, foreign).0.mem.storage == s.mem.storage
  {
    hide HasDestroy, Callback, CompletionOf, DonesOf;
  }

  lemma {:induction false} RunTears(c: Config, s: State, run: seq<Action>)
    requires c.policy.Repaired? && Boundary(s) && Runnable(c, s, run)
    ensures Exec(c, s, run).mem.storage.dangling <==> s.mem.storage.dangling || TearingRun(c, s, run)
    decreases |run|
  {
    if run != [] {
      hide Boundary, Step, Enabled, Tears;
      StepTears(c, s, run[0]);
      StepKeeps(c, s, run[0]);
      RunTears(c, Step(c, s, run[0]), run[1..]);
    }
  }

  /** Every run, against every backend, of every length.  The one thing that can go wrong is
      stated exactly: the storage is released under a callback that still reads it if and
      only if some completion takes a destroy off the queue. */
  lemma EveryRun(c: Config, heap: bool, run: seq<Action>)
    requires c.policy.Repaired? && RunOf(c, heap, run)
    ensures var t := Final(c, heap, run);
            && Exclusive(t) && CounterExact(t) && OwnedOnce(t) && InOrder(t) && Conserved(t) && IdleWhenClosed(t)
            && t.mem.storage.heap == heap
            && (t.mem.storage.dangling <==> TearingRun(c, Initial(heap), run))
  {
    hide Boundary, Exclusive, CounterExact, OwnedOnce, InOrder, Conserved, IdleWhenClosed, Advance;
    FinalBoundary(c, heap, run);
    var t := Final(c, heap, run);
    ExclusiveAt(t);
    CounterExactAt(t);
    OwnedOnceAt(t);
    InOrderAt(t);
    ConservedAt(t);
    IdleWhenClosedAt(t);
    InitialBoundary(heap);
    RunTears(c, Initial(heap), run);
    HeapAt(c, heap, run);
  }

  lemma HeapAt(c: Config, heap: bool, run: seq<Action>)
    requires RunOf(c, heap, run)
    ensures Final(c, heap, run).mem.storage.heap == heap
  {
    RunsAdvance(c, Initial(heap), run);
  }

  // ------------------------------------------------ any drain loop, every run

  lemma IssueAdvance(s: State, k: Kind, size: nat, done: bool)
    requires FlagsAdvance(s.flags, s.flags)
    ensures Advance(s, Issue(s, k, size, done))
  {
  }

  lemma PushAdvance(s: State, id: Id)
    requires FlagsAdvance(s.flags, s.flags) && id in s.reqs
    ensures Advance(s, Push(s, id)) && forall err :: Advance(s, SetErr(s, id, err))
  {
  }

  lemma LifecycleAdvance(c: Config, s: State, k: Kind, done: bool)
    requires WF(s) && FlagsAdvance(s.flags, s.flags)
    ensures Advance(s, LifecycleCall(c, s, k, done).0)
  {
    hide Advance, Run;
    var s0 := Issue(s, k, 0, done);
    IssueAdvance(s, k, 0, done);
    PushAdvance(s0, s.next);
    AdvanceTrans(s, s0, Push(s0, s.next));
    var s1 := Push(s0, s.next);
    if s1.pending == 0 {
      RunAdvance(c, s1, s.next);
      AdvanceTrans(s, s1, Run(c, s1, s.next).0);
    }
  }

  lemma OpenAdvance(c: Config, s: State, id: Id)
    requires WF(s) && FlagsAdvance(s.flags, s.flags) && id in s.reqs
    ensures Advance(s, AutoOpen(c, s, id))
  {
    hide Advance, LifecycleCall;
    AdvanceSame(s);
    if s.flags.needsOpen && !s.flags.isOpen {
      var (s1, ret) := LifecycleCall(c, s, Open, false);
      LifecycleAdvance(c, s, Open, false);
      AdvanceFlags(s, s1);
      PushAdvance(s1, id);
      AdvanceTrans(s, s1, SetErr(s1, id, ret));
    }
  }

  lemma DataAdvance(c: Config, s: State, k: Kind, size: nat, done: bool)
    requires WF(s) && FlagsAdvance(s.flags, s.flags)
    ensures Advance(s, DataCall(c, s, k, size, done).0)
  {
    hide Advance, AutoOpen, Run;
    var id := s.next;
    var s1 := Issue(s, k, size, done);
    IssueAdvance(s, k, size, done);
    OpenAdvance(c, s1, id);
    var s2 := AutoOpen(c, s1, id);
    AdvanceTrans(s, s1, s2);
    AdvanceFlags(s, s2);
    if s2.queue != [] {
      PushAdvance(s2, id);
      AdvanceTrans(s, s2, Push(s2, id));
    } else {
      RunAdvance(c, s2, id);
      AdvanceTrans(s, s2, Run(c, s2, id).0);
    }
  }

  lemma StepAdvance(c: Config, s: State, a: Action)
    requires WF(s) && FlagsAdvance(s.flags, s.flags) && Enabled(s, a)
    ensures Advance(s, Step(c, s, a))
  {
    hide Advance, LifecycleCall, Callback, DataCall;
    match a
    case IssueData(k, size, done) => DataAdvance(c, s, k, size, done);
    case IssueOpen(done) => LifecycleAdvance(c, s, Open, done);
    case IssueClose(done) => LifecycleAdvance(c, s, Close, done);
    case IssueDestroy(done) =>
      LifecycleAdvance(c, s, Close, false);
      var (s1, ret) := LifecycleCall(c, s, Close, false);
      assert FlagsAdvance(s1.flags, s1.flags) by { AdvanceFlags(s, s1); }
      LifecycleAdvance(c, s1, Destroy, done);
      AdvanceTrans(s, s1, LifecycleCall(c, s1, Destroy, done).0);
    case Complete(id, err, size, foreign) => CallbackAdvance(c, s, id, err, size, foreign);
  }

  lemma AdvanceFlags(s: State, t: State)
    requires Advance(s, t)
    ensures FlagsAdvance(t.flags, t.flags)
  {
  }

  lemma {:induction false} RunsAdvance(c: Config, s: State, run: seq<Action>)
    requires WF(s) && FlagsAdvance(s.flags, s.flags) && Runnable(c, s, run)
    ensures Advance(s, Exec(c, s, run))
    decreases |run|
  {
    if run != [] {
      hide Step, Enabled;
      StepAdvance(c, s, run[0]);
      var s1 := Step(c, s, run[0]);
      RunsAdvance(c, s1, run[1..]);
      AdvanceTrans(s, s1, Exec(c, s, run));
    }
  }

  /** The backend's open is invoked only while the storage is not open, its close only while
      open and not closed, its data operations likewise, its destroy before one has taken effect;
      and the CLOSE event is emitted at most once in the life of a storage. */
  lemma LifecycleSafety(c: Config, heap: bool, run: seq<Action>)
    requires RunOf(c, heap, run)
    ensures var t := Final(c, heap, run);
            && (forall i :: 0 <= i < |t.log.calls| ==> Proper(t.log.calls[i]))
            && Closes(t) <= (if t.flags.isClosed then 1 else 0)
            && (t.flags.needsOpen ==> !t.flags.isOpen)
  {
    RunsAdvance(c, Initial(heap), run);
  }

  /** A close or a destroy that has taken effect is for good: whatever happens next, no data
      operation and no close is invoked on the backend, and no second CLOSE is emitted. */
  lemma ClosedForGood(c: Config, s: State, run: seq<Action>)
    requires WF(s) && (s.flags.needsOpen ==> !s.flags.isOpen) && Runnable(c, s, run) && s.flags.isClosed
    ensures var t := Exec(c, s, run);
            && t.flags.isClosed && Closes(t) <= Closes(s) && s.log.calls <= t.log.calls
            && (forall i :: |s.log.calls| <= i < |t.log.calls| ==>
                  t.log.calls[i].kind.Open? || t.log.calls[i].kind.Destroy?)
  {
    RunsAdvance(c, s, run);
  }
}
