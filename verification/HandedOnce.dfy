/** Repaired, every request is started, handed to the backend and called back at most once. */
module HandedOnce {
  import opened Protocol
  import opened Invariant
  import opened Preservation
  import opened Chains
  import opened Steady
  import opened Outcomes
  import opened Runs
  import opened Theorems
  import opened Traces

  predicate Repeats(m: Moment, n: Moment) {
    m.id == n.id && ((m.Starting? && n.Starting?) || (m.Beginning? && n.Beginning?))
  }

  ghost predicate Once(tr: Trace) { forall i, j :: 0 <= i < j < |tr| ==> !Repeats(tr[i], tr[j]) }

  lemma OnceNext(tr: Trace, m: Moment)
    requires Once(tr) && forall i :: 0 <= i < |tr| ==> !Repeats(tr[i], m)
    ensures Once(tr + [m])
  {
  }

  /** What has been started is in flight or has been called back. */
  lemma {:induction false} StartedSince(tr: Trace, i: nat)
    requires i < |tr| && tr[i].Starting?
    ensures tr[i].id in Going(tr) || tr[i].id in Begun(tr)
    decreases |tr|
  {
    var n := |tr| - 1;
    if i < n {
      StartedSince(tr[..n], i);
      if tr[i].id in Begun(tr[..n]) {
        var j :| 0 <= j < n && tr[j].Beginning? && tr[j].id == tr[i].id;
        assert tr[j].id in Begun(tr);
      }
      if tr[n].Beginning? { assert tr[n].id in Begun(tr); }
    }
  }

  ghost predicate Single(c: Config, s: State) { Traced(c, s) && Once(s.log.trace) }

  lemma BeginsOnce(c: Config, s: State, m: Moment)
    requires Tells(c, s) && Once(s.log.trace) && m.Beginning? && m.id !in s.at.called
    ensures Once(s.log.trace + [m])
  {
    hide Going, Stuck, Invoked, Announced, Notified, Allocated, TellsFlags, TellsRequests;
    var tr := s.log.trace;
    forall i | 0 <= i < |tr| ensures !Repeats(tr[i], m) {
      if tr[i].Beginning? { assert tr[i].id in Begun(tr); }
    }
    OnceNext(tr, m);
  }

  lemma StartsOnce(c: Config, s: State, m: Moment)
    requires Tells(c, s) && Once(s.log.trace) && m.Starting? && m.id !in s.at.called && m.id !in s.at.inFlight
    ensures Once(s.log.trace + [m])
  {
    hide Going, Stuck, Invoked, Announced, Notified, Allocated, TellsFlags, TellsRequests, Begun;
    var tr := s.log.trace;
    forall i | 0 <= i < |tr| ensures !Repeats(tr[i], m) {
      if tr[i].Starting? { StartedSince(tr, i); }
    }
    OnceNext(tr, m);
  }

  lemma EndsOnce(tr: Trace, m: Moment)
    requires Once(tr) && m.Ending?
    ensures Once(tr + [m])
  {
    OnceNext(tr, m);
  }

  // ---------------------------------------------------------------- the recursion

  lemma MayStartFresh(s: State, id: Id)
    requires Partition(s) && MayStart(s, id)
    ensures id !in s.at.inFlight && id !in s.at.called
  {
  }

  lemma {:induction false} RunOnce(c: Config, s: State, id: Id)
    requires c.policy.Repaired? && Inv(s) && WF(s) && MayStart(s, id) && (s.reqs[id].err != 0 ==> s.reqs[id].queued)
    requires Single(c, s)
    ensures Single(c, Run(c, s, id).0)
    decreases Behind(s, id), 4
  {
    hide *;
    InvCore(s);
    CoreParts(s);
    SingleParts(c, s);
    MayStartFresh(s, id);
    MayStartIn(s, id);
    RunTells(c, s, id);
    if s.reqs[id].err != 0 {
      MarkedOnce(c, s, id);
    } else {
      var h := Handed(c, s, id);
      StartIs(s, id);
      StartsOnce(c, s, StartOf(s, id));
      RunGoesOn(c, s, id);
      DispatchedTells(c, s, id);
      ResponseOwed(c, s, id);
      StartedKeeps(c, s, id);
      match Response(c, s.flags, s.reqs[id].kind, id)
      case Later =>
      case Now(err, size, foreign) =>
        PromptNext(c, s.log.trace, StartOf(s, id), BeginOf(s, id, err, size, foreign));
        SameBegin(s, h, id, err, size, foreign);
        BehindSame(s, h, id);
        CallbackOnce(c, h, id, err, size, foreign);
    }
    SingleOf(c, Run(c, s, id).0);
  }

  lemma SingleParts(c: Config, s: State)
    requires Single(c, s)
    ensures Traced(c, s) && Tells(c, s) && Prompt(c, s.log.trace) && Once(s.log.trace)
  {
    hide Tells, Prompt, Once;
  }

  lemma SingleOf(c: Config, s: State)
    requires Traced(c, s) && Once(s.log.trace)
    ensures Single(c, s)
  {
  }

  lemma MayStartIn(s: State, id: Id)
    requires MayStart(s, id)
    ensures id in s.reqs && (s.reqs[id].queued ==> IsHead(s, id) && s.at.inFlight == {})
  {
  }

  lemma StartedKeeps(c: Config, s: State, id: Id)
    requires Inv(s) && MayStart(s, id)
    ensures id in s.reqs
    ensures var h := Handed(c, s, id); Core(h) && ClosedIdleBut(h, id) && id in h.at.inFlight && WF(h)
  {
    hide Partition, Counted, Fifo, DoneOnce, Accounted, FlagsOk, Started, RouteOf;
    StartKeeps(s, id);
    StartClosedIdle(s, id);
    InvokeKeeps(Started(s, id), id);
  }

  lemma SameBegin(s: State, h: State, id: Id, err: int, size: nat, foreign: bool)
    requires id in s.reqs && id in h.reqs && h.reqs[id].kind == s.reqs[id].kind && h.flags == s.flags
    ensures BeginOf(s, id, err, size, foreign) == BeginOf(h, id, err, size, foreign)
  {
  }

  lemma BehindSame(s: State, h: State, id: Id)
    requires h.queue == s.queue
    ensures Behind(h, id) == Behind(s, id)
  {
  }

  /** A marked request is called back once: it was waiting. */
  lemma MarkedOnce(c: Config, s: State, id: Id)
    requires Inv(s) && WF(s) && IsHead(s, id) && s.at.inFlight == {} && id in s.reqs && s.reqs[id].err != 0
    requires Single(c, s) && id !in s.at.called
    ensures Once(Run(c, s, id).0.log.trace)
  {
    hide *;
    InvCore(s);
    CoreParts(s);
    CountedZero(s);
    SingleParts(c, s);
    MarkedTrace(c, s, id);
    var b := BeginOf(s, id, s.reqs[id].err, 0, false);
    BeginIs(s, id, s.reqs[id].err, 0, false);
    BeginsOnce(c, s, b);
    var e := Run(c, s, id).0.log.trace;
    EndsOnce(s.log.trace + [b], e[|e| - 1]);
  }

  lemma BeginIs(s: State, id: Id, err: int, size: nat, foreign: bool)
    requires id in s.reqs
    ensures var b := BeginOf(s, id, err, size, foreign); b.Beginning? && b.id == id
  {
  }

  lemma StartIs(s: State, id: Id)
    requires id in s.reqs
    ensures StartOf(s, id).Starting? && StartOf(s, id).id == id
  {
  }

  lemma MarkedTrace(c: Config, s: State, id: Id)
    requires WF(s) && IsHead(s, id) && s.pending == 0 && id in s.reqs && s.reqs[id].err != 0
    ensures var t := Run(c, s, id).0.log.trace; var was := s.log.trace + [BeginOf(s, id, s.reqs[id].err, 0, false)];
            |t| > 0 && t[|t| - 1].Ending? && t == was + [t[|t| - 1]]
  {
    hide *;
    MarkedIs(c, s, id);
    MarkedIsCallback(c, s, id);
    var err, p := s.reqs[id].err, Pick(s, id);
    LeaveAdds(c, p, id, err, 0, false);
    AddsTrace(c, p, Leave(p, id, err, 0, false), BeginOf(p, id, err, 0, false));
    SameBegin(s, p, id, err, 0, false);
    ClampTrace(Leave(p, id, err, 0, false));
    LeaveKept(p, id, err, 0, false);
    var l := Clamp(Leave(p, id, err, 0, false));
    SameFields(s, p, Leave(p, id, err, 0, false), id);
    FinishAdds(c, l, id, s.reqs[id], err, s.flags.isClosed, true);
    var m := Ending(id, s.reqs[id].kind, err, s.reqs[id].done, s.flags.isClosed, l.flags);
    AddsTrace(c, l, Finish(l, id, s.reqs[id], err, s.flags.isClosed, true), m);
  }

  lemma AddsTrace(c: Config, s: State, t: State, m: Moment)
    requires Adds(c, s, t, m)
    ensures t.log.trace == s.log.trace + [m]
  {
  }

  lemma ClampTrace(s: State)
    ensures Clamp(s).log.trace == s.log.trace && Clamp(s).reqs == s.reqs && Clamp(s).at == s.at
  {
  }

  lemma SameFields(s: State, p: State, l: State, id: Id)
    requires p.reqs == s.reqs && id in s.reqs && Kept(p, l)
    ensures id in l.reqs && l.reqs[id].kind == s.reqs[id].kind && l.reqs[id].done == s.reqs[id].done
  {
  }

  lemma {:induction false} CallbackOnce(c: Config, s: State, id: Id, err: int, size: nat, foreign: bool)
    requires c.policy.Repaired? && Core(s) && ClosedIdleBut(s, id) && id in s.at.inFlight && WF(s) && id in s.reqs
    requires Tells(c, s) && Due(c, s.log.trace, BeginOf(s, id, err, size, foreign)) && Once(s.log.trace)
    ensures Once(Callback(c, s, id, err, size, foreign).0.log.trace)
    decreases Behind(s, id), 2
  {
    hide *;
    CoreParts(s);
    InFlightNotCalled(s, id);
    BeginIs(s, id, err, size, foreign);
    BeginsOnce(c, s, BeginOf(s, id, err, size, foreign));
    var l := Leave(s, id, err, size, foreign);
    LeaveShape(s, id, err, size, foreign);
    LeaveKeeps(s, id, err, size, foreign);
    LeaveTells(c, s, id, err, size, foreign);
    OwedNothing(c, BeginOf(s, id, err, size, foreign));
    DueNext(c, s.log.trace, BeginOf(s, id, err, size, foreign));
    TracedOf(c, l);
    SingleOf(c, l);
    DrainOnce(c, l, s.reqs[id].kind);
    DrainTellsTrace(c, l, s.reqs[id].kind);
    CallbackTrace(c, s, id, err, size, foreign);
    var d := if l.pending == 0 then Drain(c, l, s.reqs[id].kind) else l;
    SingleParts(c, d);
    var t := Callback(c, s, id, err, size, foreign).0.log.trace;
    EndsOnce(d.log.trace, t[|t| - 1]);
  }

  lemma TracedOf(c: Config, s: State)
    requires Tells(c, s) && Prompt(c, s.log.trace)
    ensures Traced(c, s)
  {
  }

  lemma InFlightNotCalled(s: State, id: Id)
    requires Partition(s) && id in s.at.inFlight
    ensures id !in s.at.called
  {
  }

  lemma CallbackTrace(c: Config, s: State, id: Id, err: int, size: nat, foreign: bool)
    requires WF(s) && id in s.reqs
    ensures var l := Leave(s, id, err, size, foreign);
            && WF(l)
            && var d := if l.pending == 0 then Drain(c, l, s.reqs[id].kind) else l;
               var t := Callback(c, s, id, err, size, foreign).0.log.trace;
               |t| > 0 && t[|t| - 1].Ending? && t == d.log.trace + [t[|t| - 1]]
  {
    hide Leave, Drain, Finish, Callback, Dequeue;
    DequeueIs(c, s, id, err, size, foreign);
    var d := Dequeue(c, s, id, err, size, foreign);
    CallbackIs(c, s, id, err, size, foreign);
    FinishAdds(c, d, id, s.reqs[id], err, s.flags.isClosed, IsHead(s, id));
  }

  lemma {:induction false} DrainOnce(c: Config, s: State, k: Kind)
    requires c.policy.Repaired? && Inv(s) && WF(s) && Single(c, s)
    ensures Single(c, Drain(c, s, k))
    decreases |s.queue|, 0
  {
    hide Partition, Counted, Fifo, DoneOnce, Accounted, FlagsOk, ClosedIdle, Single, Run;
    if s.queue != [] && s.pending == 0 {
      var id := s.queue[0];
      HeadStatus(s);
      RunKeeps(c, s, id);
      RunOnce(c, s, id);
      var s1 := Run(c, s, id).0;
      TurnShrinks(c, s);
      if s1.pending == 0 { DrainOnce(c, s1, k); }
    }
  }

  // ---------------------------------------------------------------- calls and runs

  lemma AlikeSingle(c: Config, s: State, t: State)
    requires Single(c, s) && Alike(s, t)
    ensures Single(c, t)
  {
    AlikeTells(c, s, t);
  }

  lemma LifecycleOnce(c: Config, s: State, k: Kind, done: bool)
    requires c.policy.Repaired? && Inv(s) && Drained(s) && NoDestroy(s) && s.pending + 1 < INT_MIN && Lifecycle(k)
    requires WF(s) && Single(c, s)
    ensures Single(c, LifecycleCall(c, s, k, done).0)
  {
    hide Partition, Counted, Fifo, DoneOnce, Accounted, FlagsOk, ClosedIdle, Once, Traced, Alike;
    IssuePushKeeps(s, k, done);
    IssueTells(c, s, k, 0, done);
    var s0 := Issue(s, k, 0, done);
    var s1 := Push(s0, s.next);
    PushAlike(s0, s.next);
    AlikeSingle(c, s0, s1);
    if s1.pending == 0 {
      assert s1.at.inFlight == {} by { CountedZero(s1); }
      RunOnce(c, s1, s.next);
    }
  }

  lemma DataOnce(c: Config, s: State, k: Kind, size: nat, done: bool)
    requires c.policy.Repaired? && Boundary(s) && NoDestroy(s) && !Lifecycle(k) && WF(s) && Single(c, s)
    requires s.pending + 2 < INT_MIN && |s.queue| + 2 < QUEUE_MAX
    ensures Single(c, DataCall(c, s, k, size, done).0)
  {
    hide Partition, Counted, Fifo, DoneOnce, Accounted, FlagsOk, ClosedIdle, Run, LifecycleCall, Clean;
    hide Once, Traced, Alike;
    FreshId(s);
    var id := s.next;
    var s1 := Issue(s, k, size, done);
    IssueKeeps(s, k, size, done);
    IssueTells(c, s, k, size, done);
    assert s1.at.created == {id};
    if s.flags.needsOpen && !s.flags.isOpen {
      LifecycleKeeps(c, s1, Open, false);
      LifecycleOnce(c, s1, Open, false);
      var (t, ret) := LifecycleCall(c, s1, Open, false);
      SetErrKeeps(t, id, ret);
      SetErrAlike(t, id, ret);
      AlikeSingle(c, t, SetErr(t, id, ret));
    }
    var s2 := AutoOpen(c, s1, id);
    assert Inv(s2) && Drained(s2) && s2.at.created == {id} && NoDestroy(s2) && Single(c, s2);
    if s2.queue != [] {
      PushAlike(s2, id);
      AlikeSingle(c, s2, Push(s2, id));
    } else {
      RunOnce(c, s2, id);
    }
  }

  lemma DestroyOnce(c: Config, s: State, done: bool)
    requires c.policy.Repaired? && Boundary(s) && NoDestroy(s) && WF(s) && Single(c, s)
    requires s.pending + 2 < INT_MIN && |s.queue| + 2 < QUEUE_MAX
    ensures Single(c, DestroyCall(c, s, done).0)
  {
    hide Partition, Counted, Fifo, DoneOnce, Accounted, FlagsOk, ClosedIdle, LifecycleCall, Clean, Single;
    LifecycleKeeps(c, s, Close, false);
    LifecycleOnce(c, s, Close, false);
    LifecycleOnce(c, LifecycleCall(c, s, Close, false).0, Destroy, done);
  }

  lemma StepOnce(c: Config, s: State, a: Action)
    requires c.policy.Repaired? && Boundary(s) && WF(s) && Enabled(s, a) && Single(c, s)
    ensures Single(c, Step(c, s, a))
  {
    hide Inv, Partition, Counted, Fifo, DoneOnce, Accounted, FlagsOk, Clean, Tells, Prompt, Once, Due;
    hide LifecycleCall, DataCall, DestroyCall, Callback;
    match a
    case IssueData(k, size, done) => DataOnce(c, s, k, size, done);
    case IssueOpen(done) => LifecycleOnce(c, s, Open, done);
    case IssueClose(done) => LifecycleOnce(c, s, Close, done);
    case IssueDestroy(done) => DestroyOnce(c, s, done);
    case Complete(id, err, size, foreign) =>
      InvCore(s);
      BoundaryBut(s, id);
      PromptDue(c, s.log.trace, BeginOf(s, id, err, size, foreign));
      CallbackOnce(c, s, id, err, size, foreign);
      StepTells(c, s, a);
  }

  lemma BoundaryBut(s: State, id: Id)
    requires ClosedIdle(s)
    ensures ClosedIdleBut(s, id)
  {
  }

  lemma {:induction false} RunsOnce(c: Config, s: State, run: seq<Action>)
    requires c.policy.Repaired? && Boundary(s) && WF(s) && Runnable(c, s, run) && Single(c, s)
    ensures Single(c, Exec(c, s, run))
    decreases |run|
  {
    if run != [] {
      hide Boundary, Step, Enabled, Single;
      StepOnce(c, s, run[0]);
      StepKeeps(c, s, run[0]);
      RunsOnce(c, Step(c, s, run[0]), run[1..]);
    }
  }

  ghost predicate StartedIn(tr: Trace, id: Id) { exists p :: 0 <= p < |tr| && tr[p].Starting? && tr[p].id == id }

  lemma StartedLater(tr: Trace, n: nat, id: Id)
    requires n < |tr| && Once(tr) && StartedIn(tr[..n], id)
    ensures StartedIn(tr, id) && (tr[n].Starting? ==> tr[n].id != id)
  {
    var p :| 0 <= p < n && tr[..n][p].Starting? && tr[..n][p].id == id;
    assert tr[p].Starting? && !Repeats(tr[p], tr[n]);
  }

  /** What is handed over has been started, at a moment of the trace. */
  lemma {:induction false} InvokedStarted(c: Config, tr: Trace)
    requires Once(tr)
    ensures forall i :: 0 <= i < |Invoked(c, tr)| ==> StartedIn(tr, Invoked(c, tr)[i].id)
    ensures forall i, j :: 0 <= i < j < |Invoked(c, tr)| ==> Invoked(c, tr)[i].id != Invoked(c, tr)[j].id
    decreases |tr|
  {
    if tr != [] {
      var n := |tr| - 1;
      var before, last := Invoked(c, tr[..n]), InvokedBy(c, tr[n]);
      InvokedStarted(c, tr[..n]);
      hide StartedIn;
      forall i | 0 <= i < |before|
        ensures StartedIn(tr, before[i].id) && (tr[n].Starting? ==> tr[n].id != before[i].id)
      {
        StartedLater(tr, n, before[i].id);
      }
      if last != [] { StartedLast(tr, n); }
      assert Invoked(c, tr) == before + last && |last| <= 1;
    }
  }

  lemma StartedLast(tr: Trace, n: nat)
    requires n < |tr| && tr[n].Starting?
    ensures StartedIn(tr, tr[n].id)
  {
  }

  /** In every run, repaired, each request is started, handed to the backend and called back at
      most once. */
  lemma EveryRunOnce(c: Config, heap: bool, run: seq<Action>)
    requires c.policy.Repaired? && RunOf(c, heap, run)
    ensures var t := Final(c, heap, run);
            && Once(t.log.trace)
            && forall i, j :: 0 <= i < j < |t.log.calls| ==> t.log.calls[i].id != t.log.calls[j].id
  {
    InitialBoundary(heap);
    InitialTells(c, heap);
    RunsOnce(c, Initial(heap), run);
    var t := Final(c, heap, run);
    hide Boundary;
    TracedCalls(c, t);
    InvokedStarted(c, t.log.trace);
  }
}
