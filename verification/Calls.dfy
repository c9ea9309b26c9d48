/** Public calls, which find nothing waiting or something in flight: where they go, and why they
    never reach the drain loop. */
module Calls {
  import opened Protocol
  import opened Invariant
  import opened Preservation
  import opened Chains
  import opened Outcomes
  import opened Runs

  // ------------------------------------------------ requests with nothing behind them

  lemma DrainEmpty(c: Config, s: State, k: Kind)
    requires s.queue == []
    ensures Drain(c, s, k) == s
  {
  }

  lemma GoneAlone(s: State, l: State, id: Id, err: int)
    requires id in s.reqs && Gone(s, l, id, err) && Behind(s, id) == 0 && 0 < s.pending < INT_MIN
    ensures l.queue == [] && l.pending < INT_MIN && l.at.stack != []
  {
  }

  lemma DequeueAlone(c: Config, s: State, id: Id, err: int, size: nat, foreign: bool)
    requires WF(s) && id in s.reqs && Leave(s, id, err, size, foreign).queue == []
    ensures Dequeue(c, s, id, err, size, foreign) == Clamp(Leave(s, id, err, size, foreign))
  {
    hide Leave, Drain;
    DrainEmpty(c, Leave(s, id, err, size, foreign), s.reqs[id].kind);
  }

  lemma CallbackAlone(c: Config, s: State, id: Id, err: int, size: nat, foreign: bool)
    requires WF(s) && id in s.reqs && Behind(s, id) == 0 && 0 < s.pending < INT_MIN
    ensures Callback(c, s, id, err, size, foreign) == Callback(Repair(c), s, id, err, size, foreign)
    ensures var l := Leave(s, id, err, size, foreign);
            Gone(s, l, id, err) && Ended(l, Callback(c, s, id, err, size, foreign).0, id, s.reqs[id])
  {
    hide *;
    var l := Leave(s, id, err, size, foreign);
    LeaveGone(s, id, err, size, foreign);
    GoneAlone(s, l, id, err);
    DequeueAlone(c, s, id, err, size, foreign);
    DequeueAlone(Repair(c), s, id, err, size, foreign);
    CallbackIs(c, s, id, err, size, foreign);
    CallbackIs(Repair(c), s, id, err, size, foreign);
    Ends(l, id, s.reqs[id], err, s.flags.isClosed, IsHead(s, id));
  }

  /** Where a run with nothing behind it goes, by the response it gets. */
  ghost predicate Goes(c: Config, s: State, id: Id, t: State)
    requires id in s.reqs
  {
    var k := s.reqs[id].kind;
    match Response(c, s.flags, k, id)
    case Later =>
      && t.queue == s.queue && t.flags == s.flags && t.pending == s.pending + 1 && t.mem.storage == s.mem.storage
      && t.at.stalled == s.at.stalled + if RouteOf(c, s.flags, k).Nowhere? then {id} else {}
    case Now(err, _, _) =>
      && t.queue == [] && t.flags == SettleFlags(s.flags, k, err) && t.pending == s.pending
      && t.at.stalled == s.at.stalled
      && t.mem.storage == if k.Destroy? then Release(s.mem.storage, s.at.stack != []) else s.mem.storage
  }

  lemma RunAlone(c: Config, s: State, id: Id)
    requires WF(s) && id in s.reqs && Behind(s, id) == 0 && s.reqs[id].err == 0
    requires s.pending + 1 < INT_MIN && id !in s.at.stalled
    ensures Run(c, s, id) == Run(Repair(c), s, id)
    ensures Goes(c, s, id, Run(c, s, id).0)
  {
    hide Run, RouteOf, Goes, Handed, Response;
    RunReturns(c, s, id);
    RunReturns(Repair(c), s, id);
    HandedRepair(c, s, id);
    RunGoes(c, s, id);
    RunAgreesAlone(c, s, id);
  }

  lemma RunAgreesAlone(c: Config, s: State, id: Id)
    requires WF(s) && id in s.reqs && Behind(s, id) == 0 && s.reqs[id].err == 0
    requires s.pending + 1 < INT_MIN && id !in s.at.stalled
    ensures Run(c, s, id).0 == Run(Repair(c), s, id).0
  {
    hide Callback, Run, RouteOf, Response;
    RunIs(c, s, id);
    RunIs(Repair(c), s, id);
    HandedRepair(c, s, id);
    HandedSimilar(c, s, id);
    var a := Response(c, s.flags, s.reqs[id].kind, id);
    if a.Now? { CallbackAlone(c, Handed(c, s, id), id, a.err, a.size, a.foreign); }
  }

  lemma RunGoes(c: Config, s: State, id: Id)
    requires WF(s) && id in s.reqs && Behind(s, id) == 0 && s.reqs[id].err == 0
    requires s.pending + 1 < INT_MIN && id !in s.at.stalled
    ensures Goes(c, s, id, Run(c, s, id).0)
  {
    hide Callback, Run, RouteOf, SettleFlags, Release;
    RunIs(c, s, id);
    HandedSimilar(c, s, id);
    var h := Handed(c, s, id);
    match Response(c, s.flags, s.reqs[id].kind, id)
    case Later =>
    case Now(err, size, foreign) => CallbackAlone(c, h, id, err, size, foreign);
  }

  // ------------------------------------------------ public calls

  /** The state in which a lifecycle call runs its request, if it does. */
  function Queued(s: State, k: Kind, done: bool): State { Push(Issue(s, k, 0, done), s.next) }

  lemma QueuedIs(s: State, k: Kind, done: bool)
    requires WF(s) && s.next !in s.reqs
    ensures var t := Queued(s, k, done);
            && WF(t) && t.queue == s.queue + [s.next] && t.reqs == s.reqs[s.next := Req(k, done, 0, 0, true)]
            && t.pending == s.pending && t.flags == s.flags && t.mem.storage == s.mem.storage && t.next == s.next + 1
            && t.at.stalled == s.at.stalled && t.at.inFlight == s.at.inFlight && t.at.stack == s.at.stack
            && t.log.ran == s.log.ran && t.log.removed == s.log.removed && t.log.dones == s.log.dones
  {
  }

  lemma LifecycleCallIs(c: Config, s: State, k: Kind, done: bool)
    requires WF(s) && s.next !in s.reqs && Lifecycle(k)
    ensures var t := Queued(s, k, done);
            && WF(t) && t.reqs[s.next].err == 0 && LifecycleCall(c, s, k, done).1 == 0
            && LifecycleCall(c, s, k, done).0 == if s.pending == 0 then Run(c, t, s.next).0 else t
  {
    hide Run;
    var t := Queued(s, k, done);
    if t.pending == 0 { RunReturns(c, t, s.next); }
  }

  /** A lifecycle call made while something is in flight only queues its request. */
  lemma CallWaits(c: Config, s: State, k: Kind, done: bool)
    requires WF(s) && s.pending > 0 && s.next !in s.reqs && Lifecycle(k)
    ensures var t := LifecycleCall(c, s, k, done).0;
            && t.queue == s.queue + [s.next] && t.pending == s.pending && t.next == s.next + 1 && t.flags == s.flags
            && t.reqs == s.reqs[s.next := Req(k, done, 0, 0, true)]
            && t.at.inFlight == s.at.inFlight && t.at.stalled == s.at.stalled && t.log.dones == s.log.dones
            && t.mem.storage == s.mem.storage && t.log.ran == s.log.ran && t.log.removed == s.log.removed
            && LifecycleCall(c, s, k, done).1 == 0
  {
    QueuedIs(s, k, done);
    hide Queued, Run, LifecycleCall;
    LifecycleCallIs(c, s, k, done);
  }

  /** Between calls nothing waits if nothing is in flight: a lifecycle call runs its request
      alone or leaves it queued. */
  lemma LifecycleCallGoes(c: Config, s: State, k: Kind, done: bool)
    requires WF(s) && Drained(s) && s.next !in s.reqs && Lifecycle(k) && s.next !in s.at.stalled
    ensures LifecycleCall(c, s, k, done) == LifecycleCall(Repair(c), s, k, done)
    ensures s.next in Queued(s, k, done).reqs && WF(Queued(s, k, done))
    ensures var t := LifecycleCall(c, s, k, done).0;
            if s.pending == 0 then Goes(c, Queued(s, k, done), s.next, t) else t == Queued(s, k, done)
  {
    QueuedIs(s, k, done);
    hide Queued, Run, Goes, LifecycleCall;
    LifecycleCallIs(c, s, k, done);
    LifecycleCallIs(Repair(c), s, k, done);
    if s.pending == 0 { RunAlone(c, Queued(s, k, done), s.next); }
  }

  /** A data call begins by opening the storage. */
  predicate OpensFirst(f: Flags) { f.needsOpen && !f.isOpen }

  /** Where the automatic open of a data call leads. */
  ghost predicate OpenGoes(c: Config, s: State, t: State) {
    && t.mem.storage == s.mem.storage && t.at.stalled == s.at.stalled
    && if !OpensFirst(s.flags) then t.queue == s.queue && t.pending == s.pending && t.flags == s.flags
       else if s.pending > 0 then t.queue == s.queue + [s.next] && t.pending == s.pending && t.flags == s.flags
       else
         match Response(c, s.flags, Open, s.next)
         case Later => t.queue == [s.next] && t.pending == 1 && t.flags == s.flags
         case Now(err, _, _) => t.queue == [] && t.pending == 0 && t.flags == SettleFlags(s.flags, Open, err)
  }

  lemma AutoOpenGoes(c: Config, s: State, id: Id)
    requires WF(s) && Drained(s) && s.next !in s.reqs && s.next !in s.at.stalled
    requires id in s.reqs && s.reqs[id].err == 0 && id != s.next
    ensures var t := AutoOpen(c, s, id);
            && t == AutoOpen(Repair(c), s, id) && OpenGoes(c, s, t)
            && t.reqs[id].err == 0 && SameStatics(s.reqs[id], t.reqs[id]) && t.at.stack == s.at.stack
  {
    if OpensFirst(s.flags) {
      var q := Queued(s, Open, false);
      QueuedIs(s, Open, false);
      LifecycleCallGoes(c, s, Open, false);
      LifecycleCallKept(c, s, Open, false);
      hide Queued, Run, LifecycleCall;
      LifecycleCallIs(c, s, Open, false);
    }
  }

  lemma LifecycleCallKept(c: Config, s: State, k: Kind, done: bool)
    requires WF(s) && s.next !in s.reqs && Lifecycle(k)
    ensures var t := LifecycleCall(c, s, k, done).0;
            t.at.stack == s.at.stack && forall x :: x in s.reqs ==> x in t.reqs && SameStatics(s.reqs[x], t.reqs[x])
  {
    QueuedIs(s, k, done);
    hide Run, Queued, LifecycleCall;
    LifecycleCallIs(c, s, k, done);
  }

  /** An open that is run now is answered at once with an error. */
  predicate Refuses(c: Config, f: Flags, openId: Id) {
    var r := Response(c, f, Open, openId);
    r.Now? && r.err != 0
  }

  /** The call is made on a storage that will not serve its request: it is not open and
      nothing opens it first, or its open is answered with an error, or it has been closed. */
  ghost predicate StallsNow(c: Config, s: State) {
    && s.queue == []
    && if OpensFirst(s.flags) then
         && s.pending == 0
         && (Refuses(c, s.flags, s.next + 1) || (s.flags.isClosed && Response(c, s.flags, Open, s.next + 1).Now?))
       else !s.flags.isOpen || s.flags.isClosed
  }

  lemma IssueIs(s: State, k: Kind, size: nat, done: bool)
    requires WF(s) && s.next !in s.reqs
    ensures var t := Issue(s, k, size, done);
            && WF(t) && t.queue == s.queue && t.reqs == s.reqs[s.next := Req(k, done, 0, size, false)]
            && t.pending == s.pending && t.flags == s.flags && t.mem.storage == s.mem.storage && t.next == s.next + 1
            && t.at.stalled == s.at.stalled && t.at.inFlight == s.at.inFlight && t.at.stack == s.at.stack
            && t.log == s.log
  {
  }

  /** The backend answers every request before it returns. */
  ghost predicate Answers(c: Config) { forall x :: c.reply(x).Now? }

  /** A data call leaves its request stalled exactly when StallsNow says so, and never reaches
      the drain loop. */
  lemma DataCallGoes(c: Config, s: State, k: Kind, size: nat, done: bool)
    requires Inv(s) && WF(s) && Drained(s) && !Lifecycle(k) && s.pending + 2 < INT_MIN
    ensures DataCall(c, s, k, size, done) == DataCall(Repair(c), s, k, size, done)
    ensures var t := DataCall(c, s, k, size, done).0;
            && t.mem.storage == s.mem.storage
            && t.at.stalled == s.at.stalled + (if StallsNow(c, s) then {s.next} else {})
            && (Answers(c) && s.pending == 0 ==> t.pending == if StallsNow(c, s) then 1 else 0)
  {
    hide Fifo, DoneOnce, Accounted, Counted, FlagsOk, ClosedIdle, AutoOpen, Run, Issue;
    FreshId(s);
    IssueIs(s, k, size, done);
    var id := s.next;
    var s1 := Issue(s, k, size, done);
    AutoOpenGoes(c, s1, id);
    var s2 := AutoOpen(c, s1, id);
    if s2.queue == [] { RunAlone(c, s2, id); }
  }

  lemma DestroyCallAgrees(c: Config, s: State, done: bool)
    requires Boundary(s) && NoDestroy(s) && s.pending + 2 < INT_MIN
    ensures DestroyCall(c, s, done) == DestroyCall(Repair(c), s, done)
    ensures DestroyCall(c, s, done).0.mem.storage.dangling == s.mem.storage.dangling
  {
    hide Partition, Counted, Fifo, DoneOnce, Accounted, FlagsOk, ClosedIdle, LifecycleCall, Run, Clean, Queued, RouteOf;
    FreshId(s);
    QueuedIs(s, Close, false);
    LifecycleCallGoes(c, s, Close, false);
    LifecycleKeeps(Repair(c), s, Close, false);
    var s1 := LifecycleCall(c, s, Close, false).0;
    FreshId(s1);
    QueuedIs(s1, Destroy, done);
    LifecycleCallGoes(c, s1, Destroy, done);
  }

  /** Calls made between callbacks never reach the drain loop, so that the two versions agree on
      them, and never release the storage under a callback. */
  lemma CallsAgree(c: Config, s: State, a: Action)
    requires Boundary(s) && Enabled(s, a) && !a.Complete?
    ensures Step(c, s, a) == Step(Repair(c), s, a)
    ensures Step(c, s, a).mem.storage.dangling == s.mem.storage.dangling
  {
    hide Partition, Counted, Fifo, DoneOnce, Accounted, FlagsOk, ClosedIdle, LifecycleCall, DestroyCall, DataCall, Run;
    hide Clean, Queued, RouteOf;
    FreshId(s);
    match a
    case IssueOpen(done) => QueuedIs(s, Open, done); LifecycleCallGoes(c, s, Open, done);
    case IssueClose(done) => QueuedIs(s, Close, done); LifecycleCallGoes(c, s, Close, done);
    case IssueDestroy(done) => DestroyCallAgrees(c, s, done);
    case IssueData(k, size, done) => DataCallGoes(c, s, k, size, done);
  }

  lemma CallKeeps(c: Config, s: State, a: Action)
    requires Boundary(s) && Enabled(s, a) && !a.Complete?
    ensures WF(s) && Boundary(Step(c, s, a))
  {
    CallsAgree(c, s, a);
    StepKeeps(Repair(c), s, a);
  }
}
