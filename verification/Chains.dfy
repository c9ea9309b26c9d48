/** Failed opens: who is told what (repaired drain), and why no error is left waiting. */
module Chains {
  import opened Protocol
  import opened Invariant
  import opened Preservation

  /** The requests of `q` that have a `done` function, in order. */
  function WithDone(reqs: map<Id, Req>, q: seq<Id>): seq<Id> {
    if q == [] then [] else (if q[0] in reqs && reqs[q[0]].done then [q[0]] else []) + WithDone(reqs, q[1..])
  }

  lemma {:induction false} WithDoneSame(a: map<Id, Req>, b: map<Id, Req>, q: seq<Id>)
    requires a.Keys == b.Keys && forall x :: x in a ==> a[x].done == b[x].done
    ensures WithDone(a, q) == WithDone(b, q)
  {
    if q != [] { WithDoneSame(a, b, q[1..]); }
  }

  lemma WithDoneHead(reqs: map<Id, Req>, q: seq<Id>)
    requires q != []
    ensures WithDone(reqs, q) == WithDone(reqs, [q[0]]) + WithDone(reqs, q[1..])
  {
  }

  // ------------------------------------------------ a failed open

  ghost predicate AllMarked(s: State, err: int) { forall x :: x in s.queue ==> x in s.reqs && s.reqs[x].err == err }

  predicate HasDestroy(reqs: map<Id, Req>, q: seq<Id>) { exists x :: x in q && x in reqs && reqs[x].kind.Destroy? }

  /** What happens to a storage when requests are called back inside another callback: a
      destroy among them releases it, although the outer callback still reads it. */
  ghost predicate Released(s: State, t: State, destroys: bool) {
    t.mem.storage == if destroys then Release(s.mem.storage, true) else s.mem.storage
  }

  /** `t` is reached from `s` by telling every request of `q` about `err`, in order, and
      doing nothing to the backend or to requests that are not queued. */
  ghost predicate Told(s: State, t: State, q: seq<Id>, err: int) {
    && t.log.calls == s.log.calls
    && t.log.dones == s.log.dones + WithDone(s.reqs, q) && t.log.removed == s.log.removed + q
    && (s.flags.needsOpen && !s.flags.isOpen ==> t.flags == s.flags) && t.at.stalled == s.at.stalled
    && (s.at.stack != [] ==> Released(s, t, HasDestroy(s.reqs, q)))
    && s.at.called <= t.at.called && t.reqs.Keys == s.reqs.Keys
    && (forall x :: x in q ==> x in t.reqs && t.reqs[x].err == err && x in t.at.called)
    && (forall x :: x in s.reqs && x !in s.queue ==> x in t.reqs && t.reqs[x] == s.reqs[x])
  }

  lemma LeaveMarked(s: State, id: Id)
    requires WF(s) && IsHead(s, id) && AllMarked(s, s.reqs[id].err) && s.reqs[id].err != 0
    ensures var t := Clamp(Leave(Pick(s, id), id, s.reqs[id].err, 0, false));
            && t.log.calls == s.log.calls && t.log.dones == s.log.dones && t.at.called == s.at.called + {id}
            && t.log.removed == s.log.removed + [id] && (s.flags.needsOpen && !s.flags.isOpen ==> t.flags == s.flags)
            && t.at.stalled == s.at.stalled - {id}
            && t.mem.storage == s.mem.storage
            && t.reqs.Keys == s.reqs.Keys && (forall x :: x in s.queue ==> t.reqs[x].err == s.reqs[id].err)
            && (forall x :: x in s.reqs && x !in s.queue ==> t.reqs[x] == s.reqs[x])
  {
  }

  lemma FinishTells(s: State, id: Id, r: Req, err: int, wasClosed: bool, needsFree: bool)
    requires s.at.stack != []
    ensures var t := Finish(s, id, r, err, wasClosed, needsFree);
            && t.log.dones == s.log.dones + (if r.done then [id] else [])
            && t.log.calls == s.log.calls && t.log.removed == s.log.removed && t.log.ran == s.log.ran
            && t.at.called == s.at.called && t.at.stalled == s.at.stalled && t.at.inFlight == s.at.inFlight
            && t.flags == s.flags && t.pending == s.pending
            && (!r.kind.Destroy? || s.queue == [] ==> t.queue == s.queue)
  {
  }

  lemma FinishReleases(s: State, id: Id, r: Req, err: int, wasClosed: bool, needsFree: bool)
    requires s.at.stack != []
    ensures var t := Finish(s, id, r, err, wasClosed, needsFree);
            t.mem.storage == if r.kind.Destroy? then Release(s.mem.storage, |s.at.stack| > 1) else s.mem.storage
  {
    hide FreeRequest, Release;
  }

  lemma MarkedMoves(c: Config, s: State, id: Id)
    requires WF(s) && IsHead(s, id) && s.pending == 0 && s.reqs[id].err != 0
    requires s.reqs[id].kind.Destroy? ==> s.queue == [id]
    ensures var l := Clamp(Leave(Pick(s, id), id, s.reqs[id].err, 0, false)); var t := Run(c, s, id).0;
            && t.pending == 0 && t.queue == s.queue[1..] && t.reqs == l.reqs && t.at.called == l.at.called
            && t.log.calls == l.log.calls && t.log.dones == l.log.dones + (if s.reqs[id].done then [id] else [])
            && t.log.removed == l.log.removed && t.flags == l.flags && t.at.stalled == l.at.stalled
            && t.mem.storage ==
                 if s.reqs[id].kind.Destroy? then Release(l.mem.storage, s.at.stack != []) else l.mem.storage
  {
    hide Run, Leave, Finish, Clamp;
    MarkedIs(c, s, id);
    var err := s.reqs[id].err;
    FinishTells(Clamp(Leave(Pick(s, id), id, err, 0, false)), id, s.reqs[id], err, s.flags.isClosed, true);
    FinishReleases(Clamp(Leave(Pick(s, id), id, err, 0, false)), id, s.reqs[id], err, s.flags.isClosed, true);
  }

  lemma MarkedTells(c: Config, s: State, id: Id)
    requires WF(s) && IsHead(s, id) && s.pending == 0 && s.reqs[id].err != 0 && AllMarked(s, s.reqs[id].err)
    requires id !in s.queue[1..] && id !in s.at.stalled && (s.reqs[id].kind.Destroy? ==> s.queue == [id])
    ensures var t := Run(c, s, id).0;
            && t.pending == 0 && t.queue == s.queue[1..] && AllMarked(t, s.reqs[id].err)
            && Told(s, t, [id], s.reqs[id].err)
  {
    hide Run, Leave, Clamp, Pick;
    MarkedMoves(c, s, id);
    LeaveMarked(s, id);
    assert WithDone(s.reqs, [id]) == if s.reqs[id].done then [id] else [];
  }

  lemma ReleasedTwice(s: State, s1: State, t: State, first: bool, rest: bool)
    requires Released(s, s1, first) && Released(s1, t, rest)
    ensures Released(s, t, first || rest)
  {
  }

  lemma ToldTwice(s: State, s1: State, t: State, err: int)
    requires s.queue != [] && s1.queue == s.queue[1..] && Kept(s, s1)
    requires Told(s, s1, [s.queue[0]], err) && Told(s1, t, s1.queue, err) && s.queue[0] !in s1.queue
    requires s1.at.stack == s.at.stack && WF(s)
    ensures Told(s, t, s.queue, err)
  {
    hide HasDestroy, Released, WithDone, WF;
    assert s.queue == [s.queue[0]] + s1.queue;
    HasDestroyTwice(s, s1);
    if s.at.stack != [] {
      ReleasedTwice(s, s1, t, HasDestroy(s.reqs, [s.queue[0]]), HasDestroy(s1.reqs, s1.queue));
    }
    WithDoneSame(s1.reqs, s.reqs, s1.queue);
    WithDoneHead(s.reqs, s.queue);
    forall x | x in s.queue ensures x in t.reqs && t.reqs[x].err == err && x in t.at.called {
      if x != s.queue[0] { assert x in s.queue[1..]; }
    }
  }

  lemma HasDestroyTwice(s: State, s1: State)
    requires WF(s) && s.queue != [] && s1.queue == s.queue[1..] && Kept(s, s1)
    ensures HasDestroy(s.reqs, s.queue) <==> HasDestroy(s.reqs, [s.queue[0]]) || HasDestroy(s1.reqs, s1.queue)
  {
    var h := s.queue[0];
    if x :| x in s.queue && x in s.reqs && s.reqs[x].kind.Destroy? {
      if x == h { assert h in [h]; } else { assert x in s1.queue && s1.reqs[x].kind.Destroy?; }
    }
    if x :| x in s1.queue && x in s1.reqs && s1.reqs[x].kind.Destroy? {
      assert x in s.queue && s.reqs[x].kind.Destroy?;
    }
    if x :| x in [h] && x in s.reqs && s.reqs[x].kind.Destroy? { assert x in s.queue; }
  }

  lemma {:induction false} DrainTells(c: Config, s: State, k: Kind, err: int)
    requires c.policy.Repaired? && Inv(s) && s.pending == 0 && err != 0 && AllMarked(s, err)
    ensures var t := Drain(c, s, k); t.queue == [] && t.pending == 0 && Told(s, t, s.queue, err)
    decreases |s.queue|
  {
    hide Fifo, DoneOnce, Accounted, FlagsOk, ClosedIdle, Counted, Told, Run;
    if s.queue != [] {
      var id := s.queue[0];
      HeadStatus(s);
      MarkedKeeps(c, s, id);
      assert id !in s.queue[1..] by { HeadIsOnce(s); }
      MarkedTells(c, s, id);
      var s1 := Run(c, s, id).0;
      DrainTells(c, s1, k, err);
      ToldTwice(s, s1, Drain(c, s1, k), err);
    } else {
      assert Told(s, s, [], err) by { ToldNothing(s, err); }
    }
  }

  lemma ToldNothing(s: State, err: int)
    ensures Told(s, s, [], err)
  {
  }

  lemma HeadIsOnce(s: State)
    requires Unique(s.queue) && s.queue != []
    ensures s.queue[0] !in s.queue[1..]
  {
  }

  lemma FailedOpenMarks(s: State, id: Id, err: int, size: nat, foreign: bool)
    requires WF(s) && IsHead(s, id) && s.reqs[id].kind.Open? && err != 0
    ensures var l := Leave(s, id, err, size, foreign);
            && AllMarked(l, err) && l.queue == s.queue[1..] && l.pending == Decrement(s.pending)
            && l.log.calls == s.log.calls && l.log.dones == s.log.dones && l.at.called == s.at.called + {id}
            && id in l.reqs && l.reqs[id].err == err && l.flags.needsOpen && !l.flags.isOpen
            && l.flags.isClosed == s.flags.isClosed
  {
  }

  /** When the backend's open fails, every request waiting behind it is told, in order, with
      the open's own error, before the open itself is; none of them reaches the backend. */
  lemma FailedOpenTellsAll(c: Config, s: State, id: Id, err: int, size: nat, foreign: bool)
    requires c.policy.Repaired? && Inv(s) && id in s.at.inFlight && s.reqs[id].kind.Open? && err != 0
    ensures var t := Callback(c, s, id, err, size, foreign).0;
            && IsHead(s, id) && t.queue == [] && t.pending == 0
            && t.log.calls == s.log.calls
            && t.log.dones == s.log.dones + WithDone(s.reqs, s.queue[1..]) + (if s.reqs[id].done then [id] else [])
            && (forall x :: x in s.queue ==> x in t.at.called && t.reqs[x].err == err)
  {
    hide Fifo, DoneOnce, Accounted, Leave, Finish, Drain, Told, ClosedIdle;
    InFlightStatus(s, id);
    assert IsHead(s, id) && s.pending == 1;
    var l := Leave(s, id, err, size, foreign);
    FailedOpenMarks(s, id, err, size, foreign);
    LeaveKept(s, id, err, size, foreign);
    InvParts(s, id);
    LeaveKeeps(s, id, err, size, foreign);
    HeadIsOnce(s);
    DrainTells(c, l, Open, err);
    var d := Drain(c, l, Open);
    assert Dequeue(c, s, id, err, size, foreign) == d;
    FinishTells(d, id, s.reqs[id], err, s.flags.isClosed, true);
    ToldMeans(l, d, err, s.queue[0]);
    WithDoneSame(l.reqs, s.reqs, s.queue[1..]);
    forall x | x in s.queue ensures x in d.at.called && x in d.reqs && d.reqs[x].err == err {
      if x != id { assert x in s.queue[1..]; ToldMeans(l, d, err, x); }
    }
  }

  lemma ToldMeans(s: State, t: State, err: int, x: Id)
    requires Told(s, t, s.queue, err) && x in s.reqs && s.reqs[x].err == err && (x in s.queue || x in s.at.called)
    ensures x in t.reqs && t.reqs[x].err == err && x in t.at.called
    ensures t.log.calls == s.log.calls && t.log.dones == s.log.dones + WithDone(s.reqs, s.queue)
  {
  }

  lemma InvParts(s: State, id: Id)
    requires Inv(s)
    ensures Core(s) && ClosedIdleBut(s, id)
  {
  }

  // ------------------------------------------------ no error is left waiting

  /** A request that waits carries no error. */
  ghost predicate Clean(s: State) {
    forall x :: x in s.queue ==> x in s.reqs && (s.reqs[x].err == 0 || x in s.at.inFlight)
  }

  lemma LeaveClean(s: State, id: Id, err: int, size: nat, foreign: bool)
    requires Clean(s) && id in s.reqs && (IsHead(s, id) ==> id !in s.queue[1..]) && (id in s.queue ==> IsHead(s, id))
    requires !(s.reqs[id].kind.Open? && err != 0)
    ensures Clean(Leave(s, id, err, size, foreign))
  {
  }

  lemma FinishClean(s: State, id: Id, r: Req, err: int, wasClosed: bool, needsFree: bool)
    requires Clean(s) && s.at.stack != []
    ensures Clean(Finish(s, id, r, err, wasClosed, needsFree))
  {
  }

  lemma StartClean(s: State, id: Id)
    requires Clean(s) && id in s.reqs
    ensures Clean(Started(s, id)) && Clean(Invoke(s, id)) && (id in s.at.inFlight ==> Clean(Stall(s, id)))
  {
  }

  lemma {:induction false} CallbackClean(c: Config, s: State, id: Id, err: int, size: nat, foreign: bool)
    requires c.policy.Repaired? && Core(s) && ClosedIdleBut(s, id) && id in s.at.inFlight && Clean(s)
    ensures Clean(Callback(c, s, id, err, size, foreign).0)
    decreases Behind(s, id), 2
  {
    hide Fifo, DoneOnce, Accounted, Leave, Finish, ClosedIdle, ClosedIdleBut, Clean, Told;
    InFlightStatus(s, id);
    if IsHead(s, id) { HeadIsOnce(s); }
    var l := Leave(s, id, err, size, foreign);
    LeaveKept(s, id, err, size, foreign);
    LeaveKeeps(s, id, err, size, foreign);
    if s.reqs[id].kind.Open? && err != 0 {
      assert s.pending == 1;
      FailedOpenMarks(s, id, err, size, foreign);
      DrainTells(c, l, Open, err);
      assert Clean(Drain(c, l, Open)) by { NothingClean(Drain(c, l, Open)); }
    } else {
      LeaveClean(s, id, err, size, foreign);
      DrainClean(c, l, s.reqs[id].kind);
    }
    DrainKeeps(c, l, s.reqs[id].kind);
    ClampIdle(if l.pending == 0 then Drain(c, l, s.reqs[id].kind) else l);
    FinishClean(Dequeue(c, s, id, err, size, foreign), id, s.reqs[id], err, s.flags.isClosed, IsHead(s, id));
  }

  lemma NothingClean(s: State)
    requires s.queue == []
    ensures Clean(s)
  {
  }

  lemma {:induction false} RunClean(c: Config, s: State, id: Id)
    requires c.policy.Repaired? && Inv(s) && MayStart(s, id) && Clean(s) && s.reqs[id].err == 0
    ensures Clean(Run(c, s, id).0)
    decreases Behind(s, id), 4
  {
    hide Partition, Counted, Fifo, DoneOnce, Accounted, FlagsOk, ClosedIdle, Callback, Clean;
    var s2 := Started(s, id);
    StartKeeps(s, id);
    StartClosedIdle(s, id);
    StartClean(s, id);
    StartClean(s2, id);
    match RouteOf(c, s2.flags, s.reqs[id].kind)
    case Immediate(err) => CallbackClean(c, s2, id, err, 0, false);
    case Nowhere =>
    case Backend =>
      InvokeKeeps(s2, id);
      match c.reply(id)
      case Later =>
      case Now(err, size, foreign) => CallbackClean(c, Invoke(s2, id), id, err, size, foreign);
  }

  lemma {:induction false} DrainClean(c: Config, s: State, k: Kind)
    requires c.policy.Repaired? && Inv(s) && Clean(s)
    ensures Clean(Drain(c, s, k))
    decreases |s.queue|, 0
  {
    hide Partition, Counted, Fifo, DoneOnce, Accounted, FlagsOk, ClosedIdle, Run;
    if s.queue != [] && s.pending == 0 {
      var id := s.queue[0];
      HeadStatus(s);
      assert s.reqs[id].err == 0;
      RunKeeps(c, s, id);
      RunClean(c, s, id);
      var s1 := Run(c, s, id).0;
      if s1.pending == 0 { DrainClean(c, s1, k); }
    }
  }
}
