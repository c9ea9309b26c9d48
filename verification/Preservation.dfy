/** The recursion callback -> dequeue -> run -> callback keeps the invariant (repaired drain). */
module Preservation {
  import opened Protocol
  import opened Invariant

  /** Nothing waits unless something is in flight. */
  ghost predicate Drained(s: State) { s.pending == 0 ==> s.queue == [] }

  ghost predicate Kept(s: State, t: State) { SameRequests(s, t) && t.next == s.next }

  lemma LeaveKept(s: State, id: Id, err: int, size: nat, foreign: bool)
    requires WF(s) && id in s.reqs
    ensures var t := Leave(s, id, err, size, foreign);
            && Kept(s, t) && t.at.created == s.at.created && WF(t) && |t.queue| == Behind(s, id)
            && t.at.stack == s.at.stack + [id]
  {
  }

  lemma LeavePending(s: State, id: Id, err: int, size: nat, foreign: bool)
    requires id in s.reqs
    ensures Leave(s, id, err, size, foreign).pending == Decrement(s.pending)
  {
  }

  lemma FinishKept(s: State, id: Id, r: Req, err: int, wasClosed: bool, needsFree: bool)
    requires s.at.stack != []
    ensures var t := Finish(s, id, r, err, wasClosed, needsFree);
            Kept(s, t) && t.at.created == s.at.created && t.pending == s.pending && (Drained(s) ==> Drained(t))
            && (!r.kind.Destroy? || s.queue == [] ==> t.queue == s.queue)
  {
  }

  lemma InFlightStatus(s: State, id: Id)
    requires Partition(s) && Counted(s) && id in s.at.inFlight
    ensures id in s.reqs && (IsHead(s, id) <==> s.reqs[id].queued)
    ensures s.reqs[id].kind.Destroy? ==> Behind(s, id) == 0
  {
  }

  lemma HeadStatus(s: State)
    requires Partition(s) && Counted(s) && s.queue != [] && s.pending + 1 < INT_MIN
    ensures var h := s.queue[0];
            && h in s.reqs && s.reqs[h].queued && IsHead(s, h) && h !in s.at.created
            && (s.reqs[h].kind.Destroy? ==> Behind(s, h) == 0)
            && (s.pending == 0 ==> s.at.inFlight == {} && MayStart(s, h))
  {
  }

  lemma CountedZero(s: State)
    requires Counted(s)
    ensures s.at.inFlight == {} <==> s.pending == 0
  {
  }

  lemma ClampIdle(s: State)
    requires Counted(s)
    ensures Clamp(s) == s
  {
  }

  lemma StartClosedIdle(s: State, id: Id)
    requires ClosedIdle(s) && id in s.reqs
    ensures ClosedIdleBut(Started(s, id), id) && Kept(s, Started(s, id)) && Started(s, id).queue == s.queue
    ensures Started(s, id).pending == s.pending + 1
    ensures Started(s, id).at.created == s.at.created - {id}
  {
  }

  lemma {:induction false} RunKeeps(c: Config, s: State, id: Id)
    requires c.policy.Repaired? && Inv(s) && MayStart(s, id) && (s.reqs[id].err != 0 ==> s.reqs[id].queued)
    ensures var t := Run(c, s, id).0;
            && Inv(t) && Kept(s, t) && t.at.created == s.at.created - {id}
            && (s.reqs[id].err == 0 ==> Drained(t)) && t.pending <= s.pending + 1
    decreases Behind(s, id), 4
  {
    hide Partition, Counted, Fifo, DoneOnce, Accounted, FlagsOk, ClosedIdle, Dispatch;
    if s.reqs[id].err != 0 {
      MarkedKeeps(c, s, id);
    } else {
      StartKeeps(s, id);
      StartClosedIdle(s, id);
      DispatchKeeps(c, Started(s, id), id);
    }
  }

  lemma {:induction false} DispatchKeeps(c: Config, s: State, id: Id)
    requires c.policy.Repaired? && Core(s) && ClosedIdleBut(s, id) && id in s.at.inFlight && s.pending > 0
    ensures var t := Dispatch(c, s, id).0;
            Inv(t) && Kept(s, t) && t.at.created == s.at.created && Drained(t) && t.pending <= s.pending
    decreases Behind(s, id), 3
  {
    hide Partition, Counted, Fifo, DoneOnce, Accounted, FlagsOk, Callback;
    InFlightStatus(s, id);
    match RouteOf(c, s.flags, s.reqs[id].kind)
    case Immediate(err) => CallbackKeeps(c, s, id, err, 0, false);
    case Nowhere => StallKeeps(s, id);
    case Backend =>
      InvokeKeeps(s, id);
      match c.reply(id)
      case Later =>
      case Now(err, size, foreign) => CallbackKeeps(c, Invoke(s, id), id, err, size, foreign);
  }

  lemma MarkedIs(c: Config, s: State, id: Id)
    requires WF(s) && IsHead(s, id) && s.pending == 0 && s.reqs[id].err != 0
    ensures var p := Pick(s, id); var err := s.reqs[id].err; var l := Clamp(Leave(p, id, err, 0, false));
            && l.at.stack == s.at.stack + [id] && l.queue == s.queue[1..] && l.pending == 0
            && Run(c, s, id) == (Finish(l, id, s.reqs[id], err, s.flags.isClosed, true), -err)
  {
    hide Finish;
    var p := Pick(s, id);
    var err := s.reqs[id].err;
    var l := Leave(p, id, err, 0, false);
    assert Dequeue(c, p, id, err, 0, false) == Clamp(l);
  }

  /** A request marked with an error is taken off, called back and released; nothing else runs. */
  lemma {:induction false} MarkedKeeps(c: Config, s: State, id: Id)
    requires Inv(s) && IsHead(s, id) && s.at.inFlight == {} && s.reqs[id].err != 0
    ensures var t := Run(c, s, id).0;
            && Inv(t) && Kept(s, t) && t.at.created == s.at.created && t.queue == s.queue[1..] && t.pending == 0
  {
    hide Partition, Counted, Fifo, DoneOnce, Accounted, FlagsOk, ClosedIdle, Run, Leave, Finish;
    var err := s.reqs[id].err;
    assert s.at.inFlight == {} ==> s.pending == 0 by { CountedZero(s); }
    HeadStatus(s);
    MarkedIs(c, s, id);
    LeaveKept(Pick(s, id), id, err, 0, false);
    LeaveMarkedKeeps(s, id, err);
    var l := Clamp(Leave(Pick(s, id), id, err, 0, false));
    FinishKeeps(l, id, s.reqs[id], err, s.flags.isClosed);
    FinishKept(l, id, s.reqs[id], err, s.flags.isClosed, true);
  }

  lemma {:induction false} CallbackKeeps(c: Config, s: State, id: Id, err: int, size: nat, foreign: bool)
    requires c.policy.Repaired? && Core(s) && ClosedIdleBut(s, id) && id in s.at.inFlight
    ensures var t := Callback(c, s, id, err, size, foreign).0;
            Inv(t) && Kept(s, t) && t.at.created == s.at.created && Drained(t) && t.pending <= s.pending
    decreases Behind(s, id), 2
  {
    hide Partition, Counted, Fifo, DoneOnce, Accounted, FlagsOk, ClosedIdle, ClosedIdleBut, Leave, Finish;
    InFlightStatus(s, id);
    var l := Leave(s, id, err, size, foreign);
    LeaveKept(s, id, err, size, foreign);
    LeaveKeeps(s, id, err, size, foreign);
    assert l.pending == s.pending - 1 by { CountedZero(s); LeavePending(s, id, err, size, foreign); }
    DrainKeeps(c, l, s.reqs[id].kind);
    var d := if l.pending == 0 then Drain(c, l, s.reqs[id].kind) else l;
    ClampIdle(d);
    assert Dequeue(c, s, id, err, size, foreign) == d;
    FinishKeeps(d, id, s.reqs[id], err, s.flags.isClosed);
    FinishKept(d, id, s.reqs[id], err, s.flags.isClosed, s.reqs[id].queued);
  }

  lemma {:induction false} DrainKeeps(c: Config, s: State, k: Kind)
    requires c.policy.Repaired? && Inv(s)
    ensures var t := Drain(c, s, k);
            Inv(t) && Kept(s, t) && t.at.created == s.at.created && Drained(t) && t.pending <= s.pending + 1
    decreases |s.queue|, 0
  {
    hide Partition, Counted, Fifo, DoneOnce, Accounted, FlagsOk, ClosedIdle;
    if s.queue != [] && s.pending == 0 {
      var id := s.queue[0];
      HeadStatus(s);
      RunKeeps(c, s, id);
      var s1 := Run(c, s, id).0;
      if s1.pending == 0 { DrainKeeps(c, s1, k); }
    }
  }
}
