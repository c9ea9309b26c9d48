/** What holds of every step whatever the drain loop does, the loop as written included. */
module Steady {
  import opened Protocol

  function Closes(s: State): nat { multiset(s.log.events)[CloseEvent] }

  /** The flags under which a backend operation may be invoked. */
  predicate Proper(call: Call) {
    match call.kind
    case Open => !call.flags.isOpen
    case Close => call.flags.isOpen && !call.flags.isClosed
    case Destroy => !call.flags.isDestroyed
    case _ => call.flags.isOpen && !call.flags.isClosed
  }

  ghost predicate FlagsAdvance(f: Flags, g: Flags) {
    && (f.isClosed ==> g.isClosed) && (f.isDestroyed ==> g.isDestroyed)
    && (g.needsOpen ==> !g.isOpen)
  }

  /** From `s` to `t` a close or destroy is never undone, history only grows, every new
      invocation of the backend is proper, and CLOSE is emitted only by the step that closes. */
  ghost predicate Advance(s: State, t: State) {
    && FlagsAdvance(s.flags, t.flags)
    && s.log.calls <= t.log.calls
    && (forall i :: |s.log.calls| <= i < |t.log.calls| ==>
          Proper(t.log.calls[i]) && (s.flags.isClosed ==> t.log.calls[i].flags.isClosed))
    && s.log.dones <= t.log.dones && s.log.events <= t.log.events
    && Closes(t) <= Closes(s) + (if t.flags.isClosed && !s.flags.isClosed then 1 else 0)
    && (s.mem.fault ==> t.mem.fault) && t.mem.storage.heap == s.mem.storage.heap
    && s.at.called <= t.at.called
  }

  lemma AdvanceTrans(s: State, t: State, u: State)
    requires Advance(s, t) && Advance(t, u)
    ensures Advance(s, u)
  {
  }

  lemma StartAdvance(s: State, id: Id)
    requires id in s.reqs && FlagsAdvance(s.flags, s.flags)
    ensures Advance(s, Start(Pick(s, id), id)) && Advance(s, Pick(s, id)) && Advance(s, Stall(s, id))
  {
  }

  lemma InvokeAdvance(c: Config, s: State, id: Id)
    requires id in s.reqs && FlagsAdvance(s.flags, s.flags) && RouteOf(c, s.flags, s.reqs[id].kind).Backend?
    ensures Advance(s, Invoke(s, id))
  {
  }

  lemma LeaveAdvance(s: State, id: Id, err: int, size: nat, foreign: bool)
    requires id in s.reqs && FlagsAdvance(s.flags, s.flags)
    ensures var t := Leave(s, id, err, size, foreign);
            Advance(s, t) && Closes(t) == Closes(s) && (s.reqs[id].kind.Close? && err == 0 ==> t.flags.isClosed)
  {
  }

  lemma DropHeadAdvance(s: State)
    requires FlagsAdvance(s.flags, s.flags)
    ensures Advance(s, DropHead(s))
  {
  }

  lemma FinishAdvance(s: State, id: Id, r: Req, err: int, wasClosed: bool, needsFree: bool)
    requires s.at.stack != [] && FlagsAdvance(s.flags, s.flags)
    ensures var t := Finish(s, id, r, err, wasClosed, needsFree);
            && t.flags == s.flags
            && Closes(t) == Closes(s)
                 + (if r.kind.Close? && err == 0 && !wasClosed && !s.flags.isDestroyed then 1 else 0)
            && t.log.calls == s.log.calls && s.log.dones <= t.log.dones && s.log.events <= t.log.events
            && (s.mem.fault ==> t.mem.fault) && t.mem.storage.heap == s.mem.storage.heap && t.at.called == s.at.called
  {
  }

  lemma {:induction false} RunAdvance(c: Config, s: State, id: Id)
    requires WF(s) && id in s.reqs && FlagsAdvance(s.flags, s.flags)
    ensures Advance(s, Run(c, s, id).0)
    decreases Behind(s, id), 4
  {
    hide Advance, Dispatch, Callback;
    StartAdvance(s, id);
    if s.reqs[id].err != 0 {
      CallbackAdvance(c, Pick(s, id), id, s.reqs[id].err, 0, false);
      AdvanceTrans(s, Pick(s, id), Run(c, s, id).0);
    } else {
      DispatchAdvance(c, Start(Pick(s, id), id), id);
      AdvanceTrans(s, Start(Pick(s, id), id), Run(c, s, id).0);
    }
  }

  lemma {:induction false} DispatchAdvance(c: Config, s: State, id: Id)
    requires WF(s) && id in s.reqs && s.pending > 0 && FlagsAdvance(s.flags, s.flags)
    ensures Advance(s, Dispatch(c, s, id).0)
    decreases Behind(s, id), 3
  {
    hide Advance, Callback;
    match RouteOf(c, s.flags, s.reqs[id].kind)
    case Immediate(err) => CallbackAdvance(c, s, id, err, 0, false);
    case Nowhere => StartAdvance(s, id);
    case Backend =>
      InvokeAdvance(c, s, id);
      match c.reply(id)
      case Later =>
      case Now(err, size, foreign) =>
        CallbackAdvance(c, Invoke(s, id), id, err, size, foreign);
        AdvanceTrans(s, Invoke(s, id), Dispatch(c, s, id).0);
  }

  /** `t` is `d` with the callback's own last effects; `closing` says it was a successful close. */
  ghost predicate Finished(s: State, d: State, t: State, closing: bool) {
    && t.flags == d.flags
    && Closes(t) <= Closes(d) + (if closing && !s.flags.isClosed then 1 else 0)
    && t.log.calls == d.log.calls && d.log.dones <= t.log.dones && d.log.events <= t.log.events
    && (d.mem.fault ==> t.mem.fault) && t.mem.storage.heap == d.mem.storage.heap && t.at.called == d.at.called
  }

  lemma FinishedAdvance(s: State, l: State, d: State, t: State, closing: bool)
    requires Advance(s, l) && Closes(l) == Closes(s) && (closing ==> l.flags.isClosed)
    requires Advance(l, d) && Finished(s, d, t, closing)
    ensures Advance(s, t)
  {
  }

  lemma {:induction false} CallbackAdvance(c: Config, s: State, id: Id, err: int, size: nat, foreign: bool)
    requires WF(s) && id in s.reqs && FlagsAdvance(s.flags, s.flags)
    ensures Advance(s, Callback(c, s, id, err, size, foreign).0)
    decreases Behind(s, id), 2
  {
    hide Leave, Finish, Drain, Advance;
    var l := Leave(s, id, err, size, foreign);
    LeaveAdvance(s, id, err, size, foreign);
    LeaveShape(s, id, err, size, foreign);
    AdvanceSettles(s, l);
    DrainAdvance(c, l, s.reqs[id].kind);
    var d := Dequeue(c, s, id, err, size, foreign);
    assert Advance(l, d) by {
      AdvanceClamp(l, if l.pending == 0 then Drain(c, l, s.reqs[id].kind) else l);
    }
    AdvanceSettles(l, d);
    FinishAdvance(d, id, s.reqs[id], err, s.flags.isClosed, IsHead(s, id));
    FinishedAdvance(s, l, d, Callback(c, s, id, err, size, foreign).0, s.reqs[id].kind.Close? && err == 0);
  }

  lemma AdvanceSame(s: State)
    requires FlagsAdvance(s.flags, s.flags)
    ensures Advance(s, s)
  {
  }

  lemma AdvanceSettles(s: State, t: State)
    requires Advance(s, t)
    ensures FlagsAdvance(t.flags, t.flags) && Advance(t, t)
  {
  }

  lemma AdvanceClamp(s: State, t: State)
    requires Advance(s, t)
    ensures Advance(s, Clamp(t))
  {
  }

  lemma LeaveShape(s: State, id: Id, err: int, size: nat, foreign: bool)
    requires WF(s) && id in s.reqs
    ensures var l := Leave(s, id, err, size, foreign); WF(l) && |l.queue| == Behind(s, id)
  {
  }

  lemma {:induction false} DrainAdvance(c: Config, s: State, k: Kind)
    requires WF(s) && FlagsAdvance(s.flags, s.flags)
    ensures Advance(s, Drain(c, s, k))
    decreases |s.queue|, 0
  {
    hide Advance, Run, DropHead, FlagsAdvance;
    AdvanceSame(s);
    if s.queue != [] {
      var s1 := Run(c, s, s.queue[0]).0;
      TurnShrinks(c, s);
      RunAdvance(c, s, s.queue[0]);
      AdvanceSettles(s, s1);
      if c.policy.Repaired? {
        if s.pending == 0 && s1.pending == 0 {
          DrainAdvance(c, s1, k);
          AdvanceTrans(s, s1, Drain(c, s1, k));
        }
      } else {
        DropHeadAdvance(s1);
        AdvanceTrans(s, s1, DropHead(s1));
        AdvanceSettles(s1, DropHead(s1));
        if s1.queue != [] {
          DrainAdvance(c, DropHead(s1), k);
          AdvanceTrans(s, DropHead(s1), Drain(c, DropHead(s1), k));
        }
      }
    }
  }
}
