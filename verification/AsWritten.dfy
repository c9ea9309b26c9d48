/** The drain loop of src/request.c as it is written: when it is right, and when not. */
module AsWritten {
  import opened Protocol
  import opened Invariant
  import opened Preservation
  import opened Steady
  import opened Chains
  import opened Outcomes

  // ------------------------------------------------ agreement

  ghost predicate Tidy(s: State) {
    WF(s) && Unique(s.queue) && (forall x :: x in s.queue ==> x !in s.at.called) && FlagsAdvance(s.flags, s.flags)
  }

  /** Nothing was released too early and nothing was left behind. */
  ghost predicate Sound(s: State) { !s.mem.fault && Drained(s) }

  lemma LeaveTidy(s: State, id: Id, err: int, size: nat, foreign: bool)
    requires Tidy(s) && id in s.reqs && (IsHead(s, id) || id !in s.queue)
    ensures Tidy(Leave(s, id, err, size, foreign))
  {
  }

  lemma StartTidy(s: State, id: Id)
    requires Tidy(s) && id in s.reqs
    ensures Tidy(Pick(s, id)) && Tidy(Start(Pick(s, id), id)) && Tidy(Invoke(s, id))
  {
  }

  lemma FinishSound(s: State, id: Id, r: Req, err: int, wasClosed: bool, needsFree: bool)
    requires s.at.stack != [] && (r.kind.Destroy? ==> s.queue == [])
    requires Sound(Finish(Clamp(s), id, r, err, wasClosed, needsFree))
    ensures Sound(s)
  {
  }

  lemma FinishTidy(s: State, id: Id, r: Req, err: int, wasClosed: bool, needsFree: bool)
    requires s.at.stack != [] && (s.mem.fault || Tidy(s))
    ensures var t := Finish(Clamp(s), id, r, err, wasClosed, needsFree); t.mem.fault || Tidy(t)
  {
  }

  lemma {:induction false} RunTidy(c: Config, s: State, id: Id)
    requires Tidy(s) && IsHead(s, id) && c.policy.AsWritten?
    ensures var t := Run(c, s, id).0; t.mem.fault || Tidy(t)
    decreases Behind(s, id), 4
  {
    StartTidy(s, id);
    if s.reqs[id].err != 0 { CallbackTidy(c, Pick(s, id), id, s.reqs[id].err, 0, false); }
    else { DispatchTidy(c, Start(Pick(s, id), id), id); }
  }

  lemma {:induction false} DispatchTidy(c: Config, s: State, id: Id)
    requires Tidy(s) && IsHead(s, id) && c.policy.AsWritten? && s.pending > 0
    ensures var t := Dispatch(c, s, id).0; t.mem.fault || Tidy(t)
    decreases Behind(s, id), 3
  {
    hide Callback;
    StartTidy(s, id);
    match RouteOf(c, s.flags, s.reqs[id].kind)
    case Immediate(err) => CallbackTidy(c, s, id, err, 0, false);
    case Nowhere =>
    case Backend =>
      match c.reply(id)
      case Later =>
      case Now(err, size, foreign) => CallbackTidy(c, Invoke(s, id), id, err, size, foreign);
  }

  lemma {:induction false} CallbackTidy(c: Config, s: State, id: Id, err: int, size: nat, foreign: bool)
    requires Tidy(s) && IsHead(s, id) && c.policy.AsWritten?
    ensures var t := Callback(c, s, id, err, size, foreign).0; t.mem.fault || Tidy(t)
    decreases Behind(s, id), 2
  {
    hide Leave, Finish, Drain, Clamp, Tidy;
    TidyWF(s);
    var l := Leave(s, id, err, size, foreign);
    LeaveTidy(s, id, err, size, foreign);
    LeaveKept(s, id, err, size, foreign);
    DrainTidy(c, l, s.reqs[id].kind);
    FinishTidy(if l.pending == 0 then Drain(c, l, s.reqs[id].kind) else l,
               id, s.reqs[id], err, s.flags.isClosed, IsHead(s, id));
  }

  lemma TidyWF(s: State)
    requires Tidy(s)
    ensures WF(s)
  {
  }

  lemma {:induction false} DrainTidy(c: Config, s: State, k: Kind)
    requires Tidy(s) && c.policy.AsWritten?
    ensures var t := Drain(c, s, k); t.mem.fault || Tidy(t)
    decreases |s.queue|, 1
  {
    if s.queue != [] {
      RunTidy(c, s, s.queue[0]);
      if Run(c, s, s.queue[0]).1 >= 0 && !Lifecycle(k) { DropFaults(c, s, k); }
    }
  }

  /** In a data completion's drain, once a run has not failed the next line takes off a
      request that has not been called back, or nothing at all. */
  lemma {:induction false} DropFaults(c: Config, s: State, k: Kind)
    requires Tidy(s) && c.policy.AsWritten? && s.queue != [] && !Lifecycle(k) && Run(c, s, s.queue[0]).1 >= 0
    ensures Drain(c, s, k).mem.fault
    decreases |s.queue|, 0
  {
    var s1 := Run(c, s, s.queue[0]).0;
    RunTidy(c, s, s.queue[0]);
    RunAdvance(c, s, s.queue[0]);
    DropHeadAdvance(s1);
    assert DropHead(s1).mem.fault;
    if s1.queue != [] { DrainAdvance(c, DropHead(s1), k); }
  }

  lemma MarkedAgrees(c: Config, s: State, id: Id)
    requires WF(s) && IsHead(s, id) && s.pending == 0 && s.reqs[id].err != 0
    ensures Run(Repair(c), s, id) == Run(c, s, id)
  {
    hide Run;
    MarkedIs(c, s, id);
    MarkedIs(Repair(c), s, id);
  }

  lemma {:induction false} RunAgrees(c: Config, s: State, id: Id)
    requires c.policy.AsWritten? && Tidy(s) && IsHead(s, id) && s.pending == 0 && s.reqs[id].err == 0
    requires s.reqs[id].kind.Destroy? ==> Behind(s, id) == 0
    requires Sound(Run(c, s, id).0) && LastDestroy(s)
    ensures Run(Repair(c), s, id) == Run(c, s, id)
    decreases Behind(s, id), 4
  {
    StartTidy(s, id);
    DispatchAgrees(c, Start(Pick(s, id), id), id);
  }

  lemma DrainStops(c: Config, s: State, k: Kind)
    requires c.policy.AsWritten? && s.queue != [] && WF(s) && s.queue[0] in s.reqs
    requires Lifecycle(k) || Run(c, s, s.queue[0]).1 < 0
    ensures Drain(c, s, k) == Run(c, s, s.queue[0]).0
  {
  }

  /** A destroy is the last request queued. */
  ghost predicate LastDestroy(s: State) {
    forall i :: 0 <= i < |s.queue| - 1 ==> s.queue[i] in s.reqs ==> !s.reqs[s.queue[i]].kind.Destroy?
  }

  lemma {:induction false} DispatchAgrees(c: Config, s: State, id: Id)
    requires c.policy.AsWritten? && Tidy(s) && id in s.reqs && (IsHead(s, id) || id !in s.queue) && s.pending > 0
    requires s.reqs[id].kind.Destroy? ==> Behind(s, id) == 0
    requires Sound(Dispatch(c, s, id).0) && LastDestroy(s)
    ensures Dispatch(Repair(c), s, id) == Dispatch(c, s, id)
    decreases Behind(s, id), 3
  {
    hide Callback, Tidy, Sound;
    match RouteOf(c, s.flags, s.reqs[id].kind)
    case Immediate(err) => CallbackAgrees(c, s, id, err, 0, false);
    case Nowhere =>
    case Backend =>
      StartTidy(s, id);
      match c.reply(id)
      case Later =>
      case Now(err, size, foreign) => CallbackAgrees(c, Invoke(s, id), id, err, size, foreign);
  }

  lemma {:induction false} CallbackAgrees(c: Config, s: State, id: Id, err: int, size: nat, foreign: bool)
    requires c.policy.AsWritten? && Tidy(s) && id in s.reqs && (IsHead(s, id) || id !in s.queue)
    requires s.reqs[id].kind.Destroy? ==> Behind(s, id) == 0
    requires Sound(Callback(c, s, id, err, size, foreign).0) && LastDestroy(s)
    ensures Callback(Repair(c), s, id, err, size, foreign) == Callback(c, s, id, err, size, foreign)
    decreases Behind(s, id), 2
  {
    hide Leave, Finish, Drain, Sound, Clamp, LastDestroy;
    var l := Leave(s, id, err, size, foreign);
    LeaveTidy(s, id, err, size, foreign);
    LeaveKept(s, id, err, size, foreign);
    if l.pending == 0 {
      LeaveLast(s, id, err, size, foreign);
      FinishSound(Drain(c, l, s.reqs[id].kind), id, s.reqs[id], err, s.flags.isClosed, IsHead(s, id));
      DrainAgrees(c, l, s.reqs[id].kind);
    }
  }

  lemma LeaveLast(s: State, id: Id, err: int, size: nat, foreign: bool)
    requires LastDestroy(s) && WF(s) && id in s.reqs
    ensures LastDestroy(Leave(s, id, err, size, foreign))
  {
  }

  lemma {:induction false} DrainAgrees(c: Config, s: State, k: Kind)
    requires c.policy.AsWritten? && Tidy(s) && s.pending == 0 && Sound(Drain(c, s, k)) && LastDestroy(s)
    ensures Drain(Repair(c), s, k) == Drain(c, s, k)
    decreases |s.queue|, 0
  {
    TidyWF(s);
    if s.queue != [] {
      var id := s.queue[0];
      assert id in s.queue && IsHead(s, id) && id in s.reqs;
      hide Run, Drain, Tidy, Sound, WF;
      if Run(c, s, id).1 < 0 || Lifecycle(k) {
        DrainStops(c, s, k);
        HeadAgrees(c, s, id);
        SoundMeans(Run(c, s, id).0);
        DrainOnce(Repair(c), s, k);
      } else {
        SoundMeans(Drain(c, s, k));
        DropFaults(c, s, k);
      }
    }
  }

  lemma {:induction false} HeadAgrees(c: Config, s: State, id: Id)
    requires c.policy.AsWritten? && Tidy(s) && WF(s) && IsHead(s, id) && id in s.reqs && s.pending == 0
    requires Sound(Run(c, s, id).0) && LastDestroy(s)
    ensures Run(Repair(c), s, id) == Run(c, s, id)
    decreases Behind(s, id), 5
  {
    assert s.reqs[id].kind.Destroy? ==> Behind(s, id) == 0;
    hide Run, Tidy, Sound, LastDestroy;
    if s.reqs[id].err != 0 { MarkedAgrees(c, s, id); } else { RunAgrees(c, s, id); }
  }

  lemma SoundMeans(s: State)
    ensures Sound(s) <==> !s.mem.fault && Drained(s)
  {
  }

  lemma InvTidy(s: State, id: Id)
    requires Inv(s) && id in s.at.inFlight
    ensures Tidy(s) && LastDestroy(s) && id in s.reqs && (IsHead(s, id) || id !in s.queue)
    ensures s.reqs[id].kind.Destroy? ==> Behind(s, id) == 0
  {
  }

  /** A completion handled by the code as written ends well exactly when it ends where the
      repaired code ends: there is no third way. */
  lemma SoundIffRepaired(c: Config, s: State, id: Id, err: int, size: nat, foreign: bool)
    requires c.policy.AsWritten? && Inv(s) && id in s.at.inFlight
    ensures Sound(Callback(c, s, id, err, size, foreign).0)
       <==> Callback(c, s, id, err, size, foreign) == Callback(Repair(c), s, id, err, size, foreign)
  {
    hide Inv, Tidy, LastDestroy, Callback;
    InvTidy(s, id);
    InvParts(s, id);
    CallbackKeeps(Repair(c), s, id, err, size, foreign);
    InvNoFault(Callback(Repair(c), s, id, err, size, foreign).0);
    if Sound(Callback(c, s, id, err, size, foreign).0) { CallbackAgrees(c, s, id, err, size, foreign); }
  }

  lemma InvNoFault(s: State)
    requires Inv(s)
    ensures !s.mem.fault
  {
  }

  // ------------------------------------------------ the verdict

  /** The storage is open and the backend offers no such operation. */
  predicate Unsupported(c: Config, f: Flags, k: Kind) { RouteOf(c, f, k) == Immediate(ENOSYS) }

  predicate AllUnsupported(c: Config, f: Flags, reqs: map<Id, Req>, q: seq<Id>) {
    forall i :: 0 <= i < |q| ==> q[i] in reqs && Unsupported(c, f, reqs[q[i]].kind)
  }

  /** How the loop as written ends: well; with requests that wait although nothing is in
      flight; or with a request released that was not called back, or an empty queue's head. */
  datatype Verdict = Well | Strands | Faults

  /** The verdict on the loop after a completion of kind `k`, before it is entered: a data
      completion may only find unsupported requests; a lifecycle completion runs one request,
      and if that is answered at once it is this one's loop that counts; an open that fails at
      once may have one request behind it. */
  function VerdictOf(c: Config, f: Flags, reqs: map<Id, Req>, q: seq<Id>, k: Kind): Verdict
    requires Known(reqs, q)
    decreases |q|
  {
    if q == [] then Well
    else if !Lifecycle(k) then if AllUnsupported(c, f, reqs, q) then Well else Faults
    else
      var head := reqs[q[0]].kind;
      match Response(c, f, head, q[0])
      case Later => Well
      case Now(err, _, _) =>
        if FailedOpen(head, err) then if |q| <= 2 then Well else Strands
        else VerdictOf(c, SettleFlags(f, head, err), reqs, q[1..], head)
  }

  lemma {:induction false} VerdictSame(c: Config, f: Flags, a: map<Id, Req>, b: map<Id, Req>, q: seq<Id>, k: Kind)
    requires Known(a, q) && Known(b, q) && forall x :: x in a && x in b ==> a[x].kind == b[x].kind
    ensures VerdictOf(c, f, a, q, k) == VerdictOf(c, f, b, q, k)
    decreases |q|
  {
    forall i | 0 <= i < |q| ensures a[q[i]].kind == b[q[i]].kind {
      var x := q[i];
      assert x in a && x in b;
    }
    if q != [] && Lifecycle(k) {
      var head := a[q[0]].kind;
      var r := Response(c, f, head, q[0]);
      if r.Now? && !FailedOpen(head, r.err) { VerdictSame(c, SettleFlags(f, head, r.err), a, b, q[1..], head); }
    }
  }

  /** `t` bears out the verdict. */
  ghost predicate Bears(s: State, v: Verdict, t: State) {
    if v.Faults? then t.mem.fault else Inv(t) && Kept(s, t) && (Drained(t) <==> v.Well?)
  }

  // ------------------------------------------------ callbacks

  /** A callback is as good as the drain inside it. */
  lemma CallbackBears(c: Config, s: State, id: Id, err: int, size: nat, foreign: bool, v: Verdict)
    requires Core(s) && ClosedIdleBut(s, id) && id in s.at.inFlight && id in s.reqs && s.pending == 1
    requires var l := Leave(s, id, err, size, foreign); WF(l) && Bears(l, v, Drain(c, l, s.reqs[id].kind))
    ensures WF(s) && Bears(s, v, Callback(c, s, id, err, size, foreign).0)
  {
    hide Partition, Counted, Fifo, DoneOnce, Accounted, FlagsOk, ClosedIdle, ClosedIdleBut, Leave, Finish, Drain, Clamp;
    InFlightStatus(s, id);
    CallbackDrains(c, s, id, err, size, foreign);
    LeaveKept(s, id, err, size, foreign);
    var l := Leave(s, id, err, size, foreign);
    var d := Drain(c, l, s.reqs[id].kind);
    if v.Faults? {
      FaultFinishes(d, id, s.reqs[id], err, s.flags.isClosed, IsHead(s, id));
    } else {
      ClampIdle(d);
      FinishKeeps(d, id, s.reqs[id], err, s.flags.isClosed);
      FinishKept(d, id, s.reqs[id], err, s.flags.isClosed, s.reqs[id].queued);
    }
  }

  lemma FaultFinishes(s: State, id: Id, r: Req, err: int, wasClosed: bool, needsFree: bool)
    requires s.at.stack != [] && s.mem.fault
    ensures Finish(Clamp(s), id, r, err, wasClosed, needsFree).mem.fault
  {
  }

  /** The loop after a failed open tells the first waiting request and stops. */
  lemma FailedBears(c: Config, s: State, err: int)
    requires c.policy.AsWritten? && Inv(s) && s.pending == 0 && AllMarked(s, err) && err != 0
    ensures WF(s) && Bears(s, if |s.queue| <= 1 then Well else Strands, Drain(c, s, Open))
  {
    hide Inv, Run, WF;
    InvWF(s);
    if s.queue != [] {
      var id := s.queue[0];
      assert id in s.queue && IsHead(s, id);
      IdleIs(s);
      MarkedKeeps(c, s, id);
      DrainStops(c, s, Open);
    }
  }

  lemma IdleIs(s: State)
    requires Inv(s) && s.pending == 0
    ensures s.at.inFlight == {}
  {
    CountedZero(s);
  }

  lemma LaterAgrees(c: Config, s: State, id: Id)
    requires WF(s) && id in s.reqs && s.reqs[id].err == 0 && Response(c, s.flags, s.reqs[id].kind, id).Later?
    ensures Run(Repair(c), s, id).0 == Run(c, s, id).0
  {
    hide *;
    RunIs(c, s, id);
    RunIs(Repair(c), s, id);
    HandedRepair(c, s, id);
  }

  /** A head that is not answered at once. */
  lemma LaterBears(c: Config, s: State)
    requires Drainable(s) && s.queue != [] && s.queue[0] in s.reqs && HeadResponse(c, s).Later?
    ensures WF(s) && Bears(s, Well, Run(c, s, s.queue[0]).0)
  {
    var id := s.queue[0];
    hide Inv, Drainable, Run, MayStart, RouteOf, WF, SameRequests, Response, Drained;
    DrainableHead(s);
    DrainableIdle(s);
    InvOf(s);
    LaterAgrees(c, s, id);
    RunKeeps(Repair(c), s, id);
  }

  lemma InvOf(s: State)
    requires Drainable(s)
    ensures Inv(s)
  {
  }

  /** The run of a head that is answered at once is as good as the loop of its own completion. */
  lemma AnsweredBears(c: Config, s: State, l: State, v: Verdict)
    requires Drainable(s) && s.queue != [] && s.queue[0] in s.reqs && HeadResponse(c, s).Now?
    requires Follows(c, s, l) && WF(l) && Bears(l, v, Drain(c, l, s.reqs[s.queue[0]].kind))
    ensures WF(s) && Bears(s, v, Run(c, s, s.queue[0]).0)
  {
    var id, a := s.queue[0], HeadResponse(c, s);
    var h := Handed(c, s, id);
    hide *;
    FollowsRun(c, s, l);
    StaticsKind(h.reqs[id], s.reqs[id]);
    CallbackBears(c, h, id, a.err, a.size, a.foreign, v);
    BearsBefore(s, h, v, Callback(c, h, id, a.err, a.size, a.foreign).0);
  }

  lemma StaticsKind(a: Req, b: Req)
    requires SameStatics(a, b)
    ensures a.kind == b.kind
  {
  }

  lemma BearsBefore(s: State, h: State, v: Verdict, t: State)
    requires Kept(s, h) && Bears(h, v, t)
    ensures Bears(s, v, t)
  {
  }

  /** The verdict is borne out. */
  lemma {:induction false} DrainBears(c: Config, s: State, k: Kind)
    requires c.policy.AsWritten? && Drainable(s)
    ensures Known(s.reqs, s.queue) && WF(s)
    ensures Bears(s, VerdictOf(c, s.flags, s.reqs, s.queue, k), Drain(c, s, k))
    decreases |s.queue|, 1
  {
    DrainableKnown(s);
    if s.queue != [] {
      hide *;
      if Lifecycle(k) { LifecycleBears(c, s, k); } else { DataBears(c, s, k); }
    }
  }

  /** The verdict on the head's own loop, given what the head leaves behind. */
  function HeadVerdict(c: Config, k: Kind, err: int, l: State): Verdict
    requires Known(l.reqs, l.queue)
  {
    if FailedOpen(k, err) then if |l.queue| <= 1 then Well else Strands
    else VerdictOf(c, l.flags, l.reqs, l.queue, k)
  }

  lemma {:induction false} HeadBears(c: Config, s: State, l: State)
    requires c.policy.AsWritten? && Drainable(s) && s.queue != [] && s.queue[0] in s.reqs && HeadResponse(c, s).Now?
    requires Follows(c, s, l) && Known(l.reqs, l.queue)
    ensures WF(s)
    ensures Bears(s, HeadVerdict(c, s.reqs[s.queue[0]].kind, HeadResponse(c, s).err, l), Run(c, s, s.queue[0]).0)
    decreases |s.queue|, 0, 0
  {
    var k, err := s.reqs[s.queue[0]].kind, HeadResponse(c, s).err;
    hide *;
    FollowsMeans(c, s, l);
    if FailedOpen(k, err) { FailedBears(c, l, err); } else { DrainBears(c, l, k); }
    HeadVerdictIs(c, k, err, l);
    AnsweredBears(c, s, l, HeadVerdict(c, k, err, l));
  }

  lemma HeadVerdictIs(c: Config, k: Kind, err: int, l: State)
    requires Known(l.reqs, l.queue)
    ensures HeadVerdict(c, k, err, l) == if FailedOpen(k, err) then if |l.queue| <= 1 then Well else Strands
                                         else VerdictOf(c, l.flags, l.reqs, l.queue, k)
  {
  }

  lemma VerdictStep(c: Config, s: State, l: State, k: Kind)
    requires s.queue != [] && Known(s.reqs, s.queue) && HeadResponse(c, s).Now?
    requires Passed(s, l, s.queue[0], HeadResponse(c, s).err)
    requires !Lifecycle(k) ==> Unsupported(c, s.flags, s.reqs[s.queue[0]].kind)
    ensures Known(l.reqs, l.queue)
    ensures VerdictOf(c, s.flags, s.reqs, s.queue, k)
         == HeadVerdict(c, s.reqs[s.queue[0]].kind, HeadResponse(c, s).err, l)
  {
    VerdictSame(c, l.flags, l.reqs, s.reqs, l.queue, s.reqs[s.queue[0]].kind);
    if !Lifecycle(k) {
      assert AllUnsupported(c, s.flags, s.reqs, s.queue) <==> AllUnsupported(c, s.flags, s.reqs, l.queue);
    }
  }

  lemma {:induction false} LifecycleBears(c: Config, s: State, k: Kind)
    requires c.policy.AsWritten? && Drainable(s) && Lifecycle(k) && s.queue != [] && Known(s.reqs, s.queue) && WF(s)
    ensures Bears(s, VerdictOf(c, s.flags, s.reqs, s.queue, k), Drain(c, s, k))
    decreases |s.queue|, 0, 1
  {
    assert s.queue[0] in s.reqs;
    DrainStops(c, s, k);
    if HeadResponse(c, s).Later? {
      hide Drainable, Run, Drain, RouteOf, Bears;
      LaterBears(c, s);
    } else {
      hide *;
      var l := AfterHead(c, s);
      FollowsMeans(c, s, l);
      VerdictStep(c, s, l, k);
      HeadBears(c, s, l);
    }
  }

  lemma {:induction false} DataBears(c: Config, s: State, k: Kind)
    requires c.policy.AsWritten? && Drainable(s) && !Lifecycle(k) && s.queue != [] && Known(s.reqs, s.queue) && WF(s)
    ensures Bears(s, VerdictOf(c, s.flags, s.reqs, s.queue, k), Drain(c, s, k))
    decreases |s.queue|, 0, 1
  {
    hide *;
    KnownHead(s.reqs, s.queue);
    DrainableHead(s);
    var id := s.queue[0];
    RunReturns(c, s, id);
    UnsupportedIs(c, s.flags, s.reqs[id].kind);
    if Unsupported(c, s.flags, s.reqs[id].kind) {
      UnsupportedAnswers(c, s);
      DrainStops(c, s, k);
      var l := AfterHead(c, s);
      FollowsMeans(c, s, l);
      VerdictStep(c, s, l, k);
      HeadBears(c, s, l);
    } else {
      DrainableTidy(s);
      DropFaults(c, s, k);
      FaultsBear(c, s, k, Drain(c, s, k));
    }
  }

  lemma UnsupportedIs(c: Config, f: Flags, k: Kind)
    ensures Unsupported(c, f, k) ==> RouteOf(c, f, k) == Immediate(ENOSYS) && ENOSYS > 0
    ensures !Unsupported(c, f, k) ==> RouteOf(c, f, k).Immediate? ==> RouteOf(c, f, k).err == 0
  {
  }

  lemma UnsupportedAnswers(c: Config, s: State)
    requires s.queue != [] && s.queue[0] in s.reqs && Unsupported(c, s.flags, s.reqs[s.queue[0]].kind)
    ensures HeadResponse(c, s).Now?
  {
  }

  lemma FaultsBear(c: Config, s: State, k: Kind, t: State)
    requires t.mem.fault && !Lifecycle(k) && s.queue != [] && Known(s.reqs, s.queue)
    requires s.queue[0] in s.reqs && !Unsupported(c, s.flags, s.reqs[s.queue[0]].kind)
    ensures Bears(s, VerdictOf(c, s.flags, s.reqs, s.queue, k), t)
  {
    hide Unsupported;
  }

  lemma DrainableTidy(s: State)
    requires Drainable(s)
    ensures Tidy(s)
  {
  }

  // ------------------------------------------------ completions

  /** The verdict on the completion of `id`, before it is made. */
  function VerdictOn(c: Config, s: State, id: Id, err: int): Verdict
    requires id in s.reqs && Known(s.reqs, Waiting(s, id))
  {
    var k, q := s.reqs[id].kind, Waiting(s, id);
    if s.pending != 1 then Well
    else if FailedOpen(k, err) then if |q| <= 1 then Well else Strands
    else VerdictOf(c, SettleFlags(s.flags, k, err), s.reqs, q, k)
  }

  lemma AmidBears(c: Config, s: State, id: Id, err: int, size: nat, foreign: bool)
    requires Inv(s) && id in s.at.inFlight && s.pending > 1 && WF(s) && id in s.reqs
    ensures Bears(s, Well, Callback(c, s, id, err, size, foreign).0)
  {
    hide Callback, Inv, SameRequests;
    AmidAgrees(c, s, id, err, size, foreign);
    InvParts(s, id);
    CallbackKeeps(Repair(c), s, id, err, size, foreign);
  }

  lemma LastBears(c: Config, s: State, id: Id, err: int, size: nat, foreign: bool)
    requires c.policy.AsWritten? && Inv(s) && Clean(s) && id in s.at.inFlight && s.pending == 1
    requires WF(s) && id in s.reqs && Known(s.reqs, Waiting(s, id))
    ensures Bears(s, VerdictOn(c, s, id, err), Callback(c, s, id, err, size, foreign).0)
  {
    var k := s.reqs[id].kind;
    var l := Leave(s, id, err, size, foreign);
    hide *;
    InvParts(s, id);
    LastLeaves(s, id, err, size, foreign);
    InvWF(l);
    LeaveGone(s, id, err, size, foreign);
    GoneVerdict(c, s, l, id, err);
    if FailedOpen(k, err) { FailedBears(c, l, err); } else { DrainBears(c, l, k); }
    HeadVerdictIs(c, k, err, l);
    CallbackBears(c, s, id, err, size, foreign, HeadVerdict(c, k, err, l));
  }

  lemma GoneVerdict(c: Config, s: State, l: State, id: Id, err: int)
    requires id in s.reqs && Gone(s, l, id, err) && s.pending == 1 && Known(s.reqs, Waiting(s, id))
    ensures Known(l.reqs, l.queue) && l.pending == 0
    ensures FailedOpen(s.reqs[id].kind, err) ==> s.reqs[id].kind == Open && err != 0
    ensures VerdictOn(c, s, id, err) == HeadVerdict(c, s.reqs[id].kind, err, l)
  {
    VerdictSame(c, l.flags, l.reqs, s.reqs, l.queue, s.reqs[id].kind);
  }

  lemma BearsMeans(s: State, v: Verdict, t: State)
    requires Bears(s, v, t)
    ensures (t.mem.fault <==> v.Faults?) && (Sound(t) <==> v.Well?) && (v.Strands? ==> Inv(t))
  {
    hide Partition, Counted, Fifo, DoneOnce;
  }

  /** The exact limit of the drain loop as written, for every completion of every request: it
      releases too early exactly when the verdict says so, it leaves requests behind exactly
      when the verdict says so, and otherwise all is well. */
  lemma CompletionIff(c: Config, s: State, id: Id, err: int, size: nat, foreign: bool)
    requires c.policy.AsWritten? && Inv(s) && Clean(s) && id in s.at.inFlight
    ensures id in s.reqs && WF(s) && Known(s.reqs, Waiting(s, id))
    ensures var t := Callback(c, s, id, err, size, foreign).0; var v := VerdictOn(c, s, id, err);
            (t.mem.fault <==> v.Faults?) && (Sound(t) <==> v.Well?) && (v.Strands? ==> Inv(t))
  {
    hide *;
    CompletionStatus(s, id);
    var t := Callback(c, s, id, err, size, foreign).0;
    if s.pending > 1 {
      AmidBears(c, s, id, err, size, foreign);
      AmidVerdict(c, s, id, err);
      BearsMeans(s, Well, t);
    } else {
      LastBears(c, s, id, err, size, foreign);
      BearsMeans(s, VerdictOn(c, s, id, err), t);
    }
  }

  lemma AmidVerdict(c: Config, s: State, id: Id, err: int)
    requires id in s.reqs && Known(s.reqs, Waiting(s, id)) && s.pending > 1
    ensures VerdictOn(c, s, id, err) == Well
  {
  }

  /** For a data request: something else is still in flight, or everything that waits is an
      operation the backend does not offer. */
  lemma DataCompletionIff(c: Config, s: State, id: Id, err: int, size: nat, foreign: bool)
    requires c.policy.AsWritten? && Inv(s) && Clean(s) && id in s.at.inFlight && !Lifecycle(s.reqs[id].kind)
    ensures var harmless := s.pending > 1 || AllUnsupported(c, s.flags, s.reqs, Waiting(s, id));
            var t := Callback(c, s, id, err, size, foreign).0;
            (Sound(t) <==> harmless) && (t.mem.fault <==> !harmless)
  {
    CompletionStatus(s, id);
    hide Callback, Inv, Clean, Sound, AllUnsupported;
    CompletionIff(c, s, id, err, size, foreign);
    if Waiting(s, id) == [] { NoneUnsupported(c, s.flags, s.reqs); }
  }

  lemma NoneUnsupported(c: Config, f: Flags, reqs: map<Id, Req>)
    ensures AllUnsupported(c, f, reqs, [])
  {
  }

  // ------------------------------------------------ failed opens

  /** For a failed open: only the first waiting request is told, so that the completion is
      handled well if and only if at most one waits. */
  lemma FailedOpenIff(c: Config, s: State, id: Id, err: int, size: nat, foreign: bool)
    requires c.policy.AsWritten? && Inv(s) && id in s.at.inFlight && s.reqs[id].kind.Open? && err != 0
    ensures var waiting := s.queue[1..];
            var told := if waiting == [] then [] else [waiting[0]];
            var t := Callback(c, s, id, err, size, foreign).0;
            && IsHead(s, id) && t.queue == waiting[|told|..] && t.pending == 0
            && t.log.dones == s.log.dones + WithDone(s.reqs, told) + (if s.reqs[id].done then [id] else [])
            && t.log.calls == s.log.calls && AllMarked(t, err) && t.flags == SettleFlags(s.flags, Open, err)
            && (Sound(t) <==> |waiting| <= 1)
  {
    hide Fifo, DoneOnce, Accounted, Leave, Finish, Drain, ClosedIdle, ClosedIdleBut, Partition, Counted, Callback;
    InFlightStatus(s, id);
    AloneInFlight(s, id);
    HeadIsOnce(s) by { PartitionUnique(s); }
    FailedOpenMarks(s, id, err, size, foreign);
    LeaveGone(s, id, err, size, foreign);
    LeaveKept(s, id, err, size, foreign);
    InvParts(s, id);
    LeaveKeeps(s, id, err, size, foreign);
    var l := Leave(s, id, err, size, foreign);
    FailedOpenDrain(c, l, err);
    var d := Drain(c, l, Open);
    FinishTells(d, id, s.reqs[id], err, s.flags.isClosed, true);
    CallbackIs(c, s, id, err, size, foreign);
    assert Dequeue(c, s, id, err, size, foreign) == d;
    if |s.queue| > 1 { WithDoneSame(l.reqs, s.reqs, [s.queue[1]]); }
    FailedOpenSound(c, s, id, err, size, foreign);
  }

  lemma FailedOpenSound(c: Config, s: State, id: Id, err: int, size: nat, foreign: bool)
    requires c.policy.AsWritten? && Inv(s) && WF(s) && id in s.at.inFlight
    requires id in s.reqs && s.reqs[id].kind.Open? && err != 0
    requires s.pending == 1 && IsHead(s, id) && Inv(Leave(s, id, err, size, foreign))
    ensures Sound(Callback(c, s, id, err, size, foreign).0) <==> |s.queue| <= 2
  {
    var l := Leave(s, id, err, size, foreign);
    assert AllMarked(l, err) && l.pending == 0 && |l.queue| == |s.queue| - 1 by {
      FailedOpenMarks(s, id, err, size, foreign);
    }
    hide *;
    InvParts(s, id);
    InvWF(l);
    var v := if |l.queue| <= 1 then Well else Strands;
    FailedBears(c, l, err);
    CallbackBears(c, s, id, err, size, foreign, v);
    BearsMeans(s, v, Callback(c, s, id, err, size, foreign).0);
  }

  lemma AloneInFlight(s: State, id: Id)
    requires Partition(s) && Counted(s) && id in s.at.inFlight && Lifecycle(s.reqs[id].kind)
    ensures s.pending == 1 && IsHead(s, id) && s.at.inFlight == {id}
  {
  }

  lemma PartitionUnique(s: State)
    requires Partition(s)
    ensures Unique(s.queue)
  {
  }

  lemma FailedOpenDrain(c: Config, s: State, err: int)
    requires c.policy.AsWritten? && Inv(s) && s.pending == 0 && AllMarked(s, err) && err != 0
    requires s.flags.needsOpen && !s.flags.isOpen
    ensures var t := Drain(c, s, Open);
            && AllMarked(t, err) && t.flags == s.flags && t.pending == 0
            && t.queue == (if s.queue == [] then [] else s.queue[1..])
            && t.log.calls == s.log.calls && t.at.stack == s.at.stack
            && t.log.dones == s.log.dones + WithDone(s.reqs, if s.queue == [] then [] else [s.queue[0]])
  {
    if s.queue != [] {
      hide Fifo, DoneOnce, Accounted, Counted, ClosedIdle, Run;
      var id := s.queue[0];
      assert id in s.queue;
      HeadStatus(s);
      HeadIsOnce(s);
      MarkedTells(c, s, id);
      assert Drain(c, s, Open) == Run(c, s, id).0;
    }
  }
}
