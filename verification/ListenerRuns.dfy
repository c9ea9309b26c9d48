/** Runs of on, once, off and emit, on the emitter as written and repaired. */
module ListenerRuns {
  import opened Listeners

  datatype Op =
    | OnOp(event: nat, callback: nat, data: int)
    | OnceOp(event: nat, callback: nat, data: int)
    | OffOp(event: nat, callback: nat)
    | EmitOp(event: nat)

  /** An emitter with the registrations made so far, the `once` ones among them, and every
      invocation made. */
  datatype History = History(e: Emitter, next: int, once: set<int>, fired: seq<int>)

  /** `Broke` when the trim loop has read below the table. */
  datatype Next = Moved(h: History) | Broke

  ghost predicate Fits(h: History) { |h.e.slots| == MAX_LISTENERS && h.e.length <= MAX_LISTENERS }

  function Registered(h: History, op: Op): Listener
    requires op.OnOp? || op.OnceOp?
  {
    Listener(op.event, op.callback, op.data, if op.OnOp? then -1 else 1, h.next)
  }

  function Step(written: bool, h: History, op: Op): (r: Next)
    requires Fits(h)
    ensures r.Moved? ==> Fits(r.h)
    ensures !written ==> r.Moved?
  {
    match op
    case OnOp(_, _, _) => Moved(h.(e := Add(written, h.e, Registered(h, op)).0, next := h.next + 1))
    case OnceOp(_, _, _) =>
      Moved(h.(e := Add(written, h.e, Registered(h, op)).0, next := h.next + 1, once := h.once + {h.next}))
    case OffOp(ev, cb) =>
      var r := Off(written, h.e, Listener(ev, cb, 0, 0, 0));
      if r.Ok? then Moved(h.(e := r.emitter)) else Broke
    case EmitOp(ev) =>
      EmitNever(h.e, ev);
      var r := Emit(written, h.e, ev);
      if r.Ok? then Moved(h.(e := r.emitter, fired := h.fired + Fired(h.e.slots, h.e.length, ev))) else Broke
  }

  lemma {:induction false} PassNever(e: Emitter, i: nat)
    requires |e.slots| == MAX_LISTENERS && e.length <= MAX_LISTENERS
    ensures Pass(false, e, i).Ok?
    decreases MAX_LISTENERS - i
  {
    if i < e.length {
      PassNever(if e.slots[i].ttl == 0 then Off(false, e, e.slots[i]).emitter else e, i + 1);
    }
  }

  lemma {:induction false} SweepNever(e: Emitter, k: nat)
    requires |e.slots| == MAX_LISTENERS && e.length <= MAX_LISTENERS
    ensures Sweep(false, e, k).Ok?
    decreases k
  {
    if k > 0 {
      PassNever(e, 0);
      SweepNever(Pass(false, e, 0).emitter, k - 1);
    }
  }

  /** Repaired, no emit leaves the table. */
  lemma EmitNever(e: Emitter, event: nat)
    requires |e.slots| == MAX_LISTENERS && e.length <= MAX_LISTENERS
    ensures Emit(false, e, event).Ok?
  {
    SweepNever(Aging(e, event), Expiring(e.slots, e.length, event));
  }

  function Run(written: bool, h: History, ops: seq<Op>): (r: Next)
    requires Fits(h)
    ensures r.Moved? ==> Fits(r.h)
    ensures !written ==> r.Moved?
    decreases |ops|
  {
    if ops == [] then Moved(h)
    else
      match Step(written, h, ops[0])
      case Broke => Broke
      case Moved(g) => Run(written, g, ops[1..])
  }

  /** A new emitter */
  const NEW := History(INITIAL, 0, {}, [])

  // ---------------------------------------------------------------- a `once` fires once

  predicate Alive(l: Listener) { l.ttl != 0 }

  /** A registration is alive in one slot at most; a `once` registration that is alive has not
      fired, and one that has fired did so once. */
  ghost predicate Fair(h: History) {
    var s := h.e.slots;
    && Fits(h)
    && (forall i, j :: 0 <= i < j < MAX_LISTENERS && Alive(s[i]) && Alive(s[j]) ==> s[i].reg != s[j].reg)
    && (forall i :: 0 <= i < MAX_LISTENERS && Alive(s[i]) ==>
          s[i].reg < h.next && s[i].ttl == if s[i].reg in h.once then 1 else -1)
    && (forall r :: r in h.once ==> r < h.next && multiset(h.fired)[r] <= 1)
    && (forall i :: 0 <= i < MAX_LISTENERS && Alive(s[i]) && s[i].reg in h.once ==> multiset(h.fired)[s[i].reg] == 0)
    && (forall r :: r >= h.next ==> multiset(h.fired)[r] == 0)
  }

  lemma NewFair()
    ensures Fair(NEW)
  {
  }

  /** As written, the registration would be stored twice: at the hole in slot 0, and at the end. */
  predicate Doubles(written: bool, e: Emitter, op: Op)
    requires |e.slots| == MAX_LISTENERS
  {
    written && (op.OnOp? || op.OnceOp?) && 0 < e.length < MAX_LISTENERS && Free(e.slots[0])
  }

  /** Where the listener is put, if anywhere. */
  lemma AddPlaces(written: bool, h: History, op: Op) returns (at: nat)
    requires Fits(h) && (op.OnOp? || op.OnceOp?) && !Doubles(written, h.e, op)
    ensures var s := Add(written, h.e, Registered(h, op)).0.slots;
            at <= MAX_LISTENERS && s == if at < MAX_LISTENERS then h.e.slots[at := Registered(h, op)] else h.e.slots
  {
    var k := FirstHole(h.e.slots, 0);
    at := if h.e.length >= MAX_LISTENERS then MAX_LISTENERS
          else if k < MAX_LISTENERS || !written then k else h.e.length;
  }

  lemma AddFair(written: bool, h: History, op: Op)
    requires Fair(h) && (op.OnOp? || op.OnceOp?) && !Doubles(written, h.e, op)
    ensures Fair(Step(written, h, op).h)
  {
    var at := AddPlaces(written, h, op);
    hide Add;
  }

  /** Removal leaves every slot as it was or empty. */
  ghost predicate Thins(s: Slots, t: Slots) {
    |t| == |s| && forall i :: 0 <= i < |s| ==> t[i] == s[i] || t[i] == EMPTY
  }

  lemma {:induction false} PassThins(written: bool, e: Emitter, i: nat)
    requires |e.slots| == MAX_LISTENERS && e.length <= MAX_LISTENERS
    ensures var r := Pass(written, e, i); r.Ok? ==> Thins(e.slots, r.emitter.slots)
    decreases MAX_LISTENERS - i
  {
    if i < e.length {
      if e.slots[i].ttl == 0 {
        var r := Off(written, e, e.slots[i]);
        if r.Ok? { PassThins(written, r.emitter, i + 1); }
      } else {
        PassThins(written, e, i + 1);
      }
    }
  }

  lemma {:induction false} SweepThins(written: bool, e: Emitter, k: nat)
    requires |e.slots| == MAX_LISTENERS && e.length <= MAX_LISTENERS
    ensures var r := Sweep(written, e, k); r.Ok? ==> Thins(e.slots, r.emitter.slots)
    decreases k
  {
    if k > 0 {
      PassThins(written, e, 0);
      var r := Pass(written, e, 0);
      if r.Ok? { SweepThins(written, r.emitter, k - 1); }
    }
  }

  lemma OffFair(written: bool, h: History, op: Op)
    requires Fair(h) && op.OffOp? && Step(written, h, op).Moved?
    ensures Fair(Step(written, h, op).h)
  {
  }

  lemma CountBoth(p: seq<int>, q: seq<int>, reg: int)
    ensures multiset(p + q)[reg] == multiset(p)[reg] + multiset(q)[reg]
  {
    assert multiset(p + q) == multiset(p) + multiset(q);
  }

  /** An emit invokes a registration once if it is alive in a slot that fires, and else not. */
  lemma EmitCounts(h: History, event: nat, reg: int)
    requires Fair(h)
    ensures var n := multiset(Fired(h.e.slots, h.e.length, event))[reg];
            && (n == 0 || n == 1)
            && (n == 1 <==> exists i :: 0 <= i < h.e.length && Fires(h.e.slots[i], event) && h.e.slots[i].reg == reg)
  {
    var s, firing := h.e.slots, Firing(h.e.slots, h.e.length, event, reg);
    FiredRegs(s, h.e.length, event, reg);
    hide Fired, Fires;
    FiresAlive(event);
    if q :| q in firing {
      forall i | i in firing ensures i == q { assert Alive(s[i]) && Alive(s[q]); }
      assert firing == {q};
    } else {
      assert firing == {};
    }
  }

  lemma FiresAlive(event: nat)
    ensures forall l: Listener :: Fires(l, event) ==> Alive(l) && l.event == event
  {
  }

  /** `t` is what an emit of `event` leaves of `s`: what is alive was there before and has not
      used up its time. */
  ghost predicate Outlives(s: Slots, t: Slots, n: nat, event: nat) {
    && |t| == |s|
    && forall i :: 0 <= i < |s| && Alive(t[i]) ==> t[i] == s[i] && (i < n && s[i].event == event ==> s[i].ttl == -1)
  }

  lemma EmitOutlives(written: bool, h: History, event: nat)
    requires Fair(h) && Emit(written, h.e, event).Ok?
    ensures Outlives(h.e.slots, Emit(written, h.e, event).emitter.slots, h.e.length, event)
  {
    var a := Aging(h.e, event);
    SweepThins(written, a, Expiring(h.e.slots, h.e.length, event));
    hide Sweep, Expiring;
    var s, t := h.e.slots, Emit(written, h.e, event).emitter.slots;
    forall i | 0 <= i < |s| && Alive(t[i])
      ensures t[i] == s[i] && (i < h.e.length && s[i].event == event ==> s[i].ttl == -1)
    {
      assert t[i] == a.slots[i];
    }
  }

  lemma FiredFair(h: History, g: History, event: nat)
    requires Fair(h) && Fits(g) && g.next == h.next && g.once == h.once
    requires Outlives(h.e.slots, g.e.slots, h.e.length, event)
    requires g.fired == h.fired + Fired(h.e.slots, h.e.length, event)
    ensures Fair(g)
  {
    var s, t := h.e.slots, g.e.slots;
    FiresAlive(event);
    hide Fired, Fires;
    forall r ensures
      && (r in h.once ==> multiset(g.fired)[r] <= 1)
      && (r >= h.next ==> multiset(g.fired)[r] == 0)
      && (forall i :: 0 <= i < MAX_LISTENERS && Alive(t[i]) && t[i].reg == r && r in h.once ==>
            multiset(g.fired)[r] == 0)
    {
      EmitCounts(h, event, r);
      CountBoth(h.fired, Fired(s, h.e.length, event), r);
    }
  }

  lemma EmitFair(written: bool, h: History, op: Op)
    requires Fair(h) && op.EmitOp? && Step(written, h, op).Moved?
    ensures Fair(Step(written, h, op).h)
  {
    EmitOutlives(written, h, op.event);
    hide Fair, Emit, Fired, Outlives;
    FiredFair(h, Step(written, h, op).h, op.event);
  }

  lemma StepFair(written: bool, h: History, op: Op)
    requires Fair(h) && !Doubles(written, h.e, op) && Step(written, h, op).Moved?
    ensures Fair(Step(written, h, op).h)
  {
    hide Fair, Step;
    if op.OffOp? { OffFair(written, h, op); }
    else if op.EmitOp? { EmitFair(written, h, op); }
    else { AddFair(written, h, op); }
  }

  /** As written, no registration of the run is stored twice. */
  ghost predicate NeverDoubles(written: bool, h: History, ops: seq<Op>)
    requires Fits(h)
    decreases |ops|
  {
    ops == [] ||
    (!Doubles(written, h.e, ops[0]) &&
     match Step(written, h, ops[0])
     case Broke => true
     case Moved(g) => NeverDoubles(written, g, ops[1..]))
  }

  lemma {:induction false} NeverRepaired(h: History, ops: seq<Op>)
    requires Fits(h)
    ensures NeverDoubles(false, h, ops)
    decreases |ops|
  {
    if ops != [] { NeverRepaired(Step(false, h, ops[0]).h, ops[1..]); }
  }

  /** In every run of on, once, off and emit, whatever the events, a `once` registration fires
      at most once; as written, if none is stored twice. */
  lemma {:induction false} RunFair(written: bool, h: History, ops: seq<Op>)
    requires Fair(h) && NeverDoubles(written, h, ops) && Run(written, h, ops).Moved?
    ensures var g := Run(written, h, ops).h; Fair(g) && h.once <= g.once && h.fired <= g.fired
    decreases |ops|
  {
    if ops != [] {
      StepFair(written, h, ops[0]);
      RunFair(written, Step(written, h, ops[0]).h, ops[1..]);
    }
  }

  /** From a new emitter on, repaired, for every event. */
  lemma OnceFiresOnce(ops: seq<Op>, reg: int)
    ensures var h := Run(false, NEW, ops).h; reg in h.once ==> multiset(h.fired)[reg] <= 1
  {
    NewFair();
    NeverRepaired(NEW, ops);
    RunFair(false, NEW, ops);
  }

  lemma CountGrows(p: seq<int>, q: seq<int>, reg: int)
    requires p <= q
    ensures multiset(p)[reg] <= multiset(q)[reg]
  {
    assert q == p + q[|p|..];
    CountBoth(p, q[|p|..], reg);
  }

  /** A `once` listener that is in the table and below the length when its event is emitted fires
      exactly once: then, and never again. */
  lemma OnceFiresExactly(written: bool, h: History, event: nat, i: nat, ops: seq<Op>)
    requires Fair(h) && i < h.e.length && Fires(h.e.slots[i], event) && h.e.slots[i].reg in h.once
    requires NeverDoubles(written, h, [EmitOp(event)] + ops) && Run(written, h, [EmitOp(event)] + ops).Moved?
    ensures multiset(Run(written, h, [EmitOp(event)] + ops).h.fired)[h.e.slots[i].reg] == 1
  {
    var reg, all := h.e.slots[i].reg, [EmitOp(event)] + ops;
    assert all[0] == EmitOp(event) && all[1..] == ops;
    var g := Step(written, h, EmitOp(event)).h;
    StepFair(written, h, EmitOp(event));
    EmitCounts(h, event, reg);
    CountBoth(h.fired, Fired(h.e.slots, h.e.length, event), reg);
    assert Alive(h.e.slots[i]) && multiset(g.fired)[reg] == 1;
    hide Step, Fired;
    RunFair(written, g, ops);
    CountGrows(g.fired, Run(written, g, ops).h.fired, reg);
  }

  // ---------------------------------------------------------------- as written and repaired

  /** Event 0 marks a free slot: a listener to it is overwritten by the next one added. */
  predicate Proper(op: Op) { op.OffOp? || op.event > 0 }

  /** When the code as written does what it is meant to, on the table before the operation. */
  ghost predicate Guarded(e: Emitter, op: Op)
    requires |e.slots| == MAX_LISTENERS
  {
    match op
    case OffOp(ev, cb) =>
      exists i :: 0 <= i < MAX_LISTENERS && !Hits(Listener(ev, cb, 0, 0, 0), e.slots[i]) && !Blank(e.slots[i])
    case EmitOp(ev) => EmitSafe(e, ev)
    case _ => e.length >= MAX_LISTENERS || FirstHole(e.slots, 0) == e.length
  }

  lemma StepSettled(h: History, op: Op)
    requires Fits(h) && Settled(h.e) && Proper(op)
    ensures Settled(Step(false, h, op).h.e)
  {
    match op
    case OffOp(ev, cb) => OffKeeps(h.e, Listener(ev, cb, 0, 0, 0));
    case EmitOp(ev) => EmitSweeps(h.e, ev);
    case _ => AddKeeps(h.e, Registered(h, op));
  }

  /** Each operation as written agrees with the repaired one if and only if its guard holds. */
  lemma StepIff(h: History, op: Op)
    requires Fits(h) && Settled(h.e) && Proper(op)
    ensures Step(true, h, op) == Step(false, h, op) <==> Guarded(h.e, op)
  {
    match op
    case OffOp(ev, cb) =>
      hide EmitSafe, Settled, Add, Emit, Hits;
      OffWrittenIff(h.e, Listener(ev, cb, 0, 0, 0));
    case EmitOp(ev) =>
      hide EmitSafe, Settled, Add, Off, Emit;
      EmitWrittenIff(h.e, ev);
    case _ =>
      hide EmitSafe, Settled, Off, Emit;
      if h.e.length < MAX_LISTENERS { AddWrittenIff(h.e, Registered(h, op)); }
  }

  ghost predicate GuardedRun(h: History, ops: seq<Op>)
    requires Fits(h)
    decreases |ops|
  {
    ops == [] || (Guarded(h.e, ops[0]) && GuardedRun(Step(false, h, ops[0]).h, ops[1..]))
  }

  /** No operation of the run as written departs from the repaired one. */
  ghost predicate SameRun(h: History, ops: seq<Op>)
    requires Fits(h)
    decreases |ops|
  {
    ops == [] || (Step(true, h, ops[0]) == Step(false, h, ops[0]) && SameRun(Step(false, h, ops[0]).h, ops[1..]))
  }

  /** A run as written never departs from the repaired one if and only if each operation finds
      its guard, and then it ends as that does. */
  lemma {:induction false} SameRunIff(h: History, ops: seq<Op>)
    requires Fits(h) && Settled(h.e) && forall op :: op in ops ==> Proper(op)
    ensures SameRun(h, ops) <==> GuardedRun(h, ops)
    ensures GuardedRun(h, ops) ==> Run(true, h, ops) == Run(false, h, ops)
    decreases |ops|
  {
    if ops != [] {
      assert ops[0] in ops;
      StepIff(h, ops[0]);
      StepSettled(h, ops[0]);
      hide Settled, Guarded, Step, Fits;
      SameRunIff(Step(false, h, ops[0]).h, ops[1..]);
    }
  }

  // ---------------------------------------------------------------- an `on` fires until it is removed

  /** The operation leaves listener `l` in the table. */
  ghost predicate Spares(e: Emitter, op: Op, l: Listener) {
    match op
    case OffOp(ev, cb) => if cb != 0 then l.callback != cb else ev == 0 || l.event != ev
    case EmitOp(ev) => !SweptAway(e, ev, l)
    case _ => true
  }

  /** Each operation leaves a listener exactly as it was, or empties its slot. */
  lemma StepSpares(h: History, op: Op, i: nat)
    requires Fits(h) && Settled(h.e) && Proper(op) && i < MAX_LISTENERS && h.e.slots[i] != EMPTY
    ensures Step(false, h, op).h.e.slots[i] == if Spares(h.e, op, h.e.slots[i]) then h.e.slots[i] else EMPTY
  {
    match op
    case OffOp(ev, cb) => OffMeans(h.e, Listener(ev, cb, 0, 0, 0));
    case EmitOp(ev) => EmitMeans(h.e, ev); hide SweptAway, Emit;
    case _ => AddMeans(h.e, Registered(h, op));
  }

  ghost predicate SparedRun(h: History, ops: seq<Op>, l: Listener)
    requires Fits(h)
    decreases |ops|
  {
    ops == [] || (Spares(h.e, ops[0], l) && SparedRun(Step(false, h, ops[0]).h, ops[1..], l))
  }

  function Emits(ops: seq<Op>, event: nat): nat {
    if ops == [] then 0 else (if ops[0] == EmitOp(event) then 1 else 0) + Emits(ops[1..], event)
  }

  /** One operation invokes the listener in slot `i` once if it is an emit of its event, and else
      not; and no other slot stands for its registration. */
  lemma StepInvokes(h: History, op: Op, i: nat)
    requires Fair(h) && Settled(h.e) && i < MAX_LISTENERS && h.e.slots[i] != EMPTY && h.e.slots[i].callback != 0
    ensures var l := h.e.slots[i];
            multiset(Step(false, h, op).h.fired)[l.reg]
            == multiset(h.fired)[l.reg] + if op == EmitOp(l.event) then 1 else 0
  {
    var l := h.e.slots[i];
    if op.EmitOp? {
      EmitCounts(h, op.event, l.reg);
      CountBoth(h.fired, Fired(h.e.slots, h.e.length, op.event), l.reg);
      FiresAlive(op.event);
      assert Alive(l) && i < h.e.length && (Fires(l, op.event) <==> op.event == l.event);
      hide Fires, Fired, Emit;
    }
  }

  /** A listener registered by `on` stays in its slot, as it was, and is invoked once by every
      emit of its event, for as long as no operation removes it. */
  lemma {:induction false} OnFiresEach(h: History, ops: seq<Op>, i: nat)
    requires Fair(h) && Settled(h.e) && forall op :: op in ops ==> Proper(op)
    requires i < MAX_LISTENERS && h.e.slots[i] != EMPTY && h.e.slots[i].callback != 0
    requires SparedRun(h, ops, h.e.slots[i])
    ensures var l := h.e.slots[i]; var g := Run(false, h, ops).h;
            && g.e.slots[i] == l && multiset(g.fired)[l.reg] == multiset(h.fired)[l.reg] + Emits(ops, l.event)
    decreases |ops|
  {
    if ops != [] {
      assert ops[0] in ops;
      StepSpares(h, ops[0], i);
      StepInvokes(h, ops[0], i);
      StepFair(false, h, ops[0]);
      StepSettled(h, ops[0]);
      hide Fair, Settled, Step, Spares;
      OnFiresEach(Step(false, h, ops[0]).h, ops[1..], i);
    }
  }

  /** The registration is in no slot, and its number has been given away. */
  ghost predicate Gone(h: History, reg: int) {
    Fits(h) && reg < h.next && forall i :: 0 <= i < MAX_LISTENERS && Alive(h.e.slots[i]) ==> h.e.slots[i].reg != reg
  }

  lemma EmitGone(h: History, event: nat, reg: int)
    requires Fair(h) && Gone(h, reg)
    ensures var g := Step(false, h, EmitOp(event)).h; Gone(g, reg) && multiset(g.fired)[reg] == multiset(h.fired)[reg]
  {
    EmitNever(h.e, event);
    EmitOutlives(false, h, event);
    hide Fired, Emit;
    EmitCounts(h, event, reg);
    CountBoth(h.fired, Fired(h.e.slots, h.e.length, event), reg);
    FiresAlive(event);
    hide Fires, Fair;
  }

  lemma StepGone(h: History, op: Op, reg: int)
    requires Fair(h) && Gone(h, reg)
    ensures var g := Step(false, h, op).h; Gone(g, reg) && multiset(g.fired)[reg] == multiset(h.fired)[reg]
  {
    match op
    case OffOp(ev, cb) => OffMeans(h.e, Listener(ev, cb, 0, 0, 0));
    case EmitOp(ev) => EmitGone(h, ev, reg);
    case _ =>
      var at := AddPlaces(false, h, op);
      hide Add;
  }

  /** Once removed it is never invoked again. */
  lemma {:induction false} GoneForGood(h: History, ops: seq<Op>, reg: int)
    requires Fair(h) && Gone(h, reg)
    ensures multiset(Run(false, h, ops).h.fired)[reg] == multiset(h.fired)[reg]
    decreases |ops|
  {
    if ops != [] {
      StepGone(h, ops[0], reg);
      StepFair(false, h, ops[0]);
      hide Fair, Gone, Step;
      GoneForGood(Step(false, h, ops[0]).h, ops[1..], reg);
    }
  }

  /** Registering finds a slot unless the table is full. */
  lemma OnPlaced(h: History, op: Op) returns (i: nat)
    requires Fair(h) && Settled(h.e) && op.OnOp? && op.event > 0 && h.e.length < MAX_LISTENERS
    ensures i < MAX_LISTENERS && Step(false, h, op).h.e.slots[i] == Registered(h, op)
    ensures multiset(Step(false, h, op).h.fired)[h.next] == 0
  {
    AddMeans(h.e, Registered(h, op));
    var k :| FreeFirst(h.e.slots, k) && Add(false, h.e, Registered(h, op)).0.slots == h.e.slots[k := Registered(h, op)];
    i := k;
  }

  /** From its registration on, an `on` listener is invoked exactly once by every emit of its event
      until an operation removes it, and then never again. */
  lemma OnLasts(h: History, op: Op, ops: seq<Op>, removal: Op, after: seq<Op>)
    requires Fair(h) && Settled(h.e) && op.OnOp? && op.event > 0 && op.callback != 0 && h.e.length < MAX_LISTENERS
    requires (forall o :: o in ops ==> Proper(o)) && Proper(removal)
    requires SparedRun(Step(false, h, op).h, ops, Registered(h, op))
    ensures var g := Run(false, Step(false, h, op).h, ops).h;
            && multiset(g.fired)[h.next] == Emits(ops, op.event)
            && (!Spares(g.e, removal, Registered(h, op)) ==>
                  multiset(Run(false, Step(false, g, removal).h, after).h.fired)[h.next]
                  == Emits(ops + [removal], op.event))
  {
    var i := OnPlaced(h, op);
    var h1, l := Step(false, h, op).h, Registered(h, op);
    StepFair(false, h, op);
    StepSettled(h, op);
    OnFiresEach(h1, ops, i);
    NeverRepaired(h1, ops);
    RunFair(false, h1, ops);
    RunSettled(h1, ops);
    var g := Run(false, h1, ops).h;
    if !Spares(g.e, removal, l) {
      StepSpares(g, removal, i);
      StepInvokes(g, removal, i);
      StepFair(false, g, removal);
      EmptiedGone(g, removal, i);
      GoneForGood(Step(false, g, removal).h, after, h.next);
      EmitsAppend(ops, removal, op.event);
    }
  }

  lemma {:induction false} RunSettled(h: History, ops: seq<Op>)
    requires Fits(h) && Settled(h.e) && forall op :: op in ops ==> Proper(op)
    ensures Settled(Run(false, h, ops).h.e)
    decreases |ops|
  {
    if ops != [] {
      assert ops[0] in ops;
      StepSettled(h, ops[0]);
      hide Settled, Step;
      RunSettled(Step(false, h, ops[0]).h, ops[1..]);
    }
  }

  lemma {:induction false} EmitsAppend(ops: seq<Op>, op: Op, event: nat)
    ensures Emits(ops + [op], event) == Emits(ops, event) + if op == EmitOp(event) then 1 else 0
  {
    if ops == [] {
      assert [] + [op] == [op];
    } else {
      assert (ops + [op])[1..] == ops[1..] + [op];
      EmitsAppend(ops[1..], op, event);
    }
  }

  /** A listener whose slot an operation empties is in no other slot. */
  lemma EmptiedGone(h: History, op: Op, i: nat)
    requires Fair(h) && Settled(h.e) && Proper(op) && i < MAX_LISTENERS && h.e.slots[i] != EMPTY
    requires !Spares(h.e, op, h.e.slots[i])
    ensures Gone(Step(false, h, op).h, h.e.slots[i].reg)
  {
    StepSpares(h, op, i);
    var reg, g := h.e.slots[i].reg, Step(false, h, op).h;
    assert Alive(h.e.slots[i]);
    forall j | 0 <= j < MAX_LISTENERS && Alive(g.e.slots[j]) ensures g.e.slots[j].reg != reg {
      if h.e.slots[j] != EMPTY { StepSpares(h, op, j); } else { EmptyStays(h, op, j); }
    }
  }

  lemma EmptyStays(h: History, op: Op, j: nat)
    requires Fits(h) && Settled(h.e) && Proper(op) && (op.OffOp? || op.EmitOp?)
    requires j < MAX_LISTENERS && h.e.slots[j] == EMPTY
    ensures Step(false, h, op).h.e.slots[j] == EMPTY
  {
    if op.OffOp? { OffMeans(h.e, Listener(op.event, op.callback, 0, 0, 0)); } else { EmitMeans(h.e, op.event); }
  }

  // ---------------------------------------------------------------- runs as written that go wrong

  /** A hole at slot 0 with a listener behind it: on(a), on(b), off(a) on a new emitter. */
  lemma HoleReached(a: Op, b: Op)
    requires a.OnOp? && b.OnOp? && a.event > 0 && b.event > 0
    requires a.callback != 0 && a.callback != b.callback
    ensures var off := OffOp(a.event, a.callback);
            Run(true, NEW, [a, b, off])
            == Moved(History(Emitter(INITIAL.slots[1 := Listener(b.event, b.callback, b.data, -1, 1)], 2), 2, {}, []))
  {
    var off := OffOp(a.event, a.callback);
    var la, lb := Listener(a.event, a.callback, a.data, -1, 0), Listener(b.event, b.callback, b.data, -1, 1);
    var e1, e2 := Emitter(INITIAL.slots[0 := la], 1), Emitter(INITIAL.slots[0 := la][1 := lb], 2);
    FirstTwo(la, lb);
    OffFirst(la, lb);
    assert Step(true, NEW, a) == Moved(NEW.(e := e1, next := 1));
    assert Step(true, NEW.(e := e1, next := 1), b) == Moved(NEW.(e := e2, next := 2));
    var ops := [a, b, off];
    assert ops[1..] == [b, off] && [b, off][1..] == [off] && [off][1..] == [];
    hide Add, Off;
    assert Run(true, NEW.(e := e2, next := 2), [off]) == Step(true, NEW.(e := e2, next := 2), off);
    assert Run(true, NEW.(e := e1, next := 1), [b, off]) == Run(true, NEW.(e := e2, next := 2), [off]);
  }

  lemma FirstTwo(la: Listener, lb: Listener)
    requires la.event > 0 && lb.event > 0
    ensures Add(true, INITIAL, la).0 == Emitter(INITIAL.slots[0 := la], 1)
    ensures Add(true, Emitter(INITIAL.slots[0 := la], 1), lb).0 == Emitter(INITIAL.slots[0 := la][1 := lb], 2)
  {
    var s := INITIAL.slots[0 := la];
    assert FirstHole(INITIAL.slots, 0) == 0;
    assert FirstHole(s, 1) == 1;
    assert FirstHole(s, 0) == 1;
  }

  lemma OffFirst(la: Listener, lb: Listener)
    requires la.event > 0 && lb.event > 0 && la.callback != 0 && la.callback != lb.callback
    ensures Off(true, Emitter(INITIAL.slots[0 := la][1 := lb], 2), Listener(la.event, la.callback, 0, 0, 0))
         == Ok(Emitter(INITIAL.slots[1 := lb], 2))
  {
    var s := INITIAL.slots[0 := la][1 := lb];
    var t := Cleared(s, Listener(la.event, la.callback, 0, 0, 0));
    assert t == INITIAL.slots[1 := lb];
    EndIs(t, 2);
  }

  lemma {:induction false} RunThen(written: bool, h: History, ops: seq<Op>, op: Op)
    requires Fits(h) && Run(written, h, ops).Moved?
    ensures Run(written, h, ops + [op]) == Step(written, Run(written, h, ops).h, op)
    decreases |ops|
  {
    if ops == [] {
      assert ops + [op] == [op] && [op][1..] == [];
    } else {
      assert (ops + [op])[0] == ops[0] && (ops + [op])[1..] == ops[1..] + [op];
      RunThen(written, Step(written, h, ops[0]).h, ops[1..], op);
    }
  }

  /** The same, then once(c): as written, the next emit of its event invokes c twice. */
  lemma OnceTwiceReached(a: Op, b: Op, c: Op)
    requires a.OnOp? && b.OnOp? && c.OnceOp? && a.event > 0 && b.event > 0 && c.event > 0
    requires a.callback != 0 && a.callback != b.callback && c.callback != 0
    ensures var r := Run(true, NEW, [a, b, OffOp(a.event, a.callback)] + [c]);
            r.Moved? && 2 in r.h.once && multiset(Fired(r.h.e.slots, r.h.e.length, c.event))[2] == 2
  {
    var ops := [a, b, OffOp(a.event, a.callback)];
    HoleReached(a, b);
    RunThen(true, NEW, ops, c);
    var h := Run(true, NEW, ops).h;
    hide Run, Add;
    assert Settled(h.e) && h.e.length == 2 && Free(h.e.slots[0]);
    OnceFiresTwice(h.e, Registered(h, c));
  }
}
