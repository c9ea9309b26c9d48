/** Where a chain of completions goes, computed from the flags and the queue alone, and the
    proof that the recursion callback -> dequeue -> run -> callback goes there (repaired drain). */
module Outcomes {
  import opened Protocol
  import opened Invariant
  import opened Preservation
  import opened Chains

  /** How a request that is run now is answered: `Later` also if nobody ever will. */
  function Response(c: Config, f: Flags, k: Kind, id: Id): Reply {
    match RouteOf(c, f, k)
    case Immediate(err) => Now(err, 0, false)
    case Nowhere => Later
    case Backend => c.reply(id)
  }

  predicate FailedOpen(k: Kind, err: int) { k.Open? && err != 0 }

  /** Why a chain stops: nothing waits any more, the next request has been handed to the
      backend, or nobody will ever answer it. */
  datatype Stop = Emptied | Waits | Stalls

  /** The first `left` of the waiting requests leave the queue.  The first `turn` of these are
      run in turn, each inside the callback of the one before; the others are those behind
      an open that failed. */
  datatype Chain = Chain(left: nat, turn: nat, flags: Flags, stop: Stop)

  /** All of `q` is told that an open has failed. */
  function Failing(f: Flags, q: seq<Id>): Chain { Chain(|q|, 0, f, Emptied) }

  predicate Known(reqs: map<Id, Req>, q: seq<Id>) { forall i :: 0 <= i < |q| ==> q[i] in reqs }

  lemma KnownHead(reqs: map<Id, Req>, q: seq<Id>)
    requires q != [] && Known(reqs, q)
    ensures q[0] in reqs
  {
  }

  /** The chain that starts when the requests `q` wait and nothing is in flight. */
  function ChainOf(c: Config, f: Flags, reqs: map<Id, Req>, q: seq<Id>): (r: Chain)
    requires Known(reqs, q)
    ensures r.turn <= r.left <= |q| && (r.left == |q| <==> r.stop.Emptied?)
    decreases |q|
  {
    if q == [] then Chain(0, 0, f, Emptied)
    else
      var k := reqs[q[0]].kind;
      match Response(c, f, k, q[0])
      case Later => Chain(0, 0, f, if RouteOf(c, f, k).Nowhere? then Stalls else Waits)
      case Now(err, _, _) =>
        var g := SettleFlags(f, k, err);
        var rest := if FailedOpen(k, err) then Failing(g, q[1..]) else ChainOf(c, g, reqs, q[1..]);
        rest.(left := rest.left + 1, turn := rest.turn + 1)
  }

  function Reverse<T>(q: seq<T>): seq<T> { if q == [] then [] else Reverse(q[1..]) + [q[0]] }

  lemma {:induction false} ReverseAppend<T>(p: seq<T>, q: seq<T>)
    ensures Reverse(p + q) == Reverse(q) + Reverse(p)
  {
    if p == [] {
      assert p + q == q;
    } else {
      assert (p + q)[1..] == p[1..] + q;
      ReverseAppend(p[1..], q);
    }
  }

  /** The order in which a chain calls `done`: first, in queue order, the requests behind a
      failed open; then, in the reverse of queue order, those that were run in turn. */
  function DonesOf(reqs: map<Id, Req>, q: seq<Id>, r: Chain): seq<Id>
    requires r.turn <= r.left <= |q|
  {
    WithDone(reqs, q[r.turn..r.left]) + Reverse(WithDone(reqs, q[..r.turn]))
  }

  lemma SliceHead(q: seq<Id>, i: nat, j: nat)
    requires q != [] && i <= j < |q|
    ensures q[1..][i..j] == q[i + 1..j + 1] && q[1..][j..] == q[j + 1..] && q[..i + 1] == [q[0]] + q[1..][..i]
  {
  }

  lemma ReverseHead(reqs: map<Id, Req>, id: Id, rest: seq<Id>)
    requires id in reqs
    ensures Reverse(WithDone(reqs, [id] + rest)) == Reverse(WithDone(reqs, rest)) + if reqs[id].done then [id] else []
  {
    var first := if reqs[id].done then [id] else [];
    assert ([id] + rest)[1..] == rest;
    ReverseAppend(first, WithDone(reqs, rest));
    assert Reverse([id]) == [id];
  }

  lemma DonesHead(reqs: map<Id, Req>, q: seq<Id>, r: Chain)
    requires q != [] && q[0] in reqs && r.turn <= r.left < |q|
    ensures DonesOf(reqs, q, r.(left := r.left + 1, turn := r.turn + 1))
         == DonesOf(reqs, q[1..], r) + if reqs[q[0]].done then [q[0]] else []
  {
    SliceHead(q, r.turn, r.left);
    ReverseHead(reqs, q[0], q[1..][..r.turn]);
    hide WithDone, Reverse;
  }

  /** `t` is where the chain `r` leads from `s`. */
  ghost predicate Leads(s: State, r: Chain, t: State)
    requires r.turn <= r.left <= |s.queue|
  {
    && t.queue == s.queue[r.left..] && t.flags == r.flags
    && t.pending == (if r.stop.Emptied? then 0 else 1)
    && (r.stop.Stalls? ==> r.left < |s.queue|)
    && t.at.stalled == s.at.stalled + (if r.stop.Stalls? then {s.queue[r.left]} else {})
    && t.log.removed == s.log.removed + s.queue[..r.left]
    && t.log.dones == s.log.dones + DonesOf(s.reqs, s.queue, r)
    && Released(s, t, HasDestroy(s.reqs, s.queue[..r.left]))
  }

  // ------------------------------------------------ the head is run

  /** Nothing is in flight and no request waits with an error. */
  ghost predicate Drainable(s: State) { Inv(s) && Clean(s) && s.at.inFlight == {} && s.pending == 0 }

  lemma DrainableIdle(s: State)
    requires Drainable(s)
    ensures s.pending == 0 && WF(s) && s.at.stalled == {}
  {
  }

  lemma DrainableHead(s: State)
    requires Drainable(s) && s.queue != []
    ensures var h := s.queue[0];
            && h in s.reqs && s.reqs[h].err == 0 && s.reqs[h].queued && IsHead(s, h) && MayStart(s, h) && WF(s)
            && h !in s.queue[1..] && (s.reqs[h].kind.Destroy? ==> s.queue == [h])
  {
    HeadStatus(s);
    HeadIsOnce(s);
    assert s.queue[0] in s.queue;
  }

  /** The head has been started and, where the backend serves it, handed over. */
  function Handed(c: Config, s: State, id: Id): State
    requires id in s.reqs
  {
    if RouteOf(c, s.flags, s.reqs[id].kind).Backend? then Invoke(Started(s, id), id) else Started(s, id)
  }

  lemma HandedRepair(c: Config, s: State, id: Id)
    requires id in s.reqs
    ensures Handed(Repair(c), s, id) == Handed(c, s, id)
    ensures RouteOf(Repair(c), s.flags, s.reqs[id].kind) == RouteOf(c, s.flags, s.reqs[id].kind)
    ensures Response(Repair(c), s.flags, s.reqs[id].kind, id) == Response(c, s.flags, s.reqs[id].kind, id)
  {
  }

  /** Starting and handing over change none of these. */
  ghost predicate Similar(s: State, t: State) {
    && t.queue == s.queue && t.flags == s.flags && t.at.stalled == s.at.stalled && t.at.stack == s.at.stack
    && t.log.removed == s.log.removed && t.log.dones == s.log.dones && t.mem.storage == s.mem.storage
    && Kept(s, t)
  }

  lemma HandedSimilar(c: Config, s: State, id: Id)
    requires id in s.reqs
    ensures var h := Handed(c, s, id);
            && Similar(s, h) && h.pending == s.pending + 1 && h.at.inFlight == s.at.inFlight + {id}
            && Similar(s, Stall(h, id).(at := h.at)) && Stall(h, id).at.stalled == s.at.stalled + {id}
            && Stall(h, id).pending == s.pending + 1 && Stall(h, id).log == h.log
            && (!s.reqs[id].queued ==> h.log.ran == s.log.ran)
  {
  }

  lemma HandedKeeps(c: Config, s: State, id: Id)
    requires Drainable(s) && IsHead(s, id) && id in s.reqs
    ensures var h := Handed(c, s, id); Core(h) && ClosedIdleBut(h, id) && Clean(h) && id in h.at.inFlight && WF(h)
  {
    hide Partition, Counted, Fifo, DoneOnce, Accounted, FlagsOk, Clean, Started;
    DrainableHead(s);
    StartKeeps(s, id);
    StartClosedIdle(s, id);
    StartClean(s, id);
    InvokeKeeps(Started(s, id), id);
    StartClean(Started(s, id), id);
  }

  /** Where a run goes, by the response it gets, for either drain loop. */
  lemma RunIs(c: Config, s: State, id: Id)
    requires WF(s) && id in s.reqs && s.reqs[id].err == 0
    ensures var h := Handed(c, s, id); var k := s.reqs[id].kind;
            && WF(h) && id in h.reqs
            && Run(c, s, id).0 == match Response(c, s.flags, k, id)
                                  case Later => if RouteOf(c, s.flags, k).Nowhere? then Stall(h, id) else h
                                  case Now(err, size, foreign) => Callback(c, h, id, err, size, foreign).0
  {
    hide Callback;
    assert Run(c, s, id) == Dispatch(c, Started(s, id), id);
  }

  /** The return value: an error the scheduler itself finds, and 0 if the backend is asked. */
  lemma RunReturns(c: Config, s: State, id: Id)
    requires WF(s) && id in s.reqs && s.reqs[id].err == 0
    ensures Run(c, s, id).1 == match RouteOf(c, s.flags, s.reqs[id].kind) case Immediate(err) => -err case _ => 0
  {
    var s2 := Start(Pick(s, id), id);
    assert s2.reqs[id].kind == s.reqs[id].kind && s2.flags == s.flags;
    hide Callback;
    match RouteOf(c, s.flags, s.reqs[id].kind)
    case Immediate(err) => CallbackIs(c, s2, id, err, 0, false);
    case Nowhere =>
    case Backend =>
  }

  /** `l` is `s` after its head has left with `err`. */
  ghost predicate Passed(s: State, l: State, id: Id, err: int) {
    && IsHead(s, id) && id in s.reqs && Kept(s, l)
    && l.queue == s.queue[1..] && l.flags == SettleFlags(s.flags, s.reqs[id].kind, err) && l.pending == 0
    && l.at.stalled == s.at.stalled && l.at.stack == s.at.stack + [id]
    && l.log.removed == s.log.removed + [id] && l.log.dones == s.log.dones && l.mem.storage == s.mem.storage
  }

  lemma LeavePassed(s: State, id: Id, err: int, size: nat, foreign: bool)
    requires IsHead(s, id) && id in s.reqs && s.pending == 1 && id !in s.at.stalled && WF(s)
    ensures Passed(s, Leave(s, id, err, size, foreign), id, err)
  {
    LeaveKept(s, id, err, size, foreign);
  }

  lemma PassedSimilar(s: State, h: State, l: State, id: Id, err: int)
    requires Similar(s, h) && Passed(h, l, id, err)
    ensures Passed(s, l, id, err)
  {
  }

  lemma HeadLeaves(c: Config, s: State, id: Id, err: int, size: nat, foreign: bool)
    requires Drainable(s) && IsHead(s, id) && id in s.reqs
    ensures var h := Handed(c, s, id); var l := Leave(h, id, err, size, foreign);
            && id in h.reqs && Passed(s, l, id, err) && Inv(l)
            && if FailedOpen(s.reqs[id].kind, err) then AllMarked(l, err) else Drainable(l)
  {
    hide Partition, Counted, Fifo, DoneOnce, Accounted, FlagsOk, ClosedIdle, ClosedIdleBut, Clean;
    hide Leave, Handed, Passed;
    DrainableHead(s);
    DrainableIdle(s);
    HandedKeeps(c, s, id);
    HandedSimilar(c, s, id);
    var h := Handed(c, s, id);
    var l := Leave(h, id, err, size, foreign);
    LeaveKeeps(h, id, err, size, foreign);
    LeavePassed(h, id, err, size, foreign);
    PassedSimilar(s, h, l, id, err);
    if FailedOpen(s.reqs[id].kind, err) {
      FailedOpenMarks(h, id, err, size, foreign);
    } else {
      LeaveClean(h, id, err, size, foreign);
      PassedIdle(s, l, id, err);
    }
  }

  lemma PassedIdle(s: State, l: State, id: Id, err: int)
    requires Passed(s, l, id, err) && Inv(l)
    ensures l.pending == 0 && l.at.inFlight == {}
  {
    CountedZero(l);
  }

  // ------------------------------------------------ the head returns

  lemma HasDestroyHead(s: State, l: State, n: nat)
    requires WF(s) && s.queue != [] && l.queue == s.queue[1..] && Kept(s, l) && n <= |l.queue| && s.queue[0] in s.reqs
    ensures HasDestroy(s.reqs, s.queue[..n + 1])
       <==> s.reqs[s.queue[0]].kind.Destroy? || HasDestroy(l.reqs, l.queue[..n])
  {
    var p, q := s.queue[..n + 1], l.queue[..n];
    assert p == [s.queue[0]] + q;
    assert p[0] == s.queue[0];
    assert s.queue[0] in p;
    if x :| x in p && x in s.reqs && s.reqs[x].kind.Destroy? && x != s.queue[0] {
      assert x in q && x in l.reqs && l.reqs[x].kind.Destroy?;
    }
    if x :| x in q && x in l.reqs && l.reqs[x].kind.Destroy? {
      assert x in p && x in s.reqs && s.reqs[x].kind.Destroy?;
    }
  }

  /** `t` is `d` with what the end of a callback changes: `done`, and a destroy's teardown,
      which finds the queue empty. */
  ghost predicate Ended(d: State, t: State, id: Id, r: Req) {
    && t.queue == d.queue && t.flags == d.flags && t.pending == d.pending && t.at.stalled == d.at.stalled
    && t.log.removed == d.log.removed && t.log.ran == d.log.ran
    && t.log.dones == d.log.dones + (if r.done then [id] else [])
    && t.mem.storage == (if r.kind.Destroy? then Release(d.mem.storage, |d.at.stack| > 1) else d.mem.storage)
    && Kept(d, t)
  }

  lemma Ends(d: State, id: Id, r: Req, err: int, wasClosed: bool, needsFree: bool)
    requires d.at.stack != [] && (r.kind.Destroy? ==> d.queue == []) && d.pending < INT_MIN
    ensures Ended(d, Finish(Clamp(d), id, r, err, wasClosed, needsFree), id, r)
  {
    FinishTells(d, id, r, err, wasClosed, needsFree);
    FinishReleases(d, id, r, err, wasClosed, needsFree);
    FinishKept(d, id, r, err, wasClosed, needsFree);
    hide Finish, Release;
  }

  lemma EndedReleased(s: State, l: State, d: State, t: State, id: Id, n: nat)
    requires WF(s) && IsHead(s, id) && id in s.reqs && l.queue == s.queue[1..] && Kept(s, l) && n <= |l.queue|
    requires l.mem.storage == s.mem.storage && Released(l, d, HasDestroy(l.reqs, l.queue[..n]))
    requires t.mem.storage == if s.reqs[id].kind.Destroy? then Release(d.mem.storage, true) else d.mem.storage
    ensures Released(s, t, HasDestroy(s.reqs, s.queue[..n + 1]))
  {
    HasDestroyHead(s, l, n);
    hide HasDestroy;
  }

  lemma OuterSequences(q: seq<Id>, removed: seq<Id>, n: nat)
    requires q != [] && n < |q|
    ensures q[1..][n..] == q[n + 1..] && (removed + [q[0]]) + q[1..][..n] == removed + q[..n + 1]
  {
  }

  lemma OuterLeads(s: State, l: State, d: State, t: State, id: Id, err: int, rest: Chain, r: Req)
    requires WF(s) && Passed(s, l, id, err) && rest.turn <= rest.left <= |l.queue| && Leads(l, rest, d)
    requires Ended(d, t, id, r) && SameStatics(r, s.reqs[id]) && |d.at.stack| > 1
    ensures Leads(s, rest.(left := rest.left + 1, turn := rest.turn + 1), t)
  {
    DonesHead(s.reqs, s.queue, rest);
    DonesSame(l.reqs, s.reqs, l.queue, rest);
    EndedReleased(s, l, d, t, id, rest.left);
    OuterSequences(s.queue, s.log.removed, rest.left);
    hide DonesOf, HasDestroy, Released, Release, SettleFlags, Kept, WF;
  }

  lemma DonesSame(a: map<Id, Req>, b: map<Id, Req>, q: seq<Id>, r: Chain)
    requires a.Keys == b.Keys && (forall x :: x in a ==> a[x].done == b[x].done) && r.turn <= r.left <= |q|
    ensures DonesOf(a, q, r) == DonesOf(b, q, r)
  {
    WithDoneSame(a, b, q[r.turn..r.left]);
    WithDoneSame(a, b, q[..r.turn]);
  }

  /** The drain inside the callback of a head whose open has failed. */
  lemma FailingLeads(c: Config, l: State, k: Kind, err: int)
    requires c.policy.Repaired? && Inv(l) && l.pending == 0 && err != 0 && AllMarked(l, err) && l.at.stack != []
    requires l.flags.needsOpen && !l.flags.isOpen
    ensures Leads(l, Failing(l.flags, l.queue), Drain(c, l, k))
  {
    hide Inv, Drain, HasDestroy;
    DrainTells(c, l, k, err);
    assert l.queue[0..|l.queue|] == l.queue == l.queue[..|l.queue|];
    assert WithDone(l.reqs, l.queue[..0]) == [];
  }

  /** A callback whose request leaves nothing in flight, with its drain made explicit. */
  lemma CallbackDrains(c: Config, s: State, id: Id, err: int, size: nat, foreign: bool)
    requires WF(s) && id in s.reqs && s.pending == 1
    ensures var l := Leave(s, id, err, size, foreign); var r := s.reqs[id];
            && WF(l) && l.at.stack == s.at.stack + [id]
            && Callback(c, s, id, err, size, foreign).0
            == Finish(Clamp(Drain(c, l, r.kind)), id, r, err, s.flags.isClosed, IsHead(s, id))
  {
    LeaveKept(s, id, err, size, foreign);
    LeavePending(s, id, err, size, foreign);
    hide Leave, Finish, Drain, Clamp;
    CallbackIs(c, s, id, err, size, foreign);
    assert Leave(s, id, err, size, foreign).pending == 0;
  }

  /** A head's callback: where its drain leads from `l`, the whole of it leads from `s`. */
  lemma CallbackLeads(c: Config, s: State, h: State, id: Id, err: int, size: nat, foreign: bool, rest: Chain)
    requires WF(s) && WF(h) && id in s.reqs && id in h.reqs && SameStatics(h.reqs[id], s.reqs[id])
    requires IsHead(h, id) && h.pending == 1 && h.at.stack == s.at.stack != []
    requires var l := Leave(h, id, err, size, foreign);
             && Passed(s, l, id, err) && WF(l) && rest.turn <= rest.left <= |l.queue|
             && (s.reqs[id].kind.Destroy? ==> l.queue == []) && Leads(l, rest, Drain(c, l, s.reqs[id].kind))
    ensures rest.left < |s.queue|
    ensures Leads(s, rest.(left := rest.left + 1, turn := rest.turn + 1), Callback(c, h, id, err, size, foreign).0)
  {
    var r := h.reqs[id];
    var l := Leave(h, id, err, size, foreign);
    var d := Drain(c, l, r.kind);
    var t := Callback(c, h, id, err, size, foreign).0;
    assert l.queue == s.queue[1..] && s.queue != [] && (r.kind.Destroy? ==> d.queue == []) && d.pending < INT_MIN
        && d.at.stack == l.at.stack;
    hide *;
    CallbackDrains(c, h, id, err, size, foreign);
    Ends(d, id, r, err, h.flags.isClosed, IsHead(h, id));
    OuterLeads(s, l, d, t, id, err, rest, r);
  }

  lemma NoneDestroys(reqs: map<Id, Req>)
    ensures !HasDestroy(reqs, [])
  {
  }

  /** A chain in which nothing leaves. */
  lemma StandsLeads(s: State, t: State, r: Chain)
    requires r.left == 0 && r.turn == 0 && t.flags == r.flags && t.queue == s.queue
    requires t.pending == (if r.stop.Emptied? then 0 else 1) && (r.stop.Stalls? ==> s.queue != [])
    requires t.at.stalled == s.at.stalled + if r.stop.Stalls? then {s.queue[0]} else {}
    requires t.log.removed == s.log.removed && t.log.dones == s.log.dones && t.mem.storage == s.mem.storage
    ensures Leads(s, r, t)
  {
    assert s.queue[..0] == [] && s.queue[0..0] == [];
    NoneDestroys(s.reqs);
    hide HasDestroy;
  }

  /** The response that the head of the queue gets. */
  function HeadResponse(c: Config, s: State): Reply
    requires s.queue != [] && s.queue[0] in s.reqs
  {
    Response(c, s.flags, s.reqs[s.queue[0]].kind, s.queue[0])
  }

  /** The head is run and not answered at once. */
  lemma UnansweredLeads(c: Config, s: State)
    requires Drainable(s) && s.queue != [] && Known(s.reqs, s.queue) && HeadResponse(c, s).Later?
    ensures WF(s)
    ensures var t := Run(c, s, s.queue[0]).0; Leads(s, ChainOf(c, s.flags, s.reqs, s.queue), t) && t.pending == 1
  {
    var id := s.queue[0];
    DrainableHead(s);
    DrainableIdle(s);
    hide Drainable, Run, Handed, Leads, RouteOf;
    RunIs(c, s, id);
    HandedSimilar(c, s, id);
    StandsLeads(s, Run(c, s, id).0, ChainOf(c, s.flags, s.reqs, s.queue));
  }

  /** `l` is what the head leaves behind for its own drain when it is run and answered at once. */
  ghost predicate Follows(c: Config, s: State, l: State)
    requires s.queue != [] && s.queue[0] in s.reqs && HeadResponse(c, s).Now?
  {
    var id, h, a := s.queue[0], Handed(c, s, s.queue[0]), HeadResponse(c, s);
    && id in h.reqs && l == Leave(h, id, a.err, a.size, a.foreign)
    && Passed(s, l, id, a.err) && Inv(l)
    && if FailedOpen(s.reqs[id].kind, a.err) then AllMarked(l, a.err) else Drainable(l)
  }

  lemma AfterHead(c: Config, s: State) returns (l: State)
    requires Drainable(s) && s.queue != [] && s.queue[0] in s.reqs && HeadResponse(c, s).Now?
    ensures Follows(c, s, l)
  {
    var id, a := s.queue[0], HeadResponse(c, s);
    l := Leave(Handed(c, s, id), id, a.err, a.size, a.foreign);
    assert IsHead(s, id);
    hide Drainable, Handed, Leave, Passed, Inv, AllMarked, RouteOf;
    HeadLeaves(c, s, id, a.err, a.size, a.foreign);
  }

  lemma FollowsMeans(c: Config, s: State, l: State)
    requires s.queue != [] && s.queue[0] in s.reqs && HeadResponse(c, s).Now? && Follows(c, s, l)
    ensures Inv(l) && WF(l) && Passed(s, l, s.queue[0], HeadResponse(c, s).err)
    ensures l.at.stack != [] && l.pending == 0 && |l.queue| < |s.queue| && l.queue == s.queue[1..]
    ensures var k, err := s.reqs[s.queue[0]].kind, HeadResponse(c, s).err;
            && l.flags == SettleFlags(s.flags, k, err)
            && if FailedOpen(k, err)
               then AllMarked(l, err) && l.flags.needsOpen && !l.flags.isOpen && k == Open && err != 0
               else Drainable(l)
  {
    hide Inv, Drainable, AllMarked, Leave, Handed, RouteOf;
    InvWF(l);
  }

  lemma InvWF(s: State)
    requires Inv(s)
    ensures WF(s)
  {
  }

  /** The head has been handed over and comes back: its callback is about to be made. */
  lemma FollowsRun(c: Config, s: State, l: State)
    requires Drainable(s) && s.queue != [] && s.queue[0] in s.reqs && HeadResponse(c, s).Now? && Follows(c, s, l)
    ensures var id, h, a := s.queue[0], Handed(c, s, s.queue[0]), HeadResponse(c, s);
            && id in h.reqs && l == Leave(h, id, a.err, a.size, a.foreign) && WF(s) && WF(h)
            && Run(c, s, id).0 == Callback(c, h, id, a.err, a.size, a.foreign).0
            && Core(h) && ClosedIdleBut(h, id) && id in h.at.inFlight && h.pending == 1 && IsHead(h, id)
            && h.at.stack == s.at.stack && Kept(s, h) && SameStatics(h.reqs[id], s.reqs[id])
            && (s.reqs[id].kind.Destroy? ==> l.queue == [])
  {
    var id := s.queue[0];
    DrainableHead(s);
    DrainableIdle(s);
    FollowsMeans(c, s, l);
    hide Drainable, Leave, Run, RouteOf, Handed, Inv, Passed, MayStart;
    HandedSimilar(c, s, id);
    HandedKeeps(c, s, id);
    RunIs(c, s, id);
  }

  /** The head is run and answered at once, if the drain inside its callback goes as foreseen. */
  lemma AnsweredLeads(c: Config, s: State, l: State, rest: Chain)
    requires Drainable(s) && s.at.stack != [] && s.queue != [] && s.queue[0] in s.reqs && HeadResponse(c, s).Now?
    requires Follows(c, s, l) && WF(l)
    requires rest.turn <= rest.left <= |l.queue| && Leads(l, rest, Drain(c, l, s.reqs[s.queue[0]].kind))
    ensures WF(s) && rest.left < |s.queue|
    ensures Leads(s, rest.(left := rest.left + 1, turn := rest.turn + 1), Run(c, s, s.queue[0]).0)
  {
    var id, a := s.queue[0], HeadResponse(c, s);
    hide *;
    FollowsMeans(c, s, l);
    FollowsRun(c, s, l);
    CallbackLeads(c, s, Handed(c, s, id), id, a.err, a.size, a.foreign, rest);
  }

  lemma DrainOnce(c: Config, s: State, k: Kind)
    requires c.policy.Repaired? && WF(s) && s.queue != [] && s.pending == 0 && Drained(Run(c, s, s.queue[0]).0)
    ensures Drain(c, s, k) == Run(c, s, s.queue[0]).0
  {
  }

  /** The chain from the state that the head leaves behind. */
  function RestOf(c: Config, k: Kind, err: int, l: State): (r: Chain)
    requires Known(l.reqs, l.queue)
    ensures r.turn <= r.left <= |l.queue|
  {
    if FailedOpen(k, err) then Failing(l.flags, l.queue) else ChainOf(c, l.flags, l.reqs, l.queue)
  }

  lemma ChainStep(c: Config, s: State, l: State, err: int)
    requires s.queue != [] && Known(s.reqs, s.queue) && Passed(s, l, s.queue[0], err)
    requires HeadResponse(c, s).Now? && HeadResponse(c, s).err == err
    ensures Known(l.reqs, l.queue)
    ensures var rest := RestOf(c, s.reqs[s.queue[0]].kind, err, l);
            ChainOf(c, s.flags, s.reqs, s.queue) == rest.(left := rest.left + 1, turn := rest.turn + 1)
  {
    ChainSame(c, l.flags, s.reqs, l.reqs, l.queue);
  }

  lemma {:induction false} HeadLeads(c: Config, s: State)
    requires c.policy.Repaired? && Drainable(s) && s.at.stack != [] && s.queue != [] && Known(s.reqs, s.queue)
    ensures WF(s) && Leads(s, ChainOf(c, s.flags, s.reqs, s.queue), Run(c, s, s.queue[0]).0)
    decreases |s.queue|, 0
  {
    hide *;
    KnownHead(s.reqs, s.queue);
    if HeadResponse(c, s).Later? {
      UnansweredLeads(c, s);
    } else {
      var k, err := s.reqs[s.queue[0]].kind, HeadResponse(c, s).err;
      var l := AfterHead(c, s);
      FollowsMeans(c, s, l);
      ChainStep(c, s, l, err);
      RestLeads(c, l, k, err);
      AnsweredLeads(c, s, l, RestOf(c, k, err, l));
    }
  }

  lemma {:induction false} RestLeads(c: Config, l: State, k: Kind, err: int)
    requires c.policy.Repaired? && l.at.stack != [] && l.pending == 0 && Inv(l) && Known(l.reqs, l.queue)
    requires if FailedOpen(k, err) then AllMarked(l, err) && l.flags.needsOpen && !l.flags.isOpen else Drainable(l)
    ensures WF(l) && Leads(l, RestOf(c, k, err, l), Drain(c, l, k))
    decreases |l.queue|, 2
  {
    hide Inv, AllMarked, Drainable, Leads, Drain;
    if FailedOpen(k, err) { FailingLeads(c, l, k, err); } else { DrainLeads(c, l, k); }
  }

  lemma {:induction false} DrainLeads(c: Config, s: State, k: Kind)
    requires c.policy.Repaired? && Drainable(s) && s.at.stack != []
    ensures Known(s.reqs, s.queue) && WF(s) && Leads(s, ChainOf(c, s.flags, s.reqs, s.queue), Drain(c, s, k))
    decreases |s.queue|, 1
  {
    DrainableKnown(s);
    if s.queue == [] {
      hide Drainable, Leads;
      StandsLeads(s, s, ChainOf(c, s.flags, s.reqs, s.queue));
    } else {
      DrainableHead(s);
      assert Drained(Run(c, s, s.queue[0]).0) by { RunKeeps(c, s, s.queue[0]); }
      DrainableIdle(s);
      hide *;
      DrainOnce(c, s, k);
      HeadLeads(c, s);
    }
  }

  lemma DrainableKnown(s: State)
    requires Drainable(s)
    ensures Known(s.reqs, s.queue) && WF(s)
  {
    forall i | 0 <= i < |s.queue| ensures s.queue[i] in s.reqs { assert s.queue[i] in s.queue; }
  }

  lemma {:induction false} ChainSame(c: Config, f: Flags, a: map<Id, Req>, b: map<Id, Req>, q: seq<Id>)
    requires Known(a, q) && Known(b, q) && forall x :: x in a && x in b ==> a[x].kind == b[x].kind
    ensures ChainOf(c, f, a, q) == ChainOf(c, f, b, q)
    decreases |q|
  {
    if q != [] {
      var k := a[q[0]].kind;
      var r := Response(c, f, k, q[0]);
      if r.Now? { ChainSame(c, SettleFlags(f, k, r.err), a, b, q[1..]); }
    }
  }

  /** Only an open that fails makes requests leave out of turn, and then all of them leave. */
  lemma {:induction false} OutOfTurn(c: Config, f: Flags, reqs: map<Id, Req>, q: seq<Id>)
    requires Known(reqs, q)
    ensures var r := ChainOf(c, f, reqs, q);
            r.turn < r.left ==> r.left == |q| && r.turn > 0 && reqs[q[r.turn - 1]].kind.Open?
    decreases |q|
  {
    if q != [] {
      var k := reqs[q[0]].kind;
      var a := Response(c, f, k, q[0]);
      if a.Now? && !FailedOpen(k, a.err) { OutOfTurn(c, SettleFlags(f, k, a.err), reqs, q[1..]); }
    }
  }

  /** A chain of completions calls the `done` functions of the requests that are run in turn in
      exactly the reverse of the order in which they leave the queue.  If one of these is an
      open that fails, the requests behind it leave too, and are told first, in their order. */
  lemma DrainUnwinds(c: Config, s: State, k: Kind)
    requires c.policy.Repaired? && Drainable(s) && s.at.stack != []
    ensures Known(s.reqs, s.queue) && WF(s)
    ensures var r := ChainOf(c, s.flags, s.reqs, s.queue); var t := Drain(c, s, k);
            && t.log.removed == s.log.removed + s.queue[..r.left]
            && t.log.dones == s.log.dones
                 + (WithDone(s.reqs, s.queue[r.turn..r.left]) + Reverse(WithDone(s.reqs, s.queue[..r.turn])))
            && (r.turn < r.left ==> t.queue == [] && r.turn > 0 && s.reqs[s.queue[r.turn - 1]].kind.Open?)
  {
    hide Drainable, Drain, WithDone, Reverse, ChainOf, HasDestroy, Released;
    DrainLeads(c, s, k);
    OutOfTurn(c, s.flags, s.reqs, s.queue);
  }

  // ------------------------------------------------ completions

  /** Requests that wait while `id` completes. */
  function Waiting(s: State, id: Id): seq<Id> { if IsHead(s, id) then s.queue[1..] else s.queue }

  /** The chain that the completion of `id` sets off. */
  function CompletionOf(c: Config, s: State, id: Id, err: int): (r: Chain)
    requires id in s.reqs && Known(s.reqs, Waiting(s, id))
    ensures r.turn <= r.left <= |Waiting(s, id)|
  {
    var k, q := s.reqs[id].kind, Waiting(s, id);
    var g := SettleFlags(s.flags, k, err);
    if s.pending != 1 then Chain(0, 0, g, Waits)
    else if FailedOpen(k, err) then Failing(g, q)
    else ChainOf(c, g, s.reqs, q)
  }

  /** `l` is `s` after request `id` has left with `err`. */
  ghost predicate Gone(s: State, l: State, id: Id, err: int)
    requires id in s.reqs
  {
    && Kept(s, l) && l.queue == Waiting(s, id) && l.flags == SettleFlags(s.flags, s.reqs[id].kind, err)
    && l.pending == Decrement(s.pending) && l.at.stalled == s.at.stalled - {id} && l.at.stack == s.at.stack + [id]
    && l.log.removed == s.log.removed + (if IsHead(s, id) then [id] else []) && l.log.ran == s.log.ran
    && l.log.dones == s.log.dones && l.mem.storage == s.mem.storage
  }

  lemma LeaveGone(s: State, id: Id, err: int, size: nat, foreign: bool)
    requires id in s.reqs && WF(s)
    ensures Gone(s, Leave(s, id, err, size, foreign), id, err)
  {
    LeaveKept(s, id, err, size, foreign);
  }

  /** `t` is where the completion of `id` leads from `s`. */
  ghost predicate Completes(s: State, id: Id, r: Chain, t: State)
    requires id in s.reqs && r.turn <= r.left <= |Waiting(s, id)|
  {
    var q, own := Waiting(s, id), s.reqs[id];
    && t.queue == q[r.left..] && t.flags == r.flags
    && t.pending == (if s.pending != 1 then s.pending - 1 else if r.stop.Emptied? then 0 else 1)
    && (r.stop.Stalls? ==> r.left < |q|)
    && t.at.stalled == s.at.stalled - {id} + (if r.stop.Stalls? then {q[r.left]} else {})
    && t.log.removed == s.log.removed + (if IsHead(s, id) then [id] else []) + q[..r.left]
    && t.log.dones == s.log.dones + DonesOf(s.reqs, q, r) + (if own.done then [id] else [])
    && var b := if HasDestroy(s.reqs, q[..r.left]) then Release(s.mem.storage, true) else s.mem.storage;
       t.mem.storage == if own.kind.Destroy? then Release(b, s.at.stack != []) else b
  }

  /** A completion while something else is in flight goes no further. */
  lemma CallbackAmid(c: Config, s: State, id: Id, err: int, size: nat, foreign: bool)
    requires WF(s) && id in s.reqs && 1 < s.pending < INT_MIN && (s.reqs[id].kind.Destroy? ==> Waiting(s, id) == [])
    ensures var l := Leave(s, id, err, size, foreign);
            Gone(s, l, id, err) && Ended(l, Callback(c, s, id, err, size, foreign).0, id, s.reqs[id])
  {
    var l := Leave(s, id, err, size, foreign);
    LeaveGone(s, id, err, size, foreign);
    hide Leave, Finish, SettleFlags, Release;
    CallbackIs(c, s, id, err, size, foreign);
    Ends(l, id, s.reqs[id], err, s.flags.isClosed, IsHead(s, id));
  }

  /** With something else in flight the two loops are not reached. */
  lemma AmidAgrees(c: Config, s: State, id: Id, err: int, size: nat, foreign: bool)
    requires WF(s) && id in s.reqs && s.pending > 1
    ensures Callback(c, s, id, err, size, foreign) == Callback(Repair(c), s, id, err, size, foreign)
  {
    LeavePending(s, id, err, size, foreign);
    hide Leave, Finish, Drain;
  }

  lemma AmidCompletes(c: Config, s: State, l: State, t: State, id: Id, err: int)
    requires id in s.reqs && s.pending > 1 && Known(s.reqs, Waiting(s, id))
    requires Gone(s, l, id, err) && Ended(l, t, id, s.reqs[id])
    ensures Completes(s, id, CompletionOf(c, s, id, err), t)
  {
    var q := Waiting(s, id);
    assert q[0..] == q && q[..0] == [] && q[0..0] == [];
    NoneDestroys(s.reqs);
    hide HasDestroy, Release, SettleFlags;
  }

  lemma DrainedCompletes(s: State, l: State, d: State, t: State, id: Id, err: int, r: Chain)
    requires id in s.reqs && s.pending == 1 && r.turn <= r.left <= |l.queue|
    requires Gone(s, l, id, err) && Leads(l, r, d) && d.at.stack == l.at.stack && Ended(d, t, id, s.reqs[id])
    ensures Completes(s, id, r, t)
  {
    DonesSame(l.reqs, s.reqs, l.queue, r);
    HasDestroySame(l.reqs, s.reqs, l.queue[..r.left]);
    hide HasDestroy, Release, SettleFlags, DonesOf;
  }

  lemma HasDestroySame(a: map<Id, Req>, b: map<Id, Req>, q: seq<Id>)
    requires a.Keys == b.Keys && forall x :: x in a ==> a[x].kind == b[x].kind
    ensures HasDestroy(a, q) <==> HasDestroy(b, q)
  {
  }

  /** What the completion of the last request in flight leaves to the drain. */
  lemma LastLeaves(s: State, id: Id, err: int, size: nat, foreign: bool)
    requires Inv(s) && Clean(s) && id in s.at.inFlight && id in s.reqs && s.pending == 1
    ensures var l := Leave(s, id, err, size, foreign);
            && Inv(l) && (s.reqs[id].kind.Destroy? ==> l.queue == [])
            && if FailedOpen(s.reqs[id].kind, err) then AllMarked(l, err) && l.flags.needsOpen && !l.flags.isOpen
               else Drainable(l)
  {
    hide Fifo, DoneOnce, Accounted, FlagsOk, Leave, ClosedIdle, ClosedIdleBut;
    InFlightStatus(s, id);
    InvParts(s, id);
    LeaveKeeps(s, id, err, size, foreign);
    LeaveKept(s, id, err, size, foreign);
    LeavePending(s, id, err, size, foreign);
    if IsHead(s, id) { HeadIsOnce(s); }
    if FailedOpen(s.reqs[id].kind, err) {
      FailedOpenMarks(s, id, err, size, foreign);
    } else {
      LeaveClean(s, id, err, size, foreign);
    }
  }

  lemma CompletionStatus(s: State, id: Id)
    requires Inv(s) && id in s.at.inFlight
    ensures id in s.reqs && WF(s) && Known(s.reqs, Waiting(s, id)) && 1 <= s.pending < INT_MIN
    ensures s.reqs[id].kind.Destroy? ==> Waiting(s, id) == []
  {
    InFlightStatus(s, id);
    forall i | 0 <= i < |s.queue| ensures s.queue[i] in s.reqs { assert s.queue[i] in s.queue; }
  }

  /** The recursion behind a completion refines the plain recursion of ChainOf: who leaves the
      queue, in what order `done` functions are called, what the flags become, whether a
      request is left to wait for nothing, and what becomes of the storage. */
  lemma CompletionIs(c: Config, s: State, id: Id, err: int, size: nat, foreign: bool)
    requires c.policy.Repaired? && Inv(s) && Clean(s) && id in s.at.inFlight
    ensures id in s.reqs && WF(s) && Known(s.reqs, Waiting(s, id))
    ensures Completes(s, id, CompletionOf(c, s, id, err), Callback(c, s, id, err, size, foreign).0)
  {
    hide *;
    CompletionStatus(s, id);
    var l := Leave(s, id, err, size, foreign);
    var t := Callback(c, s, id, err, size, foreign).0;
    if s.pending > 1 {
      CallbackAmid(c, s, id, err, size, foreign);
      AmidCompletes(c, s, l, t, id, err);
    } else {
      LastCompletes(c, s, id, err, size, foreign);
    }
  }

  lemma LastCompletes(c: Config, s: State, id: Id, err: int, size: nat, foreign: bool)
    requires c.policy.Repaired? && Inv(s) && Clean(s) && id in s.at.inFlight && s.pending == 1
    requires id in s.reqs && WF(s) && Known(s.reqs, Waiting(s, id))
    ensures Completes(s, id, CompletionOf(c, s, id, err), Callback(c, s, id, err, size, foreign).0)
  {
    hide *;
    var k := s.reqs[id].kind;
    var l := Leave(s, id, err, size, foreign);
    LastLeaves(s, id, err, size, foreign);
    LeaveGone(s, id, err, size, foreign);
    GoneMeans(c, s, l, id, err);
    RestLeads(c, l, k, err);
    CallbackDrains(c, s, id, err, size, foreign);
    var d := Drain(c, l, k);
    LeadsMeans(c, l, RestOf(c, k, err, l), k);
    Ends(d, id, s.reqs[id], err, s.flags.isClosed, IsHead(s, id));
    DrainedCompletes(s, l, d, Callback(c, s, id, err, size, foreign).0, id, err, RestOf(c, k, err, l));
  }

  lemma GoneMeans(c: Config, s: State, l: State, id: Id, err: int)
    requires id in s.reqs && Gone(s, l, id, err) && s.pending == 1 && Known(s.reqs, Waiting(s, id))
    ensures l.pending == 0 && l.at.stack != [] && Known(l.reqs, l.queue) && l.queue == Waiting(s, id)
    ensures RestOf(c, s.reqs[id].kind, err, l) == CompletionOf(c, s, id, err)
  {
    ChainSame(c, l.flags, l.reqs, s.reqs, l.queue);
  }

  lemma LeadsMeans(c: Config, s: State, r: Chain, k: Kind)
    requires WF(s) && r.turn <= r.left <= |s.queue| && Leads(s, r, Drain(c, s, k))
    ensures var t := Drain(c, s, k);
            t.pending < INT_MIN && (s.queue == [] ==> t.queue == []) && t.at.stack == s.at.stack
  {
  }

  /** A destroy is among the requests that the completion of `id` takes off the queue, so that
      its callback runs inside the callback of `id`. */
  ghost predicate TakesDestroy(c: Config, s: State, id: Id, err: int)
    requires id in s.reqs && Known(s.reqs, Waiting(s, id))
  {
    HasDestroy(s.reqs, Waiting(s, id)[..CompletionOf(c, s, id, err).left])
  }

  /** A completion releases the storage under its own callback, or under that of a request it
      sets off, exactly when it takes a destroy off the queue.  The destroy itself is safe. */
  lemma ReleasedUnderIff(c: Config, s: State, id: Id, err: int, size: nat, foreign: bool)
    requires c.policy.Repaired? && Inv(s) && Clean(s) && id in s.at.inFlight && s.mem.storage.held
    ensures id in s.reqs && WF(s) && Known(s.reqs, Waiting(s, id))
    ensures var b := Callback(c, s, id, err, size, foreign).0.mem.storage; var r := s.reqs[id];
            && (b.held <==> !r.kind.Destroy? && !TakesDestroy(c, s, id, err))
            && (b.dangling <==>
                  s.mem.storage.dangling || TakesDestroy(c, s, id, err) || (r.kind.Destroy? && s.at.stack != []))
  {
    assert Known(s.reqs, Waiting(s, id)) && id in s.reqs && (s.reqs[id].kind.Destroy? ==> Waiting(s, id) == []) by {
      CompletionStatus(s, id);
    }
    hide Inv, Clean, Callback, HasDestroy, CompletionOf, DonesOf;
    CompletionIs(c, s, id, err, size, foreign);
    NoneDestroys(s.reqs);
  }
}
