/** What the scheduler does, read off from the order in which requests are started and callbacks
    begin and end: which requests the backend is handed and what becomes of the others, the
    flags, the events, the calls of `done`, the requests in flight and the allocations.  All of
    it holds of every run, of the code as written too, and is stated from the requests' kinds,
    the errors passed and the operations offered. */
module Traces {
  import opened Protocol
  import opened Invariant
  import opened Steady
  import opened Outcomes
  import opened Runs
  import opened Theorems

  type Trace = seq<Moment>

  predicate Data(k: Kind) { k.Read? || k.Write? || k.Delete? || k.Stat? }

  // ---------------------------------------------------------------- the flags

  /** A request of this kind is called back with success. */
  predicate Succeeds(m: Moment, k: Kind) { m.Beginning? && m.kind == k && m.err == 0 }

  predicate FailsToOpen(m: Moment) { m.Beginning? && m.kind == Open && m.err != 0 }

  ghost predicate Succeeded(tr: Trace, k: Kind) { exists i :: 0 <= i < |tr| && Succeeds(tr[i], k) }

  /** An open has succeeded, and none has failed after it. */
  ghost predicate Opened(tr: Trace) {
    exists i :: 0 <= i < |tr| && Succeeds(tr[i], Open) && forall j :: i < j < |tr| ==> !FailsToOpen(tr[j])
  }

  /** Nor has the first close to succeed done so after it. */
  ghost predicate StillOpen(tr: Trace) {
    exists i :: 0 <= i < |tr| && Succeeds(tr[i], Open) && HoldsOpen(tr, i)
  }

  ghost predicate HoldsOpen(tr: Trace, i: nat)
    requires i < |tr|
  {
    forall j :: i < j < |tr| ==> !FailsToOpen(tr[j]) && (Succeeds(tr[j], Close) ==> Succeeded(tr[..i], Close))
  }

  ghost predicate FlagsTell(f: Flags, tr: Trace) {
    && (f.isDestroyed <==> Succeeded(tr, Destroy)) && (f.isClosed <==> Succeeded(tr, Close))
    && (f.needsOpen <==> !Opened(tr)) && (f.isOpen <==> StillOpen(tr))
  }

  lemma SucceededNext(tr: Trace, m: Moment, k: Kind)
    ensures Succeeded(tr + [m], k) <==> Succeeded(tr, k) || Succeeds(m, k)
  {
    var t := tr + [m];
    if i :| 0 <= i < |tr| && Succeeds(tr[i], k) { assert Succeeds(t[i], k); }
    if Succeeds(m, k) { assert Succeeds(t[|tr|], k); }
  }

  lemma OpenedNext(tr: Trace, m: Moment)
    ensures Opened(tr + [m]) <==> Succeeds(m, Open) || (Opened(tr) && !FailsToOpen(m))
  {
    var t := tr + [m];
    if Succeeds(m, Open) { assert Succeeds(t[|tr|], Open); }
    if i :| 0 <= i < |tr| && Succeeds(tr[i], Open) && forall j :: i < j < |tr| ==> !FailsToOpen(tr[j]) {
      assert Succeeds(t[i], Open);
    }
    if Opened(t) && !Succeeds(m, Open) {
      var i :| 0 <= i < |t| && Succeeds(t[i], Open) && forall j :: i < j < |t| ==> !FailsToOpen(t[j]);
      assert t[|tr|] == m && forall j :: i < j < |tr| ==> tr[j] == t[j];
      assert Succeeds(tr[i], Open);
    }
  }

  lemma HoldsNext(tr: Trace, m: Moment, i: nat)
    requires i < |tr|
    ensures HoldsOpen(tr + [m], i)
       <==> HoldsOpen(tr, i) && !FailsToOpen(m) && (Succeeds(m, Close) ==> Succeeded(tr[..i], Close))
  {
    var t := tr + [m];
    assert t[..i] == tr[..i] && t[|tr|] == m;
    if HoldsOpen(t, i) {
      forall j | i < j < |tr|
        ensures !FailsToOpen(tr[j]) && (Succeeds(tr[j], Close) ==> Succeeded(tr[..i], Close))
      {
        assert t[j] == tr[j];
      }
    }
  }

  lemma SucceededEarlier(tr: Trace, i: nat, k: Kind)
    requires i <= |tr| && Succeeded(tr[..i], k)
    ensures Succeeded(tr, k)
  {
    var j :| 0 <= j < i && Succeeds(tr[..i][j], k);
    assert Succeeds(tr[j], k);
  }

  /** If a close had succeeded before, it had done so before every open that still holds. */
  lemma ClosedBefore(tr: Trace, i: nat)
    requires i < |tr| && Succeeds(tr[i], Open) && HoldsOpen(tr, i) && Succeeded(tr, Close)
    ensures Succeeded(tr[..i], Close)
  {
    var j :| 0 <= j < |tr| && Succeeds(tr[j], Close);
    if j < i { assert Succeeds(tr[..i][j], Close); }
  }

  lemma StillOpenNext(tr: Trace, m: Moment)
    ensures StillOpen(tr + [m])
       <==> Succeeds(m, Open) || (StillOpen(tr) && !FailsToOpen(m) && (Succeeds(m, Close) ==> Succeeded(tr, Close)))
  {
    var t := tr + [m];
    assert t[|tr|] == m;
    if Succeeds(m, Open) { assert HoldsOpen(t, |tr|); }
    if StillOpen(t) && !Succeeds(m, Open) {
      var i :| 0 <= i < |t| && Succeeds(t[i], Open) && HoldsOpen(t, i);
      assert t[i] == tr[i];
      HoldsNext(tr, m, i);
      if Succeeds(m, Close) { SucceededEarlier(tr, i, Close); }
    }
    if StillOpen(tr) && !FailsToOpen(m) && (Succeeds(m, Close) ==> Succeeded(tr, Close)) {
      var i :| 0 <= i < |tr| && Succeeds(tr[i], Open) && HoldsOpen(tr, i);
      if Succeeds(m, Close) { ClosedBefore(tr, i); }
      HoldsNext(tr, m, i);
      assert Succeeds(t[i], Open);
    }
  }

  lemma StillOpened(tr: Trace)
    requires StillOpen(tr)
    ensures Opened(tr)
  {
  }

  /** The completion's flags are those that the trace tells once its callback has begun. */
  lemma SettledTell(f: Flags, tr: Trace, m: Moment)
    requires FlagsTell(f, tr) && m.Beginning?
    ensures FlagsTell(SettleFlags(f, m.kind, m.err), tr + [m])
  {
    if StillOpen(tr) { StillOpened(tr); }
    SucceededNext(tr, m, Destroy);
    SucceededNext(tr, m, Close);
    OpenedNext(tr, m);
    StillOpenNext(tr, m);
    hide Succeeded, Opened, StillOpen;
  }

  lemma SameTell(f: Flags, tr: Trace, m: Moment)
    requires FlagsTell(f, tr) && !m.Beginning?
    ensures FlagsTell(f, tr + [m])
  {
    SucceededNext(tr, m, Destroy);
    SucceededNext(tr, m, Close);
    OpenedNext(tr, m);
    StillOpenNext(tr, m);
    hide Succeeded, Opened, StillOpen;
  }

  // ---------------------------------------------------------------- what follows from each moment

  /** The backend is handed a request of this kind that is started under these flags. */
  predicate Served(c: Config, k: Kind, f: Flags) {
    match k
    case Open => !f.isOpen && (c.openReadOnly || Open in c.ops)
    case Close => f.isOpen && !f.isClosed && Close in c.ops
    case Destroy => !f.isDestroyed && Destroy in c.ops
    case _ => f.isOpen && !f.isClosed && k in c.ops
  }

  /** Nobody ever calls it back. */
  predicate Stranded(k: Kind, f: Flags) { Data(k) && !(f.isOpen && !f.isClosed) }

  function InvokedBy(c: Config, m: Moment): seq<Call> {
    if m.Starting? && Served(c, m.kind, m.flags) then [Call(m.id, m.kind, m.flags)] else []
  }

  function EventOf(err: int, success: Event): Event { if err == 0 then success else ErrorEvent(err) }

  /** An open announces its outcome when its callback begins, unless the storage is destroyed; a
      close when its callback ends, unless the storage was closed before it or is destroyed. */
  function AnnouncedBy(m: Moment): seq<Event> {
    if m.Beginning? && m.kind == Open && !m.flags.isDestroyed then [EventOf(m.err, OpenEvent)]
    else if m.Ending? && m.kind == Close && !m.wasClosed && !m.flags.isDestroyed then [EventOf(m.err, CloseEvent)]
    else []
  }

  function NotifiedBy(m: Moment): seq<Id> { if m.Ending? && m.done then [m.id] else [] }

  /** Buffers that a stat, a read of at least one byte and a backend's own value need. */
  function AllocatedBy(m: Moment): nat {
    match m
    case Starting(_, kind, size, _) => if kind == Stat || (kind == Read && size > 0) then 1 else 0
    case Beginning(_, kind, _, _, foreign, _) => if kind == Read && foreign then 1 else 0
    case Ending(_, _, _, _, _, _) => 0
  }

  function Invoked(c: Config, tr: Trace): seq<Call> {
    if tr == [] then [] else Invoked(c, tr[..|tr| - 1]) + InvokedBy(c, tr[|tr| - 1])
  }

  function Announced(tr: Trace): seq<Event> {
    if tr == [] then [] else Announced(tr[..|tr| - 1]) + AnnouncedBy(tr[|tr| - 1])
  }

  function Notified(tr: Trace): seq<Id> {
    if tr == [] then [] else Notified(tr[..|tr| - 1]) + NotifiedBy(tr[|tr| - 1])
  }

  function Allocated(tr: Trace): nat {
    if tr == [] then 0 else Allocated(tr[..|tr| - 1]) + AllocatedBy(tr[|tr| - 1])
  }

  /** Started and not called back since */
  function Going(tr: Trace): set<Id> {
    if tr == [] then {}
    else
      var before, m := Going(tr[..|tr| - 1]), tr[|tr| - 1];
      if m.Starting? then before + {m.id} else if m.Beginning? then before - {m.id} else before
  }

  /** Stranded and not called back since */
  function Stuck(tr: Trace): set<Id> {
    if tr == [] then {}
    else
      var before, m := Stuck(tr[..|tr| - 1]), tr[|tr| - 1];
      if m.Starting? && Stranded(m.kind, m.flags) then before + {m.id}
      else if m.Beginning? then before - {m.id} else before
  }

  function Begun(tr: Trace): set<Id> { set i | 0 <= i < |tr| && tr[i].Beginning? :: tr[i].id }

  lemma {:induction false} TraceNext(c: Config, tr: Trace, m: Moment)
    ensures Invoked(c, tr + [m]) == Invoked(c, tr) + InvokedBy(c, m)
    ensures Announced(tr + [m]) == Announced(tr) + AnnouncedBy(m) && Notified(tr + [m]) == Notified(tr) + NotifiedBy(m)
    ensures Allocated(tr + [m]) == Allocated(tr) + AllocatedBy(m)
    ensures Going(tr + [m])
         == if m.Starting? then Going(tr) + {m.id} else if m.Beginning? then Going(tr) - {m.id} else Going(tr)
    ensures Stuck(tr + [m])
         == if m.Starting? && Stranded(m.kind, m.flags) then Stuck(tr) + {m.id}
            else if m.Beginning? then Stuck(tr) - {m.id} else Stuck(tr)
    ensures Begun(tr + [m]) == Begun(tr) + if m.Beginning? then {m.id} else {}
  {
    var t := tr + [m];
    assert t[..|t| - 1] == tr && t[|t| - 1] == m;
    assert forall i :: 0 <= i < |tr| ==> t[i] == tr[i];
    forall x ensures x in Begun(t) <==> x in Begun(tr) || (m.Beginning? && x == m.id) {
      if x in Begun(tr) {
        var i :| 0 <= i < |tr| && tr[i].Beginning? && tr[i].id == x;
        assert t[i].Beginning?;
      }
    }
  }

  /** What must come next: the callback of a request that its backend answers at once, and of
      one that is answered without the backend: with 0, or for data with ENOSYS. */
  function Owed(c: Config, m: Moment): seq<Moment> {
    if !m.Starting? || Stranded(m.kind, m.flags) then []
    else if !Served(c, m.kind, m.flags) then
      [Beginning(m.id, m.kind, if Data(m.kind) then ENOSYS else 0, 0, false, m.flags)]
    else
      match c.reply(m.id)
      case Later => []
      case Now(err, size, foreign) => [Beginning(m.id, m.kind, err, size, foreign, m.flags)]
  }

  ghost predicate Prompt(c: Config, tr: Trace) { forall i :: 0 <= i < |tr| ==> PromptAt(c, tr, i) }

  ghost predicate PromptAt(c: Config, tr: Trace, i: nat)
    requires i < |tr|
  {
    Owed(c, tr[i]) == [] || (i + 1 < |tr| && Owed(c, tr[i]) == [tr[i + 1]])
  }

  /** Each moment's flags are what the trace before it tells. */
  ghost predicate Dated(tr: Trace) { forall i :: 0 <= i < |tr| ==> FlagsTell(tr[i].flags, tr[..i]) }

  /** What ends has begun, with the same error and the flag that it sampled then. */
  ghost predicate Paired(tr: Trace) {
    forall j :: 0 <= j < |tr| && tr[j].Ending? ==> exists i :: 0 <= i < j && Begins(tr[i], tr[j])
  }

  predicate Begins(m: Moment, n: Moment)
    requires n.Ending?
  {
    m.Beginning? && m.id == n.id && m.kind == n.kind && m.err == n.err && m.flags.isClosed == n.wasClosed
  }

  /** The flags, what the backend has been handed, the events, the calls of `done`, the requests
      in flight, stalled and called back, and the number of allocations are those of the trace. */
  ghost predicate Tells(c: Config, s: State) {
    TellsFlags(s.flags, s.log.trace) && TellsLogs(c, s) && TellsRequests(s.reqs, s.next, s.log.trace)
  }

  /** The moments are those of issued requests. */
  ghost predicate TellsRequests(reqs: map<Id, Req>, next: Id, tr: Trace) {
    && (forall x :: x in reqs ==> x < next)
    && forall i :: 0 <= i < |tr| ==> OfRequest(reqs, tr[i])
  }

  predicate OfRequest(reqs: map<Id, Req>, m: Moment) {
    m.id in reqs && m.kind == reqs[m.id].kind && (m.Ending? ==> m.done == reqs[m.id].done)
  }

  /** Requests stay, with the same kind and `done`. */
  ghost predicate Kindred(a: map<Id, Req>, b: map<Id, Req>) {
    forall x :: x in a ==> x in b && b[x].kind == a[x].kind && b[x].done == a[x].done
  }

  ghost predicate TellsFlags(f: Flags, tr: Trace) { FlagsTell(f, tr) && Dated(tr) && Paired(tr) }

  ghost predicate TellsLogs(c: Config, s: State) {
    var tr := s.log.trace;
    && s.log.calls == Invoked(c, tr) && s.log.events == Announced(tr) && s.log.dones == Notified(tr)
    && s.at.inFlight == Going(tr) && s.at.stalled == Stuck(tr) && s.at.called == Begun(tr)
    && s.mem.allocs == (if s.mem.storage.heap then 1 else 0) + s.next + Allocated(tr)
  }

  ghost predicate Traced(c: Config, s: State) { Tells(c, s) && Prompt(c, s.log.trace) }

  // ---------------------------------------------------------------- the steps

  /** `t` is `s` as far as the trace tells. */
  ghost predicate Alike(s: State, t: State) {
    && t.flags == s.flags && t.next == s.next && t.at.inFlight == s.at.inFlight && t.at.stalled == s.at.stalled
    && t.at.called == s.at.called && t.mem.storage.heap == s.mem.storage.heap && t.mem.allocs == s.mem.allocs
    && t.log.calls == s.log.calls && t.log.events == s.log.events && t.log.dones == s.log.dones
    && t.log.trace == s.log.trace && t.reqs.Keys == s.reqs.Keys && Kindred(s.reqs, t.reqs)
  }

  lemma KindredTells(a: map<Id, Req>, b: map<Id, Req>, was: Id, next: Id, tr: Trace)
    requires TellsRequests(a, was, tr) && Kindred(a, b) && was <= next && forall x :: x in b ==> x in a || x < next
    ensures TellsRequests(b, next, tr)
  {
  }

  lemma AlikeTells(c: Config, s: State, t: State)
    requires Alike(s, t)
    ensures Tells(c, s) ==> Tells(c, t)
    ensures Traced(c, s) ==> Traced(c, t)
  {
    if Tells(c, s) { KindredTells(s.reqs, t.reqs, s.next, s.next, s.log.trace); }
    hide TellsRequests, Kindred, FlagsTell, Dated, Paired, Prompt;
    hide Invoked, Announced, Notified, Going, Stuck, Begun, Allocated;
  }

  lemma {:induction false} DatedNext(tr: Trace, m: Moment)
    requires Dated(tr) && FlagsTell(m.flags, tr)
    ensures Dated(tr + [m])
  {
    var t := tr + [m];
    forall i | 0 <= i < |t| ensures FlagsTell(t[i].flags, t[..i]) {
      assert t[..i] == tr[..i];
      assert tr[..|tr|] == tr;
    }
  }

  lemma PairedNext(tr: Trace, m: Moment)
    requires Paired(tr) && (m.Ending? ==> exists i :: 0 <= i < |tr| && Begins(tr[i], m))
    ensures Paired(tr + [m])
  {
    var t := tr + [m];
    forall j | 0 <= j < |t| && t[j].Ending? ensures exists i :: 0 <= i < j && Begins(t[i], t[j]) {
      if j < |tr| {
        var i :| 0 <= i < j && Begins(tr[i], tr[j]);
        assert Begins(t[i], t[j]);
      } else {
        var i :| 0 <= i < |tr| && Begins(tr[i], m);
        assert Begins(t[i], t[j]);
      }
    }
  }

  /** From `s` to `t` the trace goes on with `m`, and the rest with what belongs to it. */
  ghost predicate Adds(c: Config, s: State, t: State, m: Moment) {
    && t.log.trace == s.log.trace + [m] && t.next == s.next && t.mem.storage.heap == s.mem.storage.heap
    && t.log.calls == s.log.calls + InvokedBy(c, m) && t.log.events == s.log.events + AnnouncedBy(m)
    && t.log.dones == s.log.dones + NotifiedBy(m) && t.mem.allocs == s.mem.allocs + AllocatedBy(m)
    && t.at.inFlight
       == (if m.Starting? then s.at.inFlight + {m.id}
           else if m.Beginning? then s.at.inFlight - {m.id} else s.at.inFlight)
    && t.at.stalled
       == (if m.Starting? && Stranded(m.kind, m.flags) then s.at.stalled + {m.id}
           else if m.Beginning? then s.at.stalled - {m.id} else s.at.stalled)
    && t.at.called == s.at.called + (if m.Beginning? then {m.id} else {})
    && t.reqs.Keys == s.reqs.Keys && Kindred(s.reqs, t.reqs) && OfRequest(t.reqs, m)
    && m.flags == s.flags && t.flags == (if m.Beginning? then SettleFlags(s.flags, m.kind, m.err) else s.flags)
  }

  lemma AddsLogs(c: Config, s: State, t: State, m: Moment)
    requires TellsLogs(c, s) && Adds(c, s, t, m)
    ensures TellsLogs(c, t)
  {
    TraceNext(c, s.log.trace, m);
    hide Invoked, Announced, Notified, Going, Stuck, Begun, Allocated;
    hide Stranded, InvokedBy, AnnouncedBy, NotifiedBy, AllocatedBy, SettleFlags;
  }

  lemma AddsFlags(f: Flags, tr: Trace, m: Moment)
    requires TellsFlags(f, tr) && m.flags == f && (m.Ending? ==> exists i :: 0 <= i < |tr| && Begins(tr[i], m))
    ensures TellsFlags(if m.Beginning? then SettleFlags(f, m.kind, m.err) else f, tr + [m])
  {
    hide FlagsTell, Dated, Paired, SettleFlags, Begins;
    DatedNext(tr, m);
    PairedNext(tr, m);
    if m.Beginning? { SettledTell(f, tr, m); } else { SameTell(f, tr, m); }
  }

  lemma AddsTells(c: Config, s: State, t: State, m: Moment)
    requires Tells(c, s) && Adds(c, s, t, m)
    requires m.Ending? ==> exists i :: 0 <= i < |s.log.trace| && Begins(s.log.trace[i], m)
    ensures Tells(c, t)
  {
    assert TellsRequests(t.reqs, t.next, t.log.trace) by { KindredTells(s.reqs, t.reqs, s.next, s.next, s.log.trace); }
    hide TellsLogs, TellsFlags, TellsRequests, Begins, SettleFlags;
    AddsLogs(c, s, t, m);
    AddsFlags(s.flags, s.log.trace, m);
  }

  lemma FlagsTold(f: Flags, tr: Trace)
    requires FlagsTell(f, tr)
    ensures !(f.isOpen && f.needsOpen)
  {
    if StillOpen(tr) { StillOpened(tr); }
  }

  /** Where the switch sends a request. */
  lemma RouteTells(c: Config, f: Flags, k: Kind)
    requires !(f.isOpen && f.needsOpen)
    ensures RouteOf(c, f, k)
         == if Stranded(k, f) then Nowhere else if Served(c, k, f) then Backend
            else Immediate(if Data(k) then ENOSYS else 0)
  {
  }

  function StartOf(s: State, id: Id): Moment
    requires id in s.reqs
  {
    Starting(id, s.reqs[id].kind, s.reqs[id].size, s.flags)
  }

  /** The state after a start, with what the switch does before any callback. */
  function Dispatched(c: Config, s: State, id: Id): State
    requires id in s.reqs
  {
    if RouteOf(c, s.flags, s.reqs[id].kind).Nowhere? then Stall(Handed(c, s, id), id) else Handed(c, s, id)
  }

  lemma DispatchedAdds(c: Config, s: State, id: Id)
    requires id in s.reqs && !(s.flags.isOpen && s.flags.needsOpen)
    ensures Adds(c, s, Dispatched(c, s, id), StartOf(s, id))
  {
    RouteTells(c, s.flags, s.reqs[id].kind);
    hide Served, Stranded, RouteOf;
  }

  lemma DispatchedTells(c: Config, s: State, id: Id)
    requires Tells(c, s) && id in s.reqs
    ensures Tells(c, Dispatched(c, s, id)) && Dispatched(c, s, id).log.trace == s.log.trace + [StartOf(s, id)]
  {
    FlagsTold(s.flags, s.log.trace);
    hide Tells, Dispatched, FlagsTell, Begins;
    DispatchedAdds(c, s, id);
    AddsTells(c, s, Dispatched(c, s, id), StartOf(s, id));
  }

  function BeginOf(s: State, id: Id, err: int, size: nat, foreign: bool): Moment
    requires id in s.reqs
  {
    Beginning(id, s.reqs[id].kind, err, size, foreign, s.flags)
  }

  lemma LeaveAdds(c: Config, s: State, id: Id, err: int, size: nat, foreign: bool)
    requires id in s.reqs
    ensures Adds(c, s, Leave(s, id, err, size, foreign), BeginOf(s, id, err, size, foreign))
  {
  }

  lemma LeaveTells(c: Config, s: State, id: Id, err: int, size: nat, foreign: bool)
    requires Tells(c, s) && id in s.reqs
    ensures var t := Leave(s, id, err, size, foreign);
            Tells(c, t) && t.log.trace == s.log.trace + [BeginOf(s, id, err, size, foreign)]
  {
    hide Tells, Leave, SettleFlags, Begins;
    LeaveAdds(c, s, id, err, size, foreign);
    AddsTells(c, s, Leave(s, id, err, size, foreign), BeginOf(s, id, err, size, foreign));
  }

  lemma AfterAdds(s: State, id: Id, r: Req, err: int, announce: bool)
    ensures var t := After(s, id, r, err, announce);
            && t.log.(events := s.log.events) == s.log && t.flags == s.flags && t.next == s.next && t.at == s.at
            && t.log.events == s.log.events + (if r.kind.Close? && announce then [EventOf(err, CloseEvent)] else [])
            && t.mem.allocs == s.mem.allocs && t.mem.storage.heap == s.mem.storage.heap
  {
  }

  lemma FinishAdds(c: Config, s: State, id: Id, r: Req, err: int, wasClosed: bool, needsFree: bool)
    requires s.at.stack != [] && id in s.reqs && s.reqs[id].kind == r.kind && s.reqs[id].done == r.done
    ensures Adds(c, s, Finish(s, id, r, err, wasClosed, needsFree), Ending(id, r.kind, err, r.done, wasClosed, s.flags))
  {
    AfterAdds(Tell(s, id, r, err, wasClosed), id, r, err, !wasClosed && !s.flags.isDestroyed);
    hide After, EventOf;
  }

  // ---------------------------------------------------------------- the recursion

  /** Nothing is owed but `b`, which comes next. */
  ghost predicate Due(c: Config, tr: Trace, b: Moment) {
    forall i :: 0 <= i < |tr| ==> Owed(c, tr[i]) == [] || Owed(c, tr[i]) == [(tr + [b])[i + 1]]
  }

  lemma PromptDue(c: Config, tr: Trace, b: Moment)
    requires Prompt(c, tr)
    ensures Due(c, tr, b)
  {
    hide Owed;
    forall i | 0 <= i < |tr| ensures Owed(c, tr[i]) == [] || Owed(c, tr[i]) == [(tr + [b])[i + 1]] {
      assert PromptAt(c, tr, i);
    }
  }

  lemma DueNext(c: Config, tr: Trace, b: Moment)
    requires Due(c, tr, b) && Owed(c, b) == []
    ensures Prompt(c, tr + [b])
  {
    hide Owed;
    var t := tr + [b];
    forall i | 0 <= i < |t| ensures PromptAt(c, t, i) {
      if i < |tr| { assert t[i] == tr[i]; }
    }
  }

  lemma PromptNext(c: Config, tr: Trace, m: Moment, b: Moment)
    requires Prompt(c, tr) && (Owed(c, m) == [] || Owed(c, m) == [b])
    ensures Due(c, tr + [m], b)
  {
    hide Owed;
    var t := tr + [m];
    forall i | 0 <= i < |t| ensures Owed(c, t[i]) == [] || Owed(c, t[i]) == [(t + [b])[i + 1]] {
      if i < |tr| { assert t[i] == tr[i] && PromptAt(c, tr, i); }
    }
  }

  lemma PromptSame(c: Config, tr: Trace, m: Moment)
    requires Prompt(c, tr) && Owed(c, m) == []
    ensures Prompt(c, tr + [m])
  {
    PromptDue(c, tr, m);
    DueNext(c, tr, m);
  }

  /** The trace goes on with `m`. */
  ghost predicate GoesOn(s: State, m: Moment, t: State) { s.log.trace + [m] <= t.log.trace }

  ghost function FirstOf(s: State, id: Id): Moment
    requires id in s.reqs
  {
    if s.reqs[id].err != 0 then BeginOf(s, id, s.reqs[id].err, 0, false) else StartOf(s, id)
  }

  lemma PushAlike(s: State, id: Id)
    requires id in s.reqs
    ensures Alike(s, Push(s, id))
  {
  }

  lemma SetErrAlike(s: State, id: Id, err: int)
    requires id in s.reqs
    ensures Alike(s, SetErr(s, id, err))
  {
  }

  lemma ClampAlike(s: State)
    ensures Alike(s, Clamp(s)) && Clamp(s).at.stack == s.at.stack
  {
  }

  lemma DropAlike(s: State)
    ensures Alike(s, DropHead(s))
  {
  }

  lemma ResponseOwed(c: Config, s: State, id: Id)
    requires Tells(c, s) && id in s.reqs
    ensures var k := s.reqs[id].kind;
            match Response(c, s.flags, k, id)
            case Later => Owed(c, StartOf(s, id)) == []
            case Now(err, size, foreign) =>
              !RouteOf(c, s.flags, k).Nowhere? && Owed(c, StartOf(s, id)) == [BeginOf(s, id, err, size, foreign)]
  {
    FlagsTold(s.flags, s.log.trace);
    RouteTells(c, s.flags, s.reqs[id].kind);
  }

  /** A run, by the response it gets */
  lemma RunGoesOn(c: Config, s: State, id: Id)
    requires WF(s) && id in s.reqs && s.reqs[id].err == 0
    ensures var h := Handed(c, s, id);
            && WF(h) && id in h.reqs && h.reqs[id].kind == s.reqs[id].kind && h.queue == s.queue && h.flags == s.flags
            && match Response(c, s.flags, s.reqs[id].kind, id)
               case Later => Run(c, s, id).0 == Dispatched(c, s, id)
               case Now(err, size, foreign) =>
                 Dispatched(c, s, id) == h && Run(c, s, id).0 == Callback(c, h, id, err, size, foreign).0
  {
    RunIs(c, s, id);
    hide Run, Callback;
  }

  lemma {:induction false} RunTells(c: Config, s: State, id: Id)
    requires WF(s) && id in s.reqs && Traced(c, s)
    ensures Traced(c, Run(c, s, id).0) && GoesOn(s, FirstOf(s, id), Run(c, s, id).0)
    decreases Behind(s, id), 4
  {
    hide Tells, Prompt, Due, Owed, Run, Callback, Response, RouteOf, Handed, Dispatched, Alike, Pick;
    if s.reqs[id].err != 0 {
      var p := Pick(s, id);
      MarkedIsCallback(c, s, id);
      AlikeTells(c, s, p);
      PromptDue(c, s.log.trace, BeginOf(s, id, s.reqs[id].err, 0, false));
      CallbackTells(c, p, id, s.reqs[id].err, 0, false);
    } else {
      var h := Handed(c, s, id);
      RunGoesOn(c, s, id);
      DispatchedTells(c, s, id);
      ResponseOwed(c, s, id);
      match Response(c, s.flags, s.reqs[id].kind, id)
      case Later => PromptSame(c, s.log.trace, StartOf(s, id));
      case Now(err, size, foreign) =>
        PromptNext(c, s.log.trace, StartOf(s, id), BeginOf(s, id, err, size, foreign));
        CallbackTells(c, h, id, err, size, foreign);
    }
  }

  lemma MarkedIsCallback(c: Config, s: State, id: Id)
    requires WF(s) && id in s.reqs && s.reqs[id].err != 0
    ensures var p := Pick(s, id);
            && WF(p) && Alike(s, p) && p.reqs == s.reqs && p.queue == s.queue && p.log.trace == s.log.trace
            && p.flags == s.flags && Run(c, s, id) == Callback(c, p, id, s.reqs[id].err, 0, false)
  {
    hide Callback;
  }

  /** A callback begins the trace's next moment, and its end is the last. */
  lemma {:induction false} CallbackTells(c: Config, s: State, id: Id, err: int, size: nat, foreign: bool)
    requires WF(s) && id in s.reqs && Tells(c, s) && Due(c, s.log.trace, BeginOf(s, id, err, size, foreign))
    ensures var t := Callback(c, s, id, err, size, foreign).0;
            Traced(c, t) && GoesOn(s, BeginOf(s, id, err, size, foreign), t)
    decreases Behind(s, id), 2
  {
    hide Tells, Prompt, Due, Owed, Callback, Dequeue, Leave, Finish, Drain, Alike;
    var b, l := BeginOf(s, id, err, size, foreign), Leave(s, id, err, size, foreign);
    var d := Dequeue(c, s, id, err, size, foreign);
    LeaveShape(s, id, err, size, foreign);
    LeaveTells(c, s, id, err, size, foreign);
    OwedNothing(c, b);
    DueNext(c, s.log.trace, b);
    DequeueIs(c, s, id, err, size, foreign);
    if l.pending == 0 { DrainTellsTrace(c, l, s.reqs[id].kind); }
    var e := if l.pending == 0 then Drain(c, l, s.reqs[id].kind) else l;
    ClampAlike(e);
    AlikeTells(c, e, d);
    CallbackIs(c, s, id, err, size, foreign);
    CallbackEnds(c, s, d, id, err, size, foreign);
  }

  lemma OwedNothing(c: Config, m: Moment)
    requires !m.Starting?
    ensures Owed(c, m) == []
  {
  }

  lemma DequeueIs(c: Config, s: State, id: Id, err: int, size: nat, foreign: bool)
    requires WF(s) && id in s.reqs
    ensures var l := Leave(s, id, err, size, foreign); var d := Dequeue(c, s, id, err, size, foreign);
            && WF(l) && d == Clamp(if l.pending == 0 then Drain(c, l, s.reqs[id].kind) else l)
            && d.at.stack == s.at.stack + [id] && SameRequests(s, d)
  {
    LeaveShape(s, id, err, size, foreign);
    hide Leave, Drain, Clamp;
  }

  /** The end of a callback that has drained what it could */
  lemma CallbackEnds(c: Config, s: State, d: State, id: Id, err: int, size: nat, foreign: bool)
    requires id in s.reqs && Traced(c, d) && d.at.stack != [] && SameRequests(s, d)
    requires GoesOn(s, BeginOf(s, id, err, size, foreign), d)
    ensures var t := Finish(d, id, s.reqs[id], err, s.flags.isClosed, IsHead(s, id));
            Traced(c, t) && GoesOn(s, BeginOf(s, id, err, size, foreign), t)
  {
    var r, tr := s.reqs[id], d.log.trace;
    var m := Ending(id, r.kind, err, r.done, s.flags.isClosed, d.flags);
    assert tr[|s.log.trace|] == BeginOf(s, id, err, size, foreign);
    assert Begins(tr[|s.log.trace|], m);
    hide Tells, Prompt, Finish, Owed, Begins, SettleFlags;
    FinishAdds(c, d, id, r, err, s.flags.isClosed, IsHead(s, id));
    AddsTells(c, d, Finish(d, id, r, err, s.flags.isClosed, IsHead(s, id)), m);
    OwedNothing(c, m);
    PromptSame(c, tr, m);
  }

  lemma {:induction false} DrainTellsTrace(c: Config, s: State, k: Kind)
    requires WF(s) && Traced(c, s)
    ensures Traced(c, Drain(c, s, k)) && s.log.trace <= Drain(c, s, k).log.trace
    decreases |s.queue|, 0
  {
    hide Traced, Alike, Run, DropHead;
    if s.queue != [] {
      var s1 := Run(c, s, s.queue[0]).0;
      DropAlike(s1);
      AlikeTells(c, s1, DropHead(s1));
      AlikeTrace(s1, DropHead(s1));
      TurnShrinks(c, s);
      if c.policy.Repaired? && s.pending != 0 {
      } else {
        RunTells(c, s, s.queue[0]);
        if c.policy.Repaired? {
          if s1.pending == 0 { DrainTellsTrace(c, s1, k); }
        } else if Run(c, s, s.queue[0]).1 >= 0 && !Lifecycle(k) && s1.queue != [] {
          DrainTellsTrace(c, DropHead(s1), k);
        }
      }
    }
  }

  lemma AlikeTrace(s: State, t: State)
    requires Alike(s, t)
    ensures t.log.trace == s.log.trace
  {
  }

  // ---------------------------------------------------------------- calls and runs

  lemma IssueTells(c: Config, s: State, k: Kind, size: nat, done: bool)
    requires Traced(c, s)
    ensures Traced(c, Issue(s, k, size, done))
  {
    var t := Issue(s, k, size, done);
    KindredTells(s.reqs, t.reqs, s.next, t.next, s.log.trace);
    hide FlagsTell, Dated, Paired, Prompt, Invoked, Announced, Notified, Going, Stuck, Begun, Allocated, TellsRequests;
  }

  lemma LifecycleTells(c: Config, s: State, k: Kind, done: bool)
    requires WF(s) && Traced(c, s)
    ensures Traced(c, LifecycleCall(c, s, k, done).0)
  {
    hide Traced, Alike, Run;
    var s0 := Issue(s, k, 0, done);
    IssueTells(c, s, k, 0, done);
    PushAlike(s0, s.next);
    AlikeTells(c, s0, Push(s0, s.next));
    if s.pending == 0 { RunTells(c, Push(s0, s.next), s.next); }
  }

  lemma AutoOpenTells(c: Config, s: State, id: Id)
    requires WF(s) && id in s.reqs && Traced(c, s)
    ensures Traced(c, AutoOpen(c, s, id))
  {
    hide Traced, Alike, LifecycleCall;
    if s.flags.needsOpen && !s.flags.isOpen {
      var (s1, ret) := LifecycleCall(c, s, Open, false);
      LifecycleTells(c, s, Open, false);
      SetErrAlike(s1, id, ret);
      AlikeTells(c, s1, SetErr(s1, id, ret));
    }
  }

  lemma DataTells(c: Config, s: State, k: Kind, size: nat, done: bool)
    requires WF(s) && Traced(c, s)
    ensures Traced(c, DataCall(c, s, k, size, done).0)
  {
    hide Traced, Alike, AutoOpen, Run;
    var s1 := Issue(s, k, size, done);
    IssueTells(c, s, k, size, done);
    AutoOpenTells(c, s1, s.next);
    var s2 := AutoOpen(c, s1, s.next);
    PushAlike(s2, s.next);
    AlikeTells(c, s2, Push(s2, s.next));
    if s2.queue == [] { RunTells(c, s2, s.next); }
  }

  lemma StepTells(c: Config, s: State, a: Action)
    requires WF(s) && Enabled(s, a) && Traced(c, s)
    ensures Traced(c, Step(c, s, a))
  {
    hide Tells, Prompt, Due, LifecycleCall, Callback, DataCall;
    match a
    case IssueData(k, size, done) => DataTells(c, s, k, size, done);
    case IssueOpen(done) => LifecycleTells(c, s, Open, done);
    case IssueClose(done) => LifecycleTells(c, s, Close, done);
    case IssueDestroy(done) =>
      LifecycleTells(c, s, Close, false);
      LifecycleTells(c, LifecycleCall(c, s, Close, false).0, Destroy, done);
    case Complete(id, err, size, foreign) =>
      PromptDue(c, s.log.trace, BeginOf(s, id, err, size, foreign));
      CallbackTells(c, s, id, err, size, foreign);
  }

  lemma {:induction false} RunsTell(c: Config, s: State, run: seq<Action>)
    requires WF(s) && Runnable(c, s, run) && Traced(c, s)
    ensures Traced(c, Exec(c, s, run))
    decreases |run|
  {
    if run != [] {
      hide Traced, Step, Enabled;
      StepTells(c, s, run[0]);
      RunsTell(c, Step(c, s, run[0]), run[1..]);
    }
  }

  lemma InitialTells(c: Config, heap: bool)
    ensures Traced(c, Initial(heap))
  {
  }

  /** Every run, as written or repaired, is told by its trace. */
  lemma EveryRunTells(c: Config, heap: bool, run: seq<Action>)
    requires RunOf(c, heap, run)
    ensures Traced(c, Final(c, heap, run))
  {
    InitialTells(c, heap);
    RunsTell(c, Initial(heap), run);
  }

  // ---------------------------------------------------------------- one run of a request

  lemma {:induction false} InvokedGrows(c: Config, p: Trace, q: Trace)
    requires p <= q
    ensures Invoked(c, p) <= Invoked(c, q)
    decreases |q|
  {
    if p != q {
      assert p <= q[..|q| - 1];
      InvokedGrows(c, p, q[..|q| - 1]);
    }
  }

  /** A request that is run without an error mark is handed to the backend, once and under the
      flags of that moment, if and only if the backend offers its operation and the flags allow
      it.  Else it is stalled, or called back at once: data with ENOSYS, the others with 0. */
  lemma RunInvokes(c: Config, s: State, id: Id)
    requires WF(s) && id in s.reqs && s.reqs[id].err == 0 && Traced(c, s)
    ensures var t := Run(c, s, id).0; var k := s.reqs[id].kind; var f := s.flags;
            && t.log.calls == Invoked(c, t.log.trace) && s.log.trace + [StartOf(s, id)] <= t.log.trace
            && s.log.calls + (if Served(c, k, f) then [Call(id, k, f)] else []) <= t.log.calls
            && (Stranded(k, f) ==>
                  && id in t.at.stalled && t.log.trace == s.log.trace + [StartOf(s, id)]
                  && id in t.reqs && t.reqs[id].err == if f.isOpen then 0 else 1)
            && (!Stranded(k, f) && !Served(c, k, f) ==>
                  |t.log.trace| > |s.log.trace| + 1
                  && t.log.trace[|s.log.trace| + 1] == BeginOf(s, id, if Data(k) then ENOSYS else 0, 0, false))
  {
    var t, k, tr, m := Run(c, s, id).0, s.reqs[id].kind, s.log.trace, StartOf(s, id);
    RunTells(c, s, id);
    TraceNext(c, tr, m);
    InvokedGrows(c, tr + [m], t.log.trace);
    FlagsTold(s.flags, tr);
    RouteTells(c, s.flags, k);
    hide *;
    TracedCalls(c, s);
    TracedCalls(c, t);
    if Stranded(k, s.flags) {
      StrandedIs(c, s, id);
    } else if !Served(c, k, s.flags) {
      OwedUnserved(c, s, id);
      OwedAt(c, tr, t.log.trace, m, BeginOf(s, id, if Data(k) then ENOSYS else 0, 0, false));
    }
  }

  lemma TracedCalls(c: Config, s: State)
    requires Traced(c, s)
    ensures s.log.calls == Invoked(c, s.log.trace) && Prompt(c, s.log.trace)
  {
    hide Prompt, TellsFlags, TellsRequests;
  }

  lemma OwedUnserved(c: Config, s: State, id: Id)
    requires id in s.reqs && !Stranded(s.reqs[id].kind, s.flags) && !Served(c, s.reqs[id].kind, s.flags)
    ensures Owed(c, StartOf(s, id)) == [BeginOf(s, id, if Data(s.reqs[id].kind) then ENOSYS else 0, 0, false)]
  {
  }

  lemma OwedAt(c: Config, tr: Trace, q: Trace, m: Moment, b: Moment)
    requires Prompt(c, q) && tr + [m] <= q && Owed(c, m) == [b]
    ensures |q| > |tr| + 1 && q[|tr| + 1] == b
  {
    assert q[|tr|] == m && PromptAt(c, q, |tr|) && [b][0] == b;
  }

  lemma StrandedIs(c: Config, s: State, id: Id)
    requires WF(s) && id in s.reqs && s.reqs[id].err == 0 && RouteOf(c, s.flags, s.reqs[id].kind).Nowhere?
    ensures var t := Run(c, s, id).0;
            && id in t.at.stalled && t.log.trace == s.log.trace + [StartOf(s, id)]
            && id in t.reqs && t.reqs[id].err == if s.flags.isOpen then 0 else 1
  {
    RunIs(c, s, id);
    hide Run;
  }

  // ---------------------------------------------------------------- the size that was asked for

  /** Until it is called back a request has the size it was issued with, or for a stat that of
      the buffer. */
  ghost predicate Retains(s: State, t: State) {
    && s.at.called <= t.at.called
    && forall x :: x in s.reqs ==>
         && x in t.reqs && t.reqs[x].kind == s.reqs[x].kind
         && (x in t.at.called || s.reqs[x].kind.Stat? || t.reqs[x].size == s.reqs[x].size)
  }

  lemma RetainsTrans(s: State, t: State, u: State)
    requires Retains(s, t) && Retains(t, u)
    ensures Retains(s, u)
  {
  }

  lemma DispatchedRetains(c: Config, s: State, id: Id)
    requires id in s.reqs
    ensures Retains(s, Dispatched(c, s, id)) && Retains(s, Pick(s, id))
  {
  }

  lemma LeaveRetains(s: State, id: Id, err: int, size: nat, foreign: bool)
    requires id in s.reqs
    ensures Retains(s, Leave(s, id, err, size, foreign))
  {
  }

  lemma FinishRetains(s: State, id: Id, r: Req, err: int, wasClosed: bool, needsFree: bool)
    requires s.at.stack != []
    ensures Retains(s, Finish(s, id, r, err, wasClosed, needsFree))
  {
  }

  lemma DropRetains(s: State)
    ensures Retains(s, DropHead(s)) && Retains(s, Clamp(s)) && Retains(s, s)
  {
  }

  lemma {:induction false} RunRetains(c: Config, s: State, id: Id)
    requires WF(s) && id in s.reqs
    ensures Retains(s, Run(c, s, id).0)
    decreases Behind(s, id), 4
  {
    hide Retains, Run, Callback, Response, RouteOf, Handed, Dispatched, Pick, Alike;
    DispatchedRetains(c, s, id);
    if s.reqs[id].err != 0 {
      MarkedIsCallback(c, s, id);
      CallbackRetains(c, Pick(s, id), id, s.reqs[id].err, 0, false);
      RetainsTrans(s, Pick(s, id), Run(c, s, id).0);
    } else {
      RunGoesOn(c, s, id);
      match Response(c, s.flags, s.reqs[id].kind, id)
      case Later =>
      case Now(err, size, foreign) =>
        CallbackRetains(c, Handed(c, s, id), id, err, size, foreign);
        RetainsTrans(s, Handed(c, s, id), Run(c, s, id).0);
    }
  }

  lemma {:induction false} CallbackRetains(c: Config, s: State, id: Id, err: int, size: nat, foreign: bool)
    requires WF(s) && id in s.reqs
    ensures Retains(s, Callback(c, s, id, err, size, foreign).0)
    decreases Behind(s, id), 2
  {
    hide Retains, Callback, Dequeue, Leave, Finish, Drain, Clamp, DropHead;
    var l, d := Leave(s, id, err, size, foreign), Dequeue(c, s, id, err, size, foreign);
    LeaveShape(s, id, err, size, foreign);
    LeaveRetains(s, id, err, size, foreign);
    DequeueIs(c, s, id, err, size, foreign);
    DrainRetains(c, l, s.reqs[id].kind);
    DropRetains(l);
    var e := if l.pending == 0 then Drain(c, l, s.reqs[id].kind) else l;
    DropRetains(e);
    CallbackIs(c, s, id, err, size, foreign);
    FinishRetains(d, id, s.reqs[id], err, s.flags.isClosed, IsHead(s, id));
    RetainsTrans(s, l, e);
    RetainsTrans(s, e, d);
    RetainsTrans(s, d, Callback(c, s, id, err, size, foreign).0);
  }

  lemma {:induction false} DrainRetains(c: Config, s: State, k: Kind)
    requires WF(s)
    ensures Retains(s, Drain(c, s, k))
    decreases |s.queue|, 0
  {
    hide Retains, Run, DropHead, Clamp;
    DropRetains(s);
    if s.queue != [] && (c.policy.Repaired? ==> s.pending == 0) {
      var s1 := Run(c, s, s.queue[0]).0;
      TurnShrinks(c, s);
      RunRetains(c, s, s.queue[0]);
      if c.policy.Repaired? {
        if s1.pending == 0 {
          DrainRetains(c, s1, k);
          RetainsTrans(s, s1, Drain(c, s1, k));
        }
      } else {
        DropRetains(s1);
        RetainsTrans(s, s1, DropHead(s1));
        if Run(c, s, s.queue[0]).1 >= 0 && !Lifecycle(k) && s1.queue != [] {
          DrainRetains(c, DropHead(s1), k);
          RetainsTrans(s, DropHead(s1), Drain(c, DropHead(s1), k));
        }
      }
    }
  }

  /** A call keeps what was issued before it, and issues a request of the given size. */
  lemma IssueRetains(s: State, k: Kind, size: nat, done: bool)
    requires s.next !in s.reqs
    ensures var t := Issue(s, k, size, done); Retains(s, t) && t.reqs[s.next].size == size
  {
  }

  lemma PushRetains(s: State, id: Id)
    requires id in s.reqs
    ensures Retains(s, Push(s, id)) && forall err :: Retains(s, SetErr(s, id, err))
  {
  }

  lemma LifecycleRetains(c: Config, s: State, k: Kind, done: bool)
    requires WF(s) && s.next !in s.reqs
    ensures Retains(s, LifecycleCall(c, s, k, done).0)
  {
    hide Retains, Run;
    var s0 := Issue(s, k, 0, done);
    IssueRetains(s, k, 0, done);
    PushRetains(s0, s.next);
    RetainsTrans(s, s0, Push(s0, s.next));
    if s.pending == 0 {
      RunRetains(c, Push(s0, s.next), s.next);
      RetainsTrans(s, Push(s0, s.next), LifecycleCall(c, s, k, done).0);
    }
  }

  lemma AutoOpenRetains(c: Config, s: State, id: Id)
    requires WF(s) && s.next !in s.reqs && id in s.reqs
    ensures Retains(s, AutoOpen(c, s, id))
  {
    hide Retains, LifecycleCall;
    DropRetains(s);
    if s.flags.needsOpen && !s.flags.isOpen {
      var (s1, ret) := LifecycleCall(c, s, Open, false);
      LifecycleRetains(c, s, Open, false);
      PushRetains(s1, id);
      RetainsTrans(s, s1, SetErr(s1, id, ret));
    }
  }

  lemma DataRetains(c: Config, s: State, k: Kind, size: nat, done: bool)
    requires WF(s) && s.next !in s.reqs && s.next + 1 !in s.reqs
    ensures Retains(s, DataCall(c, s, k, size, done).0)
    ensures Retains(Issue(s, k, size, done), DataCall(c, s, k, size, done).0)
  {
    hide Retains, AutoOpen, Run;
    var id, s1 := s.next, Issue(s, k, size, done);
    var s2, t := AutoOpen(c, s1, id), DataCall(c, s, k, size, done).0;
    IssueRetains(s, k, size, done);
    AutoOpenRetains(c, s1, id);
    if s2.queue != [] { PushRetains(s2, id); } else { RunRetains(c, s2, id); }
    RetainsTrans(s1, s2, t);
    RetainsTrans(s, s1, t);
  }

  lemma DestroyRetains(c: Config, s: State, done: bool)
    requires WF(s) && Traced(c, s)
    ensures Retains(s, DestroyCall(c, s, done).0)
  {
    hide Retains, LifecycleCall, Traced;
    var s1 := LifecycleCall(c, s, Close, false).0;
    TracedFresh(c, s);
    LifecycleTells(c, s, Close, false);
    TracedFresh(c, s1);
    LifecycleRetains(c, s, Close, false);
    LifecycleRetains(c, s1, Destroy, done);
    RetainsTrans(s, s1, LifecycleCall(c, s1, Destroy, done).0);
  }

  lemma StepRetains(c: Config, s: State, a: Action)
    requires WF(s) && Enabled(s, a) && Traced(c, s)
    ensures Retains(s, Step(c, s, a))
  {
    TracedFresh(c, s);
    hide Retains, LifecycleCall, Callback, DataCall, DestroyCall, Traced;
    match a
    case IssueData(k, size, done) => DataRetains(c, s, k, size, done);
    case IssueOpen(done) => LifecycleRetains(c, s, Open, done);
    case IssueClose(done) => LifecycleRetains(c, s, Close, done);
    case IssueDestroy(done) => DestroyRetains(c, s, done);
    case Complete(id, err, size, foreign) => CallbackRetains(c, s, id, err, size, foreign);
  }

  lemma TracedFresh(c: Config, s: State)
    requires Traced(c, s)
    ensures s.next !in s.reqs && s.next + 1 !in s.reqs
  {
    hide TellsFlags, TellsLogs, Prompt;
  }

  /** Over every run, as written or repaired, a request keeps the size it was issued with until it
      is called back; that of a read is the size its buffer is allocated for. */
  lemma {:induction false} RunsRetain(c: Config, s: State, run: seq<Action>)
    requires WF(s) && Runnable(c, s, run) && Traced(c, s)
    ensures Retains(s, Exec(c, s, run))
    decreases |run|
  {
    DropRetains(s);
    if run != [] {
      hide Traced, Step, Enabled, Retains;
      StepTells(c, s, run[0]);
      StepRetains(c, s, run[0]);
      RunsRetain(c, Step(c, s, run[0]), run[1..]);
      RetainsTrans(s, Step(c, s, run[0]), Exec(c, s, run));
    }
  }
}
