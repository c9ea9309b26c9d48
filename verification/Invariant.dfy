/** What the repaired scheduler keeps, in the middle of every call as well as between calls. */
module Invariant {
  import opened Protocol

  ghost predicate Unique(q: seq<Id>) { forall i, j :: 0 <= i < j < |q| ==> q[i] != q[j] }

  ghost predicate Placed(s: State) {
    && (forall x :: x in s.reqs ==> x < s.next)
    && (forall x :: x in s.reqs ==> x in s.at.created || x in s.queue || x in s.at.inFlight || x in s.at.called)
    && (forall x :: x in s.queue ==> x in s.reqs && x !in s.at.created && x !in s.at.called)
  }

  ghost predicate Apart(s: State) {
    && s.at.created <= s.reqs.Keys && s.at.inFlight <= s.reqs.Keys && s.at.called <= s.reqs.Keys
    && s.at.created !! s.at.inFlight && s.at.created !! s.at.called && s.at.inFlight !! s.at.called
    && s.at.stalled <= s.at.inFlight
  }

  ghost predicate Lined(s: State) {
    Unique(s.queue) && Unique(s.at.stack) && forall x :: x in s.at.stack ==> x in s.at.called
  }

  /** Issued requests are split into created, waiting or in flight, and called back. */
  ghost predicate Partition(s: State) { Placed(s) && Apart(s) && Lined(s) }

  /** The counter counts; an in-flight request that went through the queue is its head and is alone. */
  ghost predicate Counted(s: State) {
    && s.pending == |s.at.inFlight| && s.pending < INT_MIN
    && (forall x :: x in s.at.inFlight && x in s.reqs && s.reqs[x].queued ==> IsHead(s, x) && s.at.inFlight == {x})
    && (forall x :: x in s.queue && x in s.reqs ==> s.reqs[x].queued)
    && (forall x :: x in s.reqs && Lifecycle(s.reqs[x].kind) ==> s.reqs[x].queued || x in s.at.created)
    && (forall i :: 0 <= i < |s.queue| - 1 && s.queue[i] in s.reqs ==> !s.reqs[s.queue[i]].kind.Destroy?)
  }

  predicate HeadInFlight(s: State) { s.queue != [] && s.queue[0] in s.at.inFlight }

  /** First in, first out: pushes, removals and runs happen in one order, each once. */
  ghost predicate Fifo(s: State) {
    && s.log.pushed == s.log.removed + s.queue
    && s.log.ran == s.log.removed + (if HeadInFlight(s) then [s.queue[0]] else [])
    && Unique(s.log.pushed)
    && (forall x :: x in s.log.pushed <==> x in s.reqs && s.reqs[x].queued)
  }

  /** The callback has been made and has returned. */
  predicate Returned(s: State, x: Id) { x in s.at.called && x !in s.at.stack }

  /** `done` is called once for every request that has one and whose callback has returned. */
  ghost predicate DoneOnce(s: State) {
    forall x :: multiset(s.log.dones)[x] == if x in s.reqs && s.reqs[x].done && Returned(s, x) then 1 else 0
  }

  /** A destroy has been called back. */
  ghost predicate Destroyed(s: State) { exists x :: x in s.reqs && s.reqs[x].kind.Destroy? && Returned(s, x) }

  /** A storage from `ras_storage_new` lives until a destroy has been called back. */
  ghost predicate Held(s: State) { s.mem.storage.held <==> s.mem.storage.heap && !Destroyed(s) }

  /** Of the requests in flight the stats and the reads of at least one byte have a buffer. */
  ghost predicate Buffered(s: State) {
    forall x :: x in s.at.inFlight && x in s.reqs ==>
      && (x in s.mem.buffers <==> s.reqs[x].kind.Stat? || (s.reqs[x].kind.Read? && s.reqs[x].size > 0))
      && (s.reqs[x].kind.Stat? ==> s.reqs[x].size == STATS_SIZE)
  }

  /** A struct lives until its callback returns, a buffer from start to that moment, and the
      allocator's counters differ by exactly what lives. */
  ghost predicate Accounted(s: State) {
    && !s.mem.fault && Held(s) && Buffered(s)
    && (forall x :: x in s.mem.live <==> x in s.reqs && !Returned(s, x))
    && (forall x :: x in s.mem.buffers ==> x in s.at.inFlight || x in s.at.stack)
    && (forall x :: x in s.mem.values ==> x in s.at.stack)
    && (forall x :: x in s.mem.buffers && x in s.reqs ==> !Lifecycle(s.reqs[x].kind))
    && (forall x :: x in s.mem.values && x in s.reqs ==> !Lifecycle(s.reqs[x].kind))
    && Balanced(s.mem)
  }

  ghost predicate FlagsOk(s: State) { s.flags.needsOpen ==> !s.flags.isOpen }

  /** The backend works on no data request of a closed storage. */
  ghost predicate ClosedIdle(s: State) {
    s.flags.isClosed ==>
      forall x :: x in s.at.inFlight && x !in s.at.stalled && x in s.reqs ==> Lifecycle(s.reqs[x].kind)
  }

  ghost predicate Core(s: State) {
    WF(s) && Partition(s) && Counted(s) && Fifo(s) && DoneOnce(s) && Accounted(s) && FlagsOk(s)
  }

  ghost predicate Inv(s: State) { Core(s) && ClosedIdle(s) }

  ghost predicate NoDestroy(s: State) { forall x :: x in s.reqs ==> !s.reqs[x].kind.Destroy? }

  // ---------------------------------------------------------------- the parts of the invariant

  lemma CoreParts(s: State)
    requires Core(s)
    ensures WF(s) && Partition(s) && Counted(s) && Fifo(s) && DoneOnce(s) && Accounted(s) && FlagsOk(s)
  {
    hide Partition, Counted, Fifo, DoneOnce, Accounted, FlagsOk;
  }

  lemma InvCore(s: State)
    requires Inv(s)
    ensures Core(s) && ClosedIdle(s)
  {
    hide Core, ClosedIdle;
  }

  lemma CoreOf(s: State)
    requires WF(s) && Partition(s) && Counted(s) && Fifo(s) && DoneOnce(s) && Accounted(s)
    requires FlagsOk(s) && ClosedIdle(s)
    ensures Inv(s)
  {
    hide Partition, Counted, Fifo, DoneOnce, Accounted, FlagsOk, ClosedIdle, WF;
  }

  // ---------------------------------------------------------------- placing a request

  /** The storage is held while the same destroys have been called back. */
  lemma HeldSame(s: State, t: State)
    requires Held(s) && t.mem.storage == s.mem.storage && s.reqs.Keys <= t.reqs.Keys
    requires forall x :: x in s.reqs ==> t.reqs[x].kind == s.reqs[x].kind
    requires forall x :: x in t.reqs && Returned(t, x) ==> Returned(s, x) && x in s.reqs
    requires forall x :: x in s.reqs && Returned(s, x) ==> Returned(t, x)
    ensures Held(t)
  {
    if x :| x in s.reqs && s.reqs[x].kind.Destroy? && Returned(s, x) { assert Returned(t, x); }
    if x :| x in t.reqs && t.reqs[x].kind.Destroy? && Returned(t, x) { assert Returned(s, x); }
  }

  lemma IssueAccounted(s: State, k: Kind, size: nat, done: bool)
    requires Partition(s) && Accounted(s)
    ensures Accounted(Issue(s, k, size, done))
  {
    HeldSame(s, Issue(s, k, size, done));
  }

  lemma IssuePartition(s: State, k: Kind, size: nat, done: bool)
    requires Partition(s)
    ensures Partition(Issue(s, k, size, done))
  {
  }

  lemma IssueOrder(s: State, k: Kind, size: nat, done: bool)
    requires Partition(s) && WF(s) && Counted(s) && Fifo(s) && FlagsOk(s) && ClosedIdle(s)
    ensures var t := Issue(s, k, size, done); WF(t) && Counted(t) && Fifo(t) && FlagsOk(t) && ClosedIdle(t)
  {
    hide Lined;
  }

  lemma IssueDoneOnce(s: State, k: Kind, size: nat, done: bool)
    requires Partition(s) && DoneOnce(s)
    ensures DoneOnce(Issue(s, k, size, done))
  {
    hide Lined;
  }

  lemma IssueKeeps(s: State, k: Kind, size: nat, done: bool)
    requires Inv(s)
    ensures Inv(Issue(s, k, size, done))
  {
    hide *;
    InvCore(s);
    CoreParts(s);
    IssuePartition(s, k, size, done);
    IssueOrder(s, k, size, done);
    IssueDoneOnce(s, k, size, done);
    IssueAccounted(s, k, size, done);
    CoreOf(Issue(s, k, size, done));
  }

  lemma PushAccounted(s: State, id: Id)
    requires Accounted(s) && id in s.reqs
    ensures Accounted(Push(s, id))
  {
    HeldSame(s, Push(s, id));
  }

  lemma PushPartition(s: State, id: Id)
    requires Partition(s) && id in s.at.created
    ensures Partition(Push(s, id))
  {
  }

  lemma PushCounted(s: State, id: Id)
    requires Partition(s) && Counted(s) && id in s.at.created && !s.reqs[id].queued
    requires forall x :: x in s.queue && x in s.reqs ==> !s.reqs[x].kind.Destroy?
    ensures Counted(Push(s, id))
  {
    var q := Push(s, id).queue;
    forall i | 0 <= i < |q| - 1 ensures q[i] in s.reqs && !s.reqs[q[i]].kind.Destroy? { assert q[i] in s.queue; }
    hide Lined;
  }

  lemma PushFifo(s: State, id: Id)
    requires Partition(s) && Fifo(s) && id in s.at.created && !s.reqs[id].queued
    ensures Fifo(Push(s, id))
  {
    hide Lined;
  }

  lemma PushFlags(s: State, id: Id)
    requires WF(s) && DoneOnce(s) && FlagsOk(s) && ClosedIdle(s) && id in s.reqs
    ensures var t := Push(s, id); WF(t) && DoneOnce(t) && FlagsOk(t) && ClosedIdle(t)
  {
  }

  lemma PushKeeps(s: State, id: Id)
    requires Inv(s) && id in s.at.created && id in s.reqs && !s.reqs[id].queued
    requires forall x :: x in s.queue && x in s.reqs ==> !s.reqs[x].kind.Destroy?
    ensures Inv(Push(s, id))
  {
    hide *;
    InvCore(s);
    CoreParts(s);
    PushAccounted(s, id);
    PushPartition(s, id);
    PushCounted(s, id);
    PushFifo(s, id);
    PushFlags(s, id);
    CoreOf(Push(s, id));
  }

  // ---------------------------------------------------------------- starting

  /** The request may start: the head while nothing is in flight, or a new data request
      when nothing waits. */
  ghost predicate MayStart(s: State, id: Id) {
    && id in s.reqs
    && s.pending + 1 < INT_MIN
    && if s.reqs[id].queued then IsHead(s, id) && s.at.inFlight == {} && id !in s.at.called && id !in s.at.created
       else id in s.at.created && s.queue == [] && !Lifecycle(s.reqs[id].kind)
  }

  function Started(s: State, id: Id): State
    requires id in s.reqs
  {
    Start(Pick(s, id), id)
  }

  lemma StartPartition(s: State, id: Id)
    requires Partition(s) && MayStart(s, id)
    ensures Partition(Started(s, id))
  {
  }

  lemma StartCounted(s: State, id: Id)
    requires Partition(s) && Counted(s) && MayStart(s, id)
    ensures Counted(Started(s, id))
  {
  }

  lemma StartFifo(s: State, id: Id)
    requires Partition(s) && Counted(s) && Fifo(s) && MayStart(s, id)
    ensures Fifo(Started(s, id))
  {
  }

  lemma StartBalanced(s: State, id: Id)
    requires Balanced(s.mem) && id in s.reqs && id !in s.mem.buffers
    ensures Balanced(Started(s, id).mem)
  {
  }

  lemma StartOwns(s: State, id: Id)
    requires Partition(s) && Accounted(s) && MayStart(s, id)
    ensures id !in s.mem.buffers && id !in s.at.called
  {
    hide Held, Balanced;
    if IsHead(s, id) { assert s.queue[0] in s.queue; }
  }

  lemma StartChanges(s: State, id: Id)
    requires id in s.reqs
    ensures var t := Started(s, id);
            && t.reqs.Keys == s.reqs.Keys && (forall x :: x in s.reqs ==> t.reqs[x].kind == s.reqs[x].kind)
            && t.at.called == s.at.called && t.at.stack == s.at.stack && t.at.inFlight == s.at.inFlight + {id}
            && t.mem.live == s.mem.live && t.mem.values == s.mem.values && t.mem.fault == s.mem.fault
            && t.mem.storage == s.mem.storage
            && (forall x :: x in t.mem.buffers ==> x in s.mem.buffers || (x == id && !Lifecycle(s.reqs[id].kind)))
  {
  }

  lemma StartBuffered(s: State, id: Id)
    requires Partition(s) && Buffered(s) && id in s.reqs && id !in s.mem.buffers
    ensures Buffered(Started(s, id))
  {
  }

  lemma StartAccounted(s: State, id: Id)
    requires Partition(s) && Accounted(s) && MayStart(s, id)
    ensures Accounted(Started(s, id))
  {
    StartOwns(s, id);
    StartChanges(s, id);
    StartBalanced(s, id);
    StartBuffered(s, id);
    hide Partition, Held, Balanced, Buffered, Started, MayStart;
    HeldSame(s, Started(s, id));
  }

  lemma StartDoneOnce(s: State, id: Id)
    requires Partition(s) && DoneOnce(s) && MayStart(s, id)
    ensures DoneOnce(Started(s, id))
  {
  }

  lemma StartKeeps(s: State, id: Id)
    requires Core(s) && MayStart(s, id)
    ensures Core(Started(s, id)) && id in Started(s, id).at.inFlight
  {
    StartPartition(s, id);
    StartCounted(s, id);
    StartFifo(s, id);
    StartAccounted(s, id);
    StartDoneOnce(s, id);
  }

  lemma InvokeKeeps(s: State, id: Id)
    requires Core(s) && id in s.reqs
    ensures Core(Invoke(s, id))
  {
  }

  lemma StallPlaces(s: State, id: Id)
    requires Partition(s) && Counted(s) && id in s.at.inFlight && id in s.reqs
    ensures Partition(Stall(s, id)) && Counted(Stall(s, id))
  {
  }

  lemma StallRecords(s: State, id: Id)
    requires WF(s) && Fifo(s) && DoneOnce(s) && FlagsOk(s) && id in s.reqs
    ensures var t := Stall(s, id); WF(t) && Fifo(t) && DoneOnce(t) && FlagsOk(t)
  {
  }

  lemma StallAccounted(s: State, id: Id)
    requires Accounted(s) && id in s.reqs
    ensures Accounted(Stall(s, id))
  {
    HeldSame(s, Stall(s, id));
  }

  lemma StallKeeps(s: State, id: Id)
    requires Core(s) && id in s.at.inFlight && id in s.reqs
    ensures Core(Stall(s, id))
  {
    hide Partition, Counted, Fifo, DoneOnce, Accounted, FlagsOk, WF, Stall;
    StallPlaces(s, id);
    StallRecords(s, id);
    StallAccounted(s, id);
  }

  // ---------------------------------------------------------------- completing

  ghost predicate ClosedIdleBut(s: State, id: Id) {
    s.flags.isClosed ==>
      forall x :: x in s.at.inFlight && x !in s.at.stalled && x in s.reqs && x != id ==> Lifecycle(s.reqs[x].kind)
  }

  /** `t` is `s` after request `id` has left: what the proofs need of it. */
  ghost predicate Left(s: State, t: State, id: Id) {
    && id in s.reqs
    && SameRequests(s, t) && t.next == s.next
    && (forall x :: x in s.reqs && x != id ==> t.reqs[x].size == s.reqs[x].size)
    && t.queue == (if IsHead(s, id) then s.queue[1..] else s.queue)
    && t.pending == (if s.pending == 0 then 0 else s.pending - 1)
    && t.at == Places(s.at.created, s.at.inFlight - {id}, s.at.stalled - {id}, s.at.called + {id}, s.at.stack + [id])
    && t.log.pushed == s.log.pushed && t.log.dones == s.log.dones
    && t.log.removed == (if IsHead(s, id) then s.log.removed + [id] else s.log.removed)
    && t.mem.(values := {}, allocs := 0) == s.mem.(values := {}, allocs := 0)
    && t.mem.allocs - |t.mem.values| == s.mem.allocs - |s.mem.values|
    && s.mem.values <= t.mem.values <= s.mem.values + (if s.reqs[id].kind.Read? then {id} else {})
  }

  /** It was in flight, or it is the head, has been marked with an error and is picked now. */
  ghost predicate WasRun(s: State, t: State, id: Id) {
    if id in s.at.inFlight then t.log.ran == s.log.ran
    else IsHead(s, id) && s.at.inFlight == {} && t.log.ran == s.log.ran + [id]
  }

  lemma LeavePlaced(s: State, t: State, id: Id)
    requires Left(s, t, id) && Placed(s) && Unique(s.queue) && (id in s.at.inFlight || IsHead(s, id))
    requires id in s.queue ==> IsHead(s, id)
    ensures Placed(t)
  {
  }

  lemma LeaveApart(s: State, t: State, id: Id)
    requires Left(s, t, id) && Apart(s) && id !in s.at.created
    ensures Apart(t)
  {
  }

  lemma LeaveLined(s: State, t: State, id: Id)
    requires Left(s, t, id) && Lined(s) && id !in s.at.called
    ensures Lined(t)
  {
  }

  lemma LeavePartition(s: State, t: State, id: Id)
    requires Left(s, t, id) && Partition(s) && Counted(s) && WasRun(s, t, id)
    ensures Partition(t)
  {
    assert id !in s.at.created && id !in s.at.called && (id in s.queue ==> IsHead(s, id));
    hide Left, Placed, Apart, Lined, Counted;
    assert Unique(s.queue) by { LinedQueue(s); }
    LeavePlaced(s, t, id);
    LeaveApart(s, t, id);
    LeaveLined(s, t, id);
  }

  lemma LinedQueue(s: State)
    requires Lined(s)
    ensures Unique(s.queue)
  {
  }

  lemma LeaveCounted(s: State, t: State, id: Id)
    requires Left(s, t, id) && Partition(s) && Counted(s) && WasRun(s, t, id)
    ensures Counted(t)
  {
  }

  /** Whether the head is in flight, before and after a request leaves. */
  lemma LeaveHead(s: State, t: State, id: Id)
    requires Left(s, t, id) && Partition(s) && Counted(s) && WasRun(s, t, id)
    ensures if IsHead(s, id) then !HeadInFlight(t) && (HeadInFlight(s) <==> id in s.at.inFlight)
            else HeadInFlight(t) == HeadInFlight(s) && t.log.ran == s.log.ran
  {
    if IsHead(s, id) { assert s.queue[0] in s.queue; }
  }

  lemma LeaveFifo(s: State, t: State, id: Id)
    requires Left(s, t, id) && Partition(s) && Counted(s) && Fifo(s)
    requires WasRun(s, t, id)
    ensures Fifo(t)
  {
    LeaveHead(s, t, id);
    hide Partition, Counted, HeadInFlight, Unique;
    if IsHead(s, id) { Moved(s.log.removed, s.queue); }
    LeaveQueuedSame(s, t, id);
  }

  lemma Moved(p: seq<Id>, q: seq<Id>)
    requires q != []
    ensures p + q == (p + [q[0]]) + q[1..]
  {
  }

  lemma LeaveQueuedSame(s: State, t: State, id: Id)
    requires Left(s, t, id)
    ensures forall x :: (x in t.reqs && t.reqs[x].queued) <==> (x in s.reqs && s.reqs[x].queued)
  {
  }

  lemma LeaveDoneOnce(s: State, t: State, id: Id)
    requires Left(s, t, id) && DoneOnce(s) && id !in s.at.called
    ensures DoneOnce(t)
  {
  }

  lemma LeaveBuffered(s: State, t: State, id: Id)
    requires Left(s, t, id) && Buffered(s)
    ensures Buffered(t)
  {
  }

  lemma LeaveAccounted(s: State, t: State, id: Id)
    requires Left(s, t, id) && Accounted(s) && id !in s.at.called
    ensures Accounted(t)
  {
    HeldSame(s, t);
    LeaveBuffered(s, t, id);
    hide Held, Buffered;
  }

  lemma LeftKeeps(s: State, t: State, id: Id)
    requires Core(s) && Left(s, t, id) && FlagsOk(t) && ClosedIdle(t)
    requires WasRun(s, t, id)
    ensures Inv(t)
  {
    LeavePartition(s, t, id);
    LeaveCounted(s, t, id);
    LeaveFifo(s, t, id);
    LeaveDoneOnce(s, t, id);
    LeaveAccounted(s, t, id);
  }

  lemma LeaveIsLeft(s: State, id: Id, err: int, size: nat, foreign: bool)
    requires id in s.reqs && id !in s.mem.values
    ensures Left(s, Clamp(Leave(s, id, err, size, foreign)), id) || s.pending > INT_MIN
  {
  }

  lemma LeaveClosedIdle(s: State, id: Id, err: int, size: nat, foreign: bool)
    requires Partition(s) && Counted(s) && ClosedIdleBut(s, id) && id in s.at.inFlight
    ensures ClosedIdle(Leave(s, id, err, size, foreign))
  {
  }

  lemma InFlightOwns(s: State, id: Id)
    requires Partition(s) && Accounted(s) && id in s.at.inFlight
    ensures id in s.reqs && id !in s.mem.values
  {
    hide Balanced, Held;
  }

  lemma CountedOne(s: State, id: Id)
    requires Counted(s) && id in s.at.inFlight
    ensures 0 < s.pending < INT_MIN
  {
    assert s.at.inFlight != {};
  }

  /** A request in flight may leave. */
  lemma LeaveRuns(s: State, id: Id, err: int, size: nat, foreign: bool)
    requires FlagsOk(s) && id in s.reqs && id in s.at.inFlight && 0 < s.pending < INT_MIN && id !in s.mem.values
    ensures var t := Leave(s, id, err, size, foreign); WasRun(s, t, id) && FlagsOk(t) && Left(s, t, id)
  {
    LeaveIsLeft(s, id, err, size, foreign);
  }

  lemma LeaveKeeps(s: State, id: Id, err: int, size: nat, foreign: bool)
    requires Core(s) && ClosedIdleBut(s, id) && id in s.at.inFlight
    ensures Inv(Leave(s, id, err, size, foreign))
  {
    hide *;
    CoreParts(s);
    InFlightOwns(s, id);
    CountedOne(s, id);
    LeaveRuns(s, id, err, size, foreign);
    LeaveClosedIdle(s, id, err, size, foreign);
    LeftKeeps(s, Leave(s, id, err, size, foreign), id);
  }

  lemma HeadIn(s: State, id: Id)
    requires Partition(s) && Accounted(s) && IsHead(s, id) && s.at.inFlight == {}
    ensures id in s.reqs && id !in s.mem.values
  {
    assert s.queue[0] in s.queue;
    hide Balanced, Held;
  }

  lemma LeaveMarkedRuns(s: State, id: Id, err: int)
    requires FlagsOk(s) && ClosedIdle(s) && id in s.reqs && id !in s.mem.values && s.pending == 0
    requires IsHead(s, id) && s.at.inFlight == {} && s.reqs[id].queued
    ensures var p := Pick(s, id);
            && id in p.reqs && var t := Clamp(Leave(p, id, err, 0, false));
               WasRun(s, t, id) && FlagsOk(t) && ClosedIdle(t) && Left(s, t, id)
  {
    LeaveIsLeft(Pick(s, id), id, err, 0, false);
  }

  lemma IdleCounts(s: State, id: Id)
    requires Counted(s) && s.at.inFlight == {} && id in s.reqs && IsHead(s, id)
    ensures s.pending == 0 && s.reqs[id].queued
  {
    assert s.queue[0] in s.queue;
  }

  lemma LeaveMarkedKeeps(s: State, id: Id, err: int)
    requires Inv(s) && IsHead(s, id) && s.at.inFlight == {}
    ensures id in s.reqs && Inv(Clamp(Leave(Pick(s, id), id, err, 0, false)))
  {
    hide *;
    InvCore(s);
    CoreParts(s);
    HeadIn(s, id);
    IdleCounts(s, id);
    LeaveMarkedRuns(s, id, err);
    LeftKeeps(s, Clamp(Leave(Pick(s, id), id, err, 0, false)), id);
  }

  // ---------------------------------------------------------------- the end of a callback

  ghost predicate MayFinish(s: State, id: Id, r: Req) {
    && s.at.stack != [] && s.at.stack[|s.at.stack| - 1] == id
    && id in s.reqs && SameStatics(r, s.reqs[id]) && (r.kind.Destroy? ==> s.queue == [])
  }

  lemma FinishReturns(s: State, t: State, id: Id, x: Id)
    requires s.at.stack != [] && s.at.stack[|s.at.stack| - 1] == id && Unique(s.at.stack)
    requires t.at == s.at.(stack := s.at.stack[..|s.at.stack| - 1])
    ensures x in t.at.stack <==> x in s.at.stack && x != id
  {
    if x in s.at.stack && x != id {
      var i :| 0 <= i < |s.at.stack| && s.at.stack[i] == x;
      assert t.at.stack[i] == x;
    }
  }

  ghost predicate OwnsNoBuffer(s: State, id: Id) { id !in s.mem.buffers && id !in s.mem.values }

  lemma AfterBalanced(s: State, id: Id, r: Req, err: int, announce: bool)
    requires Balanced(s.mem) && (r.kind.Destroy? ==> s.queue == [])
    ensures Balanced(After(s, id, r, err, announce).mem)
  {
  }

  lemma AfterReleases(s: State, id: Id, r: Req, err: int, announce: bool)
    requires id in s.mem.live && (r.kind.Destroy? ==> s.queue == [])
    requires Lifecycle(r.kind) ==> r.queued && OwnsNoBuffer(s, id)
    ensures var m := After(s, id, r, err, announce).mem;
            && m.fault == s.mem.fault && m.live == (if r.queued then s.mem.live else s.mem.live - {id})
            && m.buffers == s.mem.buffers - {id} && m.values == s.mem.values - {id}
            && m.storage == if r.kind.Destroy? then Release(s.mem.storage, |s.at.stack| > 1) else s.mem.storage
  {
  }

  /** Whichever of `after` and `needs_free` releases it, everything the request owns is released once. */
  lemma FinishMemory(s: State, id: Id, r: Req, err: int, wasClosed: bool)
    requires s.at.stack != [] && Balanced(s.mem) && id in s.mem.live
    requires Lifecycle(r.kind) ==> r.queued && OwnsNoBuffer(s, id)
    requires r.kind.Destroy? ==> s.queue == []
    ensures var m := Finish(s, id, r, err, wasClosed, r.queued).mem;
            && Balanced(m) && m.fault == s.mem.fault && m.live == s.mem.live - {id}
            && m.buffers == s.mem.buffers - {id} && m.values == s.mem.values - {id}
            && m.storage == if r.kind.Destroy? then Release(s.mem.storage, |s.at.stack| > 1) else s.mem.storage
  {
    var s1 := Tell(s, id, r, err, wasClosed);
    AfterBalanced(s1, id, r, err, !wasClosed && !s.flags.isDestroyed);
    AfterReleases(s1, id, r, err, !wasClosed && !s.flags.isDestroyed);
  }

  lemma FinishPlaces(s: State, id: Id, r: Req, err: int, wasClosed: bool)
    requires s.at.stack != []
    ensures Finish(s, id, r, err, wasClosed, r.queued).at == s.at.(stack := s.at.stack[..|s.at.stack| - 1])
  {
  }

  lemma FinishHeld(s: State, t: State, id: Id, r: Req)
    requires Held(s) && Partition(s) && MayFinish(s, id, r) && t.reqs == s.reqs
    requires forall x :: Returned(t, x) <==> Returned(s, x) || x == id
    requires t.mem.storage == if r.kind.Destroy? then Release(s.mem.storage, |s.at.stack| > 1) else s.mem.storage
    ensures Held(t)
  {
    if r.kind.Destroy? {
      assert Returned(t, id);
    } else {
      if x :| x in s.reqs && s.reqs[x].kind.Destroy? && Returned(s, x) { assert Returned(t, x); }
      if x :| x in t.reqs && t.reqs[x].kind.Destroy? && Returned(t, x) { assert Returned(s, x); }
    }
  }

  lemma FinishAccounted(s: State, id: Id, r: Req, err: int, wasClosed: bool)
    requires Partition(s) && Accounted(s) && Counted(s) && MayFinish(s, id, r)
    ensures Accounted(Finish(s, id, r, err, wasClosed, r.queued))
  {
    hide Finish;
    FinishMemory(s, id, r, err, wasClosed);
    FinishPlaces(s, id, r, err, wasClosed);
    var t := Finish(s, id, r, err, wasClosed, r.queued);
    forall x ensures x in t.at.stack <==> x in s.at.stack && x != id { FinishReturns(s, t, id, x); }
    FinishHeld(s, t, id, r);
  }

  lemma FinishDoneOnce(s: State, id: Id, r: Req, err: int, wasClosed: bool)
    requires Partition(s) && DoneOnce(s) && MayFinish(s, id, r)
    ensures DoneOnce(Finish(s, id, r, err, wasClosed, r.queued))
  {
    var t := Finish(s, id, r, err, wasClosed, r.queued);
    forall x ensures x in t.at.stack <==> x in s.at.stack && x != id { FinishReturns(s, t, id, x); }
  }

  /** The end of a callback changes the call stack, and nothing else that order rests on. */
  ghost predicate Popped(s: State, t: State) {
    && s.at.stack != [] && t.at == s.at.(stack := s.at.stack[..|s.at.stack| - 1])
    && t.flags == s.flags && t.queue == s.queue && t.pending == s.pending && t.reqs == s.reqs && t.next == s.next
    && t.log.pushed == s.log.pushed && t.log.removed == s.log.removed && t.log.ran == s.log.ran
  }

  lemma FinishPops(s: State, id: Id, r: Req, err: int, wasClosed: bool)
    requires MayFinish(s, id, r)
    ensures Popped(s, Finish(s, id, r, err, wasClosed, r.queued))
  {
  }

  lemma PoppedPartition(s: State, t: State)
    requires Partition(s) && Popped(s, t)
    ensures Partition(t)
  {
  }

  lemma PoppedOrder(s: State, t: State)
    requires Counted(s) && Fifo(s) && Popped(s, t)
    ensures Counted(t) && Fifo(t)
  {
  }

  lemma PoppedFlags(s: State, t: State)
    requires Popped(s, t) && WF(s) && FlagsOk(s) && ClosedIdle(s)
    ensures WF(t) && FlagsOk(t) && ClosedIdle(t)
  {
  }

  lemma FinishKeeps(s: State, id: Id, r: Req, err: int, wasClosed: bool)
    requires Inv(s) && MayFinish(s, id, r)
    ensures Inv(Finish(s, id, r, err, wasClosed, r.queued))
  {
    hide Inv, Core, Partition, Counted, Fifo, DoneOnce, Accounted, FlagsOk, ClosedIdle, WF, Finish, Popped;
    var t := Finish(s, id, r, err, wasClosed, r.queued);
    InvCore(s);
    CoreParts(s);
    FinishPops(s, id, r, err, wasClosed);
    PoppedFlags(s, t);
    PoppedPartition(s, t);
    PoppedOrder(s, t);
    FinishAccounted(s, id, r, err, wasClosed);
    FinishDoneOnce(s, id, r, err, wasClosed);
    CoreOf(t);
  }

  // ---------------------------------------------------------------- a destroy's `after`

  lemma {:induction false} FreeAllFrees(m: Memory, q: seq<Id>)
    requires Unique(q) && forall x :: x in q ==> x in m.live
    ensures var n := FreeAll(m, q);
            n == m.(live := n.live, frees := m.frees + |q|) && forall x :: x in n.live <==> x in m.live && x !in q
    decreases |q|
  {
    if q != [] {
      var h := q[0];
      assert forall x :: x in q[1..] ==> x in q && x != h;
      FreeAllFrees(FreeRequest(m, h), q[1..]);
      assert forall x :: x in q <==> x == h || x in q[1..];
    }
  }

  /** Requests still queued are released with the storage, each once, and none remains. */
  lemma TeardownReleases(s: State)
    requires Unique(s.queue) && forall x :: x in s.queue ==> x in s.mem.live
    ensures var t := Teardown(s);
            && t.queue == [] && !t.mem.storage.held && t.mem.fault == s.mem.fault && t.mem.allocs == s.mem.allocs
            && t.mem.frees == s.mem.frees + |s.queue| + (if s.mem.storage.held then 1 else 0)
            && forall x :: x in t.mem.live <==> x in s.mem.live && x !in s.queue
  {
    FreeAllFrees(s.mem, s.queue);
    hide FreeAll;
  }
}
