/** The request scheduler of src/request.c and src/storage.c as functions on values.

    A request is named by its id.  One State holds what the C structs hold (flags, queue,
    in-flight counter, request fields, allocator counters) and a history of what has happened.
    The module Storage implements the same operations on mutable objects and is proved
    to compute these functions. */
module Protocol {

  datatype Kind = Read | Write | Delete | Stat | Open | Close | Destroy

  /** `type >= RAS_REQUEST_OPEN` */
  predicate Lifecycle(k: Kind) { k.Open? || k.Close? || k.Destroy? }

  /** Two drain loops: the one in src/request.c, and the one it is meant to be. */
  datatype Policy = AsWritten | Repaired

  /** What a backend operation does when it is handed a request: call back before it
      returns, or leave the call to a later step.  `foreign` says that the value passed
      back is a buffer the backend allocated itself (only a read owns and frees it). */
  datatype Reply = Later | Now(err: int, size: nat, foreign: bool)

  type Id = int

  /** The backend: which operations it offers and how it answers each request. */
  datatype Config = Config(policy: Policy, reply: Id -> Reply, ops: set<Kind>, openReadOnly: bool)

  function Repair(c: Config): Config { c.(policy := Repaired) }

  datatype Req = Req(kind: Kind, done: bool, err: int, size: nat, queued: bool)

  datatype Flags = Flags(isOpen: bool, isClosed: bool, isDestroyed: bool, needsOpen: bool)

  /** The storage struct: whether it came from `ras_storage_new`, whether it is allocated, and
      whether it was released although the callback of another request had not returned and
      still had to read it. */
  datatype Struct = Struct(heap: bool, held: bool, dangling: bool)

  /** The allocator's counters, and which blocks are allocated.  `fault` is set when a
      request is released too early or twice, and when `queued` wraps below 0. */
  datatype Memory = Memory(allocs: nat, frees: nat, storage: Struct, live: set<Id>,
                           buffers: set<Id>, values: set<Id>, fault: bool)

  /** Where requests are: created but neither queued nor started; started and not called
      back; among those, never handed to the backend; called back; and the callbacks that
      have not returned yet, innermost last. */
  datatype Places = Places(created: set<Id>, inFlight: set<Id>, stalled: set<Id>, called: set<Id>, stack: seq<Id>)

  /** Allocations not yet freed are exactly the blocks that exist. */
  ghost predicate Balanced(m: Memory) {
    m.allocs == m.frees + |m.live| + |m.buffers| + |m.values| + if m.storage.held then 1 else 0
  }

  datatype Event = OpenEvent | CloseEvent | ErrorEvent(err: int)

  /** One invocation of a backend operation and the flags it was made under. */
  datatype Call = Call(id: Id, kind: Kind, flags: Flags)

  /** A request is started; its callback begins, with these arguments; and ends, after what it
      has drained.  `flags` are those of that moment, and `wasClosed` is the flag the callback
      sampled when it began. */
  datatype Moment =
    | Starting(id: Id, kind: Kind, size: nat, flags: Flags)
    | Beginning(id: Id, kind: Kind, err: int, size: nat, foreign: bool, flags: Flags)
    | Ending(id: Id, kind: Kind, err: int, done: bool, wasClosed: bool, flags: Flags)

  /** What has happened, in order: pushes, removals from the head, runs of queued requests,
      calls of `done`, invocations of the backend, events emitted; starts and callbacks. */
  datatype History = History(pushed: seq<Id>, removed: seq<Id>, ran: seq<Id>,
                             dones: seq<Id>, calls: seq<Call>, events: seq<Event>, trace: seq<Moment>)

  datatype State = State(flags: Flags, queue: seq<Id>, pending: nat, reqs: map<Id, Req>, next: Id,
                         at: Places, mem: Memory, log: History)

  const ENOSYS := 38
  const STATS_SIZE := 16
  const UINT := 0x1_0000_0000
  const INT_MIN := 0x8000_0000   // the unsigned value that reads as the least int

  /** RAS_STORAGE_MAX_REQUEST_QUEUE.  A full queue cannot be shifted without reading past
      the array, so at most QUEUE_MAX - 1 requests may wait. */
  const QUEUE_MAX := 512

  /** `ras_storage_init`, or `ras_storage_new` when `heap` */
  function Initial(heap: bool): State {
    State(Flags(false, false, false, true), [], 0, map[], 0,
          Places({}, {}, {}, {}, []),
          Memory(if heap then 1 else 0, 0, Struct(heap, heap, false), {}, {}, {}, false),
          History([], [], [], [], [], [], []))
  }

  // ---------------------------------------------------------------- single effects

  predicate IsHead(s: State, id: Id) { s.queue != [] && s.queue[0] == id }

  /** Requests that stay queued once `id` is taken off the head. */
  function Behind(s: State, id: Id): nat { if IsHead(s, id) then |s.queue| - 1 else |s.queue| }

  ghost predicate WF(s: State) { forall x :: x in s.queue ==> x in s.reqs }

  /** Kind, `done` and the `pending` bit of a request; the rest of it may change. */
  ghost predicate SameStatics(r: Req, q: Req) { r.kind == q.kind && r.done == q.done && r.queued == q.queued }

  ghost predicate SameRequests(s: State, t: State) {
    t.reqs.Keys == s.reqs.Keys && forall x :: x in s.reqs ==> SameStatics(s.reqs[x], t.reqs[x])
  }

  function SetErr(s: State, id: Id, err: int): State
    requires id in s.reqs
  {
    s.(reqs := s.reqs[id := s.reqs[id].(err := err)])
  }

  function Issue(s: State, kind: Kind, size: nat, done: bool): State {
    s.(reqs := s.reqs[s.next := Req(kind, done, 0, size, false)], next := s.next + 1,
       at := s.at.(created := s.at.created + {s.next}),
       mem := s.mem.(live := s.mem.live + {s.next}, allocs := s.mem.allocs + 1))
  }

  function Push(s: State, id: Id): State
    requires id in s.reqs
  {
    s.(queue := s.queue + [id], reqs := s.reqs[id := s.reqs[id].(queued := true)],
       at := s.at.(created := s.at.created - {id}),
       log := s.log.(pushed := s.log.pushed + [id]))
  }

  function Shift(s: State): State
    requires s.queue != []
  {
    s.(queue := s.queue[1..], log := s.log.(removed := s.log.removed + [s.queue[0]]))
  }

  /** `ras_request_free`: releasing a struct that is already released is a fault. */
  function FreeRequest(m: Memory, id: Id): (n: Memory)
    ensures Balanced(m) ==> Balanced(n)
    ensures n.fault == (m.fault || id !in m.live) && n.storage == m.storage
  {
    if id in m.live then m.(live := m.live - {id}, frees := m.frees + 1) else m.(fault := true)
  }

  /** A queued request has been picked to run. */
  function Pick(s: State, id: Id): State
    requires id in s.reqs
  {
    if s.reqs[id].queued then s.(log := s.log.(ran := s.log.ran + [id])) else s
  }

  /** Does the `before` function allocate a buffer?  `ras_alloc(0)` does not. */
  predicate NeedsBuffer(r: Req) { r.kind.Stat? || (r.kind.Read? && r.size > 0) }

  /** `pending++` and the `before` function */
  function Start(s: State, id: Id): State
    requires id in s.reqs
  {
    var r := s.reqs[id];
    s.(pending := s.pending + 1,
       at := s.at.(inFlight := s.at.inFlight + {id}, created := s.at.created - {id}),
       reqs := if r.kind.Stat? then s.reqs[id := r.(size := STATS_SIZE)] else s.reqs,
       mem := if NeedsBuffer(r) then s.mem.(buffers := s.mem.buffers + {id}, allocs := s.mem.allocs + 1) else s.mem,
       log := s.log.(trace := s.log.trace + [Starting(id, r.kind, r.size, s.flags)]))
  }

  /** `readystate` on a storage that is not open: nobody will ever call the request back. */
  function Stall(s: State, id: Id): State
    requires id in s.reqs
  {
    s.(at := s.at.(stalled := s.at.stalled + {id}),
       reqs := if s.flags.isOpen then s.reqs else s.reqs[id := s.reqs[id].(err := 1)])
  }

  /** Where `ras_request_run` sends a request that is not marked with an error. */
  datatype Route = Immediate(err: int) | Backend | Nowhere

  function RouteOf(c: Config, f: Flags, k: Kind): Route {
    match k
    case Open =>
      if f.isOpen && !f.needsOpen then Immediate(0)
      else if c.openReadOnly || Open in c.ops then Backend else Immediate(0)
    case Close =>
      if f.isClosed || !f.isOpen then Immediate(0)
      else if Close in c.ops then Backend else Immediate(0)
    case Destroy =>
      if f.isDestroyed then Immediate(0)
      else if Destroy in c.ops then Backend else Immediate(0)
    case _ =>
      if f.isOpen && !f.isClosed then (if k in c.ops then Backend else Immediate(ENOSYS)) else Nowhere
  }

  function Invoke(s: State, id: Id): State
    requires id in s.reqs
  {
    s.(log := s.log.(calls := s.log.calls + [Call(id, s.reqs[id].kind, s.flags)]))
  }

  function Announcement(k: Kind, err: int): Event {
    if err != 0 then ErrorEvent(err) else if k.Open? then OpenEvent else CloseEvent
  }

  /** The callback begins: fields are set and an open announces its outcome. */
  function Enter(s: State, id: Id, err: int, size: nat, foreign: bool): (t: State)
    requires id in s.reqs
    ensures SameRequests(s, t) && t.at.stack == s.at.stack + [id] && t.queue == s.queue
  {
    var r := s.reqs[id];
    s.(reqs := s.reqs[id := r.(err := err, size := size)],
       at := s.at.(called := s.at.called + {id}, stack := s.at.stack + [id]),
       mem := if r.kind.Read? && foreign then s.mem.(values := s.mem.values + {id}, allocs := s.mem.allocs + 1)
              else s.mem,
       log := s.log.(events := if r.kind.Open? && !s.flags.isDestroyed then s.log.events + [Announcement(Open, err)]
                               else s.log.events,
                     trace := s.log.trace + [Beginning(id, r.kind, err, size, foreign, s.flags)]))
  }

  /** `request->err = err` for every queued request */
  function Mark(reqs: map<Id, Req>, q: seq<Id>, err: int): map<Id, Req> {
    map x | x in reqs :: if x in q then reqs[x].(err := err) else reqs[x]
  }

  /** The completion's effect on the flags. */
  function SettleFlags(f: Flags, k: Kind, err: int): Flags {
    if err != 0 then
      if k.Open? then f.(needsOpen := true, isOpen := false) else f
    else match k
      case Open => if f.isOpen then f else f.(isOpen := true, needsOpen := false)
      case Close => if f.isClosed then f else f.(isOpen := false, isClosed := true)
      case Destroy => f.(isDestroyed := true)
      case _ => f
  }

  function Settle(s: State, k: Kind, err: int): (t: State)
    ensures SameRequests(s, t)
  {
    s.(flags := SettleFlags(s.flags, k, err),
       reqs := if k.Open? && err != 0 then Mark(s.reqs, s.queue, err) else s.reqs)
  }

  function Remove(s: State, id: Id): State { if IsHead(s, id) then Shift(s) else s }

  /** `--storage->pending` on an unsigned int */
  function Decrement(pending: nat): nat { if pending == 0 then UINT - 1 else pending - 1 }

  function Uncount(s: State, id: Id): State {
    s.(pending := Decrement(s.pending),
       at := s.at.(inFlight := s.at.inFlight - {id}, stalled := s.at.stalled - {id}))
  }

  /** `if ((int) storage->pending < 0) storage->pending = 0` */
  function Clamp(s: State): State { if s.pending >= INT_MIN then s.(pending := 0) else s }

  /** Everything a completion does before it looks at the queue. */
  function Leave(s: State, id: Id, err: int, size: nat, foreign: bool): (t: State)
    requires id in s.reqs
    ensures SameRequests(s, t) && t.at.stack == s.at.stack + [id]
    ensures t.queue == if IsHead(s, id) then s.queue[1..] else s.queue
  {
    Uncount(Remove(Settle(Enter(s, id, err, size, foreign), s.reqs[id].kind, err), id), id)
  }

  /** The line that follows a run in the drain loop of a data completion: take the head
      off and release it, whatever it is.  It is a fault when there is no head (`queued`
      wraps) or when the head has not been called back. */
  function DropHead(s: State): State {
    if s.queue == [] then s.(mem := s.mem.(fault := true))
    else
      var m := FreeRequest(s.mem, s.queue[0]);
      Shift(s).(mem := if s.queue[0] in s.at.called then m else m.(fault := true))
  }

  /** `ras_free(value)`, for a value that is not the request's own buffer */
  function FreeValue(m: Memory, id: Id): (n: Memory)
    ensures Balanced(m) ==> Balanced(n)
    ensures n.values == m.values - {id} && n.buffers == m.buffers
    ensures n.live == m.live && n.fault == m.fault && n.storage == m.storage
  {
    if id in m.values then m.(values := m.values - {id}, frees := m.frees + 1) else m
  }

  /** `ras_free(request->data)` */
  function FreeData(m: Memory, id: Id): (n: Memory)
    ensures Balanced(m) ==> Balanced(n)
    ensures n.buffers == m.buffers - {id} && n.values == m.values
    ensures n.live == m.live && n.fault == m.fault && n.storage == m.storage
  {
    if id in m.buffers then m.(buffers := m.buffers - {id}, frees := m.frees + 1) else m
  }

  function FreeAll(m: Memory, q: seq<Id>): (n: Memory)
    ensures (m.fault ==> n.fault) && n.storage == m.storage && n.allocs == m.allocs
    decreases |q|
  {
    if q == [] then m else FreeAll(FreeRequest(m, q[0]), q[1..])
  }

  /** The struct is released; `nested` when that happens inside the callback of another request. */
  function Release(b: Struct, nested: bool): Struct {
    if b.held then b.(held := false, dangling := b.dangling || nested) else b
  }

  /** `ras_storage_free` */
  function FreeStorage(m: Memory, nested: bool): Memory {
    m.(storage := Release(m.storage, nested), frees := m.frees + if m.storage.held then 1 else 0)
  }

  /** `ras_storage_destroy_after`, called while the destroy's own callback is the innermost */
  function Teardown(s: State): State {
    s.(queue := [], mem := FreeStorage(FreeAll(s.mem, s.queue), |s.at.stack| > 1))
  }

  /** The `after` function of each kind of request. */
  function After(s: State, id: Id, r: Req, err: int, announce: bool): (t: State)
    ensures t.reqs == s.reqs && t.at == s.at && (t.queue == s.queue || t.queue == [])
    ensures t.mem.storage == if r.kind.Destroy? then Release(s.mem.storage, |s.at.stack| > 1) else s.mem.storage
  {
    match r.kind
    case Open => s
    case Close => if announce then s.(log := s.log.(events := s.log.events + [Announcement(Close, err)])) else s
    case Destroy => Teardown(s)
    case _ =>
      var m := FreeData(FreeValue(s.mem, id), id);
      s.(mem := if r.queued then m else FreeRequest(m, id))
  }

  /** `done` is called, if there is one. */
  function Tell(s: State, id: Id, r: Req, err: int, wasClosed: bool): State {
    s.(log := s.log.(dones := if r.done then s.log.dones + [id] else s.log.dones,
                     trace := s.log.trace + [Ending(id, r.kind, err, r.done, wasClosed, s.flags)]))
  }

  /** The callback ends: `done`, `after`, and the release of a request that was queued. */
  function Finish(s: State, id: Id, r: Req, err: int, wasClosed: bool, needsFree: bool): (t: State)
    requires s.at.stack != []
    ensures t.reqs == s.reqs && (t.queue == s.queue || t.queue == [])
    ensures t.at.stack == s.at.stack[..|s.at.stack| - 1]
  {
    var s2 := After(Tell(s, id, r, err, wasClosed), id, r, err, !wasClosed && !s.flags.isDestroyed);
    s2.(mem := if needsFree then FreeRequest(s2.mem, id) else s2.mem,
        at := s2.at.(stack := s.at.stack[..|s.at.stack| - 1]))
  }

  // ---------------------------------------------------------------- the recursive core

  /** What holds of every state the core moves to, whatever the policy. */
  ghost predicate Moves(s: State, t: State) {
    && WF(t) && SameRequests(s, t)
    && |t.queue| <= |s.queue|
    && t.at.stack == s.at.stack
  }

  /** `ras_request_run`; the second component is its return value. */
  function Run(c: Config, s: State, id: Id): (r: (State, int))
    requires WF(s) && id in s.reqs
    ensures Moves(s, r.0) && (r.0.pending == 0 ==> |r.0.queue| <= Behind(s, id))
    decreases Behind(s, id), 4
  {
    var s1 := Pick(s, id);
    if s.reqs[id].err != 0 then Callback(c, s1, id, s.reqs[id].err, 0, false)
    else Dispatch(c, Start(s1, id), id)
  }

  /** The `switch` of `ras_request_run` */
  function Dispatch(c: Config, s: State, id: Id): (r: (State, int))
    requires WF(s) && id in s.reqs && s.pending > 0
    ensures Moves(s, r.0) && (r.0.pending == 0 ==> |r.0.queue| <= Behind(s, id))
    decreases Behind(s, id), 3
  {
    match RouteOf(c, s.flags, s.reqs[id].kind)
    case Immediate(err) => Callback(c, s, id, err, 0, false)
    case Nowhere => (Stall(s, id), 0)
    case Backend =>
      var s1 := Invoke(s, id);
      match c.reply(id)
      case Later => (s1, 0)
      case Now(err, size, foreign) => (Callback(c, s1, id, err, size, foreign).0, 0)
  }

  /** `ras_request_callback` */
  function Callback(c: Config, s: State, id: Id, err: int, size: nat, foreign: bool): (r: (State, int))
    requires WF(s) && id in s.reqs
    ensures Moves(s, r.0) && |r.0.queue| <= Behind(s, id)
    decreases Behind(s, id), 2
  {
    var s1 := Dequeue(c, s, id, err, size, foreign);
    (Finish(s1, id, s.reqs[id], err, s.flags.isClosed, IsHead(s, id)), -err)
  }

  /** `ras_request_dequeue`, with the field updates that precede it in the callback */
  function Dequeue(c: Config, s: State, id: Id, err: int, size: nat, foreign: bool): (t: State)
    requires WF(s) && id in s.reqs
    ensures WF(t) && SameRequests(s, t) && t.at.stack == s.at.stack + [id] && |t.queue| <= Behind(s, id)
    decreases Behind(s, id), 1
  {
    var s1 := Leave(s, id, err, size, foreign);
    Clamp(if s1.pending == 0 then Drain(c, s1, s.reqs[id].kind) else s1)
  }

  /** The drain loop, entered when the counter has reached 0. */
  function Drain(c: Config, s: State, k: Kind): (t: State)
    requires WF(s)
    ensures Moves(s, t)
    decreases |s.queue|, 0
  {
    if s.queue == [] then s
    else if c.policy.Repaired? then
      if s.pending != 0 then s
      else
        var s1 := Run(c, s, s.queue[0]).0;
        if s1.pending != 0 then s1 else Drain(c, s1, k)
    else
      var (s1, ret) := Run(c, s, s.queue[0]);
      if ret < 0 || Lifecycle(k) then s1
      else if s1.queue == [] then DropHead(s1)
      else Drain(c, DropHead(s1), k)
  }

  lemma CallbackIs(c: Config, s: State, id: Id, err: int, size: nat, foreign: bool)
    requires WF(s) && id in s.reqs
    ensures Callback(c, s, id, err, size, foreign) ==
      (Finish(Dequeue(c, s, id, err, size, foreign), id, s.reqs[id], err, s.flags.isClosed, IsHead(s, id)), -err)
  {
  }

  /** A turn of the drain loop shortens the queue, unless something is in flight after it. */
  lemma TurnShrinks(c: Config, s: State)
    requires WF(s) && s.queue != []
    ensures var t := Run(c, s, s.queue[0]).0;
            && WF(t) && |t.queue| <= |s.queue| && (t.pending == 0 ==> |t.queue| < |s.queue|)
            && WF(DropHead(t)) && (t.queue != [] ==> |DropHead(t).queue| < |t.queue|)
  {
    hide Run;
  }

  // ---------------------------------------------------------------- public calls

  /** `queue_and_run` */
  function QueueAndRun(c: Config, s: State, id: Id): (r: (State, int))
    requires WF(s) && id in s.reqs
    ensures Moves(Push(s, id), r.0)
  {
    var s1 := Push(s, id);
    if s1.pending == 0 then var (t, ret) := Run(c, s1, id); (t, -ret) else (s1, -s1.reqs[id].err)
  }

  /** `ras_storage_open_shared`, `ras_storage_close_shared` and the tail of `ras_storage_destroy_shared` */
  function LifecycleCall(c: Config, s: State, k: Kind, done: bool): (r: (State, int))
    requires WF(s)
    ensures WF(r.0) && r.0.reqs.Keys == s.reqs.Keys + {s.next} && |r.0.queue| <= |s.queue| + 1
  {
    QueueAndRun(c, Issue(s, k, 0, done), s.next)
  }

  /** The automatic open at the top of `run_request` */
  function AutoOpen(c: Config, s: State, id: Id): (t: State)
    requires WF(s) && id in s.reqs
    ensures WF(t) && id in t.reqs
  {
    if s.flags.needsOpen && !s.flags.isOpen then
      var (s1, ret) := LifecycleCall(c, s, Open, false);
      SetErr(s1, id, ret)
    else s
  }

  /** `ras_storage_read_shared` and the other data calls, down through `run_request` */
  function DataCall(c: Config, s: State, k: Kind, size: nat, done: bool): (r: (State, int))
    requires WF(s)
    ensures WF(r.0)
  {
    var id := s.next;
    var s1 := AutoOpen(c, Issue(s, k, size, done), id);
    if s1.queue != [] then (Push(s1, id), -s1.reqs[id].err) else Run(c, s1, id)
  }

  /** `ras_storage_destroy_shared` */
  function DestroyCall(c: Config, s: State, done: bool): (r: (State, int))
    requires WF(s)
    ensures WF(r.0)
  {
    var (s1, ret) := LifecycleCall(c, s, Close, false);
    if ret != 0 then (s1, -ret) else LifecycleCall(c, s1, Destroy, done)
  }
}
