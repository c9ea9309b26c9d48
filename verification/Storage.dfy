/** The scheduler on mutable objects: `struct ras_storage_s` with its array of queued requests,
    and the mutually recursive functions of src/request.c and src/storage.c, each proved to
    compute the function of the same name in Protocol. */
module Storage {
  import opened Protocol

  /** `struct ras_request_s`.  `data` and `value` say whether the request owns a buffer and
      whether its callback was given a buffer of the backend's. */
  class Request {
    const id: Id
    const kind: Kind
    const done: bool
    var err: int
    var size: nat
    var pending: bool
    var alloc: bool
    var data: bool
    var value: bool

    /** `ras_request_new` */
    constructor (id: Id, kind: Kind, size: nat, done: bool)
      ensures this.id == id && this.kind == kind && this.done == done && err == 0 && this.size == size
      ensures !pending && alloc && !data && !value
    {
      this.id, this.kind, this.done := id, kind, done;
      err, this.size, pending := 0, size, false;
      alloc, data, value := true, false, false;
    }
  }

  ghost predicate Mirrors(r: Request, s: State)
    requires r.id in s.reqs
    reads r
  {
    && Req(r.kind, r.done, r.err, r.size, r.pending) == s.reqs[r.id]
    && r.alloc == (r.id in s.mem.live) && r.data == (r.id in s.mem.buffers) && r.value == (r.id in s.mem.values)
  }

  /** Only issued requests are mentioned, and ids grow. */
  ghost predicate Issued(s: State) {
    && (forall x :: x in s.reqs ==> x < s.next)
    && s.mem.buffers <= s.reqs.Keys && s.mem.values <= s.reqs.Keys
  }

  /** From `s` to `t` nothing changes that the objects show, except for request `id`, the
      counter and the allocator's counters. */
  ghost predicate TouchesOnly(s: State, t: State, id: Id) {
    && t.flags == s.flags && t.queue == s.queue && t.next == s.next && t.reqs.Keys == s.reqs.Keys
    && t.mem.storage == s.mem.storage
    && t.mem.buffers <= s.mem.buffers + {id} && t.mem.values <= s.mem.values + {id}
    && (forall x :: x in s.reqs && x != id ==>
          t.reqs[x] == s.reqs[x] && (x in t.mem.live <==> x in s.mem.live)
          && (x in t.mem.buffers <==> x in s.mem.buffers) && (x in t.mem.values <==> x in s.mem.values))
  }

  lemma StartTouches(s: State, id: Id)
    requires id in s.reqs
    ensures var t := Start(s, id); var r := s.reqs[id];
            && TouchesOnly(s, t, id) && t.pending == s.pending + 1
            && t.reqs[id] == (if r.kind.Stat? then r.(size := STATS_SIZE) else r)
            && (id in t.mem.buffers <==> id in s.mem.buffers || NeedsBuffer(r))
            && (id in t.mem.live <==> id in s.mem.live) && (id in t.mem.values <==> id in s.mem.values)
            && t.mem.frees == s.mem.frees && t.mem.allocs == s.mem.allocs + if NeedsBuffer(r) then 1 else 0
  {
  }

  lemma EnterTouches(s: State, id: Id, err: int, size: nat, foreign: bool)
    requires id in s.reqs
    ensures var t := Enter(s, id, err, size, foreign); var r := s.reqs[id]; var given := r.kind.Read? && foreign;
            && TouchesOnly(s, t, id) && t.pending == s.pending && t.reqs[id] == r.(err := err, size := size)
            && (id in t.mem.values <==> id in s.mem.values || given)
            && (id in t.mem.live <==> id in s.mem.live) && (id in t.mem.buffers <==> id in s.mem.buffers)
            && t.mem.frees == s.mem.frees && t.mem.allocs == s.mem.allocs + if given then 1 else 0
  {
  }

  lemma FreesTouch(s: State, id: Id)
    requires id in s.reqs
    ensures TouchesOnly(s, s.(mem := FreeRequest(s.mem, id)), id)
    ensures TouchesOnly(s, s.(mem := FreeValue(s.mem, id)), id) && TouchesOnly(s, s.(mem := FreeData(s.mem, id)), id)
  {
  }

  lemma RecordsTouch(s: State, id: Id)
    requires id in s.reqs
    ensures TouchesOnly(s, Pick(s, id), id) && TouchesOnly(s, Invoke(s, id), id) && TouchesOnly(s, Stall(s, id), id)
  {
  }

  lemma SetErrTouches(s: State, id: Id, err: int)
    requires id in s.reqs
    ensures TouchesOnly(s, SetErr(s, id, err), id)
  {
  }

  /** What the end of a callback does depends on the request's fixed fields only. */
  lemma FinishStatics(s: State, id: Id, r: Req, q: Req, err: int, wasClosed: bool, needsFree: bool)
    requires s.at.stack != [] && SameStatics(r, q)
    ensures Finish(s, id, r, err, wasClosed, needsFree) == Finish(s, id, q, err, wasClosed, needsFree)
  {
  }

  /** One turn of the drain loop, and where it stops. */
  lemma DrainTurn(c: Config, s: State, k: Kind)
    requires WF(s)
    ensures s.queue == [] || (c.policy.Repaired? && s.pending != 0) ==> Drain(c, s, k) == s
    ensures s.queue != [] && c.policy.Repaired? && s.pending == 0 ==>
              Drain(c, s, k) == Drain(c, Protocol.Run(c, s, s.queue[0]).0, k)
    ensures s.queue != [] && c.policy.AsWritten? ==>
              var r := Protocol.Run(c, s, s.queue[0]);
              Drain(c, s, k) == if r.1 < 0 || Lifecycle(k) then r.0
                                else if r.0.queue == [] then DropHead(r.0) else Drain(c, DropHead(r.0), k)
  {
    hide Protocol.Run, DropHead;
  }

  /** The three ways of a request that is run */
  lemma DispatchIs(c: Config, s: State, id: Id)
    requires WF(s) && id in s.reqs && s.pending > 0
    ensures match RouteOf(c, s.flags, s.reqs[id].kind)
            case Immediate(err) => Dispatch(c, s, id) == Callback(c, s, id, err, 0, false)
            case Nowhere => Dispatch(c, s, id) == (Stall(s, id), 0)
            case Backend => Dispatch(c, s, id).1 == 0
  {
    hide Callback;
  }

  /** The two ways of the automatic open */
  lemma AutoOpenIs(c: Config, s: State, id: Id)
    requires WF(s) && id in s.reqs
    ensures !(s.flags.needsOpen && !s.flags.isOpen) ==> AutoOpen(c, s, id) == s
    ensures s.flags.needsOpen && !s.flags.isOpen ==>
              var r := LifecycleCall(c, s, Open, false); AutoOpen(c, s, id) == SetErr(r.0, id, r.1)
  {
  }

  lemma MarkNext(s: State, i: nat, err: int)
    requires i < |s.queue| && s.queue[i] in s.reqs
    ensures var m := Mark(s.reqs, s.queue[..i], err);
            Mark(s.reqs, s.queue[..i + 1], err) == m[s.queue[i] := m[s.queue[i]].(err := err)]
  {
    assert s.queue[..i + 1] == s.queue[..i] + [s.queue[i]];
  }

  class Storage {
    const c: Config
    var isOpen: bool
    var isClosed: bool
    var isDestroyed: bool
    var needsOpen: bool
    const queue: array<Request?>
    var queued: nat
    var pending: nat
    var alloc: bool
    var nrequests: Id
    var allocs: nat   // the allocator's counters
    var frees: nat

    ghost var model: State
    ghost var objects: map<Id, Request>

    /** The queued requests, and nothing else, are in the array. */
    ghost predicate Slots()
      reads this`queued, this`model, this`objects, queue
    {
      && queue.Length == QUEUE_MAX && queued == |model.queue| < QUEUE_MAX
      && (forall i :: 0 <= i < queued ==> model.queue[i] in objects && queue[i] == objects[model.queue[i]])
      && (forall i :: queued <= i < QUEUE_MAX ==> queue[i] == null)
    }

    ghost predicate Fields()
      reads this
    {
      && WF(model) && objects.Keys == model.reqs.Keys
      && model.flags == Flags(isOpen, isClosed, isDestroyed, needsOpen)
      && model.pending == pending && model.next == nrequests
      && model.mem.allocs == allocs && model.mem.frees == frees && model.mem.storage.held == alloc
      && Issued(model)
    }

    ghost predicate Mirrored()
      reads this, objects.Values
    {
      forall x :: x in objects ==> objects[x].id == x && x in model.reqs && Mirrors(objects[x], model)
    }

    ghost predicate Valid()
      reads this, queue, objects.Values
    {
      Slots() && Fields() && Mirrored()
    }

    /** `ras_storage_init`, or `ras_storage_new` when `heap` */
    constructor (c: Config, heap: bool)
      ensures Valid() && fresh(queue) && model == Initial(heap) && this.c == c && objects == map[]
    {
      this.c := c;
      isOpen, isClosed, isDestroyed, needsOpen := false, false, false, true;
      queue := new Request?[QUEUE_MAX](_ => null);
      queued, pending, nrequests := 0, 0, 0;
      alloc, allocs, frees := heap, if heap then 1 else 0, 0;
      model, objects := Initial(heap), map[];
    }

    /** The first loop of `ras_storage_queue_shift`: each slot in use takes the next one's request. */
    method MoveDown()
      requires queue.Length == QUEUE_MAX && queued < QUEUE_MAX
      modifies queue
      ensures forall j :: 0 <= j < queued ==> queue[j] == old(queue[j + 1])
    {
      var i := 0;
      while i < queued
        invariant 0 <= i <= queued
        invariant forall j :: 0 <= j < i ==> queue[j] == old(queue[j + 1])
        invariant forall j :: i <= j < QUEUE_MAX ==> queue[j] == old(queue[j])
      {
        queue[i] := queue[i + 1];
        i := i + 1;
      }
    }

    /** Its second loop: the slots from `from` on are emptied. */
    method ClearFrom(from: nat)
      requires queue.Length == QUEUE_MAX && from <= QUEUE_MAX
      modifies queue
      ensures forall j :: 0 <= j < from ==> queue[j] == old(queue[j])
      ensures forall j :: from <= j < QUEUE_MAX ==> queue[j] == null
    {
      var i := from;
      while i < QUEUE_MAX
        invariant from <= i <= QUEUE_MAX
        invariant forall j :: 0 <= j < from ==> queue[j] == old(queue[j])
        invariant forall j :: from <= j < i ==> queue[j] == null
      {
        queue[i] := null;
        i := i + 1;
      }
    }

    /** The two loops move every request one slot down and leave null behind them. */
    method ShiftSlots()
      requires queue.Length == QUEUE_MAX && 0 < queued < QUEUE_MAX && queue[queued] == null
      modifies queue
      ensures forall j :: 0 <= j < queued ==> queue[j] == old(queue[j + 1])
      ensures forall j :: queued - 1 <= j < QUEUE_MAX ==> queue[j] == null
    {
      MoveDown();
      ClearFrom(queued);
    }

    /** `ras_storage_queue_shift`: the array is shifted by one, slot by slot. */
    method QueueShift() returns (head: Request?)
      requires queue.Length == QUEUE_MAX && 0 < queued < QUEUE_MAX
      requires forall i :: queued <= i < QUEUE_MAX ==> queue[i] == null
      modifies this`queued, queue
      ensures head == old(queue[0]) && queued == old(queued) - 1
      ensures queue[..queued] == old(queue[1..queued])
      ensures forall i :: queued <= i < QUEUE_MAX ==> queue[i] == null
    {
      head := queue[0];
      ShiftSlots();
      queued := queued - 1;
    }

    /** `ras_storage_queue_push`, into the last slot as well */
    method QueuePush(r: Request)
      requires queue.Length == QUEUE_MAX && queued < QUEUE_MAX
      modifies this`queued, queue, r`pending
      ensures queued == old(queued) + 1 && r.pending
      ensures queue[..queued] == old(queue[..queued]) + [r] && queue[queued..] == old(queue[queued + 1..])
    {
      queue[queued] := r;
      queued := queued + 1;
      r.pending := true;
    }

    /** All requests but `r` are as the state `t` says. */
    ghost predicate Others(r: Request, t: State)
      reads this`objects, objects.Values - {r}
    {
      forall x :: x in objects && x != r.id ==> objects[x].id == x && x in t.reqs && Mirrors(objects[x], t)
    }

    lemma ValidOthers(r: Request)
      requires Valid() && Holds(r)
      ensures Others(r, model) && Mirrors(r, model) && Fields()
    {
    }

    lemma OthersPushed(r: Request, s: State)
      requires Others(r, s) && r.id in s.reqs
      ensures Others(r, Push(s, r.id))
    {
    }

    lemma AllMirrored(r: Request)
      requires Others(r, model) && r.id in objects && objects[r.id] == r && r.id in model.reqs && Mirrors(r, model)
      ensures Mirrored()
    {
    }

    lemma ValidSlots()
      requires Valid()
      ensures Slots()
    {
    }

    /** The fields after a push */
    lemma FieldsPushed(r: Request, s: State)
      requires WF(s) && objects.Keys == s.reqs.Keys && s.flags == Flags(isOpen, isClosed, isDestroyed, needsOpen)
      requires s.pending == pending && s.next == nrequests && Issued(s) && r.id in s.reqs && model == Push(s, r.id)
      requires s.mem.allocs == allocs && s.mem.frees == frees && s.mem.storage.held == alloc
      ensures Fields()
    {
    }

    lemma PartsValid()
      requires Slots() && Fields() && Mirrored()
      ensures Valid()
    {
    }

    /** A push between other requests: there is room for one more after it. */
    method Enqueue(r: Request)
      requires Valid() && Holds(r) && queued + 1 < QUEUE_MAX
      modifies this`queued, this`model, queue, r`pending
      ensures Valid() && model == Push(old(model), r.id)
    {
      hide Valid, Mirrored, Others, Push, WF, Issued;
      ghost var s := model;
      ValidSlots();
      ValidOthers(r);
      QueuePush(r);
      OthersPushed(r, s);
      model := Push(model, r.id);
      SlotsPushed(old(queue[..]), old(queued), r, s);
      FieldsPushed(r, s);
      PushMirrors(r, s);
      hide Slots, Fields;
      AllMirrored(r);
      PartsValid();
    }

    lemma PushMirrors(r: Request, s: State)
      requires r.id in s.reqs && model == Push(s, r.id)
      requires Req(r.kind, r.done, r.err, r.size, r.pending) == s.reqs[r.id].(queued := true)
      requires r.alloc == (r.id in s.mem.live) && r.data == (r.id in s.mem.buffers) && r.value == (r.id in s.mem.values)
      ensures r.id in model.reqs && Mirrors(r, model)
    {
    }

    /** The array after a push, slot by slot. */
    lemma SlotsPushed(was: seq<Request?>, n: nat, r: Request, s: State)
      requires queue.Length == QUEUE_MAX == |was| && n + 1 == queued < QUEUE_MAX && n == |s.queue|
      requires queue[..queued] == was[..n] + [r] && queue[queued..] == was[n + 1..]
      requires forall i :: 0 <= i < n ==> s.queue[i] in objects && was[i] == objects[s.queue[i]]
      requires forall i :: n <= i < QUEUE_MAX ==> was[i] == null
      requires r.id in objects && objects[r.id] == r && r.id in s.reqs && model == Push(s, r.id)
      ensures Slots()
    {
      forall i | 0 <= i < queued ensures model.queue[i] in objects && queue[i] == objects[model.queue[i]] {
        assert queue[i] == queue[..queued][i];
      }
      forall i | queued <= i < QUEUE_MAX ensures queue[i] == null {
        assert queue[i] == queue[queued..][i - queued];
      }
    }

    ghost predicate Holds(r: Request)
      reads this`model, this`objects
    {
      r.id in objects && objects[r.id] == r && r.id in model.reqs
    }

    lemma HeadHolds()
      requires Valid() && queued > 0
      ensures queue.Length > 0 && queue[0] != null && Holds(queue[0])
      ensures model.queue != [] && queue[0].id == model.queue[0]
    {
      var first := model.queue[0];
      assert queue[0] == objects[first];
      assert first in objects;
    }

    lemma Counts()
      requires Valid()
      ensures queued == |model.queue| && pending == model.pending && WF(model) && objects.Keys == model.reqs.Keys
      ensures model.flags == Flags(isOpen, isClosed, isDestroyed, needsOpen) && model.next == nrequests
      ensures model.next !in model.reqs && forall x :: x in objects ==> objects[x].kind == model.reqs[x].kind
    {
    }

    /** Valid, but for request `r` and the counters. */
    ghost predicate Almost(r: Request)
      reads this`isOpen, this`isClosed, this`isDestroyed, this`needsOpen, this`queued, this`alloc, this`nrequests
      reads this`model, this`objects, queue, objects.Values - {r}
    {
      && Slots() && Holds(r) && WF(model) && objects.Keys == model.reqs.Keys && Issued(model)
      && model.flags == Flags(isOpen, isClosed, isDestroyed, needsOpen)
      && model.next == nrequests && model.mem.storage.held == alloc
      && (forall x :: x in objects && x != r.id ==> objects[x].id == x && x in model.reqs && Mirrors(objects[x], model))
    }

    /** The objects have been brought to the state `t`. */
    ghost method Commit(r: Request, t: State)
      requires Almost(r) && TouchesOnly(model, t, r.id) && Mirrors(r, t)
      requires t.pending == pending && t.mem.allocs == allocs && t.mem.frees == frees
      modifies this`model
      ensures Valid() && model == t
    {
      model := t;
    }

    lemma ValidAlmost(r: Request)
      requires Valid() && Holds(r)
      ensures Almost(r) && Mirrors(r, model) && pending == model.pending
      ensures allocs == model.mem.allocs && frees == model.mem.frees && r.kind == model.reqs[r.id].kind
    {
    }

    // ------------------------------------------------ the parts of ras_request_run

    ghost method RecordPick(r: Request)
      requires Valid() && Holds(r)
      modifies this`model
      ensures Valid() && model == Pick(old(model), r.id)
    {
      RecordsTouch(model, r.id);
      Commit(r, Pick(model, r.id));
    }

    /** The `before` functions: buffers for a stat and for a read of at least one byte */
    method Before(r: Request)
      modifies this`allocs, r`size, r`data
      ensures var q := Req(r.kind, r.done, r.err, old(r.size), r.pending);
              && r.size == (if r.kind.Stat? then STATS_SIZE else old(r.size))
              && r.data == (old(r.data) || NeedsBuffer(q)) && allocs == old(allocs) + if NeedsBuffer(q) then 1 else 0
    {
      if r.kind.Stat? {
        r.size, r.data, allocs := STATS_SIZE, true, allocs + 1;
      } else if r.kind.Read? && r.size > 0 {
        r.data, allocs := true, allocs + 1;
      }
    }

    /** `pending++` and the `before` function */
    method Begin(r: Request)
      requires Valid() && Holds(r)
      modifies this`pending, this`allocs, this`model, r
      ensures Valid() && model == Start(old(model), r.id)
    {
      hide Start, NeedsBuffer, Valid, TouchesOnly, Almost;
      ValidAlmost(r);
      StartTouches(model, r.id);
      pending := pending + 1;
      Before(r);
      Commit(r, Start(model, r.id));
    }

    /** `readystate` when the storage is not open */
    method NotReady(r: Request)
      requires Valid() && Holds(r)
      modifies this`model, r`err
      ensures Valid() && model == Stall(old(model), r.id)
    {
      if !isOpen { r.err := 1; }
      RecordsTouch(model, r.id);
      Commit(r, Stall(model, r.id));
    }

    ghost method RecordInvoke(r: Request)
      requires Valid() && Holds(r)
      modifies this`model
      ensures Valid() && model == Invoke(old(model), r.id)
    {
      RecordsTouch(model, r.id);
      Commit(r, Invoke(model, r.id));
    }

    // ------------------------------------------------ the parts of ras_request_callback

    /** A read may be given a buffer of the backend's. */
    method GiveValue(r: Request, foreign: bool)
      modifies this`allocs, r`value
      ensures r.value == (old(r.value) || (r.kind.Read? && foreign))
      ensures allocs == old(allocs) + if r.kind.Read? && foreign then 1 else 0
    {
      if r.kind.Read? && foreign { r.value, allocs := true, allocs + 1; }
    }

    method Enter(r: Request, err: int, size: nat, foreign: bool)
      requires Valid() && Holds(r)
      modifies this`allocs, this`model, r
      ensures Valid() && model == Protocol.Enter(old(model), r.id, err, size, foreign)
    {
      hide Protocol.Enter, Valid, Almost, TouchesOnly;
      ValidAlmost(r);
      EnterTouches(model, r.id, err, size, foreign);
      r.size, r.err := size, err;
      GiveValue(r, foreign);
      Commit(r, Protocol.Enter(model, r.id, err, size, foreign));
    }

    /** `ras_request_free` */
    method FreeRequest(r: Request)
      requires Valid() && Holds(r)
      modifies this`frees, this`model, r`alloc
      ensures Valid() && model == old(model).(mem := Protocol.FreeRequest(old(model).mem, r.id))
    {
      if r.alloc { r.alloc, frees := false, frees + 1; }
      FreesTouch(model, r.id);
      Commit(r, model.(mem := Protocol.FreeRequest(model.mem, r.id)));
    }

    method FreeValue(r: Request)
      requires Valid() && Holds(r)
      modifies this`frees, this`model, r`value
      ensures Valid() && model == old(model).(mem := Protocol.FreeValue(old(model).mem, r.id))
    {
      if r.value { r.value, frees := false, frees + 1; }
      FreesTouch(model, r.id);
      Commit(r, model.(mem := Protocol.FreeValue(model.mem, r.id)));
    }

    method FreeData(r: Request)
      requires Valid() && Holds(r)
      modifies this`frees, this`model, r`data
      ensures Valid() && model == old(model).(mem := Protocol.FreeData(old(model).mem, r.id))
    {
      if r.data { r.data, frees := false, frees + 1; }
      FreesTouch(model, r.id);
      Commit(r, model.(mem := Protocol.FreeData(model.mem, r.id)));
    }

    method FreeQueued()
      requires Valid()
      modifies this`frees, this`model, objects.Values
      ensures Valid() && model == old(model).(mem := FreeAll(old(model).mem, old(model).queue))
    {
      ghost var s := model;
      var i := 0;
      while i < queued
        invariant 0 <= i <= queued && Valid()
        invariant model == s.(mem := model.mem)
        invariant FreeAll(model.mem, s.queue[i..]) == FreeAll(s.mem, s.queue)
      {
        assert s.queue[i..][1..] == s.queue[i + 1..];
        FreeRequest(queue[i]);
        i := i + 1;
      }
    }

    method ClearQueue()
      requires Valid()
      modifies this`queued, this`model, queue
      ensures Valid() && model == old(model).(queue := [])
    {
      forall j | 0 <= j < QUEUE_MAX { queue[j] := null; }
      queued := 0;
      model := model.(queue := []);
    }

    /** `ras_storage_free` */
    method FreeStruct()
      requires Valid()
      modifies this`alloc, this`frees, this`model
      ensures Valid() && model == old(model).(mem := FreeStorage(old(model).mem, |old(model).at.stack| > 1))
    {
      if alloc { alloc, frees := false, frees + 1; }
      model := model.(mem := FreeStorage(model.mem, |model.at.stack| > 1));
    }

    /** `ras_storage_destroy_after`.  The array's slots are also cleared here; the C code leaves
        them, but no slot is in use when a destroy completes and none is read afterwards. */
    method DestroyAfter()
      requires Valid()
      modifies this`queued, this`alloc, this`frees, this`model, queue, objects.Values
      ensures Valid() && model == Teardown(old(model))
    {
      hide Valid, FreeStorage, FreeAll;
      FreeQueued();
      ClearQueue();
      FreeStruct();
    }

    // ------------------------------------------------ the parts of ras_request_dequeue

    method MarkOne(r: Request, err: int)
      requires Valid() && Holds(r)
      modifies this`model, r`err
      ensures Valid() && model == SetErr(old(model), r.id, err)
    {
      SetErrTouches(model, r.id, err);
      r.err := err;
      Commit(r, SetErr(model, r.id, err));
    }

    method MarkAll(err: int)
      requires Valid()
      modifies this`model, objects.Values
      ensures Valid() && model == old(model).(reqs := Mark(old(model).reqs, old(model).queue, err))
    {
      ghost var s := model;
      assert Mark(s.reqs, s.queue[..0], err) == s.reqs;
      var i := 0;
      while i < queued
        invariant 0 <= i <= queued && Valid()
        invariant model == s.(reqs := Mark(s.reqs, s.queue[..i], err))
      {
        var r := queue[i];
        assert model.queue[i] == s.queue[i] && r == objects[s.queue[i]];
        MarkNext(s, i, err);
        MarkOne(r, err);
        i := i + 1;
      }
      assert s.queue[..queued] == s.queue;
    }

    /** What the completion does to the flags */
    method UpdateFlags(k: Kind, err: int)
      modifies this`isOpen, this`isClosed, this`isDestroyed, this`needsOpen
      ensures Flags(isOpen, isClosed, isDestroyed, needsOpen)
           == SettleFlags(Flags(old(isOpen), old(isClosed), old(isDestroyed), old(needsOpen)), k, err)
    {
      if err != 0 {
        if k.Open? { needsOpen, isOpen := true, false; }
      } else {
        match k
        case Open => if !isOpen { isOpen, needsOpen := true, false; }
        case Close => if !isClosed { isOpen, isClosed := false, true; }
        case Destroy => if !isDestroyed { isDestroyed := true; }
        case _ =>
      }
    }

    method SetFlags(k: Kind, err: int)
      requires Valid()
      modifies this`isOpen, this`isClosed, this`isDestroyed, this`needsOpen, this`model
      ensures Valid() && model == old(model).(flags := SettleFlags(old(model).flags, k, err))
    {
      hide SettleFlags;
      UpdateFlags(k, err);
      model := model.(flags := SettleFlags(model.flags, k, err));
    }

    /** What the completion does to the flags, and to the requests that wait. */
    method Settle(r: Request, err: int)
      requires Valid() && Holds(r)
      modifies this`isOpen, this`isClosed, this`isDestroyed, this`needsOpen, this`model, objects.Values
      ensures Valid() && model == Protocol.Settle(old(model), r.kind, err)
    {
      hide Valid, Slots, Fields, Mirrored, SettleFlags, Mark;
      SetFlags(r.kind, err);
      if r.kind.Open? && err != 0 { MarkAll(err); }
    }

    method TakeHead() returns (head: Request)
      requires Valid() && queued > 0
      modifies this`queued, this`model, queue
      ensures Valid() && model == Shift(old(model)) && Holds(head) && head.id == old(model).queue[0]
    {
      HeadHolds();
      head := QueueShift();
      model := Shift(model);
    }

    /** The head is taken off if it is the request that completes. */
    method ShiftHead(r: Request) returns (needsFree: bool)
      requires Valid() && Holds(r)
      modifies this`queued, this`model, queue
      ensures Valid() && model == Remove(old(model), r.id) && needsFree == IsHead(old(model), r.id)
    {
      needsFree := false;
      if queued > 0 && queue[0] == r {
        var _ := TakeHead();
        needsFree := true;
      }
    }

    /** `--storage->pending` on an unsigned int */
    method CountDown(r: Request)
      requires Valid() && Holds(r)
      modifies this`pending, this`model
      ensures Valid() && model == Uncount(old(model), r.id)
    {
      pending := if pending == 0 then UINT - 1 else pending - 1;
      model := Uncount(model, r.id);
    }

    method ClampPending()
      requires Valid()
      modifies this`pending, this`model
      ensures Valid() && model == Clamp(old(model))
    {
      if pending >= INT_MIN { pending := 0; }
      model := Clamp(model);
    }

    /** `ras_request_free(ras_storage_queue_shift(storage))`.  On an empty queue the C code
        would wrap `queued` and read past the array: the model records the fault and stops. */
    method DropFirst()
      requires Valid()
      modifies this`queued, this`frees, this`model, queue, objects.Values
      ensures Valid() && model == DropHead(old(model))
    {
      if queued > 0 {
        ghost var first := model.queue[0];
        var head := TakeHead();
        FreeRequest(head);
        if first !in model.at.called { model := model.(mem := model.mem.(fault := true)); }
      } else {
        model := DropHead(model);
      }
    }

    // ------------------------------------------------ the recursion

    /** `ras_request_run` */
    method Run(r: Request) returns (ret: int)
      requires Valid() && Holds(r)
      modifies this`isOpen, this`isClosed, this`isDestroyed, this`needsOpen, this`queued, this`pending, this`alloc
      modifies this`allocs, this`frees, this`model, queue, objects.Values
      ensures Valid() && model == Protocol.Run(c, old(model), r.id).0
      ensures ret == Protocol.Run(c, old(model), r.id).1
      decreases Behind(model, r.id), 5
    {
      ghost var s := model;
      RecordPick(r);
      if r.err != 0 {
        ret := Callback(r, r.err, 0, false);
      } else {
        Begin(r);
        ret := Switch(r);
      }
    }

    /** The `switch` in `ras_request_run` */
    method Switch(r: Request) returns (ret: int)
      requires Valid() && Holds(r) && pending > 0
      modifies this`isOpen, this`isClosed, this`isDestroyed, this`needsOpen, this`queued, this`pending, this`alloc
      modifies this`allocs, this`frees, this`model, queue, objects.Values
      ensures Valid() && model == Dispatch(c, old(model), r.id).0 && ret == Dispatch(c, old(model), r.id).1
      decreases Behind(model, r.id), 4
    {
      hide Valid, Dispatch, Protocol.Callback;
      Counts();
      DispatchIs(c, model, r.id);
      ret := 0;
      match r.kind {
        case Open =>
          if isOpen && !needsOpen { ret := Callback(r, 0, 0, false); }
          else if c.openReadOnly { HandOver(r); }
          else if Open in c.ops { HandOver(r); }
          else { ret := Callback(r, 0, 0, false); }
        case Close =>
          if isClosed || !isOpen { ret := Callback(r, 0, 0, false); }
          else if Close in c.ops { HandOver(r); }
          else { ret := Callback(r, 0, 0, false); }
        case Destroy =>
          if isDestroyed { ret := Callback(r, 0, 0, false); }
          else if Destroy in c.ops { HandOver(r); }
          else { ret := Callback(r, 0, 0, false); }
        case _ =>
          if isOpen && !isClosed {
            if r.kind in c.ops { HandOver(r); } else { ret := Callback(r, ENOSYS, 0, false); }
          } else {
            NotReady(r);
          }
      }
    }

    /** The backend's operation: it may call back before it returns. */
    method HandOver(r: Request)
      requires Valid() && Holds(r) && pending > 0 && RouteOf(c, model.flags, r.kind).Backend?
      modifies this`isOpen, this`isClosed, this`isDestroyed, this`needsOpen, this`queued, this`pending, this`alloc
      modifies this`allocs, this`frees, this`model, queue, objects.Values
      ensures Valid() && model == Dispatch(c, old(model), r.id).0 && Dispatch(c, old(model), r.id).1 == 0
      decreases Behind(model, r.id), 3
    {
      RecordInvoke(r);
      match c.reply(r.id)
      case Later =>
      case Now(err, size, foreign) => var _ := Callback(r, err, size, foreign);
    }

    /** `ras_request_callback` */
    method Callback(r: Request, err: int, size: nat, foreign: bool) returns (ret: int)
      requires Valid() && Holds(r)
      modifies this`isOpen, this`isClosed, this`isDestroyed, this`needsOpen, this`queued, this`pending, this`alloc
      modifies this`allocs, this`frees, this`model, queue, objects.Values
      ensures Valid() && model == Protocol.Callback(c, old(model), r.id, err, size, foreign).0
      ensures ret == Protocol.Callback(c, old(model), r.id, err, size, foreign).1
      decreases Behind(model, r.id), 2, 1
    {
      Counts();
      ghost var s := model;
      var wasClosed := isClosed;
      CallbackIs(c, s, r.id, err, size, foreign);
      hide Valid, Slots, Fields, Mirrored, Almost, Finish, Protocol.Dequeue, Protocol.Callback, Mirrors;
      var needsFree := Arrive(r, err, size, foreign);
      FinishStatics(model, r.id, s.reqs[r.id], model.reqs[r.id], err, wasClosed, needsFree);
      LastEffects(r, err, wasClosed, needsFree);
      ret := -err;
    }

    /** The first half of `ras_request_callback`: fields, announcement, dequeue */
    method Arrive(r: Request, err: int, size: nat, foreign: bool) returns (needsFree: bool)
      requires Valid() && Holds(r)
      modifies this`isOpen, this`isClosed, this`isDestroyed, this`needsOpen, this`queued, this`pending, this`alloc
      modifies this`allocs, this`frees, this`model, queue, objects.Values
      ensures Valid() && Holds(r) && needsFree == IsHead(old(model), r.id)
      ensures model == Protocol.Dequeue(c, old(model), r.id, err, size, foreign)
      decreases Behind(model, r.id), 2, 0
    {
      Counts();
      ghost var s := model;
      hide Valid, Slots, Fields, Mirrored, Almost, Protocol.Dequeue;
      Enter(r, err, size, foreign);
      Counts();
      needsFree := Dequeue(r, err, s, size, foreign);
      Counts();
    }

    /** The `after` function of a close: the CLOSE event */
    ghost method Announce(err: int)
      requires Valid()
      modifies this`model
      ensures Valid()
      ensures model == old(model).(log := old(model).log.(events := old(model).log.events + [Announcement(Close, err)]))
    {
      model := model.(log := model.log.(events := model.log.events + [Announcement(Close, err)]));
    }

    /** The `after` functions of data requests */
    method ReleaseData(r: Request)
      requires Valid() && Holds(r)
      modifies this`frees, this`model, objects.Values
      ensures Valid() && Holds(r)
      ensures var m := Protocol.FreeData(Protocol.FreeValue(old(model).mem, r.id), r.id);
              model == old(model).(mem := if old(r.pending) then m else Protocol.FreeRequest(m, r.id))
    {
      hide Valid, Protocol.FreeData, Protocol.FreeValue, Protocol.FreeRequest;
      FreeValue(r);
      FreeData(r);
      if !r.pending { FreeRequest(r); }
    }

    /** The `after` functions of src/storage.c */
    method RunAfter(r: Request, err: int, announce: bool)
      requires Valid() && Holds(r)
      modifies this`queued, this`alloc, this`frees, this`model, queue, objects.Values
      ensures Valid() && model == After(old(model), r.id, old(model).reqs[r.id], err, announce)
    {
      hide Valid, Teardown;
      StaticsAre(r);
      match r.kind {
        case Open =>
        case Close => if announce { Announce(err); }
        case Destroy => DestroyAfter();
        case _ => ReleaseData(r);
      }
    }

    lemma StaticsAre(r: Request)
      requires Valid() && Holds(r)
      ensures r.kind == model.reqs[r.id].kind && r.done == model.reqs[r.id].done && r.pending == model.reqs[r.id].queued
    {
    }

    ghost method RecordDone(r: Request, err: int, wasClosed: bool)
      requires Valid() && Holds(r)
      modifies this`model
      ensures Valid() && Holds(r) && model == Tell(old(model), r.id, old(model).reqs[r.id], err, wasClosed)
    {
      model := Tell(model, r.id, model.reqs[r.id], err, wasClosed);
    }

    ghost method RecordReturn(stack: seq<Id>)
      requires Valid()
      modifies this`model
      ensures Valid() && model == old(model).(at := old(model).at.(stack := stack))
    {
      model := model.(at := model.at.(stack := stack));
    }

    /** `done`, `after` and the release of a request that was queued */
    method LastEffects(r: Request, err: int, wasClosed: bool, needsFree: bool)
      requires Valid() && Holds(r) && model.at.stack != []
      modifies this`queued, this`alloc, this`frees, this`model, queue, objects.Values
      ensures Valid() && model == Finish(old(model), r.id, old(model).reqs[r.id], err, wasClosed, needsFree)
    {
      hide Valid, After;
      ghost var s := model;
      StaticsAre(r);
      Counts();
      RecordDone(r, err, wasClosed);
      RunAfter(r, err, !wasClosed && !isDestroyed);
      if needsFree { FreeRequest(r); }
      RecordReturn(s.at.stack[..|s.at.stack| - 1]);
    }

    /** `ras_request_dequeue`; `s` is the state before the callback set the request's fields. */
    method Dequeue(r: Request, err: int, ghost s: State, ghost size: nat, ghost foreign: bool) returns (needsFree: bool)
      requires Valid() && Holds(r) && WF(s) && r.id in s.reqs && r.kind == s.reqs[r.id].kind
      requires model == Protocol.Enter(s, r.id, err, size, foreign)
      modifies this`isOpen, this`isClosed, this`isDestroyed, this`needsOpen, this`queued, this`pending, this`alloc
      modifies this`allocs, this`frees, this`model, queue, objects.Values
      ensures Valid() && model == Protocol.Dequeue(c, s, r.id, err, size, foreign) && needsFree == IsHead(s, r.id)
      decreases Behind(s, r.id), 1
    {
      Settle(r, err);
      needsFree := ShiftHead(r);
      CountDown(r);
      if pending == 0 { DrainQueue(r.kind); }
      ClampPending();
    }

    /** The end of a turn of the loop as written: it is left, or the head is taken off. */
    method EndTurn(k: Kind, ret: int) returns (stop: bool)
      requires Valid() && WF(model)
      modifies this`queued, this`frees, this`model, queue, objects.Values
      ensures Valid()
      ensures stop == (ret < 0 || Lifecycle(k) || old(model).queue == [])
      ensures model == if ret < 0 || Lifecycle(k) then old(model) else DropHead(old(model))
    {
      hide Valid, DropHead;
      Counts();
      stop := ret < 0 || Lifecycle(k) || queued == 0;
      if ret >= 0 && !Lifecycle(k) { DropFirst(); }
    }

    /** One turn of the drain loop; `stop` if it is left by `break`. */
    method DrainOnce(k: Kind) returns (stop: bool)
      requires Valid() && queued > 0 && (c.policy.Repaired? ==> pending == 0)
      modifies this`isOpen, this`isClosed, this`isDestroyed, this`needsOpen, this`queued, this`pending, this`alloc
      modifies this`allocs, this`frees, this`model, queue, objects.Values
      ensures Valid() && WF(model) && WF(old(model))
      ensures if stop then model == Drain(c, old(model), k) else Drain(c, model, k) == Drain(c, old(model), k)
      ensures !stop ==> |model.queue| <= |old(model).queue|
      ensures !stop ==> |model.queue| < |old(model).queue| || (c.policy.Repaired? && model.pending != 0)
      decreases |model.queue|, 0, 0
    {
      hide Valid, Protocol.Run, DropHead, Drain;
      Counts();
      HeadHolds();
      DrainTurn(c, model, k);
      TurnShrinks(c, model);
      var ret := Run(queue[0]);
      stop := false;
      if c.policy.AsWritten? { stop := EndTurn(k, ret); }
      Counts();
    }

    /** The drain loop, entered when nothing is pending. */
    method DrainQueue(k: Kind)
      requires Valid() && pending == 0
      modifies this`isOpen, this`isClosed, this`isDestroyed, this`needsOpen, this`queued, this`pending, this`alloc
      modifies this`allocs, this`frees, this`model, queue, objects.Values
      ensures Valid() && model == Drain(c, old(model), k)
      decreases |model.queue|, 0, 1
    {
      hide Valid, Drain;
      ghost var s := model;
      Counts();
      while queued > 0 && (c.policy.Repaired? ==> pending == 0)
        invariant Valid() && queued == |model.queue| <= |s.queue| && pending == model.pending && WF(model)
        invariant Drain(c, model, k) == Drain(c, s, k)
        decreases |model.queue|, if pending == 0 then 1 else 0
      {
        var stop := DrainOnce(k);
        Counts();
        if stop { return; }
      }
      DrainTurn(c, model, k);
    }

    // ------------------------------------------------ public calls

    /** `ras_request_new` */
    method NewRequest(k: Kind, size: nat, done: bool) returns (r: Request)
      requires Valid()
      modifies this`nrequests, this`allocs, this`model, this`objects
      ensures Valid() && model == Issue(old(model), k, size, done) && Holds(r) && r.id == old(model).next
      ensures fresh(r) && objects == old(objects)[r.id := r] && r.kind == k && r.err == 0
    {
      r := new Request(nrequests, k, size, done);
      Register(r);
    }

    /** The new request is counted and known. */
    method Register(r: Request)
      requires Valid() && r.id == nrequests && r.err == 0 && forall x :: x in objects ==> objects[x] != r
      requires !r.pending && r.alloc && !r.data && !r.value
      modifies this`nrequests, this`allocs, this`model, this`objects
      ensures Valid() && model == Issue(old(model), r.kind, r.size, r.done) && Holds(r)
      ensures objects == old(objects)[r.id := r]
    {
      nrequests, allocs := nrequests + 1, allocs + 1;
      objects := objects[r.id := r];
      model := Issue(model, r.kind, r.size, r.done);
    }

    /** `queue_and_run` */
    method QueueAndRun(r: Request) returns (ret: int)
      requires Valid() && Holds(r) && queued + 1 < QUEUE_MAX
      modifies this`isOpen, this`isClosed, this`isDestroyed, this`needsOpen, this`queued, this`pending, this`alloc
      modifies this`allocs, this`frees, this`model, queue, objects.Values
      ensures Valid() && model == Protocol.QueueAndRun(c, old(model), r.id).0
      ensures ret == Protocol.QueueAndRun(c, old(model), r.id).1
    {
      Enqueue(r);
      if pending == 0 {
        ret := Run(r);
        ret := -ret;
      } else {
        ret := -r.err;
      }
    }

    /** One request more. */
    static ghost predicate Grew(a: map<Id, Request>, b: map<Id, Request>, id: Id) {
      id !in a && id in b && b == a[id := b[id]]
    }

    /** `ras_storage_open_shared` and `ras_storage_close_shared` */
    method LifecycleCall(k: Kind, done: bool) returns (ret: int)
      requires Valid() && queued + 1 < QUEUE_MAX
      modifies this, queue, objects.Values
      ensures Valid() && model == Protocol.LifecycleCall(c, old(model), k, done).0
      ensures ret == Protocol.LifecycleCall(c, old(model), k, done).1
      ensures queued <= old(queued) + 1 && Grew(old(objects), objects, old(model).next)
      ensures fresh(objects[old(model).next])
    {
      hide Valid, Protocol.QueueAndRun, Mirrors, Issue;
      Counts();
      var r := NewRequest(k, 0, done);
      Counts();
      ret := QueueAndRun(r);
      Counts();
    }

    /** The automatic open in `run_request` */
    method AutoOpen(r: Request)
      requires Valid() && Holds(r) && queued + 1 < QUEUE_MAX
      modifies this, queue, objects.Values
      ensures Valid() && Holds(r) && model == Protocol.AutoOpen(c, old(model), r.id) && queued <= old(queued) + 1
      ensures || objects == old(objects)
              || (Grew(old(objects), objects, old(model).next) && fresh(objects[old(model).next]))
    {
      hide Valid, Protocol.LifecycleCall, Protocol.AutoOpen, SetErr;
      Counts();
      AutoOpenIs(c, model, r.id);
      if needsOpen && !isOpen {
        var e := LifecycleCall(Open, false);
        Counts();
        MarkOne(r, e);
        Counts();
      }
    }

    /** The end of `run_request` */
    method QueueOrRun(r: Request) returns (ret: int)
      requires Valid() && Holds(r) && queued + 1 < QUEUE_MAX
      modifies this`isOpen, this`isClosed, this`isDestroyed, this`needsOpen, this`queued, this`pending, this`alloc
      modifies this`allocs, this`frees, this`model, queue, objects.Values
      ensures Valid()
      ensures old(model).queue != [] ==> model == Push(old(model), r.id) && ret == -old(model).reqs[r.id].err
      ensures old(model).queue == [] ==>
                model == Protocol.Run(c, old(model), r.id).0 && ret == Protocol.Run(c, old(model), r.id).1
    {
      if queued > 0 {
        Enqueue(r);
        ret := -r.err;
      } else {
        ret := Run(r);
      }
    }

    /** `run_request`, below every data call */
    method DataCall(k: Kind, size: nat, done: bool) returns (ret: int)
      requires Valid() && queued + 2 < QUEUE_MAX
      modifies this, queue, objects.Values
      ensures Valid() && model == Protocol.DataCall(c, old(model), k, size, done).0
      ensures ret == Protocol.DataCall(c, old(model), k, size, done).1
    {
      hide Valid, Protocol.AutoOpen, Protocol.Run, Mirrors, Issue;
      Counts();
      var r := NewRequest(k, size, done);
      Counts();
      AutoOpen(r);
      ret := QueueOrRun(r);
    }

    /** `ras_storage_destroy_shared` */
    method DestroyCall(done: bool) returns (ret: int)
      requires Valid() && queued + 2 < QUEUE_MAX
      modifies this, queue, objects.Values
      ensures Valid() && model == Protocol.DestroyCall(c, old(model), done).0
      ensures ret == Protocol.DestroyCall(c, old(model), done).1
    {
      ret := LifecycleCall(Close, false);
      if ret != 0 {
        ret := -ret;
      } else {
        ret := LifecycleCall(Destroy, done);
      }
    }
  }
}
