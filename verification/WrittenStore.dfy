/** The storage of example/ram.c with writes and deletes as written: when it behaves as the flat
    array, and when it keeps zeros beyond the length. */
module WrittenStore {
  import opened Pages
  import opened FlatStore

  const UINT := 0x1_0000_0000

  /** Which pages are allocated matters to the delete. */
  datatype Written = Written(present: seq<bool>, table: Table, length: nat)

  ghost predicate Sound(ps: nat, w: Written) { 0 < ps && Consistent(w.present, w.table, ps) }

  /** The pages of a range are allocated, by a write or a read. */
  function Marked(present: seq<bool>, ps: nat, off: nat, n: nat): (r: seq<bool>)
    ensures |r| == |present|
  {
    seq(|present|, i requires 0 <= i < |present| => present[i] || Touched(i * ps, ps, off, n))
  }

  /** The end of a write is an unsigned int, which wraps. */
  function WrittenLength(length: nat, op: Op): nat {
    if op.WriteOp? then
      var end := (op.off + |op.data|) % UINT;
      if end > length then end else length
    else NewLength(length, op)
  }

  function WrittenStep(ps: nat, w: Written, op: Op): (r: (Written, Reply))
    requires Sound(ps, w)
  {
    var n := WrittenLength(w.length, op);
    match op
    case WriteOp(off, data) =>
      if Beyond(ps, off, |data|) then (w, Fault)
      else (Written(Marked(w.present, ps, off, |data|), WriteTable(true, w.table, ps, off, data), n), Answer([]))
    case ReadOp(off, size) =>
      if off + size > w.length then (w, Error(ENOMEM))
      else if Beyond(ps, off, size) then (w, Fault)
      else
        (w.(present := Marked(w.present, ps, off, size)),
         Answer(if size == 0 then [] else Flat(w.table, ps)[off..off + size]))
    case DeleteOp(off, size) =>
      match WrittenDelete(w.present, w.table, ps, off / ps, off % ps, 0, Clamped(w.length, off, size))
      case Overrun => (w, Fault)
      case Done(p, t) => (Written(p, t, n), Answer([]))
  }

  /** The length after each operation as written: a write's end wraps at 2^32. */
  lemma LengthMeans(ps: nat, w: Written, op: Op)
    requires Sound(ps, w)
    ensures var (v, reply) := WrittenStep(ps, w, op);
            match op
            case WriteOp(off, data) =>
              var end := (off + |data|) % 0x1_0000_0000;
              if |data| > 0 && off + |data| > MAX_BUFFERS * ps then v == w && reply == Fault
              else v.length >= w.length && v.length >= end && (v.length == w.length || v.length == end)
            case ReadOp(_, _) => v.length == w.length && v.table == w.table
            case DeleteOp(off, size) =>
              if reply == Fault then v == w else v.length == if off + size >= w.length then off else w.length
  {
  }

  lemma {:induction false} DeleteConsistent(present: seq<bool>, t: Table, ps: nat, i: nat, rel: nat, start: nat,
                                            size: nat)
    requires 0 < ps && Consistent(present, t, ps) && rel < ps
    ensures var o := WrittenDelete(present, t, ps, i, rel, start, size); o.Done? ==> Consistent(o.present, o.table, ps)
    decreases size - start
  {
    if start < size && i < |t| {
      if rel == 0 && size - start >= ps {
        DeleteConsistent(present[i := false], t[i := Zeros(ps)], ps, i + 1, 0, start + ps, size);
      } else if !present[i] {
        DeleteConsistent(present, t, ps, i, 0, start + ps, size);
      } else {
        var avail := ps - rel;
        var end := if avail < size - start then start + avail else size;
        if rel + (rel + end) <= ps {
          DeleteConsistent(present, t[i := ZeroRange(t[i], rel, rel + end)], ps, i + 1, 0, start + ps, size);
        }
      }
    }
  }

  lemma StepSound(ps: nat, w: Written, op: Op)
    requires Sound(ps, w)
    ensures Sound(ps, WrittenStep(ps, w, op).0)
  {
    if op.DeleteOp? {
      DeleteConsistent(w.present, w.table, ps, op.off / ps, op.off % ps, 0, Clamped(w.length, op.off, op.size));
    }
  }

  function Seen(ps: nat, w: Written): Store
    requires Sound(ps, w)
  {
    Store(Flat(w.table, ps), w.length)
  }

  // ---------------------------------------------------------------- against the flat array

  /** Bytes outside the range, in pages that hold some of it, are zero. */
  ghost predicate OthersZero(f: seq<Byte>, ps: nat, off: nat, n: nat)
    requires 0 < ps
  {
    forall k :: 0 <= k < |f| && Touched((k / ps) * ps, ps, off, n) && !(off <= k < off + n) ==> f[k] == 0
  }

  /** When the operation as written does what it is meant to do, on the storage before it. */
  ghost predicate Guarded(ps: nat, w: Written, op: Op)
    requires Sound(ps, w)
  {
    match op
    case WriteOp(off, data) =>
      || Beyond(ps, off, |data|)
      || (OthersZero(Flat(w.table, ps), ps, off, |data|) && (off + |data| < UINT || off + |data| <= w.length))
    case ReadOp(_, _) => true
    case DeleteOp(off, size) =>
      var cut := Clamped(w.length, off, size);
      Harmless(Flat(w.table, ps), ExtentAt(w.present, ps, off, cut), off, cut)
  }

  /** This step gives the reply of the flat array and leaves its bytes and its length. */
  ghost predicate Agrees(ps: nat, w: Written, op: Op)
    requires Sound(ps, w)
  {
    StepSound(ps, w, op);
    var (v, reply) := WrittenStep(ps, w, op);
    (Seen(ps, v), reply) == FlatStep(ps, Seen(ps, w), op)
  }

  lemma WriteAgrees(ps: nat, w: Written, off: nat, data: seq<Byte>)
    requires Sound(ps, w)
    ensures Agrees(ps, w, WriteOp(off, data)) <==> Guarded(ps, w, WriteOp(off, data))
  {
    StepSound(ps, w, WriteOp(off, data));
    if !Beyond(ps, off, |data|) {
      LengthAgrees(w.length, off, data);
      if data == [] {
        NothingTouched(w.table, ps, off);
      } else {
        WrittenWriteIff(w.table, ps, off, data);
      }
    }
  }

  lemma LengthAgrees(length: nat, off: nat, data: seq<Byte>)
    ensures WrittenLength(length, WriteOp(off, data)) == NewLength(length, WriteOp(off, data))
       <==> off + |data| < UINT || off + |data| <= length
  {
  }

  lemma NothingTouched(t: Table, ps: nat, off: nat)
    requires 0 < ps && Sized(t, ps)
    ensures WriteTable(true, t, ps, off, []) == t && OthersZero(Flat(t, ps), ps, off, 0)
  {
    forall i | 0 <= i < |t| ensures WriteTable(true, t, ps, off, [])[i] == t[i] { }
  }

  lemma DeleteAgrees(ps: nat, w: Written, off: nat, size: nat)
    requires Sound(ps, w) && w.length <= Capacity(ps) && off <= Capacity(ps)
    ensures Agrees(ps, w, DeleteOp(off, size)) <==> Guarded(ps, w, DeleteOp(off, size))
  {
    StepSound(ps, w, DeleteOp(off, size));
    var cut := Clamped(w.length, off, size);
    WrittenDeleteIff(w.present, w.table, ps, off, cut);
    if cut == 0 { FlatNothing(Flat(w.table, ps), off); }
    hide WrittenDelete, ExtentAt, Flat, FlatZero;
  }

  lemma FlatNothing(f: seq<Byte>, off: nat)
    requires off <= |f|
    ensures FlatZero(f, off, 0) == f
  {
  }

  /** Each operation as written agrees with the flat array if and only if its guard holds. */
  lemma StepIff(ps: nat, w: Written, op: Op)
    requires Sound(ps, w) && w.length <= Capacity(ps) && Inside(ps, op)
    ensures Agrees(ps, w, op) <==> Guarded(ps, w, op)
    ensures Agrees(ps, w, op) ==> WrittenStep(ps, w, op).0.length <= Capacity(ps)
  {
    match op
    case WriteOp(off, data) => WriteAgrees(ps, w, off, data);
    case ReadOp(_, _) => StepSound(ps, w, op);
    case DeleteOp(off, size) => DeleteAgrees(ps, w, off, size);
  }

  /** A run as written, which ends early if an operation would leave the table. */
  function WrittenRun(ps: nat, w: Written, ops: seq<Op>): (r: (Written, seq<Reply>))
    requires Sound(ps, w)
    ensures Sound(ps, r.0)
    decreases |ops|
  {
    if ops == [] then (w, [])
    else
      StepSound(ps, w, ops[0]);
      var (v, reply) := WrittenStep(ps, w, ops[0]);
      if reply.Fault? then (v, [reply])
      else
        var (last, replies) := WrittenRun(ps, v, ops[1..]);
        (last, [reply] + replies)
  }

  /** Every operation of the run finds its guard. */
  ghost predicate GuardedRun(ps: nat, w: Written, ops: seq<Op>)
    requires Sound(ps, w)
    decreases |ops|
  {
    ops == [] ||
    (Guarded(ps, w, ops[0]) &&
     (WrittenStep(ps, w, ops[0]).1.Fault? ||
      (StepSound(ps, w, ops[0]); GuardedRun(ps, WrittenStep(ps, w, ops[0]).0, ops[1..]))))
  }

  /** No operation of the run departs from the flat array. */
  ghost predicate AgreeingRun(ps: nat, w: Written, ops: seq<Op>)
    requires Sound(ps, w)
    decreases |ops|
  {
    ops == [] ||
    (Agrees(ps, w, ops[0]) &&
     (WrittenStep(ps, w, ops[0]).1.Fault? ||
      (StepSound(ps, w, ops[0]); AgreeingRun(ps, WrittenStep(ps, w, ops[0]).0, ops[1..]))))
  }

  lemma AgreesMeans(ps: nat, w: Written, op: Op)
    requires Sound(ps, w) && Agrees(ps, w, op)
    ensures var (v, reply) := WrittenStep(ps, w, op);
            Sound(ps, v) && Seen(ps, v) == FlatStep(ps, Seen(ps, w), op).0 && reply == FlatStep(ps, Seen(ps, w), op).1
  {
    StepSound(ps, w, op);
  }

  /** A run as written never departs from the flat array if and only if each operation finds its
      guard, and then it gives the same replies and ends with the same bytes and length. */
  lemma {:induction false} AgreeingRunIff(ps: nat, w: Written, ops: seq<Op>)
    requires Sound(ps, w) && w.length <= Capacity(ps) && forall op :: op in ops ==> Inside(ps, op)
    ensures AgreeingRun(ps, w, ops) <==> GuardedRun(ps, w, ops)
    ensures GuardedRun(ps, w, ops) ==>
              var (v, replies) := WrittenRun(ps, w, ops);
              Seen(ps, v) == FlatRun(ps, Seen(ps, w), ops).0 && replies == FlatRun(ps, Seen(ps, w), ops).1
    decreases |ops|
  {
    if ops != [] {
      assert ops[0] in ops;
      StepIff(ps, w, ops[0]);
      StepSound(ps, w, ops[0]);
      if Agrees(ps, w, ops[0]) {
        AgreesMeans(ps, w, ops[0]);
        var v := WrittenStep(ps, w, ops[0]).0;
        hide Guarded, Agrees, Sound, WrittenStep, FlatStep, Inside, Seen;
        AgreeingRunIff(ps, v, ops[1..]);
      }
    }
  }

  // ---------------------------------------------------------------- the tail

  ghost predicate ZeroFrom(f: seq<Byte>, n: nat) { forall k :: n <= k < |f| ==> f[k] == 0 }

  /** When an operation as written keeps zeros beyond the length: a write whose end does not
      wrap, or has zeros beyond the length; a delete that shortens the storage and clears all it
      should, or what it leaves was zero. */
  ghost predicate TailGuarded(ps: nat, w: Written, op: Op)
    requires Sound(ps, w)
  {
    match op
    case WriteOp(off, data) =>
      Beyond(ps, off, |data|) ||
      forall j :: 0 <= j < |data| && off + j >= WrittenLength(w.length, op) ==> data[j] == 0
    case ReadOp(_, _) => true
    case DeleteOp(off, size) =>
      var cut := Clamped(w.length, off, size);
      var e := ExtentAt(w.present, ps, off, cut);
      e.Cleared? && off + cut >= w.length ==>
        forall k :: off <= k < w.length && k < Capacity(ps) && !(e.lo <= k < e.hi) ==> Flat(w.table, ps)[k] == 0
  }

  lemma WriteTail(ps: nat, w: Written, off: nat, data: seq<Byte>)
    requires Sound(ps, w) && ZeroFrom(Flat(w.table, ps), w.length) && !Beyond(ps, off, |data|)
    ensures var n := WrittenLength(w.length, WriteOp(off, data)); var u := WriteTable(true, w.table, ps, off, data);
            ZeroFrom(Flat(u, ps), n) <==> forall j :: 0 <= j < |data| && off + j >= n ==> data[j] == 0
  {
    var n, u := WrittenLength(w.length, WriteOp(off, data)), WriteTable(true, w.table, ps, off, data);
    forall k | 0 <= k < Capacity(ps)
      ensures Flat(u, ps)[k] == if off <= k < off + |data| then data[k - off]
                                else if Touched((k / ps) * ps, ps, off, |data|) then 0 else Flat(w.table, ps)[k]
    {
      WriteAt(true, w.table, ps, off, data, k);
    }
    hide Touched;
    if ZeroFrom(Flat(u, ps), n) {
      forall j | 0 <= j < |data| && off + j >= n ensures data[j] == 0 { assert Flat(u, ps)[off + j] == 0; }
    }
  }

  lemma ClearsFlat(t: Table, u: Table, ps: nat, lo: int, hi: int)
    requires 0 < ps && Sized(t, ps) && Clears(t, u, ps, lo, hi)
    ensures Sized(u, ps)
    ensures forall k :: 0 <= k < Capacity(ps) ==> Flat(u, ps)[k] == if lo <= k < hi then 0 else Flat(t, ps)[k]
  {
  }

  lemma DeleteTail(ps: nat, w: Written, off: nat, size: nat)
    requires Sound(ps, w) && ZeroFrom(Flat(w.table, ps), w.length) && w.length <= Capacity(ps) && off <= Capacity(ps)
    ensures Sound(ps, WrittenStep(ps, w, DeleteOp(off, size)).0)
    ensures var v := WrittenStep(ps, w, DeleteOp(off, size)).0;
            ZeroFrom(Flat(v.table, ps), v.length) <==> TailGuarded(ps, w, DeleteOp(off, size))
  {
    StepSound(ps, w, DeleteOp(off, size));
    var cut := Clamped(w.length, off, size);
    WrittenDeleteIs(w.present, w.table, ps, off, cut);
    BaseIs(ps, off);
    var e := ExtentAt(w.present, ps, off, cut);
    var v := WrittenStep(ps, w, DeleteOp(off, size)).0;
    if e.Cleared? {
      ClearsFlat(w.table, v.table, ps, e.lo, e.hi);
      hide WrittenDelete, ExtentOf, ExtentAt, Flat, WrittenStep;
      if off + cut >= w.length && off < w.length && ZeroFrom(Flat(v.table, ps), v.length) {
        forall k | off <= k < w.length && !(e.lo <= k < e.hi) ensures Flat(w.table, ps)[k] == 0 {
          assert Flat(v.table, ps)[k] == 0;
        }
      }
    }
  }

  lemma BaseIs(ps: nat, off: nat)
    requires 0 < ps
    ensures off - off % ps == off / ps * ps
  {
  }

  /** An operation as written keeps zeros beyond the length if and only if its guard holds. */
  lemma StepTailIff(ps: nat, w: Written, op: Op)
    requires Sound(ps, w) && ZeroFrom(Flat(w.table, ps), w.length) && w.length <= Capacity(ps) && Inside(ps, op)
    ensures Sound(ps, WrittenStep(ps, w, op).0)
    ensures var v := WrittenStep(ps, w, op).0; ZeroFrom(Flat(v.table, ps), v.length) <==> TailGuarded(ps, w, op)
  {
    match op
    case WriteOp(off, data) =>
      StepSound(ps, w, op);
      if !Beyond(ps, off, |data|) { WriteTail(ps, w, off, data); }
    case ReadOp(_, _) => StepSound(ps, w, op);
    case DeleteOp(off, size) => DeleteTail(ps, w, off, size);
  }

  /** A new storage */
  function Empty(ps: nat): (w: Written)
    ensures 0 < ps ==> Sound(ps, w)
  {
    Written(seq(MAX_BUFFERS, _ => false), seq(MAX_BUFFERS, _ => Zeros(ps)), 0)
  }

  /** A byte at the start of page 1 */
  lemma OneWritten(ps: nat)
    requires 2 <= ps < UINT - 1
    ensures Sound(ps, Empty(ps)) && Capacity(ps) > ps
    ensures var w := WrittenStep(ps, Empty(ps), WriteOp(ps, [1])).0;
            Sound(ps, w) && w.length == ps + 1 && !w.present[0] && Flat(w.table, ps)[ps] == 1
  {
    StepSound(ps, Empty(ps), WriteOp(ps, [1]));
    hide Flat;
    WriteAtFlat(Empty(ps).table, ps);
  }

  lemma WriteAtFlat(t: Table, ps: nat)
    requires 2 <= ps && Sized(t, ps)
    ensures Capacity(ps) > ps && Flat(WriteTable(true, t, ps, ps, [1]), ps)[ps] == 1
  {
    WriteAt(true, t, ps, ps, [1], ps);
  }

  lemma DeleteStays(ps: nat, w: Written)
    requires 2 <= ps && Sound(ps, w) && w.length == ps + 1 && !w.present[0]
    ensures WrittenStep(ps, w, DeleteOp(ps - 1, 2)).0 == w.(length := ps - 1)
  {
    LocateUnique(ps - 1, ps, 0, ps - 1);
    assert WrittenDelete(w.present, w.table, ps, 0, ps - 1, 0, 2) == Done(w.present, w.table);
  }

  /** A delete that begins inside an absent page clears nothing of the page after it: one byte is
      written there, the delete makes the storage shorter, and the byte remains beyond its end. */
  lemma DeleteLeavesTail(ps: nat)
    requires 2 <= ps < UINT - 1
    ensures Sound(ps, Empty(ps)) && Capacity(ps) > ps
    ensures var w := WrittenStep(ps, Empty(ps), WriteOp(ps, [1])).0;
            && Sound(ps, w) && var v := WrittenStep(ps, w, DeleteOp(ps - 1, 2)).0;
               Sound(ps, v) && v.length == ps - 1 && Flat(v.table, ps)[ps] == 1
  {
    OneWritten(ps);
    hide WrittenStep, Flat;
    DeleteStays(ps, WrittenStep(ps, Empty(ps), WriteOp(ps, [1])).0);
  }
}
