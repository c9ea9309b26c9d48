/** The storage that example/ram.c is meant to be: one zero-filled byte array and a length. */
module FlatStore {
  import opened Pages

  datatype Op =
    | WriteOp(off: nat, data: seq<Byte>)
    | ReadOp(off: nat, size: nat)
    | DeleteOp(off: nat, size: nat)

  /** `Fault` where the C code would read or write past the table of pages. */
  datatype Reply = Answer(value: seq<Byte>) | Error(err: int) | Fault

  /** The range holds a byte that the table has not. */
  predicate Beyond(ps: nat, off: nat, n: nat) { n > 0 && off + n > Capacity(ps) }

  /** The size a delete is cut down to */
  function Clamped(length: nat, off: nat, size: nat): nat {
    if off + size > length then (if length > off then length - off else 0) else size
  }

  /** A delete at or beyond the end makes the storage longer, past the table if it is told to. */
  function NewLength(length: nat, op: Op): nat {
    match op
    case WriteOp(off, data) => if off + |data| > length then off + |data| else length
    case ReadOp(_, _) => length
    case DeleteOp(off, size) => if off + Clamped(length, off, size) >= length then off else length
  }

  datatype Store = Store(bytes: seq<Byte>, length: nat)

  function FlatStep(ps: nat, f: Store, op: Op): (r: (Store, Reply))
    requires |f.bytes| == Capacity(ps)
    ensures |r.0.bytes| == Capacity(ps)
  {
    var n := NewLength(f.length, op);
    match op
    case WriteOp(off, data) =>
      if Beyond(ps, off, |data|) then (f, Fault)
      else (Store(if data == [] then f.bytes else FlatWrite(f.bytes, off, data), n), Answer([]))
    case ReadOp(off, size) =>
      (f, if off + size > f.length then Error(ENOMEM)
          else if Beyond(ps, off, size) then Fault
          else Answer(if size == 0 then [] else f.bytes[off..off + size]))
    case DeleteOp(off, size) =>
      var cut := Clamped(f.length, off, size);
      if Beyond(ps, off, cut) then (f, Fault)
      else (Store(if cut == 0 then f.bytes else FlatZero(f.bytes, off, cut), n), Answer([]))
  }

  // ---------------------------------------------------------------- what an operation does

  /** A write puts its bytes where it is told and makes the storage longer if it ends beyond it; it
      is a fault if it ends beyond the table. */
  lemma WriteMeans(ps: nat, f: Store, off: nat, data: seq<Byte>)
    requires |f.bytes| == Capacity(ps)
    ensures var (g, reply) := FlatStep(ps, f, WriteOp(off, data)); var end := off + |data|;
            if |data| > 0 && end > MAX_BUFFERS * ps then g == f && reply == Fault
            else
              && reply == Answer([])
              && g.length >= f.length && g.length >= end && (g.length == f.length || g.length == end)
              && forall k :: 0 <= k < MAX_BUFFERS * ps ==>
                   g.bytes[k] == if off <= k < end then data[k - off] else f.bytes[k]
  {
  }

  /** A read gives the bytes of its range; it fails if the range ends beyond the storage, and is a
      fault if it ends within the storage but beyond the table. */
  lemma ReadMeans(ps: nat, f: Store, off: nat, size: nat)
    requires |f.bytes| == Capacity(ps)
    ensures var (g, reply) := FlatStep(ps, f, ReadOp(off, size));
            && g == f
            && if off + size > f.length then reply == Error(ENOMEM)
               else if size > 0 && off + size > MAX_BUFFERS * ps then reply == Fault
               else
                 && reply.Answer? && |reply.value| == size
                 && forall j :: 0 <= j < size ==> reply.value[j] == f.bytes[off + j]
  {
  }

  /** A delete zeroes the bytes of its range that the storage has, and cuts the storage off where
      the range begins if it reaches the end; it is a fault if the storage has a byte of the range
      that the table has not. */
  lemma DeleteMeans(ps: nat, f: Store, off: nat, size: nat)
    requires |f.bytes| == Capacity(ps)
    ensures var (g, reply) := FlatStep(ps, f, DeleteOp(off, size));
            var end := if off + size < f.length then off + size else f.length;
            if off < end && end > MAX_BUFFERS * ps then g == f && reply == Fault
            else
              && reply == Answer([]) && g.length == (if off + size >= f.length then off else f.length)
              && forall k :: 0 <= k < MAX_BUFFERS * ps ==>
                   g.bytes[k] == if off <= k < off + size && k < f.length then 0 else f.bytes[k]
  {
  }

  /** The same operations on the table of pages, repaired. */
  datatype Paged = Paged(table: Table, length: nat)

  ghost predicate Fits(ps: nat, p: Paged) { 0 < ps && Sized(p.table, ps) }

  function PagedStep(ps: nat, p: Paged, op: Op): (r: (Paged, Reply))
    requires Fits(ps, p)
    ensures Fits(ps, r.0)
  {
    var n := NewLength(p.length, op);
    match op
    case WriteOp(off, data) =>
      if Beyond(ps, off, |data|) then (p, Fault)
      else (Paged(WriteTable(false, p.table, ps, off, data), n), Answer([]))
    case ReadOp(off, size) =>
      (p, if off + size > p.length then Error(ENOMEM)
          else if Beyond(ps, off, size) then Fault
          else Answer(if size == 0 then [] else Flat(p.table, ps)[off..off + size]))
    case DeleteOp(off, size) =>
      var cut := Clamped(p.length, off, size);
      if Beyond(ps, off, cut) then (p, Fault) else (Paged(DeleteTable(p.table, ps, off, cut), n), Answer([]))
  }

  function View(ps: nat, p: Paged): Store
    requires Fits(ps, p)
  {
    Store(Flat(p.table, ps), p.length)
  }

  lemma NothingWritten(t: Table, ps: nat, off: nat)
    requires 0 < ps && Sized(t, ps)
    ensures WriteTable(false, t, ps, off, []) == t && DeleteTable(t, ps, off, 0) == t
  {
    forall i | 0 <= i < |t|
      ensures WriteTable(false, t, ps, off, [])[i] == t[i] && DeleteTable(t, ps, off, 0)[i] == t[i]
    {
      assert DeletePage(t[i], i * ps, off, 0) == t[i];
    }
  }

  lemma StepAgrees(ps: nat, p: Paged, op: Op)
    requires Fits(ps, p)
    ensures var (q, reply) := PagedStep(ps, p, op); (View(ps, q), reply) == FlatStep(ps, View(ps, p), op)
  {
    match op
    case WriteOp(off, data) =>
      if data == [] { NothingWritten(p.table, ps, off); }
      else if !Beyond(ps, off, |data|) { RepairedWriteIsFlat(p.table, ps, off, data); }
    case ReadOp(_, _) =>
    case DeleteOp(off, size) =>
      var cut := Clamped(p.length, off, size);
      if cut == 0 { NothingWritten(p.table, ps, off); }
      else if !Beyond(ps, off, cut) { RepairedDeleteIsFlat(p.table, ps, off, cut); }
  }

  /** A run, which ends early if an operation would leave the table */
  function PagedRun(ps: nat, p: Paged, ops: seq<Op>): (r: (Paged, seq<Reply>))
    requires Fits(ps, p)
    ensures Fits(ps, r.0)
    decreases |ops|
  {
    if ops == [] then (p, [])
    else
      var (q, reply) := PagedStep(ps, p, ops[0]);
      if reply.Fault? then (q, [reply])
      else
        var (last, replies) := PagedRun(ps, q, ops[1..]);
        (last, [reply] + replies)
  }

  function FlatRun(ps: nat, f: Store, ops: seq<Op>): (r: (Store, seq<Reply>))
    requires |f.bytes| == Capacity(ps)
    decreases |ops|
  {
    if ops == [] then (f, [])
    else
      var (g, reply) := FlatStep(ps, f, ops[0]);
      if reply.Fault? then (g, [reply])
      else
        var (last, replies) := FlatRun(ps, g, ops[1..]);
        (last, [reply] + replies)
  }

  /** Every run on the pages gives the replies of the flat array and ends as it does. */
  lemma {:induction false} RunAgrees(ps: nat, p: Paged, ops: seq<Op>)
    requires Fits(ps, p)
    ensures View(ps, PagedRun(ps, p, ops).0) == FlatRun(ps, View(ps, p), ops).0
    ensures PagedRun(ps, p, ops).1 == FlatRun(ps, View(ps, p), ops).1
    decreases |ops|
  {
    if ops != [] {
      StepAgrees(ps, p, ops[0]);
      RunAgrees(ps, PagedStep(ps, p, ops[0]).0, ops[1..]);
    }
  }

  /** The length never passes the table, so that no read can leave it, if no delete and no empty
      write is told to begin beyond it. */
  predicate Inside(ps: nat, op: Op) { op.ReadOp? || op.off <= Capacity(ps) }

  lemma {:induction false} RunInside(ps: nat, p: Paged, ops: seq<Op>)
    requires Fits(ps, p) && p.length <= Capacity(ps) && forall op :: op in ops ==> Inside(ps, op)
    ensures var (q, replies) := PagedRun(ps, p, ops);
            && q.length <= Capacity(ps)
            && forall i :: 0 <= i < |replies| && i < |ops| && !ops[i].WriteOp? ==> !replies[i].Fault?
    decreases |ops|
  {
    if ops != [] {
      assert ops[0] in ops;
      var (q, reply) := PagedStep(ps, p, ops[0]);
      if !reply.Fault? { RunInside(ps, q, ops[1..]); }
    }
  }

  /** Otherwise it can: a delete beyond the table, and then a read that the length allows. */
  lemma DeleteLifts(ps: nat, p: Paged, off: nat, size: nat)
    requires Fits(ps, p) && p.length <= Capacity(ps) < off
    ensures PagedRun(ps, p, [DeleteOp(off, size), ReadOp(off - 1, 1)]).1 == [Answer([]), Fault]
  {
    var q := PagedStep(ps, p, DeleteOp(off, size)).0;
    var ops := [DeleteOp(off, size), ReadOp(off - 1, 1)];
    assert ops[1..] == [ReadOp(off - 1, 1)];
    assert PagedRun(ps, q, ops[1..]).1 == [Fault];
  }

  // ---------------------------------------------------------------- the tail

  /** Everything at or beyond the length reads as zero, so growing exposes zeros. */
  ghost predicate ZeroTail(ps: nat, p: Paged)
    requires Fits(ps, p)
  {
    forall k :: p.length <= k < Capacity(ps) ==> ByteAt(p.table, ps, k) == 0
  }

  lemma StepZeroTail(ps: nat, p: Paged, op: Op)
    requires Fits(ps, p) && ZeroTail(ps, p)
    ensures ZeroTail(ps, PagedStep(ps, p, op).0)
  {
    var q := PagedStep(ps, p, op).0;
    forall k | q.length <= k < Capacity(ps) ensures ByteAt(q.table, ps, k) == 0 {
      match op
      case WriteOp(off, data) => WriteAt(false, p.table, ps, off, data, k);
      case ReadOp(_, _) =>
      case DeleteOp(off, size) =>
        Locate(k, ps);
        assert ByteAt(p.table, ps, k) == 0 || off <= k < off + Clamped(p.length, off, size);
    }
  }

  /** No run, repaired, leaves a byte beyond the length. */
  lemma {:induction false} RunZeroTail(ps: nat, p: Paged, ops: seq<Op>)
    requires Fits(ps, p) && ZeroTail(ps, p)
    ensures ZeroTail(ps, PagedRun(ps, p, ops).0)
    decreases |ops|
  {
    if ops != [] {
      StepZeroTail(ps, p, ops[0]);
      RunZeroTail(ps, PagedStep(ps, p, ops[0]).0, ops[1..]);
    }
  }
}
