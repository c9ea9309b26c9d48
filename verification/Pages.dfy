/** The paged storage of example/ram.c as functions on values: a table of pages, each a run of
    `ps` bytes, and the flat byte array it is meant to behave as. */
module Pages {

  type Byte = x: int | 0 <= x < 256

  const MAX_BUFFERS := 1024   // RAS_RAM_MAX_BUFFERS
  const ENOMEM := 12

  /** A page reads as zeros until it is allocated. */
  type Table = seq<seq<Byte>>

  function Zeros(n: nat): (p: seq<Byte>)
    ensures |p| == n && forall j :: 0 <= j < n ==> p[j] == 0
  {
    seq(n, _ => 0)
  }

  ghost predicate Sized(t: Table, ps: nat) { |t| == MAX_BUFFERS && forall i :: 0 <= i < |t| ==> |t[i]| == ps }

  // ---------------------------------------------------------------- the flat view

  lemma Locate(k: nat, ps: nat)
    requires 0 < ps && k < MAX_BUFFERS * ps
    ensures 0 <= k / ps < MAX_BUFFERS && 0 <= k % ps < ps && k == (k / ps) * ps + k % ps
  {
  }

  lemma LocateUnique(k: nat, ps: nat, i: nat, j: nat)
    requires 0 < ps && j < ps && k == i * ps + j
    ensures k / ps == i && k % ps == j
  {
    var d := k / ps - i;
    assert d * ps == (k / ps) * ps - i * ps == j - k % ps;
    SmallMultiple(d, ps);
  }

  lemma SmallMultiple(d: int, ps: int)
    requires 0 < ps && -ps < d * ps < ps
    ensures d == 0
  {
    if d >= 1 { Scale(d, ps); }
  }

  lemma Scale(d: int, ps: nat)
    requires d >= 1
    ensures d * ps >= ps
  {
  }

  function Capacity(ps: nat): nat { MAX_BUFFERS * ps }

  function ByteAt(t: Table, ps: nat, k: nat): Byte
    requires 0 < ps && Sized(t, ps) && k < Capacity(ps)
  {
    Locate(k, ps);
    t[k / ps][k % ps]
  }

  /** All the bytes of the table in order. */
  function Flat(t: Table, ps: nat): (f: seq<Byte>)
    requires 0 < ps && Sized(t, ps)
    ensures |f| == Capacity(ps)
  {
    seq(Capacity(ps), k requires 0 <= k < Capacity(ps) => ByteAt(t, ps, k))
  }

  /** The intended effect of a write: the range changes and nothing else. */
  function FlatWrite(f: seq<Byte>, off: nat, data: seq<Byte>): (g: seq<Byte>)
    requires off + |data| <= |f|
    ensures |g| == |f|
  {
    f[..off] + data + f[off + |data|..]
  }

  /** The intended effect of a delete: the range becomes zero. */
  function FlatZero(f: seq<Byte>, off: nat, n: nat): (g: seq<Byte>)
    requires off + n <= |f|
    ensures |g| == |f|
  {
    f[..off] + Zeros(n) + f[off + n..]
  }

  // ---------------------------------------------------------------- writing

  /** Does the page that begins at `base` hold a byte of the range? */
  predicate Touched(base: int, ps: nat, off: nat, n: nat) { 0 < n && base < off + n && off < base + ps }

  /** A page after a write.  As written, `ram_page(.., 1)` throws an existing page away, so the
      rest of a touched page becomes zero; repaired, it is kept. */
  function WritePage(discard: bool, p: seq<Byte>, base: int, off: nat, data: seq<Byte>): (q: seq<Byte>)
    ensures |q| == |p|
  {
    if Touched(base, |p|, off, |data|) then
      seq(|p|, j requires 0 <= j < |p| =>
        if off <= base + j < off + |data| then data[base + j - off] else if discard then 0 else p[j])
    else p
  }

  function WriteTable(discard: bool, t: Table, ps: nat, off: nat, data: seq<Byte>): (u: Table)
    requires Sized(t, ps)
    ensures Sized(u, ps)
  {
    seq(|t|, i requires 0 <= i < |t| => WritePage(discard, t[i], i * ps, off, data))
  }

  /** Byte by byte: what a write does as written, and repaired. */
  lemma WriteAt(discard: bool, t: Table, ps: nat, off: nat, data: seq<Byte>, k: nat)
    requires 0 < ps && Sized(t, ps) && k < Capacity(ps)
    ensures ByteAt(WriteTable(discard, t, ps, off, data), ps, k) ==
      if off <= k < off + |data| then data[k - off]
      else if discard && Touched((k / ps) * ps, ps, off, |data|) then 0
      else ByteAt(t, ps, k)
  {
    Locate(k, ps);
  }

  lemma RepairedWriteIsFlat(t: Table, ps: nat, off: nat, data: seq<Byte>)
    requires 0 < ps && Sized(t, ps) && off + |data| <= Capacity(ps)
    ensures Flat(WriteTable(false, t, ps, off, data), ps) == FlatWrite(Flat(t, ps), off, data)
  {
    forall k | 0 <= k < Capacity(ps)
      ensures Flat(WriteTable(false, t, ps, off, data), ps)[k] == FlatWrite(Flat(t, ps), off, data)[k]
    {
      WriteAt(false, t, ps, off, data, k);
    }
  }

  /** The write as written is the intended write if and only if every byte that shares a
      touched page with the range, and is not in it, was zero before. */
  lemma WrittenWriteIff(t: Table, ps: nat, off: nat, data: seq<Byte>)
    requires 0 < ps && Sized(t, ps) && off + |data| <= Capacity(ps)
    ensures Flat(WriteTable(true, t, ps, off, data), ps) == FlatWrite(Flat(t, ps), off, data)
       <==> forall k :: 0 <= k < Capacity(ps) && Touched((k / ps) * ps, ps, off, |data|) && !(off <= k < off + |data|)
              ==> Flat(t, ps)[k] == 0
  {
    var f, g := Flat(WriteTable(true, t, ps, off, data), ps), FlatWrite(Flat(t, ps), off, data);
    forall k | 0 <= k < Capacity(ps)
      ensures f[k] == g[k] <==>
        (Touched((k / ps) * ps, ps, off, |data|) && !(off <= k < off + |data|) ==> Flat(t, ps)[k] == 0)
    {
      WriteAt(true, t, ps, off, data, k);
    }
    if f == g {
      forall k | 0 <= k < Capacity(ps) && Touched((k / ps) * ps, ps, off, |data|) && !(off <= k < off + |data|)
        ensures Flat(t, ps)[k] == 0
      {
        assert f[k] == g[k];
      }
    }
  }

  /** As written, a second write into the same page loses the first. */
  lemma WriteDiscards(t: Table, ps: nat)
    requires 2 <= ps && Sized(t, ps)
    ensures Capacity(ps) > 1
    ensures var u := WriteTable(true, t, ps, 0, [1]);
            && ByteAt(u, ps, 0) == 1 && ByteAt(WriteTable(true, u, ps, 1, [2]), ps, 0) == 0
  {
    LocateUnique(0, ps, 0, 0);
  }

  /** Whatever becomes of the rest, a write can be read back. */
  lemma ReadAfterWrite(discard: bool, t: Table, ps: nat, off: nat, data: seq<Byte>)
    requires 0 < ps && Sized(t, ps) && off + |data| <= Capacity(ps)
    ensures Flat(WriteTable(discard, t, ps, off, data), ps)[off..off + |data|] == data
  {
    forall k | off <= k < off + |data| ensures Flat(WriteTable(discard, t, ps, off, data), ps)[k] == data[k - off] {
      WriteAt(discard, t, ps, off, data, k);
    }
  }

  // ---------------------------------------------------------------- deleting

  function ZeroRange(p: seq<Byte>, from: nat, n: nat): (q: seq<Byte>)
    requires from + n <= |p|
    ensures |q| == |p|
  {
    p[..from] + Zeros(n) + p[from + n..]
  }

  function DeletePage(p: seq<Byte>, base: int, off: nat, n: nat): (q: seq<Byte>)
    ensures |q| == |p|
  {
    seq(|p|, j requires 0 <= j < |p| => if off <= base + j < off + n then 0 else p[j])
  }

  /** The repaired delete: bytes of the range become zero. */
  function DeleteTable(t: Table, ps: nat, off: nat, n: nat): (u: Table)
    requires Sized(t, ps)
    ensures Sized(u, ps)
  {
    seq(|t|, i requires 0 <= i < |t| => DeletePage(t[i], i * ps, off, n))
  }

  lemma RepairedDeleteIsFlat(t: Table, ps: nat, off: nat, n: nat)
    requires 0 < ps && Sized(t, ps) && off + n <= Capacity(ps)
    ensures Flat(DeleteTable(t, ps, off, n), ps) == FlatZero(Flat(t, ps), off, n)
  {
    forall k | 0 <= k < Capacity(ps)
      ensures Flat(DeleteTable(t, ps, off, n), ps)[k] == FlatZero(Flat(t, ps), off, n)[k]
    {
      Locate(k, ps);
    }
  }

  /** The delete loop as written.  `Overrun` is a memset past the end of a page, or a page
      index past the table. */
  datatype Outcome = Done(present: seq<bool>, table: Table) | Overrun

  function WrittenDelete(present: seq<bool>, t: Table, ps: nat, i: nat, rel: nat, start: nat, size: nat): Outcome
    requires 0 < ps && Sized(t, ps) && |present| == |t| && rel < ps
    decreases size - start
  {
    if start >= size then Done(present, t)
    else if i >= |t| then Overrun
    else if rel == 0 && size - start >= ps then
      WrittenDelete(present[i := false], t[i := Zeros(ps)], ps, i + 1, 0, start + ps, size)
    else if !present[i] then WrittenDelete(present, t, ps, i, 0, start + ps, size)
    else
      var avail := ps - rel;
      var end := if avail < size - start then start + avail else size;
      if rel + (rel + end) > ps then Overrun
      else WrittenDelete(present, t[i := ZeroRange(t[i], rel, rel + end)], ps, i + 1, 0, start + ps, size)
  }

  /** An absent page reads as zeros. */
  ghost predicate Consistent(present: seq<bool>, t: Table, ps: nat) {
    && Sized(t, ps) && |present| == |t|
    && forall i :: 0 <= i < |t| && !present[i] ==> t[i] == Zeros(ps)
  }

  /** On this table the delete as written does the intended delete. */
  ghost predicate DeletesRight(present: seq<bool>, t: Table, ps: nat, off: nat, size: nat)
    requires 0 < ps && Consistent(present, t, ps) && off + size <= Capacity(ps)
  {
    var o := WrittenDelete(present, t, ps, off / ps, off % ps, 0, size);
    o.Done? && Sized(o.table, ps) && Flat(o.table, ps) == FlatZero(Flat(t, ps), off, size)
  }

  /** What the delete as written clears, by the pages that are present: a run of bytes, which
      may be more or less than the range; or it leaves a page or the table. */
  datatype Extent = Cleared(lo: int, hi: int) | Leaves

  /** `m` cut down to whole pages */
  function Floor(m: nat, ps: nat): int
    requires 0 < ps
  {
    m / ps * ps
  }

  /** Of `m` bytes from page `i` on, some are left over for a page that is present. */
  predicate EndsOnPage(present: seq<bool>, ps: nat, i: nat, m: nat)
    requires 0 < ps
  {
    m % ps > 0 && i + m / ps < |present| && present[i + m / ps]
  }

  /** For a range of `n` bytes from byte `rel` of page `i`, which begins at `base`. */
  function ExtentOf(present: seq<bool>, ps: nat, base: int, i: nat, rel: nat, n: nat): Extent
    requires 0 < ps
  {
    if n == 0 then Cleared(base + rel, base + rel)
    else if rel == 0 then
      // whole pages are freed; what is left of the range is cleared only in the first page
      if !EndsOnPage(present, ps, i, n) then Cleared(base, base + Floor(n, ps))
      else if n < ps then Cleared(base, base + n) else Leaves
    else if i < |present| && present[i] then
      // the memset is longer than the range by the offset in the page
      if rel + (rel + n) <= ps then Cleared(base + rel, base + rel + rel + n) else Leaves
    else if n <= ps then Cleared(base + rel, base + rel)
    // an absent first page is not passed: the pages freed lag one behind
    else if !EndsOnPage(present, ps, i, n - ps) then Cleared(base, base + Floor(n - ps, ps))
    else Leaves
  }

  /** The pages of a range that starts with page `i` are in the table. */
  lemma TailBound(ps: nat, i: nat, whole: nat, rest: nat)
    requires 0 < ps && i * ps + whole * ps + rest <= Capacity(ps)
    ensures i + whole <= MAX_BUFFERS && (rest > 0 ==> i + whole < MAX_BUFFERS)
  {
    PageBound(ps, i, whole);
    Distributes(i, whole, ps);
  }

  lemma PageRange(k: nat, ps: nat, i: nat, m: nat)
    requires 0 < ps
    ensures i <= k / ps < i + m <==> i * ps <= k < i * ps + m * ps
  {
    var q := k / ps;
    assert q * ps <= k < (q + 1) * ps;
    if q >= i { Ordered(i, q, ps); } else { Ordered(q + 1, i, ps); }
    if q < i + m { Ordered(q + 1, i + m, ps); } else { Ordered(i + m, q, ps); }
    Distributes(i, m, ps);
  }

  lemma PageBound(ps: nat, i: nat, m: nat)
    requires 0 < ps && i * ps + m * ps <= Capacity(ps)
    ensures i + m <= MAX_BUFFERS
  {
    if i + m > MAX_BUFFERS { Scale(i + m - MAX_BUFFERS, ps); }
  }

  lemma Ordered(a: nat, b: nat, ps: nat)
    requires a <= b
    ensures a * ps <= b * ps
  {
  }

  lemma Distributes(a: nat, b: nat, ps: nat)
    ensures (a + b) * ps == a * ps + b * ps
  {
  }

  /** The loop from the start of page `i`, with `whole` pages and `rest` bytes to go: whole pages
      are freed, and then at most one page is left, which is cleared from its start for as many
      bytes as the whole range has. */
  lemma {:induction false} TailClears(present: seq<bool>, t: Table, ps: nat, i: nat, start: nat, whole: nat, rest: nat)
    requires 0 < ps && Sized(t, ps) && |present| == |t| && rest < ps
    requires i + whole <= |t| && (rest > 0 ==> i + whole < |t|)
    ensures var size := start + whole * ps + rest; var o := WrittenDelete(present, t, ps, i, 0, start, size);
            if rest > 0 && present[i + whole] && size > ps then o.Overrun?
            else o.Done? && TailCleared(present, t, o.table, ps, i, whole, rest, size)
    decreases whole
  {
    if whole > 0 {
      Distributes(whole - 1, 1, ps);
      assert start + whole * ps + rest == (start + ps) + (whole - 1) * ps + rest;
      assert (whole - 1) * ps >= 0;
      TailClears(present[i := false], t[i := Zeros(ps)], ps, i + 1, start + ps, whole - 1, rest);
    }
  }

  ghost predicate TailCleared(present: seq<bool>, t: Table, u: Table, ps: nat, i: nat, whole: nat, rest: nat, size: nat)
    requires Sized(t, ps) && |present| == |t|
  {
    && |u| == |t|
    && forall q :: 0 <= q < |t| ==>
         if i <= q < i + whole then u[q] == Zeros(ps)
         else if q == i + whole && rest > 0 && present[q] then size <= ps && u[q] == ZeroRange(t[q], 0, size)
         else u[q] == t[q]
  }

  lemma InPage(t: Table, u: Table, ps: nat, i: nat, from: nat, n: nat, k: nat)
    requires 0 < ps && Sized(t, ps) && i < |t| && from + n <= ps && k < Capacity(ps)
    requires u == t[i := ZeroRange(t[i], from, n)]
    ensures ByteAt(u, ps, k) == if i * ps + from <= k < i * ps + from + n then 0 else ByteAt(t, ps, k)
  {
    Locate(k, ps);
    PageRange(k, ps, i, 1);
  }

  lemma InPages(t: Table, u: Table, ps: nat, i: nat, whole: nat, k: nat)
    requires 0 < ps && Sized(t, ps) && |u| == |t| && k < Capacity(ps)
    requires forall q :: 0 <= q < |t| ==> u[q] == if i <= q < i + whole then Zeros(ps) else t[q]
    ensures Sized(u, ps)
    ensures ByteAt(u, ps, k) == if i * ps <= k < i * ps + whole * ps then 0 else ByteAt(t, ps, k)
  {
    Locate(k, ps);
    PageRange(k, ps, i, whole);
  }

  /** `u` is `t` with the bytes from `lo` up to `hi` cleared. */
  ghost predicate Clears(t: Table, u: Table, ps: nat, lo: int, hi: int)
    requires 0 < ps && Sized(t, ps)
  {
    && Sized(u, ps)
    && forall k :: 0 <= k < Capacity(ps) ==> ByteAt(u, ps, k) == if lo <= k < hi then 0 else ByteAt(t, ps, k)
  }

  lemma PagesFlat(t: Table, u: Table, ps: nat, i: nat, whole: nat)
    requires 0 < ps && Sized(t, ps) && |u| == |t|
    requires forall q :: 0 <= q < |t| ==> u[q] == if i <= q < i + whole then Zeros(ps) else t[q]
    ensures Clears(t, u, ps, i * ps, i * ps + whole * ps)
  {
    forall k | 0 <= k < Capacity(ps)
      ensures Sized(u, ps) && ByteAt(u, ps, k) == if i * ps <= k < i * ps + whole * ps then 0 else ByteAt(t, ps, k)
    {
      InPages(t, u, ps, i, whole, k);
    }
  }

  lemma PartFlat(t: Table, u: Table, ps: nat, i: nat, from: nat, n: nat)
    requires 0 < ps && Sized(t, ps) && i < |t| && from + n <= ps && u == t[i := ZeroRange(t[i], from, n)]
    ensures Clears(t, u, ps, i * ps + from, i * ps + from + n)
  {
    forall k | 0 <= k < Capacity(ps)
      ensures ByteAt(u, ps, k) == if i * ps + from <= k < i * ps + from + n then 0 else ByteAt(t, ps, k)
    {
      InPage(t, u, ps, i, from, n, k);
    }
  }

  lemma NoneFlat(t: Table, ps: nat, lo: int)
    requires 0 < ps && Sized(t, ps)
    ensures Clears(t, t, ps, lo, lo)
  {
  }

  /** What the loop from the start of a page does to the flat bytes */
  lemma TailFlat(present: seq<bool>, t: Table, ps: nat, i: nat, start: nat, whole: nat, rest: nat)
    requires 0 < ps && Sized(t, ps) && |present| == |t| && rest < ps
    requires i + whole <= |t| && (rest > 0 ==> i + whole < |t|)
    ensures var size := start + whole * ps + rest; var o := WrittenDelete(present, t, ps, i, 0, start, size);
            if rest == 0 || !present[i + whole] then o.Done? && Clears(t, o.table, ps, i * ps, i * ps + whole * ps)
            else if size > ps then o.Overrun?
            else o.Done? && Clears(t, o.table, ps, i * ps, i * ps + size)
  {
    var size := start + whole * ps + rest;
    var o := WrittenDelete(present, t, ps, i, 0, start, size);
    TailClears(present, t, ps, i, start, whole, rest);
    if rest == 0 || !present[i + whole] {
      PagesFlat(t, o.table, ps, i, whole);
    } else if size <= ps {
      OnePage(ps, whole, rest);
      assert o.table == t[i := ZeroRange(t[i], 0, size)];
      PartFlat(t, o.table, ps, i, 0, size);
    }
  }

  lemma OnePage(ps: nat, whole: nat, rest: nat)
    requires 0 < ps && rest > 0 && whole * ps + rest <= ps
    ensures whole == 0
  {
    if whole > 0 { Scale(whole, ps); }
  }

  /** The delete as written clears exactly the extent, or leaves a page or the table. */
  ghost predicate Follows(present: seq<bool>, t: Table, ps: nat, i: nat, rel: nat, n: nat)
    requires 0 < ps && Sized(t, ps) && |present| == |t| && rel < ps
  {
    var o := WrittenDelete(present, t, ps, i, rel, 0, n);
    match ExtentOf(present, ps, i * ps, i, rel, n)
    case Leaves => o.Overrun?
    case Cleared(lo, hi) => o.Done? && Clears(t, o.table, ps, lo, hi)
  }

  /** Division of a number of bytes into whole pages and a rest */
  lemma Divide(present: seq<bool>, ps: nat, i: nat, whole: nat, rest: nat)
    requires 0 < ps && rest < ps
    ensures Floor(whole * ps + rest, ps) == whole * ps
    ensures EndsOnPage(present, ps, i, whole * ps + rest) <==> rest > 0 && i + whole < |present| && present[i + whole]
    ensures whole * ps + rest < ps ==> whole == 0
    ensures whole == 0 ==> whole * ps == 0
  {
    LocateUnique(whole * ps + rest, ps, whole, rest);
    if whole > 0 { Scale(whole, ps); }
  }

  lemma StartFollows(present: seq<bool>, t: Table, ps: nat, i: nat, whole: nat, rest: nat)
    requires 0 < ps && Sized(t, ps) && |present| == |t| && rest < ps && whole * ps + rest > 0
    requires i * ps + whole * ps + rest <= Capacity(ps)
    ensures Follows(present, t, ps, i, 0, whole * ps + rest)
  {
    hide WrittenDelete, Clears, Capacity, Floor, EndsOnPage;
    TailBound(ps, i, whole, rest);
    Divide(present, ps, i, whole, rest);
    TailFlat(present, t, ps, i, 0, whole, rest);
    if whole > 0 { Scale(whole, ps); }
  }

  lemma MiddlePresent(present: seq<bool>, t: Table, ps: nat, i: nat, rel: nat, n: nat)
    requires 0 < ps && Sized(t, ps) && |present| == |t| && 0 < rel < ps && n > 0 && i < |t| && present[i]
    ensures Follows(present, t, ps, i, rel, n)
  {
    MiddleIs(present, t, ps, i, rel, n);
    hide WrittenDelete, Clears;
    if rel + (rel + n) <= ps {
      PartFlat(t, t[i := ZeroRange(t[i], rel, rel + n)], ps, i, rel, rel + n);
    }
  }

  lemma MiddleIs(present: seq<bool>, t: Table, ps: nat, i: nat, rel: nat, n: nat)
    requires 0 < ps && Sized(t, ps) && |present| == |t| && 0 < rel < ps && n > 0 && i < |t| && present[i]
    ensures WrittenDelete(present, t, ps, i, rel, 0, n)
         == if rel + (rel + n) <= ps then Done(present, t[i := ZeroRange(t[i], rel, rel + n)]) else Overrun
  {
  }

  lemma MiddleAbsent(present: seq<bool>, t: Table, ps: nat, i: nat, rel: nat, whole: nat, rest: nat)
    requires 0 < ps && Sized(t, ps) && |present| == |t| && 0 < rel < ps && i < |t| && !present[i] && rest < ps
    requires whole * ps + rest > 0 && i * ps + whole * ps + rest <= Capacity(ps)
    ensures Follows(present, t, ps, i, rel, ps + whole * ps + rest)
  {
    AbsentIs(present, t, ps, i, rel, ps + whole * ps + rest);
    hide WrittenDelete, Clears, Capacity, Floor, EndsOnPage;
    TailBound(ps, i, whole, rest);
    Divide(present, ps, i, whole, rest);
    TailFlat(present, t, ps, i, ps, whole, rest);
  }

  lemma AbsentIs(present: seq<bool>, t: Table, ps: nat, i: nat, rel: nat, n: nat)
    requires 0 < ps && Sized(t, ps) && |present| == |t| && 0 < rel < ps && i < |t| && !present[i] && n > 0
    ensures WrittenDelete(present, t, ps, i, rel, 0, n)
         == if n <= ps then Done(present, t) else WrittenDelete(present, t, ps, i, 0, ps, n)
  {
  }

  lemma WrittenDeleteIs(present: seq<bool>, t: Table, ps: nat, off: nat, n: nat)
    requires 0 < ps && Sized(t, ps) && |present| == |t| && off + n <= Capacity(ps)
    ensures Follows(present, t, ps, off / ps, off % ps, n)
  {
    hide Follows, WrittenDelete, ExtentOf, Capacity;
    var i, rel := off / ps, off % ps;
    assert off == i * ps + rel;
    if n == 0 {
      NothingFollows(present, t, ps, i, rel);
    } else {
      FirstPage(ps, off, n);
      if rel == 0 {
        var whole, rest := n / ps, n % ps;
        assert n == whole * ps + rest;
        StartFollows(present, t, ps, i, whole, rest);
      } else if present[i] {
        MiddlePresent(present, t, ps, i, rel, n);
      } else if n <= ps {
        ShortAbsent(present, t, ps, i, rel, n);
      } else {
        var whole, rest := (n - ps) / ps, (n - ps) % ps;
        assert n - ps == whole * ps + rest;
        MiddleAbsent(present, t, ps, i, rel, whole, rest);
        assert n == ps + whole * ps + rest;
      }
    }
  }

  lemma ShortAbsent(present: seq<bool>, t: Table, ps: nat, i: nat, rel: nat, n: nat)
    requires 0 < ps && Sized(t, ps) && |present| == |t| && 0 < rel < ps && i < |t| && !present[i] && 0 < n <= ps
    ensures Follows(present, t, ps, i, rel, n)
  {
    AbsentIs(present, t, ps, i, rel, n);
    hide WrittenDelete, Clears;
    NoneFlat(t, ps, i * ps + rel);
  }

  lemma NothingFollows(present: seq<bool>, t: Table, ps: nat, i: nat, rel: nat)
    requires 0 < ps && Sized(t, ps) && |present| == |t| && rel < ps
    ensures Follows(present, t, ps, i, rel, 0)
  {
    NoneFlat(t, ps, i * ps + rel);
  }

  lemma FirstPage(ps: nat, off: nat, size: nat)
    requires 0 < ps && off + size <= Capacity(ps) && 0 < size
    ensures off / ps < MAX_BUFFERS
  {
    Locate(off, ps);
  }

  /** The extent of the delete of `n` bytes at `off` */
  function ExtentAt(present: seq<bool>, ps: nat, off: nat, n: nat): Extent
    requires 0 < ps
  {
    ExtentOf(present, ps, off - off % ps, off / ps, off % ps, n)
  }

  /** Every byte that is cleared although it should not be, or should be although it is not,
      is zero anyway. */
  ghost predicate Harmless(f: seq<Byte>, e: Extent, off: nat, n: nat) {
    e.Cleared? && forall k :: 0 <= k < |f| && (e.lo <= k < e.hi) != (off <= k < off + n) ==> f[k] == 0
  }

  /** On this table the delete as written does the intended delete if and only if it stays
      within the pages and its extent does no harm. */
  lemma WrittenDeleteIff(present: seq<bool>, t: Table, ps: nat, off: nat, n: nat)
    requires 0 < ps && Consistent(present, t, ps) && off + n <= Capacity(ps)
    ensures DeletesRight(present, t, ps, off, n) <==> Harmless(Flat(t, ps), ExtentAt(present, ps, off, n), off, n)
  {
    WrittenDeleteIs(present, t, ps, off, n);
    hide WrittenDelete, ExtentOf, Clears, Flat, FlatZero, Consistent;
    var i := off / ps;
    assert off - off % ps == i * ps;
    var e := ExtentOf(present, ps, i * ps, i, off % ps, n);
    assert e == ExtentAt(present, ps, off, n);
    if e.Cleared? {
      ClearsIff(t, WrittenDelete(present, t, ps, i, off % ps, 0, n).table, ps, e, off, n);
    }
  }

  lemma ClearsIff(t: Table, u: Table, ps: nat, e: Extent, off: nat, n: nat)
    requires 0 < ps && Sized(t, ps) && e.Cleared? && Clears(t, u, ps, e.lo, e.hi) && off + n <= Capacity(ps)
    ensures Sized(u, ps) && (Flat(u, ps) == FlatZero(Flat(t, ps), off, n) <==> Harmless(Flat(t, ps), e, off, n))
  {
    var f, g, lo, hi := Flat(u, ps), FlatZero(Flat(t, ps), off, n), e.lo, e.hi;
    forall k | 0 <= k < Capacity(ps)
      ensures f[k] == g[k] <==> ((lo <= k < hi) != (off <= k < off + n) ==> Flat(t, ps)[k] == 0)
    {
    }
    if f == g {
      forall k | 0 <= k < Capacity(ps) && (lo <= k < hi) != (off <= k < off + n) ensures Flat(t, ps)[k] == 0 {
        assert f[k] == g[k];
      }
    }
  }

  // ---------------------------------------------------------------- ranges that are always right

  /** The ranges that the delete as written handles whatever the table holds: nothing, or from
      the start of a page either less than a page or a whole number of pages. */
  predicate Manageable(ps: nat, off: nat, size: nat)
    requires 0 < ps
  {
    size == 0 || (off % ps == 0 && (size < ps || size % ps == 0))
  }

  lemma AbsentZeros(present: seq<bool>, t: Table, ps: nat, i: nat, k: nat)
    requires 0 < ps && Consistent(present, t, ps) && i < |t| && !present[i]
    requires i * ps <= k < i * ps + ps && k < Capacity(ps)
    ensures Flat(t, ps)[k] == 0
  {
    LocateUnique(k, ps, i, k - i * ps);
  }

  /** On a manageable range the extent is the range, or the range lies in an absent page. */
  lemma ManageableExtent(present: seq<bool>, ps: nat, off: nat, size: nat)
    requires 0 < ps && |present| == MAX_BUFFERS && off + size <= Capacity(ps) && Manageable(ps, off, size) && size > 0
    ensures off == off / ps * ps && off / ps < MAX_BUFFERS
    ensures var e := ExtentAt(present, ps, off, size);
            || e == Cleared(off, off + size)
            || (e == Cleared(off, off) && !present[off / ps] && size < ps)
  {
    FirstPage(ps, off, size);
    assert off == off / ps * ps + off % ps;
    var whole, rest := size / ps, size % ps;
    assert size == whole * ps + rest;
    Divide(present, ps, off / ps, whole, rest);
    hide Floor, EndsOnPage, Capacity;
  }

  lemma ManageableDeletes(present: seq<bool>, t: Table, ps: nat, off: nat, size: nat)
    requires 0 < ps && Consistent(present, t, ps) && off + size <= Capacity(ps) && Manageable(ps, off, size)
    ensures DeletesRight(present, t, ps, off, size)
  {
    WrittenDeleteIff(present, t, ps, off, size);
    if size > 0 {
      ManageableExtent(present, ps, off, size);
      hide DeletesRight, ExtentOf, ExtentAt, Flat;
      if !present[off / ps] {
        forall k | off <= k < off + size && size < ps ensures Flat(t, ps)[k] == 0 {
          AbsentZeros(present, t, ps, off / ps, k);
        }
      }
    }
  }

  /** A table of allocated pages full of ones. */
  function Ones(ps: nat): (t: Table)
    ensures Sized(t, ps) && forall i, j :: 0 <= i < |t| && 0 <= j < ps ==> t[i][j] == 1
  {
    seq(MAX_BUFFERS, _ => seq(ps, _ => 1))
  }

  const ALL_PRESENT: seq<bool> := seq(MAX_BUFFERS, _ => true)

  /** One write, from 0 to the end of the table, leaves it full of ones. */
  lemma OnesWritten(discard: bool, t: Table, ps: nat, data: seq<Byte>)
    requires 0 < ps && Sized(t, ps) && |data| == Capacity(ps) && forall k :: 0 <= k < |data| ==> data[k] == 1
    ensures WriteTable(discard, t, ps, 0, data) == Ones(ps)
  {
    var u := WriteTable(discard, t, ps, 0, data);
    forall i | 0 <= i < MAX_BUFFERS ensures u[i] == Ones(ps)[i] {
      forall j | 0 <= j < ps ensures u[i][j] == 1 { Within(ps, i, j); }
    }
  }

  lemma Within(ps: nat, i: nat, j: nat)
    requires i < MAX_BUFFERS && j < ps
    ensures i * ps + j < Capacity(ps)
  {
    Scale(MAX_BUFFERS - i, ps);
  }

  /** Off the manageable ranges, with all pages present, the memset leaves a page, or clears at
      least one byte after the range. */
  lemma UnmanageableExtent(ps: nat, off: nat, size: nat)
    requires 0 < ps && off + size <= Capacity(ps) && !Manageable(ps, off, size)
    ensures var e := ExtentAt(ALL_PRESENT, ps, off, size);
            e.Leaves? || (e.lo == off && e.hi > off + size && off + size < Capacity(ps))
  {
    FirstPage(ps, off, size);
    assert off == off / ps * ps + off % ps;
    if off % ps == 0 {
      var whole, rest := size / ps, size % ps;
      assert size == whole * ps + rest;
      UnmanageableStart(ps, off / ps, whole, rest);
    } else {
      UnmanageableMiddle(ps, off / ps, off % ps, size);
    }
  }

  lemma UnmanageableStart(ps: nat, i: nat, whole: nat, rest: nat)
    requires 0 < ps && rest < ps && i * ps + whole * ps + rest <= Capacity(ps) && 0 < rest && whole * ps + rest >= ps
    ensures ExtentOf(ALL_PRESENT, ps, i * ps, i, 0, whole * ps + rest).Leaves?
  {
    TailBound(ps, i, whole, rest);
    Divide(ALL_PRESENT, ps, i, whole, rest);
    hide Floor, EndsOnPage, Capacity;
  }

  lemma UnmanageableMiddle(ps: nat, i: nat, rel: nat, size: nat)
    requires 0 < rel < ps && size > 0 && i < MAX_BUFFERS
    ensures var e := ExtentOf(ALL_PRESENT, ps, i * ps, i, rel, size);
            || e.Leaves?
            || (e.lo == i * ps + rel && e.hi > i * ps + rel + size && i * ps + rel + size < Capacity(ps))
  {
    if rel + (rel + size) <= ps { Within(ps, i, rel + size); }
    hide Floor, EndsOnPage, Capacity;
  }

  lemma UnmanageableFails(ps: nat, off: nat, size: nat)
    requires 0 < ps && off + size <= Capacity(ps) && !Manageable(ps, off, size)
    ensures !DeletesRight(ALL_PRESENT, Ones(ps), ps, off, size)
  {
    WrittenDeleteIff(ALL_PRESENT, Ones(ps), ps, off, size);
    UnmanageableExtent(ps, off, size);
    hide DeletesRight, ExtentAt, Ones;
    if off + size < Capacity(ps) { OnesAt(ps, off + size); }
  }

  lemma OnesAt(ps: nat, k: nat)
    requires 0 < ps && k < Capacity(ps)
    ensures Flat(Ones(ps), ps)[k] == 1
  {
    Locate(k, ps);
  }

  /** The delete as written does the intended delete, whatever the table holds, exactly on
      the manageable ranges. */
  lemma ManageableIff(ps: nat, off: nat, size: nat)
    requires 0 < ps && off + size <= Capacity(ps)
    ensures (forall present, t :: Consistent(present, t, ps) ==> DeletesRight(present, t, ps, off, size))
       <==> Manageable(ps, off, size)
  {
    if Manageable(ps, off, size) {
      forall present, t | Consistent(present, t, ps) ensures DeletesRight(present, t, ps, off, size) {
        ManageableDeletes(present, t, ps, off, size);
      }
    } else {
      UnmanageableFails(ps, off, size);
      assert Consistent(ALL_PRESENT, Ones(ps), ps);
    }
  }
}
