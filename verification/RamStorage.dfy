/** `struct ram_s` and the operations of example/ram.c on real page buffers, proved against the
    functions of Pages and FlatStore. */
module RamStorage {
  import opened Pages
  import opened FlatStore
  import WrittenStore

  /** How many slots of the page table are in use. */
  ghost function Live(s: seq<array?<Byte>>): nat {
    if s == [] then 0 else (if s[0] == null then 0 else 1) + Live(s[1..])
  }

  lemma {:induction false} LiveUpdate(s: seq<array?<Byte>>, i: nat, b: array?<Byte>)
    requires i < |s|
    ensures Live(s[i := b]) + (if s[i] == null then 0 else 1) == Live(s) + (if b == null then 0 else 1)
  {
    if i == 0 {
      assert s[0 := b][1..] == s[1..];
    } else {
      assert s[i := b][1..] == s[1..][i - 1 := b];
      LiveUpdate(s[1..], i - 1, b);
    }
  }

  lemma {:induction false} LiveNone(s: seq<array?<Byte>>)
    requires forall i :: 0 <= i < |s| ==> s[i] == null
    ensures Live(s) == 0
  {
    if s != [] { LiveNone(s[1..]); }
  }

  /** `memcpy(dst + at, src + from, n)` */
  method Copy(dst: array<Byte>, at: nat, src: seq<Byte>, from: nat, n: nat)
    requires at + n <= dst.Length && from + n <= |src|
    modifies dst
    ensures dst[..] == old(dst[..at]) + src[from..from + n] + old(dst[at + n..])
  {
    for k := 0 to n
      invariant forall j :: 0 <= j < dst.Length ==>
        dst[j] == if at <= j < at + k then src[from + j - at] else old(dst[j])
    {
      dst[at + k] := src[from + k];
    }
  }

  class Ram {
    const written: bool   // whether a write is as written: it discards pages, and its end wraps
    const pageSize: nat
    const buffers: array<array?<Byte>>
    var length: nat
    var allocs: nat
    var frees: nat

    ghost var table: Table
    ghost var pages: set<array<Byte>>

    /** Slot `i` of the table holds what the model's page `i` says. */
    ghost predicate Slot(i: nat)
      reads this`table, this`pages, buffers, pages
      requires buffers.Length == MAX_BUFFERS == |table| && i < MAX_BUFFERS
    {
      if buffers[i] == null then table[i] == Zeros(pageSize)
      else buffers[i] in pages && buffers[i].Length == pageSize && buffers[i][..] == table[i]
    }

    ghost predicate Valid()
      reads this, buffers, pages
    {
      && 0 < pageSize && buffers.Length == MAX_BUFFERS && Sized(table, pageSize)
      && (forall i :: 0 <= i < MAX_BUFFERS ==> Slot(i))
      && (forall i, j :: 0 <= i < j < MAX_BUFFERS && buffers[i] != null ==> buffers[i] != buffers[j])
      && allocs == frees + Live(buffers[..])
    }

    ghost function Contents(): Paged
      reads this
    {
      Paged(table, length)
    }

    ghost function Present(): (p: seq<bool>)
      reads buffers
      ensures |p| == buffers.Length
    {
      seq(buffers.Length, i requires 0 <= i < buffers.Length reads buffers => buffers[i] != null)
    }

    /** The contents, with the pages that are allocated */
    ghost function Value(): (w: WrittenStore.Written)
      requires Valid()
      reads this, buffers, pages
      ensures WrittenStore.Sound(pageSize, w)
    {
      assert forall i :: 0 <= i < MAX_BUFFERS && buffers[i] == null ==> Slot(i);
      WrittenStore.Written(Present(), table, length)
    }

    constructor (written: bool, pageSize: nat)
      requires 0 < pageSize
      ensures Valid() && fresh(buffers) && this.written == written && this.pageSize == pageSize
      ensures length == 0 && table == seq(MAX_BUFFERS, _ => Zeros(pageSize)) && pages == {}
    {
      this.written, this.pageSize := written, pageSize;
      buffers := new array?<Byte>[MAX_BUFFERS](_ => null);
      length, allocs, frees := 0, 0, 0;
      table, pages := seq(MAX_BUFFERS, _ => Zeros(pageSize)), {};
      new;
      LiveNone(buffers[..]);
    }

    /** `ras_free(ram->buffers[i]); ram->buffers[i] = 0` */
    method Drop(i: nat)
      requires Valid() && i < MAX_BUFFERS
      modifies this`frees, this`table, buffers
      ensures Valid() && table == old(table)[i := Zeros(pageSize)]
      ensures buffers[..] == old(buffers[..])[i := null]
      ensures frees == old(frees) + (if old(buffers[i]) == null then 0 else 1)
    {
      LiveUpdate(buffers[..], i, null);
      if buffers[i] != null { frees := frees + 1; }
      buffers[i] := null;
      assert buffers[..] == old(buffers[..])[i := null];
      table := table[i := Zeros(pageSize)];
      forall j | 0 <= j < MAX_BUFFERS ensures Slot(j) { assert old(Slot(j)); }
    }

    /** `ras_alloc(ram->page_size)`, zeroed */
    method Allocate(i: nat) returns (page: array<Byte>)
      requires Valid() && i < MAX_BUFFERS && buffers[i] == null
      modifies this`allocs, this`pages, buffers
      ensures Valid() && buffers[i] == page && page in pages && fresh(page) && pages == old(pages) + {page}
      ensures buffers[..] == old(buffers[..])[i := page] && allocs == old(allocs) + 1
    {
      page := new Byte[pageSize](_ => 0);
      LiveUpdate(buffers[..], i, page);
      allocs := allocs + 1;
      buffers[i] := page;
      assert buffers[..] == old(buffers[..])[i := page];
      pages := pages + {page};
      assert page[..] == Zeros(pageSize) == table[i] by { assert old(Slot(i)); }
      forall j | 0 <= j < MAX_BUFFERS ensures Slot(j) { assert old(Slot(j)); }
    }

    /** `ram_page` */
    method Page(i: nat, upsert: bool) returns (page: array<Byte>)
      requires Valid() && i < MAX_BUFFERS
      modifies this`allocs, this`frees, this`table, this`pages, buffers
      ensures Valid() && buffers[i] == page && page in pages
      ensures table == old(table)[i := if upsert then Zeros(pageSize) else old(table[i])]
      ensures fresh(pages - old(pages)) && old(pages) <= pages
      ensures allocs == old(allocs) + (if upsert || old(buffers[i]) == null then 1 else 0)
      ensures frees == old(frees) + (if upsert && old(buffers[i]) != null then 1 else 0)
      ensures Present() == old(Present())[i := true]
    {
      assert Slot(i);
      if buffers[i] != null && upsert { Drop(i); }
      if buffers[i] == null { page := Allocate(i); } else { page := buffers[i]; }
    }

    /** `memcpy(page + rel, src + from, n)` for the page in slot `i` */
    method Fill(i: nat, rel: nat, src: seq<Byte>, from: nat, n: nat)
      requires Valid() && i < MAX_BUFFERS && buffers[i] != null && rel + n <= pageSize && from + n <= |src|
      modifies this`table, pages
      ensures Valid() && table == old(table)[i := FlatWrite(old(table[i]), rel, src[from..from + n])]
    {
      assert Slot(i);
      Copy(buffers[i], rel, src, from, n);
      table := table[i := FlatWrite(table[i], rel, src[from..from + n])];
      forall j | 0 <= j < MAX_BUFFERS ensures Slot(j) { assert old(Slot(j)); }
    }

    /** One page of a write: what the copy into it amounts to. */
    lemma WriteStep(p: seq<Byte>, i: nat, off: nat, data: seq<Byte>, rel: nat, start: nat, end: nat)
      requires 0 < pageSize == |p| && rel < pageSize && start < |data|
      requires i * pageSize + rel == off + start && (start == 0 || rel == 0)
      requires end == if pageSize - rel < |data| - start then start + (pageSize - rel) else |data|
      ensures FlatWrite(if written then Zeros(pageSize) else p, rel, data[start..end])
           == WritePage(written, p, i * pageSize, off, data)
    {
      var base := i * pageSize;
      var w := FlatWrite(if written then Zeros(pageSize) else p, rel, data[start..end]);
      var q := WritePage(written, p, base, off, data);
      assert Touched(base, pageSize, off, |data|);
      forall j | 0 <= j < pageSize ensures w[j] == q[j] {
        assert rel <= j < rel + (end - start) <==> off <= base + j < off + |data|;
      }
    }

    /** Where a loop over the pages of a range stands: `start` bytes are done, the next one is
        byte `rel` of page `i`. */
    ghost predicate At(i: nat, rel: nat, off: nat, n: nat, start: nat)
      requires 0 < pageSize
    {
      && start <= n && off / pageSize <= i && (start == 0 || rel == 0) && (start == 0 ==> i == off / pageSize)
      && (start < n ==> i * pageSize + rel == off + start && rel < pageSize && i < MAX_BUFFERS)
      && (start > 0 ==> i * pageSize >= off + start)
    }

    lemma AtStart(off: nat, n: nat)
      requires 0 < pageSize && (n == 0 || off + n <= Capacity(pageSize))
      ensures off - (off / pageSize) * pageSize >= 0
      ensures At(off / pageSize, off - (off / pageSize) * pageSize, off, n, 0)
    {
      if n > 0 { Locate(off, pageSize); }
    }

    lemma AtNext(i: nat, rel: nat, off: nat, n: nat, start: nat, end: nat)
      requires 0 < pageSize && off + n <= Capacity(pageSize) && At(i, rel, off, n, start) && start < n
      requires end == if pageSize - rel < n - start then start + (pageSize - rel) else n
      ensures start < end <= n && At(i + 1, 0, off, n, end)
    {
      assert (i + 1) * pageSize == i * pageSize + pageSize;
      if i + 1 >= MAX_BUFFERS { assert (i + 1) * pageSize >= MAX_BUFFERS * pageSize; }
    }

    lemma AtHere(i: nat, rel: nat, off: nat, n: nat, start: nat)
      requires 0 < pageSize && At(i, rel, off, n, start) && start < n
      ensures i * pageSize + rel == off + start && (start == 0 || rel == 0) && rel < pageSize && i < MAX_BUFFERS
    {
    }

    lemma PagesHoldBytes()
      requires Valid()
      ensures 0 < pageSize
    {
    }

    lemma SlotThere(i: nat)
      requires Valid() && i < MAX_BUFFERS
      ensures 0 < pageSize && |table| == MAX_BUFFERS == buffers.Length && |table[i]| == pageSize
      ensures (buffers[i] != null ==> buffers[i] in pages && buffers[i].Length == pageSize)
    {
      assert Slot(i);
    }

    /** The body of the loop in `ram_write` */
    method WriteOne(i: nat, rel: nat, off: nat, data: seq<Byte>, start: nat) returns (end: nat)
      requires Valid() && start < |data| && At(i, rel, off, |data|, start)
      modifies this`allocs, this`frees, this`table, this`pages, buffers, pages
      ensures Valid() && i < MAX_BUFFERS && rel < pageSize
      ensures table == old(table)[i := WritePage(written, old(table[i]), i * pageSize, off, data)]
      ensures end == if pageSize - rel < |data| - start then start + (pageSize - rel) else |data|
      ensures fresh(pages - old(pages)) && old(pages) <= pages && Present() == old(Present())[i := true]
    {
      hide At, Slot, WritePage, Present, Capacity, FlatWrite, Zeros, Valid;
      PagesHoldBytes();
      AtHere(i, rel, off, |data|, start);
      SlotThere(i);
      var page := Page(i, written);
      var avail := pageSize - rel;
      end := if avail < |data| - start then start + avail else |data|;
      SlotThere(i);
      WriteStep(old(table[i]), i, off, data, rel, start, end);
      Fill(i, rel, data, start, end - start);
    }

    /** `u` is `t` after the pages from the first up to page `i` have been written. */
    ghost predicate Written(t: Table, u: Table, off: nat, data: seq<Byte>, i: nat)
      requires 0 < pageSize
    {
      && |t| == |u|
      && forall q :: 0 <= q < |t| ==>
        u[q] == if off / pageSize <= q < i then WritePage(written, t[q], q * pageSize, off, data) else t[q]
    }

    lemma WrittenNone(t: Table, off: nat, data: seq<Byte>)
      requires 0 < pageSize
      ensures Written(t, t, off, data, off / pageSize)
    {
    }

    lemma WrittenNext(t: Table, u: Table, off: nat, data: seq<Byte>, i: nat)
      requires 0 < pageSize && Written(t, u, off, data, i) && off / pageSize <= i < |t|
      ensures Written(t, u[i := WritePage(written, u[i], i * pageSize, off, data)], off, data, i + 1)
    {
    }

    /** Pages before the first and after the last are not touched. */
    lemma OutsidePage(q: nat, off: nat, n: nat, i: nat)
      requires 0 < pageSize && !(off / pageSize <= q < i) && (n > 0 ==> i * pageSize >= off + n)
      ensures !Touched(q * pageSize, pageSize, off, n)
    {
      var first := off / pageSize;
      assert first * pageSize <= off;
      if q < first {
        assert q * pageSize + pageSize == (q + 1) * pageSize <= first * pageSize;
      } else {
        assert q * pageSize >= i * pageSize;
      }
    }

    lemma WrittenAll(t: Table, u: Table, off: nat, data: seq<Byte>, i: nat)
      requires 0 < pageSize && Sized(t, pageSize) && Written(t, u, off, data, i)
      requires |data| > 0 ==> i * pageSize >= off + |data|
      ensures u == WriteTable(written, t, pageSize, off, data)
    {
      forall q | 0 <= q < |t| ensures u[q] == WritePage(written, t[q], q * pageSize, off, data) {
        if !(off / pageSize <= q < i) { OutsidePage(q, off, |data|, i); }
      }
    }

    lemma AtMeans(i: nat, rel: nat, off: nat, n: nat, start: nat)
      requires 0 < pageSize && At(i, rel, off, n, start)
      ensures off / pageSize <= i && start <= n && (start < n ==> i < MAX_BUFFERS && rel < pageSize)
      ensures start == n > 0 ==> i * pageSize >= off + n
    {
    }

    /** `now` is `was` with the pages from the first up to page `i` marked, all of which hold some
        of the range. */
    ghost predicate MarkedTo(was: seq<bool>, now: seq<bool>, off: nat, n: nat, i: nat)
      requires 0 < pageSize
    {
      && |was| == |now|
      && (forall q :: 0 <= q < |was| ==> now[q] == (was[q] || off / pageSize <= q < i))
      && (forall q :: off / pageSize <= q < i ==> Touched(q * pageSize, pageSize, off, n))
    }

    lemma MarkedNone(was: seq<bool>, off: nat, n: nat)
      requires 0 < pageSize
      ensures MarkedTo(was, was, off, n, off / pageSize)
    {
    }

    lemma MarkedNext(was: seq<bool>, now: seq<bool>, off: nat, n: nat, i: nat, rel: nat, start: nat)
      requires 0 < pageSize && MarkedTo(was, now, off, n, i) && At(i, rel, off, n, start) && start < n && i < |now|
      ensures MarkedTo(was, now[i := true], off, n, i + 1)
    {
      assert Touched(i * pageSize, pageSize, off, n);
    }

    lemma MarkedAll(was: seq<bool>, now: seq<bool>, off: nat, n: nat, i: nat)
      requires 0 < pageSize && MarkedTo(was, now, off, n, i) && (n > 0 ==> i * pageSize >= off + n)
      ensures now == WrittenStore.Marked(was, pageSize, off, n)
    {
      forall q | 0 <= q < |was| ensures now[q] == (was[q] || Touched(q * pageSize, pageSize, off, n)) {
        if !(off / pageSize <= q < i) { OutsidePage(q, off, n, i); }
      }
    }

    method WritePages(off: nat, data: seq<Byte>)
      requires Valid() && (data == [] || off + |data| <= Capacity(pageSize))
      modifies this`allocs, this`frees, this`table, this`pages, buffers, pages
      ensures Valid() && table == WriteTable(written, old(table), pageSize, off, data)
      ensures fresh(pages - old(pages))
      ensures Present() == WrittenStore.Marked(old(Present()), pageSize, off, |data|)
    {
      hide At, Written, WritePage, WriteTable, Slot, Capacity, MarkedTo, Touched, Present;
      ghost var t := table;
      ghost var was := Present();
      AtStart(off, |data|);
      WrittenNone(t, off, data);
      MarkedNone(was, off, |data|);
      var i: nat := off / pageSize;
      var rel: nat := off - i * pageSize;
      var start: nat := 0;
      while start < |data|
        invariant Valid() && At(i, rel, off, |data|, start) && start <= |data|
        invariant Written(t, table, off, data, i) && MarkedTo(was, Present(), off, |data|, i)
        invariant fresh(pages - old(pages))
      {
        AtMeans(i, rel, off, |data|, start);
        WrittenNext(t, table, off, data, i);
        MarkedNext(was, Present(), off, |data|, i, rel, start);
        var end := WriteOne(i, rel, off, data, start);
        AtNext(i, rel, off, |data|, start, end);
        i, start, rel := i + 1, end, 0;
      }
      AtMeans(i, rel, off, |data|, start);
      WrittenAll(t, table, off, data, i);
      MarkedAll(was, Present(), off, |data|, i);
    }

    /** `ram_write`; not `ok`, and nothing done, where the C code would leave the table */
    method Write(off: nat, data: seq<Byte>) returns (ok: bool)
      requires Valid() && |data| < WrittenStore.UINT
      modifies this`length, this`allocs, this`frees, this`table, this`pages, buffers, pages
      ensures Valid() && fresh(pages - old(pages))
      ensures ok <==> !Beyond(pageSize, off, |data|)
      ensures written ==> Value() == WrittenStore.WrittenStep(pageSize, old(Value()), WriteOp(off, data)).0
      ensures !written ==> Contents() == PagedStep(pageSize, old(Contents()), WriteOp(off, data)).0
    {
      ok := |data| == 0 || off + |data| <= Capacity(pageSize);
      if !ok { return; }
      var end := if written then (off + |data|) % WrittenStore.UINT else off + |data|;
      if end > length { length := end; }
      WritePages(off, data);
    }

    lemma NothingChanges(t: Table, off: nat)
      requires 0 < pageSize && Sized(t, pageSize)
      ensures WriteTable(written, t, pageSize, off, []) == t && DeleteTable(t, pageSize, off, 0) == t
    {
      NothingWritten(t, pageSize, off);
      var u := WriteTable(written, t, pageSize, off, []);
      forall i | 0 <= i < |t| ensures u[i] == t[i] { }
    }

    lemma ByteOfPage(t: Table, i: nat, j: nat, k: nat)
      requires 0 < pageSize && Sized(t, pageSize) && i < MAX_BUFFERS && j < pageSize
      requires i * pageSize + j == k < Capacity(pageSize)
      ensures Flat(t, pageSize)[k] == t[i][j]
    {
      LocateUnique(k, pageSize, i, j);
    }

    /** What `ram_read` copies from one page */
    lemma ReadStep(t: Table, i: nat, rel: nat, off: nat, start: nat, n: nat)
      requires 0 < pageSize && Sized(t, pageSize) && i < MAX_BUFFERS && rel + n <= pageSize
      requires i * pageSize + rel == off + start && off + start + n <= Capacity(pageSize)
      ensures t[i][rel..rel + n] == Flat(t, pageSize)[off + start..off + start + n]
    {
      var a, b := t[i][rel..rel + n], Flat(t, pageSize)[off + start..off + start + n];
      forall j | 0 <= j < n ensures a[j] == b[j] { ByteOfPage(t, i, rel + j, off + start + j); }
    }

    /** The buffer after one more page has been copied into it */
    lemma Joined(was: seq<Byte>, now: seq<Byte>, start: nat, n: nat, size: nat, part: seq<Byte>, f: seq<Byte>, off: nat)
      requires start + n <= size <= |was| && |part| == n && off + start + n <= |f|
      requires now == was[..start] + part + was[start + n..]
      requires was[..start] == f[off..off + start] && part == f[off + start..off + start + n]
      ensures now[..start + n] == f[off..off + start + n] && now[size..] == was[size..]
    {
    }

    /** The body of the loop in `ram_read` */
    method ReadOne(i: nat, rel: nat, off: nat, size: nat, start: nat, into: array<Byte>) returns (end: nat)
      requires Valid() && start < size && At(i, rel, off, size, start) && into !in pages
      requires size <= into.Length && off + size <= Capacity(pageSize)
      requires into[..start] == Flat(table, pageSize)[off..off + start]
      modifies this`allocs, this`frees, this`table, this`pages, buffers, into
      ensures Valid() && table == old(table) && i < MAX_BUFFERS && rel < pageSize
      ensures fresh(pages - old(pages)) && old(pages) <= pages && Present() == old(Present())[i := true]
      ensures end == if pageSize - rel < size - start then start + (pageSize - rel) else size
      ensures into[..end] == Flat(table, pageSize)[off..off + end] && into[size..] == old(into[size..])
    {
      var page := Page(i, false);
      assert Slot(i) && table == old(table);
      var avail := pageSize - rel;
      var want := size - start;
      var n := if avail < want then avail else want;
      ReadStep(table, i, rel, off, start, n);
      hide Flat, Slot, At, Capacity;
      ghost var was := into[..];
      Copy(into, start, page[..], rel, n);
      end := start + n;
      Joined(was, into[..], start, n, size, page[rel..rel + n], Flat(table, pageSize), off);
    }

    /** The loop of `ram_read` */
    method ReadPages(off: nat, size: nat, into: array<Byte>)
      requires Valid() && into !in pages && 0 < size <= into.Length && off + size <= Capacity(pageSize)
      modifies this`allocs, this`frees, this`table, this`pages, buffers, into
      ensures Valid() && table == old(table) && fresh(pages - old(pages))
      ensures into[..size] == Flat(table, pageSize)[off..off + size] && into[size..] == old(into[size..])
      ensures Present() == WrittenStore.Marked(old(Present()), pageSize, off, size)
    {
      hide At, Slot, Flat, Capacity, MarkedTo, Touched, Present;
      ghost var was := Present();
      AtStart(off, size);
      MarkedNone(was, off, size);
      var i: nat := off / pageSize;
      var rel: nat := off - i * pageSize;
      var start: nat := 0;
      while start < size
        invariant Valid() && At(i, rel, off, size, start) && start <= size && into !in pages
        invariant table == old(table) && fresh(pages - old(pages)) && MarkedTo(was, Present(), off, size, i)
        invariant into[..start] == Flat(table, pageSize)[off..off + start] && into[size..] == old(into[size..])
      {
        AtMeans(i, rel, off, size, start);
        MarkedNext(was, Present(), off, size, i, rel, start);
        var end := ReadOne(i, rel, off, size, start, into);
        AtNext(i, rel, off, size, start, end);
        i, start, rel := i + 1, end, 0;
      }
      AtMeans(i, rel, off, size, start);
      MarkedAll(was, Present(), off, size, i);
    }

    /** `ram_read`: missing pages are allocated on the way, which no byte shows.  Not `ok`, and
        nothing done, where the C code would leave the table. */
    method Read(off: nat, size: nat, into: array<Byte>) returns (ok: bool, err: int)
      requires Valid() && into !in pages && size <= into.Length
      modifies this`allocs, this`frees, this`table, this`pages, buffers, into
      ensures Valid() && Contents() == old(Contents()) && fresh(pages - old(pages))
      ensures Value() == WrittenStore.WrittenStep(pageSize, old(Value()), ReadOp(off, size)).0
      ensures PagedStep(pageSize, Contents(), ReadOp(off, size)).1
           == if !ok then Fault else if err == 0 then Answer(into[..size]) else Error(err)
      ensures var n := if ok && err == 0 then size else 0; into[n..] == old(into[n..])
    {
      if off + size > length { return true, ENOMEM; }
      ok, err := size == 0 || off + size <= Capacity(pageSize), 0;
      if size == 0 { NothingMarked(Present(), off); }
      if ok && size > 0 { ReadPages(off, size, into); }
    }

    lemma NothingMarked(present: seq<bool>, off: nat)
      ensures WrittenStore.Marked(present, pageSize, off, 0) == present
    {
    }

    // ------------------------------------------------ deleting

    /** `memset(page + rel, 0, n)` for the page in slot `i` */
    method Clear(i: nat, rel: nat, n: nat)
      requires Valid() && i < MAX_BUFFERS && buffers[i] != null && rel + n <= pageSize
      modifies this`table, pages
      ensures Valid() && table == old(table)[i := ZeroRange(old(table[i]), rel, n)]
    {
      Fill(i, rel, Zeros(n), 0, n);
      assert Zeros(n)[0..0 + n] == Zeros(n);
    }

    ghost predicate Deleted(t: Table, u: Table, off: nat, n: nat, i: nat)
      requires 0 < pageSize
    {
      && |t| == |u|
      && forall q :: 0 <= q < |t| ==>
        u[q] == if off / pageSize <= q < i then DeletePage(t[q], q * pageSize, off, n) else t[q]
    }

    lemma DeletedNone(t: Table, off: nat, n: nat)
      requires 0 < pageSize
      ensures Deleted(t, t, off, n, off / pageSize)
    {
    }

    lemma DeletedNext(t: Table, u: Table, off: nat, n: nat, i: nat)
      requires 0 < pageSize && Deleted(t, u, off, n, i) && off / pageSize <= i < |t|
      ensures Deleted(t, u[i := DeletePage(u[i], i * pageSize, off, n)], off, n, i + 1)
    {
    }

    lemma DeletedAll(t: Table, u: Table, off: nat, n: nat, i: nat)
      requires 0 < pageSize && Sized(t, pageSize) && Deleted(t, u, off, n, i) && (n > 0 ==> i * pageSize >= off + n)
      ensures u == DeleteTable(t, pageSize, off, n)
    {
      forall q | 0 <= q < |t| ensures u[q] == DeletePage(t[q], q * pageSize, off, n) {
        if !(off / pageSize <= q < i) { OutsidePage(q, off, n, i); }
      }
    }

    /** One page of a delete: what freeing it or clearing part of it amounts to. */
    lemma DeleteStep(p: seq<Byte>, i: nat, rel: nat, off: nat, n: nat, start: nat, end: nat)
      requires 0 < pageSize == |p| && start < n && At(i, rel, off, n, start)
      requires end == if pageSize - rel < n - start then start + (pageSize - rel) else n
      ensures rel + (end - start) <= pageSize
      ensures ZeroRange(p, rel, end - start) == DeletePage(p, i * pageSize, off, n)
      ensures rel == 0 && n - start >= pageSize ==> Zeros(pageSize) == DeletePage(p, i * pageSize, off, n)
      ensures p == Zeros(pageSize) ==> DeletePage(p, i * pageSize, off, n) == p
    {
      var base := i * pageSize;
      var q := DeletePage(p, base, off, n);
      forall j | 0 <= j < pageSize ensures q[j] == if rel <= j < rel + (end - start) then 0 else p[j] {
        assert rel <= j < rel + (end - start) <==> off <= base + j < off + n;
      }
    }

    /** The body of the loop in `ram_del`, repaired: the memset covers the bytes of the range in
        this page, and both the page and the position move on past them. */
    method DeleteOne(i: nat, rel: nat, off: nat, n: nat, start: nat) returns (end: nat)
      requires Valid() && start < n && At(i, rel, off, n, start)
      modifies this`frees, this`table, buffers, pages
      ensures Valid() && i < MAX_BUFFERS && rel < pageSize
      ensures table == old(table)[i := DeletePage(old(table[i]), i * pageSize, off, n)]
      ensures end == if pageSize - rel < n - start then start + (pageSize - rel) else n
    {
      var avail := pageSize - rel;
      end := if avail < n - start then start + avail else n;
      assert Slot(i);
      DeleteStep(table[i], i, rel, off, n, start, end);
      if rel == 0 && n - start >= pageSize {
        Drop(i);
      } else if buffers[i] != null {
        Clear(i, rel, end - start);
      }
    }

    method DeletePages(off: nat, n: nat)
      requires Valid() && off + n <= Capacity(pageSize)
      modifies this`frees, this`table, buffers, pages
      ensures Valid() && table == DeleteTable(old(table), pageSize, off, n)
    {
      hide At, Deleted, DeletePage, DeleteTable, Slot, Capacity;
      ghost var t := table;
      AtStart(off, n);
      DeletedNone(t, off, n);
      var i: nat := off / pageSize;
      var rel: nat := off - i * pageSize;
      var start: nat := 0;
      while start < n
        invariant Valid() && At(i, rel, off, n, start) && start <= n && Deleted(t, table, off, n, i)
      {
        AtMeans(i, rel, off, n, start);
        DeletedNext(t, table, off, n, i);
        var end := DeleteOne(i, rel, off, n, start);
        AtNext(i, rel, off, n, start, end);
        i, start, rel := i + 1, end, 0;
      }
      AtMeans(i, rel, off, n, start);
      DeletedAll(t, table, off, n, i);
    }

    /** `ram_del`, repaired; not `ok`, and nothing done, where it would leave the table */
    method DeleteRepaired(off: nat, size: nat) returns (ok: bool)
      requires Valid()
      modifies this`length, this`frees, this`table, buffers, pages
      ensures Valid() && Contents() == PagedStep(pageSize, old(Contents()), DeleteOp(off, size)).0
      ensures ok <==> !PagedStep(pageSize, old(Contents()), DeleteOp(off, size)).1.Fault?
    {
      var n := size;
      if off + size > length { n := if length > off then length - off else 0; }
      ok := n == 0 || off + n <= Capacity(pageSize);
      if !ok { return; }
      if n > 0 { DeletePages(off, n); } else { NothingChanges(table, off); }
      if off + n >= length { length := off; }
    }

    /** The body of the loop in `ram_del` as written; not `ok` where the C code would write past
        a page or leave the table. */
    method DeleteOneAsWritten(i: nat, rel: nat, n: nat, start: nat) returns (ok: bool, next: nat)
      requires Valid() && rel < pageSize && start < n
      modifies this`frees, this`table, buffers, pages
      ensures Valid()
      ensures WrittenDelete(old(Present()), old(table), pageSize, i, rel, start, n)
           == if ok then WrittenDelete(Present(), table, pageSize, next, 0, start + pageSize, n) else Overrun
    {
      next, ok := i, true;
      if i >= MAX_BUFFERS { return false, i; }
      assert Slot(i);
      if rel == 0 && n - start >= pageSize {
        Drop(i);
        assert Present() == old(Present())[i := false];
        next := i + 1;
      } else if buffers[i] != null {
        var avail := pageSize - rel;
        var end := if avail < n - start then start + avail else n;
        if rel + (rel + end) > pageSize { return false, i; }
        Clear(i, rel, rel + end);
        next := i + 1;
      }
    }

    /** `ram_del` as written */
    method DeleteAsWritten(off: nat, size: nat) returns (ok: bool)
      requires Valid()
      modifies this`length, this`frees, this`table, buffers, pages
      ensures Valid()
      ensures var (w, reply) := WrittenStore.WrittenStep(pageSize, old(Value()), DeleteOp(off, size));
              if ok then Value() == w && reply == Answer([]) else reply == Fault
    {
      var n := size;
      if off + size > length { n := if length > off then length - off else 0; }
      ghost var goal := WrittenDelete(Present(), table, pageSize, off / pageSize, off % pageSize, 0, n);
      var i: nat := off / pageSize;
      var rel: nat := off % pageSize;
      var start: nat := 0;
      while start < n
        invariant Valid() && rel < pageSize && length == old(length)
        invariant WrittenDelete(Present(), table, pageSize, i, rel, start, n) == goal
        decreases n - start
      {
        ok, i := DeleteOneAsWritten(i, rel, n, start);
        if !ok { return; }
        rel := 0;
        start := start + pageSize;
      }
      if off + n >= length { length := off; }
      ok := true;
    }

    /** `ram_destroy` */
    method Destroy()
      requires Valid()
      modifies this`frees, this`table, buffers
      ensures Valid() && allocs == frees && forall i :: 0 <= i < MAX_BUFFERS ==> buffers[i] == null
    {
      var i := 0;
      while i < MAX_BUFFERS
        invariant 0 <= i <= MAX_BUFFERS && Valid()
        invariant forall j :: 0 <= j < i ==> buffers[j] == null
      {
        Drop(i);
        i := i + 1;
      }
      LiveNone(buffers[..]);
    }
  }
}
