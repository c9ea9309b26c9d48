/** The event emitter of src/emitter.c as functions on values: a fixed table of slots with
    holes, listeners with a time to live, and the sweep that removes expired ones. */
module Listeners {

  const MAX_LISTENERS := 64   // RAS_EMITTER_MAX_LISTENERS
  const ENOMEM := 12

  /** `struct ras_emitter_listener_s`.  `reg` is the number of the registration that put the
      listener into its slot; it is the model's, not the program's. */
  datatype Listener = Listener(event: nat, callback: nat, data: int, ttl: int, reg: int)

  const EMPTY := Listener(0, 0, 0, 0, 0)

  type Slots = seq<Listener>

  /** Event 0 marks a free slot. */
  predicate Free(l: Listener) { l.event == 0 }

  predicate Blank(l: Listener) { l.event == 0 && l.callback == 0 }

  datatype Emitter = Emitter(slots: Slots, length: nat)

  /** Reading below the table is the fault of the trim loop as written. */
  datatype Result = Ok(emitter: Emitter) | Fault

  const INITIAL := Emitter(seq(MAX_LISTENERS, _ => EMPTY), 0)

  // ---------------------------------------------------------------- on and once

  /** The first free slot at or after `i`, or the size of the table. */
  function FirstHole(s: Slots, i: nat): (h: nat)
    requires i <= |s|
    ensures i <= h <= |s| && (forall j :: i <= j < h ==> !Free(s[j])) && (h < |s| ==> Free(s[h]))
    decreases |s| - i
  {
    if i == |s| || Free(s[i]) then i else FirstHole(s, i + 1)
  }

  /** `ras_emitter_on` and `ras_emitter_once`, which differ in the listener's ttl.  As written, a
      hole shortens the table to itself, and a hole at slot 0 is also taken for none. */
  function Add(written: bool, e: Emitter, l: Listener): (r: (Emitter, int))
    requires |e.slots| == MAX_LISTENERS
    ensures |r.0.slots| == MAX_LISTENERS
  {
    if e.length >= MAX_LISTENERS then (e, -ENOMEM)
    else
      var h := FirstHole(e.slots, 0);
      if written then
        var s := if h < MAX_LISTENERS then e.slots[h := l] else e.slots;
        var upsert := if h < MAX_LISTENERS then h else 0;
        var f := if upsert == 0 then Emitter(s[e.length := l], e.length + 1) else Emitter(s, upsert + 1);
        (f, f.length)
      else if h == MAX_LISTENERS then (e, -ENOMEM)
      else
        var f := Emitter(e.slots[h := l], if e.length > h + 1 then e.length else h + 1);
        (f, f.length)
  }

  // ---------------------------------------------------------------- off

  /** Does `off(l)` clear a slot that holds `x`? */
  predicate Hits(l: Listener, x: Listener) {
    if l.callback == 0 then l.event > 0 && x.event == l.event else x.callback == l.callback
  }

  function Cleared(s: Slots, l: Listener): (t: Slots)
    ensures |t| == |s|
  {
    seq(|s|, i requires 0 <= i < |s| => if Hits(l, s[i]) then EMPTY else s[i])
  }

  /** Where the table ends once blank slots are trimmed. */
  function End(s: Slots, n: nat): (e: nat)
    requires n <= |s|
    ensures e <= n && (forall i :: e <= i < n ==> Blank(s[i])) && (e > 0 ==> !Blank(s[e - 1]))
  {
    if n > 0 && Blank(s[n - 1]) then End(s, n - 1) else n
  }

  /** `ras_emitter_off`.  As written, the trim loop steps below the table when all is blank. */
  function Off(written: bool, e: Emitter, l: Listener): (r: Result)
  {
    var s := Cleared(e.slots, l);
    var n := End(s, |s|);
    if written && n == 0 then Fault else Ok(Emitter(s, n))
  }

  // ---------------------------------------------------------------- emit

  predicate Matches(l: Listener, event: nat) { l.event == event && l.ttl != 0 }

  /** The callback of `l` is invoked by an emit of `event`. */
  predicate Fires(l: Listener, event: nat) { Matches(l, event) && l.callback != 0 }

  function Aged(l: Listener, event: nat): Listener {
    if Matches(l, event) && l.ttl != -1 then l.(ttl := l.ttl - 1) else l
  }

  /** The table after the first `n` slots have been served. */
  function Served(s: Slots, n: nat, event: nat): (t: Slots)
    ensures |t| == |s|
  {
    seq(|s|, i requires 0 <= i < |s| => if i < n then Aged(s[i], event) else s[i])
  }

  /** The registrations invoked among the first `n` slots, in order. */
  function Fired(s: Slots, n: nat, event: nat): seq<int>
    requires n <= |s|
  {
    if n == 0 then []
    else Fired(s, n - 1, event) + (if Fires(s[n - 1], event) then [s[n - 1].reg] else [])
  }

  /** How many of the first `n` slots expire. */
  function Expiring(s: Slots, n: nat, event: nat): (k: nat)
    requires n <= |s|
    ensures k <= n
  {
    if n == 0 then 0
    else Expiring(s, n - 1, event) + (if Matches(s[n - 1], event) && Aged(s[n - 1], event).ttl == 0 then 1 else 0)
  }

  /** One pass of the sweep from slot `i`: `off` for every slot whose ttl is 0, over a length
      that `off` changes. */
  function Pass(written: bool, e: Emitter, i: nat): (r: Result)
    requires |e.slots| == MAX_LISTENERS && e.length <= MAX_LISTENERS
    ensures r.Ok? ==> |r.emitter.slots| == MAX_LISTENERS && r.emitter.length <= MAX_LISTENERS
    decreases MAX_LISTENERS - i
  {
    if i >= e.length then Ok(e)
    else if e.slots[i].ttl == 0 then
      match Off(written, e, e.slots[i])
      case Fault => Fault
      case Ok(f) => Pass(written, f, i + 1)
    else Pass(written, e, i + 1)
  }

  function Sweep(written: bool, e: Emitter, expired: nat): (r: Result)
    requires |e.slots| == MAX_LISTENERS && e.length <= MAX_LISTENERS
    ensures r.Ok? ==> |r.emitter.slots| == MAX_LISTENERS && r.emitter.length <= MAX_LISTENERS
    decreases expired
  {
    if expired == 0 then Ok(e)
    else
      match Pass(written, e, 0)
      case Fault => Fault
      case Ok(f) => Sweep(written, f, expired - 1)
  }

  /** `ras_emitter_emit`: the table afterwards; the invocations are Fired, and their number is
      what the function returns. */
  function Emit(written: bool, e: Emitter, event: nat): (r: Result)
    requires |e.slots| == MAX_LISTENERS && e.length <= MAX_LISTENERS
    ensures r.Ok? ==> |r.emitter.slots| == MAX_LISTENERS && r.emitter.length <= MAX_LISTENERS
  {
    Sweep(written, Emitter(Served(e.slots, e.length, event), e.length), Expiring(e.slots, e.length, event))
  }

  // ---------------------------------------------------------------- what the repaired emitter keeps

  /** Between calls: occupied slots lie below the length and are alive; free ones are empty. */
  ghost predicate Settled(e: Emitter) {
    && |e.slots| == MAX_LISTENERS && e.length <= MAX_LISTENERS
    && (forall i :: 0 <= i < MAX_LISTENERS ==> e.slots[i] == EMPTY || (!Free(e.slots[i]) && e.slots[i].ttl in {-1, 1}))
    && (forall i :: e.length <= i < MAX_LISTENERS ==> e.slots[i] == EMPTY)
    && (e.length > 0 ==> e.slots[e.length - 1] != EMPTY)
  }

  lemma AddKeeps(e: Emitter, l: Listener)
    requires Settled(e) && l.event > 0 && l.ttl in {-1, 1}
    ensures Settled(Add(false, e, l).0)
  {
  }

  /** The first free slot */
  predicate FreeFirst(s: Slots, h: int) {
    0 <= h < |s| && s[h].event == 0 && forall j :: 0 <= j < h ==> s[j].event != 0
  }

  /** Repaired, the listener goes into the first free slot, which is at most one past the others,
      and nothing else changes; with MAX_LISTENERS slots in use nothing is done at all. */
  lemma AddMeans(e: Emitter, l: Listener)
    requires Settled(e)
    ensures var (f, ret) := Add(false, e, l);
            if e.length == MAX_LISTENERS then f == e && ret == -ENOMEM
            else exists h :: FreeFirst(e.slots, h) && h <= e.length && f.slots == e.slots[h := l] && ret == f.length
                             && f.length == if h == e.length then h + 1 else e.length
  {
    if e.length < MAX_LISTENERS {
      assert Free(e.slots[e.length]);
      assert FreeFirst(e.slots, FirstHole(e.slots, 0));
    }
  }

  /** As written, a hole at slot 0 puts the listener into two slots, and any other hole makes the
      table end with it. */
  lemma AddWrittenMeans(e: Emitter, l: Listener)
    requires Settled(e)
    ensures var (f, ret) := Add(true, e, l);
            if e.length == MAX_LISTENERS then f == e && ret == -ENOMEM
            else exists h :: FreeFirst(e.slots, h) && ret == f.length
                             && f.slots == (if h == 0 then e.slots[0 := l][e.length := l] else e.slots[h := l])
                             && f.length == if h == 0 then e.length + 1 else h + 1
  {
    if e.length < MAX_LISTENERS {
      assert Free(e.slots[e.length]);
      assert FreeFirst(e.slots, FirstHole(e.slots, 0));
    }
  }

  /** Adding as written is right exactly when there is no hole below the length. */
  lemma AddWrittenIff(e: Emitter, l: Listener)
    requires Settled(e) && l.event > 0 && e.length < MAX_LISTENERS
    ensures Add(true, e, l) == Add(false, e, l) <==> FirstHole(e.slots, 0) == e.length
    ensures Add(true, e, l).0 == Add(false, e, l).0 ==> FirstHole(e.slots, 0) == e.length
  {
    var h := FirstHole(e.slots, 0);
    assert Free(e.slots[e.length]);
    assert h <= e.length;
    if h < e.length {
      assert h != e.length - 1;
      var w, r := Add(true, e, l).0, Add(false, e, l).0;
      assert r.length == e.length;
      if h == 0 { assert w.length == e.length + 1; } else { assert w.length == h + 1; }
      assert w != r;
    } else {
      assert Add(true, e, l).0 == Add(false, e, l).0 by {
        if h == 0 { assert e.slots[0 := l][0 := l] == e.slots[0 := l]; }
      }
    }
  }

  lemma OffKeeps(e: Emitter, l: Listener)
    requires Settled(e)
    ensures Off(false, e, l).Ok? && Settled(Off(false, e, l).emitter)
  {
  }

  /** A removal empties the slots with the same callback, or, without a callback, those of the
      event; the table then ends with the last slot that is not blank. */
  lemma OffMeans(e: Emitter, l: Listener)
    ensures Off(false, e, l).Ok?
    ensures var f := Off(false, e, l).emitter;
            && |f.slots| == |e.slots| && f.length <= |e.slots|
            && (forall j :: 0 <= j < |e.slots| ==>
                  var hit := if l.callback != 0 then e.slots[j].callback == l.callback
                             else l.event != 0 && e.slots[j].event == l.event;
                  f.slots[j] == if hit then EMPTY else e.slots[j])
            && (forall j :: f.length <= j < |e.slots| ==> f.slots[j].event == 0 && f.slots[j].callback == 0)
            && (f.length > 0 ==> f.slots[f.length - 1].event != 0 || f.slots[f.length - 1].callback != 0)
  {
    var s := Cleared(e.slots, l);
    assert forall j :: End(s, |s|) <= j < |s| ==> Blank(s[j]);
  }

  /** Removing as written is right exactly when something remains. */
  lemma OffWrittenIff(e: Emitter, l: Listener)
    ensures Off(true, e, l) == Off(false, e, l)
       <==> exists i :: 0 <= i < |e.slots| && !Hits(l, e.slots[i]) && !Blank(e.slots[i])
  {
    var s := Cleared(e.slots, l);
    var n := End(s, |s|);
    if n > 0 {
      assert !Blank(s[n - 1]);
      assert !Hits(l, e.slots[n - 1]);
    } else {
      forall i | 0 <= i < |e.slots| ensures Hits(l, e.slots[i]) || Blank(e.slots[i]) { assert Blank(s[i]); }
    }
  }

  // ---------------------------------------------------------------- the sweep

  /** A listener whose time has run out and which has not been removed yet. */
  predicate Expired(l: Listener) { l != EMPTY && l.ttl == 0 }

  /** While the sweep runs: occupied slots are not free, and the length is where they end. */
  ghost predicate Sweeping(e: Emitter) {
    && |e.slots| == MAX_LISTENERS
    && (forall i :: 0 <= i < MAX_LISTENERS ==> e.slots[i] == EMPTY || !Free(e.slots[i]))
    && e.length == End(e.slots, MAX_LISTENERS)
  }

  /** Expired listeners all listen to the event that has just been emitted. */
  ghost predicate OneEvent(s: Slots, event: nat) {
    event > 0 && forall i :: 0 <= i < |s| && Expired(s[i]) ==> s[i].event == event
  }

  /** The first expired listener without a callback, or the size of the table. */
  function FirstMute(s: Slots, i: nat): (z: nat)
    requires i <= |s|
    ensures i <= z <= |s| && (z < |s| ==> Expired(s[z]) && s[z].callback == 0)
    ensures forall j :: i <= j < z ==> !(Expired(s[j]) && s[j].callback == 0)
    decreases |s| - i
  {
    if i == |s| || (Expired(s[i]) && s[i].callback == 0) then i else FirstMute(s, i + 1)
  }

  /** What a sweep over `s` that has passed the first `i` slots has removed: listeners that
      share the callback of an expired one before the first mute one; and from the first
      mute one on, every listener to the event. */
  ghost predicate Swept(s: Slots, i: nat, event: nat, x: Listener)
    requires i <= |s|
  {
    var z := FirstMute(s, 0);
    (exists q :: 0 <= q < i && q < z && Expired(s[q]) && s[q].callback == x.callback) || (z < i && x.event == event)
  }

  ghost predicate SweptTo(s: Slots, t: Slots, i: nat, event: nat)
    requires i <= |s|
  {
    |t| == |s| && forall j :: 0 <= j < |s| ==> t[j] == if Swept(s, i, event, s[j]) then EMPTY else s[j]
  }

  /** One step of the pass removes what it should. */
  lemma SweepStep(s: Slots, e: Emitter, i: nat, event: nat)
    requires Sweeping(e) && |s| == MAX_LISTENERS && i < e.length && OneEvent(s, event) && SweptTo(s, e.slots, i, event)
    ensures var f := if e.slots[i].ttl == 0 then Off(false, e, e.slots[i]).emitter else e;
            Sweeping(f) && SweptTo(s, f.slots, i + 1, event)
  {
    var l := e.slots[i];
    var f := if l.ttl == 0 then Off(false, e, l).emitter else e;
    forall j | 0 <= j < |s| ensures f.slots[j] == if Swept(s, i + 1, event, s[j]) then EMPTY else s[j] {
      SweptNext(s, i, event, s[j]);
      assert Swept(s, i, event, s[i]) || e.slots[i] == s[i];
    }
  }

  lemma SweptNext(s: Slots, i: nat, event: nat, x: Listener)
    requires i < |s| && OneEvent(s, event)
    ensures Swept(s, i + 1, event, x) <==>
      Swept(s, i, event, x) || (Expired(s[i]) && !Swept(s, i, event, s[i]) && Hits(s[i], x))
  {
    var z := FirstMute(s, 0);
    if Expired(s[i]) && i < z && Swept(s, i, event, s[i]) {
      var q :| 0 <= q < i && q < z && Expired(s[q]) && s[q].callback == s[i].callback;
    }
  }

  lemma SweptDone(s: Slots, t: Slots, i: nat, event: nat)
    requires i <= |s| && OneEvent(s, event) && SweptTo(s, t, i, event)
    requires forall j :: i <= j < |s| ==> t[j] == EMPTY
    ensures SweptTo(s, t, |s|, event)
    decreases |s| - i
  {
    if i < |s| {
      forall j | 0 <= j < |s| ensures Swept(s, i + 1, event, s[j]) <==> Swept(s, i, event, s[j]) {
        SweptNext(s, i, event, s[j]);
        assert Expired(s[i]) ==> Swept(s, i, event, s[i]);
      }
      SweptDone(s, t, i + 1, event);
    }
  }

  lemma SweepingFits(e: Emitter)
    requires Sweeping(e)
    ensures |e.slots| == MAX_LISTENERS && e.length <= MAX_LISTENERS
  {
  }

  lemma BeyondEmpty(e: Emitter, i: nat)
    requires Sweeping(e) && e.length <= i <= MAX_LISTENERS
    ensures |e.slots| == MAX_LISTENERS && forall j :: i <= j < MAX_LISTENERS ==> e.slots[j] == EMPTY
  {
    forall j | i <= j < MAX_LISTENERS ensures e.slots[j] == EMPTY { assert Blank(e.slots[j]); }
  }

  /** Although `off` moves the length while the pass runs, the pass misses nothing. */
  lemma {:induction false} PassSweeps(s: Slots, e: Emitter, i: nat, event: nat)
    requires Sweeping(e) && |s| == MAX_LISTENERS && i <= MAX_LISTENERS
    requires OneEvent(s, event) && SweptTo(s, e.slots, i, event)
    ensures var r := Pass(false, e, i);
            r.Ok? && Sweeping(r.emitter) && SweptTo(s, r.emitter.slots, MAX_LISTENERS, event)
    decreases MAX_LISTENERS - i
  {
    hide Swept, SweptTo, OneEvent, Sweeping;
    SweepingFits(e);
    if i >= e.length {
      BeyondEmpty(e, i);
      SweptDone(s, e.slots, i, event);
    } else {
      SweepStep(s, e, i, event);
      PassSweeps(s, if e.slots[i].ttl == 0 then Off(false, e, e.slots[i]).emitter else e, i + 1, event);
    }
  }

  lemma NothingExpired(s: Slots, t: Slots, event: nat)
    requires OneEvent(s, event) && SweptTo(s, t, |s|, event)
    ensures forall j :: 0 <= j < |t| ==> !Expired(t[j])
  {
    forall j | 0 <= j < |t| ensures !Expired(t[j]) {
      if Expired(s[j]) { assert Swept(s, |s|, event, s[j]); }
    }
  }

  lemma {:induction false} PassIdle(written: bool, e: Emitter, i: nat)
    requires Sweeping(e) && (forall j :: 0 <= j < MAX_LISTENERS ==> !Expired(e.slots[j])) && i <= MAX_LISTENERS
    requires written ==> e.length > 0
    ensures Pass(written, e, i) == Ok(e)
    decreases MAX_LISTENERS - i
  {
    if i < e.length {
      assert e.slots[i].ttl == 0 ==> Cleared(e.slots, e.slots[i]) == e.slots;
      PassIdle(written, e, i + 1);
    }
  }

  lemma {:induction false} SweepIdle(written: bool, e: Emitter, k: nat)
    requires Sweeping(e) && (forall j :: 0 <= j < MAX_LISTENERS ==> !Expired(e.slots[j])) && (written ==> e.length > 0)
    ensures Sweep(written, e, k) == Ok(e)
    decreases k
  {
    if k > 0 {
      PassIdle(written, e, 0);
      SweepIdle(written, e, k - 1);
    }
  }

  lemma {:induction false} ExpiringIff(s: Slots, n: nat, event: nat)
    requires n <= |s|
    ensures Expiring(s, n, event) > 0 <==> exists i :: 0 <= i < n && Matches(s[i], event) && Aged(s[i], event).ttl == 0
  {
    if n > 0 {
      ExpiringIff(s, n - 1, event);
      if Matches(s[n - 1], event) && Aged(s[n - 1], event).ttl == 0 {
      }
    }
  }

  /** The table the sweep starts from. */
  function Aging(e: Emitter, event: nat): Emitter { Emitter(Served(e.slots, e.length, event), e.length) }

  lemma AgingSweeps(e: Emitter, event: nat)
    requires Settled(e) && event > 0
    ensures Sweeping(Aging(e, event)) && OneEvent(Aging(e, event).slots, event)
    ensures Expiring(e.slots, e.length, event) > 0
       <==> exists i :: 0 <= i < MAX_LISTENERS && Expired(Aging(e, event).slots[i])
  {
    var a := Aging(e, event);
    ExpiringIff(e.slots, e.length, event);
    forall i | 0 <= i < MAX_LISTENERS ensures
        && (a.slots[i] == EMPTY || !Free(a.slots[i])) && (a.slots[i] == EMPTY <==> e.slots[i] == EMPTY)
        && (Expired(a.slots[i]) <==> i < e.length && Matches(e.slots[i], event) && Aged(e.slots[i], event).ttl == 0)
    {
    }
    EndIs(a.slots, e.length);
  }

  lemma {:induction false} EndIs(s: Slots, n: nat)
    requires n <= |s| && (forall i :: n <= i < |s| ==> Blank(s[i])) && (n > 0 ==> !Blank(s[n - 1]))
    ensures End(s, |s|) == n
  {
  }

  lemma SweptNothing(s: Slots, event: nat)
    ensures SweptTo(s, s, 0, event)
  {
  }

  /** After an emit no listener is left whose time has run out, and exactly the swept ones
      are gone. */
  lemma EmitSweeps(e: Emitter, event: nat)
    requires Settled(e) && event > 0
    ensures var r := Emit(false, e, event); var s := Aging(e, event).slots;
            && r.Ok? && Settled(r.emitter)
            && (forall j :: 0 <= j < MAX_LISTENERS ==>
                  r.emitter.slots[j] == if Swept(s, MAX_LISTENERS, event, s[j]) then EMPTY else s[j])
            && (forall j :: 0 <= j < MAX_LISTENERS ==> !Expired(r.emitter.slots[j]))
  {
    var a := Aging(e, event);
    AgingSweeps(e, event);
    SweptNothing(a.slots, event);
    PassSweeps(a.slots, a, 0, event);
    var f := Pass(false, a, 0).emitter;
    NothingExpired(a.slots, f.slots, event);
    if Expiring(e.slots, e.length, event) > 0 {
      SweepIdle(false, f, Expiring(e.slots, e.length, event) - 1);
    } else {
      PassIdle(false, a, 0);
    }
    SettledAfter(e, f, event);
  }

  lemma SettledAfter(e: Emitter, f: Emitter, event: nat)
    requires Settled(e) && event > 0 && Sweeping(f)
    requires SweptTo(Aging(e, event).slots, f.slots, MAX_LISTENERS, event)
    requires forall j :: 0 <= j < MAX_LISTENERS ==> !Expired(f.slots[j])
    ensures Settled(f)
  {
  }

  // ------------------------------------------------ an emit, on the table before it

  /** The listener in slot `q` runs out of time by an emit of `event`. */
  predicate RunsOut(e: Emitter, q: int, event: nat) {
    0 <= q < e.length && q < |e.slots| && e.slots[q].event == event && e.slots[q].ttl == 1
  }

  /** Up to slot `q` no listener without a callback runs out. */
  ghost predicate NoneMute(e: Emitter, q: int, event: nat) {
    forall p :: 0 <= p <= q && RunsOut(e, p, event) ==> e.slots[p].callback != 0
  }

  /** A listener with the callback of `x` runs out, or one without a callback does and `x` is a
      listener to the event. */
  ghost predicate SweptAway(e: Emitter, event: nat, x: Listener) {
    || (exists q :: RunsOut(e, q, event) && NoneMute(e, q, event) && e.slots[q].callback == x.callback)
    || ((exists z :: RunsOut(e, z, event) && e.slots[z].callback == 0) && x.event == event)
  }

  lemma AgingIs(e: Emitter, event: nat, j: nat)
    requires Settled(e) && event > 0 && j < MAX_LISTENERS
    ensures var s := Aging(e, event).slots;
            && |s| == MAX_LISTENERS && s[j] == (if RunsOut(e, j, event) then e.slots[j].(ttl := 0) else e.slots[j])
            && (Expired(s[j]) <==> RunsOut(e, j, event))
            && s[j].callback == e.slots[j].callback && s[j].event == e.slots[j].event
  {
  }

  lemma SweptBefore(e: Emitter, event: nat, x: Listener)
    requires Settled(e) && event > 0
    ensures var s := Aging(e, event).slots;
            |s| == MAX_LISTENERS && (Swept(s, MAX_LISTENERS, event, x) <==> SweptAway(e, event, x))
  {
    var s := Aging(e, event).slots;
    forall j | 0 <= j < MAX_LISTENERS
      ensures (Expired(s[j]) <==> RunsOut(e, j, event)) && s[j].callback == e.slots[j].callback
    {
      AgingIs(e, event, j);
    }
    hide Aging, Expired, Settled;
    var z := FirstMute(s, 0);
    if Swept(s, MAX_LISTENERS, event, x) {
      if q :| 0 <= q < MAX_LISTENERS && q < z && Expired(s[q]) && s[q].callback == x.callback {
        assert RunsOut(e, q, event) && NoneMute(e, q, event);
      } else {
        assert RunsOut(e, z, event) && e.slots[z].callback == 0;
      }
    }
    if q :| RunsOut(e, q, event) && NoneMute(e, q, event) && e.slots[q].callback == x.callback {
      assert q < z;
    }
    if y :| RunsOut(e, y, event) && e.slots[y].callback == 0 {
      assert Expired(s[y]) && z <= y;
    }
  }

  /** An emit empties the slots of the listeners that are swept away, and changes no other slot:
      a listener that stays is what it was. */
  lemma EmitMeans(e: Emitter, event: nat)
    requires Settled(e) && event > 0
    ensures var r := Emit(false, e, event);
            && r.Ok? && Settled(r.emitter)
            && forall j :: 0 <= j < MAX_LISTENERS ==>
                 r.emitter.slots[j] == if SweptAway(e, event, e.slots[j]) then EMPTY else e.slots[j]
  {
    EmitSweeps(e, event);
    var s, t := Aging(e, event).slots, Emit(false, e, event).emitter.slots;
    forall j | 0 <= j < MAX_LISTENERS ensures t[j] == if SweptAway(e, event, e.slots[j]) then EMPTY else e.slots[j] {
      AgingIs(e, event, j);
      SweptBefore(e, event, s[j]);
      SweptShape(e, event, s[j], e.slots[j]);
      hide SweptAway, Swept, Aging;
    }
  }

  lemma SweptShape(e: Emitter, event: nat, x: Listener, y: Listener)
    requires x.callback == y.callback && x.event == y.event
    ensures SweptAway(e, event, x) <==> SweptAway(e, event, y)
  {
  }

  /** If every expired listener has a callback, the swept ones are those that share the
      callback of an expired one, whatever event they listen to. */
  lemma SweptByCallback(s: Slots, event: nat, x: Listener)
    requires forall q :: 0 <= q < |s| && Expired(s[q]) ==> s[q].callback != 0
    ensures Swept(s, |s|, event, x) <==> exists q :: 0 <= q < |s| && Expired(s[q]) && s[q].callback == x.callback
  {
    var z := FirstMute(s, 0);
    assert z == |s|;
  }

  // ---------------------------------------------------------------- the sweep as written

  ghost predicate AllEmpty(e: Emitter) { forall j :: 0 <= j < |e.slots| ==> e.slots[j] == EMPTY }

  lemma SweepingEmpty(e: Emitter)
    requires Sweeping(e)
    ensures AllEmpty(e) <==> e.length == 0
  {
    if e.length > 0 { assert !Blank(e.slots[e.length - 1]); }
    if e.length == 0 { forall j | 0 <= j < |e.slots| ensures e.slots[j] == EMPTY { assert Blank(e.slots[j]); } }
  }

  lemma OffSweeps(e: Emitter, l: Listener)
    requires Sweeping(e)
    ensures var r := Off(false, e, l); r.Ok? && Sweeping(r.emitter) && (AllEmpty(e) ==> AllEmpty(r.emitter))
    ensures Off(true, e, l) == if AllEmpty(Off(false, e, l).emitter) then Fault else Off(false, e, l)
  {
    var f := Off(false, e, l).emitter;
    forall i | 0 <= i < MAX_LISTENERS ensures f.slots[i] == EMPTY || !Free(f.slots[i]) { }
    SweepingEmpty(f);
  }

  lemma {:induction false} PassWritten(e: Emitter, i: nat)
    requires Sweeping(e) && e.length > 0 && i <= MAX_LISTENERS
    ensures var r := Pass(false, e, i);
            && r.Ok? && Sweeping(r.emitter)
            && Pass(true, e, i) == if AllEmpty(r.emitter) then Fault else r
    decreases MAX_LISTENERS - i
  {
    SweepingEmpty(e);
    if i < e.length {
      if e.slots[i].ttl == 0 {
        OffSweeps(e, e.slots[i]);
        var f := Off(false, e, e.slots[i]).emitter;
        SweepingEmpty(f);
        if f.length > 0 { PassWritten(f, i + 1); }
      } else {
        PassWritten(e, i + 1);
      }
    }
  }

  lemma SomeExpired(a: Emitter)
    requires Sweeping(a) && exists i :: 0 <= i < MAX_LISTENERS && Expired(a.slots[i])
    ensures a.length > 0
  {
    var x :| 0 <= x < MAX_LISTENERS && Expired(a.slots[x]);
    SweepingEmpty(a);
    assert a.slots[x] != EMPTY;
  }

  /** One pass is enough. */
  lemma PassEnds(a: Emitter, event: nat)
    requires Sweeping(a) && OneEvent(a.slots, event)
    ensures var r := Pass(false, a, 0);
            && r.Ok? && Sweeping(r.emitter) && SweptTo(a.slots, r.emitter.slots, MAX_LISTENERS, event)
            && (forall j :: 0 <= j < MAX_LISTENERS ==> !Expired(r.emitter.slots[j]))
  {
    hide Swept, SweptTo, Pass;
    SweptNothing(a.slots, event);
    PassSweeps(a.slots, a, 0, event);
    NothingExpired(a.slots, Pass(false, a, 0).emitter.slots, event);
  }

  lemma SweepIs(written: bool, a: Emitter, k: nat)
    requires |a.slots| == MAX_LISTENERS && a.length <= MAX_LISTENERS && k > 0
    ensures Sweep(written, a, k) ==
      match Pass(written, a, 0)
      case Fault => Fault
      case Ok(f) => Sweep(written, f, k - 1)
  {
    hide Pass;
  }

  lemma SweepWritten(a: Emitter, event: nat, k: nat)
    requires Sweeping(a) && OneEvent(a.slots, event) && k > 0 && |a.slots| == MAX_LISTENERS && a.length <= MAX_LISTENERS
    requires exists i :: 0 <= i < MAX_LISTENERS && Expired(a.slots[i])
    ensures var r := Sweep(false, a, k);
            && r.Ok? && Sweep(true, a, k) == if AllEmpty(r.emitter) then Fault else r
  {
    hide *;
    SomeExpired(a);
    PassEnds(a, event);
    var f := Pass(false, a, 0).emitter;
    SweepIs(false, a, k);
    SweepIs(true, a, k);
    SweepIdle(false, f, k - 1);
    PassWritten(a, 0);
    SweepingEmpty(f);
    if f.length > 0 { SweepIdle(true, f, k - 1); }
  }

  /** Nothing expires by an emit of `event`, or something is left that is not swept away. */
  ghost predicate EmitSafe(e: Emitter, event: nat)
    requires |e.slots| == MAX_LISTENERS
  {
    var s := Aging(e, event).slots;
    || (forall j :: 0 <= j < MAX_LISTENERS ==> !Expired(s[j]))
    || exists j :: 0 <= j < MAX_LISTENERS && s[j] != EMPTY && !Swept(s, MAX_LISTENERS, event, s[j])
  }

  /** Emitting as written is right exactly when, on the table before it, nothing expires or
      something is not swept away. */
  lemma EmitWrittenIff(e: Emitter, event: nat)
    requires Settled(e) && event > 0
    ensures Emit(false, e, event).Ok?
    ensures Emit(true, e, event) == Emit(false, e, event) <==> EmitSafe(e, event)
    ensures Emit(true, e, event) == Emit(false, e, event) || Emit(true, e, event).Fault?
  {
    EmitSafeIff(e, event);
    hide Sweep, Served, Settled, Swept, EmitSafe, Expired;
    AgingSweeps(e, event);
    var k := Expiring(e.slots, e.length, event);
    if k > 0 {
      SweepWritten(Aging(e, event), event, k);
    } else {
      NoSweep(Aging(e, event));
    }
  }

  /** What the guard says about the table that the intended emit leaves */
  lemma EmitSafeIff(e: Emitter, event: nat)
    requires Settled(e) && event > 0
    ensures Emit(false, e, event).Ok?
    ensures EmitSafe(e, event)
       <==> Expiring(e.slots, e.length, event) == 0 || !AllEmpty(Emit(false, e, event).emitter)
  {
    EmitSweeps(e, event);
    AgingSweeps(e, event);
    hide Swept, Emit, Settled, Aging, Expired;
    var s, f := Aging(e, event).slots, Emit(false, e, event).emitter;
    if x :| 0 <= x < MAX_LISTENERS && s[x] != EMPTY && !Swept(s, MAX_LISTENERS, event, s[x]) {
      assert f.slots[x] != EMPTY;
    }
  }

  lemma NoSweep(a: Emitter)
    requires |a.slots| == MAX_LISTENERS && a.length <= MAX_LISTENERS
    ensures Sweep(true, a, 0) == Sweep(false, a, 0) == Ok(a)
  {
  }

  /** The trim loop fails on a new emitter, and after the emit of a single `once` listener. */
  lemma TrimFaults(l: Listener)
    ensures Off(true, INITIAL, l).Fault?
    ensures l.event > 0 && l.ttl == 1 ==> Emit(true, Add(true, INITIAL, l).0, l.event).Fault?
  {
    assert forall i :: 0 <= i < MAX_LISTENERS ==> Blank(Cleared(INITIAL.slots, l)[i]);
    if l.event > 0 && l.ttl == 1 {
      InitialSettled();
      AddWrittenIff(INITIAL, l);
      AddKeeps(INITIAL, l);
      OnlyUnsafe(l);
      EmitWrittenIff(Add(true, INITIAL, l).0, l.event);
    }
  }

  lemma InitialSettled()
    ensures Settled(INITIAL) && FirstHole(INITIAL.slots, 0) == 0 && INITIAL.length == 0
  {
  }

  lemma OnlyUnsafe(l: Listener)
    requires l.event > 0 && l.ttl == 1
    ensures Add(false, INITIAL, l).0 == Emitter(INITIAL.slots[0 := l], 1)
    ensures !EmitSafe(Emitter(INITIAL.slots[0 := l], 1), l.event)
  {
    InitialSettled();
    var e := Emitter(INITIAL.slots[0 := l], 1);
    var s := Aging(e, l.event).slots;
    assert s[0] == l.(ttl := 0) && Expired(s[0]) && forall j :: 0 < j < MAX_LISTENERS ==> s[j] == EMPTY;
    assert Swept(s, MAX_LISTENERS, l.event, s[0]);
  }

  // ---------------------------------------------------------------- invocations

  /** Those of the first `n` slots whose callback is invoked: they listen to the event, have time
      left, and have a callback. */
  ghost function Calling(s: Slots, n: nat, event: nat): (r: set<int>)
    requires n <= |s|
    ensures forall i :: i in r <==> 0 <= i < n && s[i].event == event && s[i].ttl != 0 && s[i].callback != 0
  {
    set i | 0 <= i < n && s[i].event == event && s[i].ttl != 0 && s[i].callback != 0
  }

  lemma CallingNext(s: Slots, n: nat, event: nat)
    requires n < |s|
    ensures Calling(s, n + 1, event)
         == Calling(s, n, event) + if s[n].event == event && s[n].ttl != 0 && s[n].callback != 0 then {n} else {}
    ensures n !in Calling(s, n, event)
  {
  }

  /** Emit returns the number of slots below the length that match and have a callback. */
  lemma {:induction false} FiredCount(s: Slots, n: nat, event: nat)
    requires n <= |s|
    ensures |Fired(s, n, event)| == |Calling(s, n, event)|
  {
    if n > 0 {
      FiredCount(s, n - 1, event);
      CallingNext(s, n - 1, event);
      FiredNext(s, n - 1, event);
      hide Calling, Fired;
    }
  }

  /** The first `n` slots that hold the registration and fire. */
  ghost function Firing(s: Slots, n: nat, event: nat, reg: int): (r: set<int>)
    requires n <= |s|
    ensures forall i :: i in r <==> i in Calling(s, n, event) && s[i].reg == reg
  {
    set i | i in Calling(s, n, event) && s[i].reg == reg
  }

  lemma FiringNext(s: Slots, n: nat, event: nat, reg: int)
    requires n < |s|
    ensures Firing(s, n + 1, event, reg)
         == Firing(s, n, event, reg) + if Fires(s[n], event) && s[n].reg == reg then {n} else {}
    ensures n !in Firing(s, n, event, reg)
  {
  }

  lemma FiredNext(s: Slots, n: nat, event: nat)
    requires n < |s|
    ensures Fired(s, n + 1, event)
         == if Fires(s[n], event) then Fired(s, n, event) + [s[n].reg] else Fired(s, n, event)
  {
  }

  lemma FiringNone(s: Slots, event: nat, reg: int)
    ensures Firing(s, 0, event, reg) == {} && Fired(s, 0, event) == []
  {
  }

  lemma CountNext(p: seq<int>, x: int, reg: int)
    ensures multiset(p + [x])[reg] == multiset(p)[reg] + if x == reg then 1 else 0
  {
    assert multiset(p + [x]) == multiset(p) + multiset{x};
  }

  /** A registration is invoked once for every firing slot that holds it. */
  lemma {:induction false} FiredRegs(s: Slots, n: nat, event: nat, reg: int)
    requires n <= |s|
    ensures multiset(Fired(s, n, event))[reg] == |Firing(s, n, event, reg)|
  {
    hide Firing, Fires, Fired;
    if n == 0 {
      FiringNone(s, event, reg);
    } else {
      FiredRegs(s, n - 1, event, reg);
      FiringNext(s, n - 1, event, reg);
      FiredNext(s, n - 1, event);
      CountNext(Fired(s, n - 1, event), s[n - 1].reg, reg);
    }
  }

  /** As written, a `once` added while slot 0 is a hole and listeners follow it is stored twice,
      and the next emit of its event invokes it twice. */
  lemma OnceFiresTwice(e: Emitter, l: Listener)
    requires Settled(e) && 0 < e.length < MAX_LISTENERS && Free(e.slots[0])
    requires l.event > 0 && l.callback != 0 && l.ttl == 1
    requires forall i :: 0 <= i < MAX_LISTENERS && e.slots[i] != EMPTY ==> e.slots[i].reg != l.reg
    ensures var f := Add(true, e, l).0;
            && |f.slots| == MAX_LISTENERS && f.length <= MAX_LISTENERS
            && multiset(Fired(f.slots, f.length, l.event))[l.reg] == 2
  {
    assert FirstHole(e.slots, 0) == 0;
    var f := Add(true, e, l).0;
    assert f == Emitter(e.slots[0 := l][e.length := l], e.length + 1);
    FiredRegs(f.slots, f.length, l.event, l.reg);
    assert Firing(f.slots, f.length, l.event, l.reg) == {0, e.length};
  }
}
