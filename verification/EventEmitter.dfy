/** `struct ras_emitter_s` and the functions of src/emitter.c on its table of listeners, proved
    to compute the functions of Listeners. */
module EventEmitter {
  import opened Listeners

  class EventEmitter {
    const written: bool   // the code as written, or repaired
    const listeners: array<Listener>
    var length: nat
    ghost var fired: seq<int>   // the registrations whose callbacks were invoked

    ghost predicate Valid()
      reads this, listeners
    {
      listeners.Length == MAX_LISTENERS && length <= MAX_LISTENERS
    }

    ghost function Value(): Emitter
      reads this, listeners
    {
      Emitter(listeners[..], length)
    }

    /** `ras_emitter_init` */
    constructor (written: bool)
      ensures Valid() && fresh(listeners) && Value() == INITIAL && fired == [] && this.written == written
    {
      this.written := written;
      listeners := new Listener[MAX_LISTENERS](_ => EMPTY);
      length, fired := 0, [];
      new;
      assert listeners[..] == INITIAL.slots;
    }

    /** The loop shared by `ras_emitter_on` and `ras_emitter_once` */
    method Upsert(l: Listener) returns (upsert: nat, found: bool)
      requires Valid()
      modifies listeners
      ensures var h := FirstHole(old(listeners[..]), 0);
              && found == (h < MAX_LISTENERS) && upsert == (if found then h else 0)
              && listeners[..] == if found then old(listeners[..])[h := l] else old(listeners[..])
    {
      upsert, found := 0, false;
      var i := 0;
      while i < MAX_LISTENERS
        invariant 0 <= i <= MAX_LISTENERS && listeners[..] == old(listeners[..])
        invariant FirstHole(listeners[..], 0) == FirstHole(listeners[..], i)
      {
        if listeners[i].event == 0 {
          listeners[i] := l;
          return i, true;
        }
        i := i + 1;
      }
    }

    /** `ras_emitter_on` and `ras_emitter_once` with the ttl they set */
    method AddListener(l: Listener) returns (ret: int)
      requires Valid()
      modifies this`length, listeners
      ensures Valid() && Value() == Add(written, old(Value()), l).0 && ret == Add(written, old(Value()), l).1
    {
      if length >= MAX_LISTENERS { return -ENOMEM; }
      var upsert, found := Upsert(l);
      if written {
        if upsert == 0 {
          listeners[length] := l;
          length := length + 1;
        } else {
          length := upsert + 1;
        }
      } else {
        if !found { return -ENOMEM; }
        if length < upsert + 1 { length := upsert + 1; }
      }
      ret := length;
    }

    method On(event: nat, callback: nat, data: int, reg: int) returns (ret: int)
      requires Valid()
      modifies this`length, listeners
      ensures Valid() && Value() == Add(written, old(Value()), Listener(event, callback, data, -1, reg)).0
    {
      ret := AddListener(Listener(event, callback, data, -1, reg));
    }

    method Once(event: nat, callback: nat, data: int, reg: int) returns (ret: int)
      requires Valid()
      modifies this`length, listeners
      ensures Valid() && Value() == Add(written, old(Value()), Listener(event, callback, data, 1, reg)).0
    {
      ret := AddListener(Listener(event, callback, data, 1, reg));
    }

    /** The removing loops of `ras_emitter_off` */
    method Clear(l: Listener)
      requires Valid()
      modifies listeners
      ensures listeners[..] == Cleared(old(listeners[..]), l)
    {
      var i := 0;
      while i < MAX_LISTENERS
        invariant 0 <= i <= MAX_LISTENERS
        invariant forall j :: 0 <= j < MAX_LISTENERS ==>
          listeners[j] == if j < i && Hits(l, old(listeners[j])) then EMPTY else old(listeners[j])
      {
        if l.callback == 0 {
          if l.event > 0 && l.event == listeners[i].event { listeners[i] := EMPTY; }
        } else if l.callback == listeners[i].callback {
          listeners[i] := EMPTY;
        }
        i := i + 1;
      }
    }

    /** `ras_emitter_off`; not `ok` where the trim loop as written reads below the table. */
    method Off(l: Listener) returns (ok: bool, ret: int)
      requires Valid()
      modifies this`length, listeners
      ensures Valid()
      ensures Listeners.Off(written, old(Value()), l) == if ok then Ok(Value()) else Fault
      ensures ok ==> ret == length
    {
      Clear(l);
      var end: nat := MAX_LISTENERS;
      while end > 0 && listeners[end - 1].event == 0 && listeners[end - 1].callback == 0
        invariant end <= MAX_LISTENERS && listeners[..] == Cleared(old(listeners[..]), l)
        invariant End(listeners[..], MAX_LISTENERS) == End(listeners[..], end)
      {
        end := end - 1;
      }
      ok, ret := true, end;
      if written && end == 0 {
        // the test `end >= 0` lets the loop look at listeners[-1]
        return false, 0;
      }
      length := end;
    }

    /** The first loop of `ras_emitter_emit`: callbacks are invoked and listeners age. */
    method Serve(event: nat) returns (events: nat, expired: nat)
      requires Valid()
      modifies this`fired, listeners
      ensures listeners[..] == Served(old(listeners[..]), length, event)
      ensures fired == old(fired) + Fired(old(listeners[..]), length, event)
      ensures events == |Fired(old(listeners[..]), length, event)|
      ensures expired == Expiring(old(listeners[..]), length, event)
    {
      ghost var s := listeners[..];
      events, expired := 0, 0;
      var i := 0;
      while i < length
        invariant 0 <= i <= length && listeners[..] == Served(s, i, event)
        invariant fired == old(fired) + Fired(s, i, event)
        invariant events == |Fired(s, i, event)| && expired == Expiring(s, i, event)
      {
        var l := listeners[i];
        assert l == s[i];
        if event == l.event && l.ttl != 0 {
          if l.callback != 0 {
            events := events + 1;
            fired := fired + [l.reg];
          }
          if l.ttl != -1 { l := l.(ttl := l.ttl - 1); }
          listeners[i] := l;
          if l.ttl == 0 { expired := expired + 1; }
        }
        assert listeners[..] == Served(s, i + 1, event);
        i := i + 1;
      }
    }

    /** One round of the second loop of `ras_emitter_emit` */
    method SweepOnce() returns (ok: bool)
      requires Valid()
      modifies this`length, listeners
      ensures Valid() && Pass(written, old(Value()), 0) == if ok then Ok(Value()) else Fault
    {
      ghost var goal := Pass(written, Value(), 0);
      var i := 0;
      while i < length
        invariant Valid() && 0 <= i <= MAX_LISTENERS && Pass(written, Value(), i) == goal
        decreases MAX_LISTENERS - i
      {
        if listeners[i].ttl == 0 {
          var swept, _ := Off(listeners[i]);
          if !swept { return false; }
        }
        i := i + 1;
      }
      ok := true;
    }

    /** The second loop of `ras_emitter_emit` */
    method SweepAll(expired: nat) returns (ok: bool)
      requires Valid()
      modifies this`length, listeners
      ensures Valid() && Sweep(written, old(Value()), expired) == if ok then Ok(Value()) else Fault
    {
      hide Pass;
      ghost var goal := Sweep(written, Value(), expired);
      var left := expired;
      while left > 0
        invariant Valid() && Sweep(written, Value(), left) == goal
      {
        ok := SweepOnce();
        if !ok { return; }
        left := left - 1;
      }
      ok := true;
    }

    /** `ras_emitter_emit` */
    method Emit(event: nat) returns (ok: bool, events: nat)
      requires Valid()
      modifies this, listeners
      ensures Valid() && Listeners.Emit(written, old(Value()), event) == if ok then Ok(Value()) else Fault
      ensures fired == old(fired) + Fired(old(listeners[..]), old(length), event)
      ensures events == |Fired(old(listeners[..]), old(length), event)|
    {
      hide Sweep, Served, Fired, Expiring;
      var expired;
      events, expired := Serve(event);
      ok := SweepAll(expired);
    }
  }
}
