/** What public calls issue and return, for either drain loop. */
module Returns {
  import opened Protocol
  import opened Invariant
  import opened Preservation
  import opened Outcomes
  import opened Runs
  import opened Calls
  import opened Traces

  /** A request of this kind and with this `done` has been issued. */
  predicate IssuedAs(s: State, id: Id, k: Kind, done: bool) {
    id in s.reqs && s.reqs[id].kind == k && s.reqs[id].done == done
  }

  lemma LifecycleIssues(c: Config, s: State, k: Kind, done: bool)
    requires Inv(s) && Drained(s) && NoDestroy(s) && s.pending + 1 < INT_MIN && Lifecycle(k)
    ensures WF(s) && s.next !in s.reqs
    ensures var (t, ret) := LifecycleCall(c, s, k, done);
            && ret == 0 && t.reqs.Keys == s.reqs.Keys + {s.next} && IssuedAs(t, s.next, k, done) && Extends(s, t)
            && Inv(t) && Drained(t) && (k.Destroy? || NoDestroy(t)) && t.pending <= s.pending + 1
            && t.next == s.next + 1
  {
    InvFresh(s);
    hide Inv, Drained, LifecycleCall, NoDestroy;
    LifecycleCallGoes(c, s, k, done);
    LifecycleKeeps(Repair(c), s, k, done);
  }

  lemma IssuedStays(s: State, t: State, id: Id, k: Kind, done: bool)
    requires IssuedAs(s, id, k, done) && Extends(s, t)
    ensures IssuedAs(t, id, k, done)
  {
  }

  lemma ClosingKinds()
    ensures Lifecycle(Close) && Lifecycle(Destroy)
  {
  }

  lemma ExtendsTrans(s: State, t: State, u: State)
    requires Extends(s, t) && Extends(t, u)
    ensures Extends(s, u)
  {
  }

  // ---------------------------------------------------------------- data calls

  /** The backend offers a way to open. */
  predicate CanOpen(c: Config) { c.openReadOnly || Open in c.ops }

  /** The open that a data call begins with succeeds before the call goes on. */
  ghost predicate OpensNow(c: Config, s: State) {
    && s.flags.needsOpen && !s.flags.isOpen && s.pending == 0
    && (CanOpen(c) ==> c.reply(s.next + 1).Now? && c.reply(s.next + 1).err == 0)
  }

  /** The request of a data call is run within the call, on a storage that serves it. */
  ghost predicate ServesNow(c: Config, s: State) {
    s.queue == [] && !s.flags.isClosed && (s.flags.isOpen || OpensNow(c, s))
  }

  /** A data call returns -ENOSYS if its request is run at once, on a storage that is open, and
      the backend does not offer the operation; and else 0, also where the request is stalled. */
  lemma DataCallReturns(c: Config, s: State, k: Kind, size: nat, done: bool)
    requires Boundary(s) && NoDestroy(s) && !Lifecycle(k) && s.pending + 2 < INT_MIN
    ensures WF(s)
    ensures DataCall(c, s, k, size, done).1 == if ServesNow(c, s) && k !in c.ops then -ENOSYS else 0
  {
    hide *;
    BoundaryIs(s);
    IssueIs(s, k, size, done);
    var id, s1 := s.next, Issue(s, k, size, done);
    DrainedIs(s, s1);
    InvFresh(s);
    FlagsNotBoth(s);
    ServesIs(c, s);
    AutoOpenGoes(c, s1, id);
    DataCallRuns(c, s, k, size, done);
    var s2 := AutoOpen(c, s1, id);
    OpenedNow(c, s1, s2);
    StaticsKind(s1.reqs[id], s2.reqs[id]);
    if s2.queue == [] { RunReturns(c, s2, id); }
    DataRoute(c, s2.flags, k);
  }

  lemma ServesIs(c: Config, s: State)
    ensures ServesNow(c, s)
       <==> s.queue == [] && !s.flags.isClosed
            && (s.flags.isOpen
                || (s.flags.needsOpen && s.pending == 0
                    && (CanOpen(c) ==> c.reply(s.next + 1).Now? && c.reply(s.next + 1).err == 0)))
  {
  }

  lemma StaticsKind(r: Req, q: Req)
    requires SameStatics(r, q)
    ensures r.kind == q.kind
  {
  }

  lemma FlagsNotBoth(s: State)
    requires Inv(s)
    ensures !(s.flags.isOpen && s.flags.needsOpen)
  {
  }

  lemma DataRoute(c: Config, f: Flags, k: Kind)
    requires !Lifecycle(k)
    ensures RouteOf(c, f, k) == if f.isOpen && !f.isClosed then (if k in c.ops then Backend else Immediate(ENOSYS))
                                else Nowhere
  {
  }

  /** The flags and the queue when the automatic open, if any, has been dealt with. */
  lemma OpenedNow(c: Config, s: State, t: State)
    requires OpenGoes(c, s, t) && !(s.flags.isOpen && s.flags.needsOpen) && (s.pending == 0 ==> s.queue == [])
    ensures t.queue == [] && t.flags.isOpen && !t.flags.isClosed
       <==> s.queue == [] && !s.flags.isClosed
            && (s.flags.isOpen
                || (s.flags.needsOpen && s.pending == 0
                    && (CanOpen(c) ==> c.reply(s.next).Now? && c.reply(s.next).err == 0)))
  {
  }

  lemma DataCallRuns(c: Config, s: State, k: Kind, size: nat, done: bool)
    requires WF(s)
    ensures var id := s.next; var s2 := AutoOpen(c, Issue(s, k, size, done), id);
            var r := DataCall(c, s, k, size, done);
            r.1 == if s2.queue != [] then -s2.reqs[id].err else Run(c, s2, id).1
  {
    hide AutoOpen, Run;
  }

  /** It issues its own request, and before that one an open without `done` if the storage is to
      be opened; nothing else. */
  lemma DataCallIssues(c: Config, s: State, k: Kind, size: nat, done: bool)
    requires Boundary(s) && NoDestroy(s) && !Lifecycle(k) && s.pending + 2 < INT_MIN && |s.queue| + 2 < QUEUE_MAX
    ensures WF(s)
    ensures var t := DataCall(c, s, k, size, done).0; var opens := s.flags.needsOpen && !s.flags.isOpen;
            && t.reqs.Keys == s.reqs.Keys + {s.next} + (if opens then {s.next + 1} else {})
            && IssuedAs(t, s.next, k, done) && (opens ==> IssuedAs(t, s.next + 1, Open, false)) && Extends(s, t)
            && (s.next in t.at.called || k.Stat? || t.reqs[s.next].size == size)
  {
    hide *;
    BoundaryIs(s);
    DataIsNotDestroy(k);
    IssueIs(s, k, size, done);
    IssueKeeps(s, k, size, done);
    var id, s1 := s.next, Issue(s, k, size, done);
    IssueIdle(s, k, size, done);
    AutoOpenIssues(c, s1, id);
    IssuedIs(s, s1, k, size, done);
    DataCallEnds(c, s, k, size, done);
    var s2, t := AutoOpen(c, s1, id), DataCall(c, s, k, size, done).0;
    IssuedStays(s1, s2, id, k, done);
    ExtendsTrans(s, s1, s2);
    SameKinds(s, s2, t, id, k, done);
    SameKinds(s, s2, t, id + 1, Open, false);
    InvFresh(s);
    DataRetains(c, s, k, size, done);
    RetainedSize(s1, t, id, size);
  }

  lemma DataIsNotDestroy(k: Kind)
    requires !Lifecycle(k)
    ensures !k.Destroy?
  {
  }

  lemma DrainedIs(s: State, t: State)
    requires Drained(s) && t.queue == s.queue && t.pending == s.pending
    ensures Drained(t) && (s.pending == 0 ==> s.queue == [])
  {
  }

  lemma RetainedSize(s: State, t: State, id: Id, size: nat)
    requires Retains(s, t) && id in s.reqs && s.reqs[id].size == size
    ensures id in t.reqs && (id in t.at.called || s.reqs[id].kind.Stat? || t.reqs[id].size == size)
  {
  }

  lemma IssueIdle(s: State, k: Kind, size: nat, done: bool)
    requires Drained(s) && NoDestroy(s) && !k.Destroy?
    ensures Drained(Issue(s, k, size, done)) && NoDestroy(Issue(s, k, size, done))
  {
  }

  lemma IssuedIs(s: State, t: State, k: Kind, size: nat, done: bool)
    requires s.next !in s.reqs && t.reqs == s.reqs[s.next := Req(k, done, 0, size, false)]
    ensures IssuedAs(t, s.next, k, done) && Extends(s, t) && t.reqs.Keys == s.reqs.Keys + {s.next}
  {
  }

  /** The automatic open issues an open without `done`, or nothing. */
  lemma AutoOpenIssues(c: Config, s: State, id: Id)
    requires Inv(s) && Drained(s) && NoDestroy(s) && s.pending + 1 < INT_MIN && id in s.reqs
    ensures WF(s)
    ensures var t := AutoOpen(c, s, id); var opens := s.flags.needsOpen && !s.flags.isOpen;
            && t.reqs.Keys == s.reqs.Keys + (if opens then {s.next} else {})
            && (opens ==> IssuedAs(t, s.next, Open, false)) && Extends(s, t)
  {
    hide Inv, Run, LifecycleCall, Drained, NoDestroy;
    LifecycleIssues(c, s, Open, false);
  }

  /** The rest of the call keeps the requests' fixed fields, but for the `pending` bit of its own. */
  lemma DataCallEnds(c: Config, s: State, k: Kind, size: nat, done: bool)
    requires WF(s)
    ensures var id := s.next; var s2 := AutoOpen(c, Issue(s, k, size, done), id);
            var t := DataCall(c, s, k, size, done).0;
            && t.reqs.Keys == s2.reqs.Keys
            && forall x :: x in s2.reqs ==>
                 t.reqs[x].kind == s2.reqs[x].kind && t.reqs[x].done == s2.reqs[x].done
                 && (x != id ==> t.reqs[x].queued == s2.reqs[x].queued)
  {
    hide AutoOpen, Run;
  }

  lemma SameKinds(s: State, s2: State, t: State, id: Id, k: Kind, done: bool)
    requires t.reqs.Keys == s2.reqs.Keys && Extends(s, s2) && s.next !in s.reqs
    requires forall x :: x in s2.reqs ==>
               t.reqs[x].kind == s2.reqs[x].kind && t.reqs[x].done == s2.reqs[x].done
               && (x != s.next ==> t.reqs[x].queued == s2.reqs[x].queued)
    ensures Extends(s, t) && (IssuedAs(s2, id, k, done) ==> IssuedAs(t, id, k, done))
  {
  }

  /** A destroy call issues a close without `done`, and then the destroy. */
  lemma DestroyCallIssues(c: Config, s: State, done: bool)
    requires Boundary(s) && NoDestroy(s) && s.pending + 2 < INT_MIN && |s.queue| + 2 < QUEUE_MAX
    ensures WF(s)
    ensures var (t, ret) := DestroyCall(c, s, done);
            && ret == 0 && t.reqs.Keys == s.reqs.Keys + {s.next, s.next + 1}
            && IssuedAs(t, s.next, Close, false) && IssuedAs(t, s.next + 1, Destroy, done) && Extends(s, t)
  {
    hide *;
    ClosingKinds();
    BoundaryIs(s);
    LifecycleIssues(c, s, Close, false);
    var s1 := LifecycleCall(c, s, Close, false).0;
    LifecycleIssues(c, s1, Destroy, done);
    DestroyCallIs(c, s, done);
    var t := DestroyCall(c, s, done).0;
    IssuedStays(s1, t, s.next, Close, false);
    ExtendsTrans(s, s1, t);
    assert s.reqs.Keys + {s.next} + {s.next + 1} == s.reqs.Keys + {s.next, s.next + 1};
  }

  lemma DestroyCallIs(c: Config, s: State, done: bool)
    requires WF(s) && LifecycleCall(c, s, Close, false).1 == 0
    ensures DestroyCall(c, s, done) == LifecycleCall(c, LifecycleCall(c, s, Close, false).0, Destroy, done)
  {
    hide LifecycleCall;
  }
}
