/** Backends that answer late, but answer (repaired drain): every request handed to the backend
    brings the storage nearer to the state in which all requests have been called back. */
module Progress {
  import opened Protocol
  import opened Invariant
  import opened Preservation
  import opened Steady
  import opened Runs
  import opened StallFreedom

  /** Requests not called back yet. */
  ghost function Outstanding(s: State): set<Id> { s.reqs.Keys - s.at.called }

  /** The backend owes no answer. */
  ghost predicate Answered(s: State) { forall x :: x in s.at.inFlight ==> x in s.at.stalled }

  lemma OneOf(a: set<Id>, b: set<Id>, x: Id)
    requires a <= b && x in b && x !in a
    ensures |a| < |b|
  {
    assert b == a + {x} + (b - a - {x});
  }

  lemma InFlightOpen(s: State, id: Id)
    requires Boundary(s) && id in s.at.inFlight
    ensures id in s.reqs && id !in s.at.called && FlagsAdvance(s.flags, s.flags) && WF(s)
  {
    hide Fifo, DoneOnce, Accounted, Counted;
  }

  lemma CallbackCalls(c: Config, s: State, id: Id, err: int, size: nat, foreign: bool)
    requires WF(s) && id in s.reqs && FlagsAdvance(s.flags, s.flags)
    ensures var t := Callback(c, s, id, err, size, foreign).0;
            s.at.called + {id} <= t.at.called && t.reqs.Keys == s.reqs.Keys
  {
    CallbackAdvance(c, s, id, err, size, foreign);
    CallbackIs(c, s, id, err, size, foreign);
    DequeueCalls(c, s, id, err, size, foreign);
  }

  lemma DequeueCalls(c: Config, s: State, id: Id, err: int, size: nat, foreign: bool)
    requires WF(s) && id in s.reqs && FlagsAdvance(s.flags, s.flags)
    ensures id in Dequeue(c, s, id, err, size, foreign).at.called
  {
    var l := Leave(s, id, err, size, foreign);
    LeaveAdvance(s, id, err, size, foreign);
    LeaveShape(s, id, err, size, foreign);
    assert id in l.at.called;
    hide Leave, Drain;
    DrainAdvance(c, l, s.reqs[id].kind);
  }

  /** Each answer leaves fewer requests open. */
  lemma AnswerCloses(c: Config, s: State, a: Action)
    requires c.policy.Repaired? && Boundary(s) && Enabled(s, a) && a.Complete?
    ensures WF(s) && Boundary(Step(c, s, a)) && |Outstanding(Step(c, s, a))| < |Outstanding(s)|
  {
    hide Boundary, Callback;
    InFlightOpen(s, a.id);
    StepKeeps(c, s, a);
    CallbackCalls(c, s, a.id, a.err, a.size, a.foreign);
    OneOf(Outstanding(Step(c, s, a)), Outstanding(s), a.id);
  }

  lemma NoneOwed(s: State)
    requires Answered(s) && s.at.stalled == {}
    ensures s.at.inFlight == {}
  {
    assert forall x :: x !in s.at.inFlight;
  }

  /** While nothing is stalled and a request is open, the backend owes an answer. */
  lemma AnswerOwed(s: State)
    requires Boundary(s) && s.at.stalled == {} && Outstanding(s) != {}
    ensures !Answered(s)
  {
    hide Fifo, DoneOnce, Accounted;
    if Answered(s) {
      NoneOwed(s);
      CountedZero(s);
      assert forall x :: x !in Outstanding(s);
      assert false;
    }
  }

  /** When the backend owes no answer, either all requests have been called back, or one is
      stalled, and then nothing can bring the others on. */
  lemma AnsweredIff(s: State)
    requires Boundary(s) && Answered(s)
    ensures s.at.stalled == {} <==> Outstanding(s) == {}
    ensures s.at.stalled == {} ==> s.queue == [] && s.pending == 0
  {
    hide Fifo, DoneOnce, Accounted;
    if x :| x in s.at.stalled {
      assert x in Outstanding(s);
    } else {
      assert forall x :: x !in s.at.stalled;
      NoneOwed(s);
      CountedZero(s);
      if Outstanding(s) != {} { AnswerOwed(s); }
    }
  }

  ghost predicate OnlyAnswers(run: seq<Action>) { forall a :: a in run ==> a.Complete? }

  /** A run of answers is no longer than the number of open requests. */
  lemma {:induction false} AnswersEnd(c: Config, s: State, run: seq<Action>)
    requires c.policy.Repaired? && Boundary(s) && Runnable(c, s, run) && OnlyAnswers(run)
    ensures Boundary(Exec(c, s, run)) && |run| + |Outstanding(Exec(c, s, run))| <= |Outstanding(s)|
    decreases |run|
  {
    if run != [] {
      assert run[0] in run;
      hide Boundary, Step, Enabled, Outstanding;
      AnswerCloses(c, s, run[0]);
      AnswersEnd(c, Step(c, s, run[0]), run[1..]);
    }
  }

  /** However late and in whatever order the backend answers, it has answered all there is to
      answer after at most as many answers as there are open requests; and then every request
      has been called back and the storage is idle, unless one is stalled. */
  lemma AllCalledBack(c: Config, s: State, run: seq<Action>)
    requires c.policy.Repaired? && Boundary(s) && Runnable(c, s, run) && OnlyAnswers(run) && Answered(Exec(c, s, run))
    ensures var t := Exec(c, s, run);
            && |run| <= |Outstanding(s)|
            && (t.at.stalled == {} <==> t.reqs.Keys == t.at.called)
            && (t.at.stalled == {} ==> t.queue == [] && t.pending == 0)
  {
    AnswersEnd(c, s, run);
    var t := Exec(c, s, run);
    CalledIn(t);
    hide Boundary;
    AnsweredIff(t);
  }

  lemma CalledIn(s: State)
    requires Boundary(s)
    ensures Outstanding(s) == {} <==> s.reqs.Keys == s.at.called
  {
    hide Fifo, DoneOnce, Accounted, Counted;
    if Outstanding(s) == {} { assert forall x :: x in s.reqs ==> x in s.at.called || x in Outstanding(s); }
  }

  /** Such a run can always be made. */
  lemma {:induction false} AnswersReach(c: Config, s: State) returns (run: seq<Action>)
    requires c.policy.Repaired? && Boundary(s)
    ensures WF(s) && Runnable(c, s, run) && OnlyAnswers(run) && Answered(Exec(c, s, run))
    decreases |Outstanding(s)|
  {
    BoundaryIs(s);
    if Answered(s) {
      run := [];
    } else {
      var x :| x in s.at.inFlight && x !in s.at.stalled;
      var a := Complete(x, 0, 0, false);
      InFlightOpen(s, x);
      AnswerCloses(c, s, a);
      var rest := AnswersReach(c, Step(c, s, a));
      run := [a] + rest;
      assert run[1..] == rest;
    }
  }

  lemma {:induction false} AnswersGentle(c: Config, s: State, run: seq<Action>)
    requires WF(s) && Runnable(c, s, run) && OnlyAnswers(run)
    ensures GentleRun(c, s, run)
    decreases |run|
  {
    if run != [] {
      assert run[0] in run;
      AnswersGentle(c, Step(c, s, run[0]), run[1..]);
    }
  }

  /** On a new storage that is not closed or destroyed, and whose automatic opens do not fail at
      once, every request is called back once the backend has answered. */
  lemma GentleCompletes(c: Config, heap: bool, run: seq<Action>, answers: seq<Action>)
    requires c.policy.Repaired? && Runnable(c, Initial(heap), run) && GentleRun(c, Initial(heap), run)
    requires var s := Exec(c, Initial(heap), run);
             Runnable(c, s, answers) && OnlyAnswers(answers) && Answered(Exec(c, s, answers))
    ensures var t := Exec(c, Exec(c, Initial(heap), run), answers);
            t.reqs.Keys == t.at.called && t.queue == [] && t.pending == 0
  {
    InitialFlows(heap);
    NeverStalls(c, Initial(heap), run);
    var s := Exec(c, Initial(heap), run);
    hide Boundary, Flowing, Answered;
    AnswersGentle(c, s, answers);
    NeverStalls(c, s, answers);
    AllCalledBack(c, s, answers);
  }
}
