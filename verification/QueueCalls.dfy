// What becomes of the calls: every enqueue that has returned has put its event into the order,
// once, and every dequeue that has returned has taken the event it returned, or none.
module QueueCalls {
  import opened EventQueue

  // ----- what threads are at -------------------------------------------------------------------

  // Enqueueing an event on q that is not linked yet, about to return one taken off q, or anywhere
  // in a dequeue on q.
  datatype Work = Holding(q: nat, event: Event) | Returning(q: nat, event: Event) | Out(q: nat)

  predicate At(pc: Pc, w: Work) {
    match w
    case Holding(q, e) => Enqueuing(pc, q) && !pc.EnqSwing? && pc.event == e
    case Returning(q, e) => pc.DeqFree? && pc.q == q && pc.event == e
    case Out(q) => Dequeuing(pc, q)
  }

  function One(b: bool): nat {
    if b then 1 else 0
  }

  // How many of the threads below n are at w.
  function HowMany(s: State, w: Work, n: nat): nat {
    if n == 0 then 0 else HowMany(s, w, n - 1) + One(At(PcOf(s, n - 1), w))
  }

  ghost predicate Below(run: seq<Action>, n: nat) {
    forall a :: a in run ==> a.t < n
  }

  ghost predicate OnlyMoves(s: State, s': State, t: nat) {
    forall u :: u != t ==> PcOf(s', u) == PcOf(s, u)
  }

  lemma OnlyOneMoves(mode: Mode, s: State, a: Action)
    requires Enabled(mode, s, a)
    ensures OnlyMoves(s, Step(mode, s, a), a.t)
  {
    forall u | u != a.t ensures PcOf(Step(mode, s, a), u) == PcOf(s, u) {
      OthersStay(mode, s, a, u);
    }
  }

  lemma {:induction false} HowManyMove(s: State, s': State, w: Work, n: nat, t: nat)
    requires OnlyMoves(s, s', t)
    ensures HowMany(s', w, n) + (if t < n then One(At(PcOf(s, t), w)) else 0)
         == HowMany(s, w, n) + (if t < n then One(At(PcOf(s', t), w)) else 0)
  {
    if n > 0 {
      HowManyMove(s, s', w, n - 1, t);
    }
  }

  lemma {:induction false} NoneAtFirst(w: Work, n: nat)
    ensures HowMany(INIT, w, n) == 0
  {
    if n > 0 {
      NoneAtFirst(w, n - 1);
    }
  }

  lemma OneMore(s: seq<Event>, x: Event, e: Event)
    ensures multiset(s + [x])[e] == multiset(s)[e] + One(x == e)
  {
  }

  // ----- enqueue -------------------------------------------------------------------------------

  // How many calls of enqueue there were on q, with the event e.
  function Enqueues(run: seq<Action>, q: nat, e: Event): nat {
    if run == [] then 0
    else
      var a := run[|run| - 1];
      Enqueues(run[..|run| - 1], q, e) + One(a.Enqueue? && a.q == q && a.event == e)
  }

  // How often e is in the order of q, and came off it.
  function Put(s: State, q: nat, e: Event): nat {
    if q in s.queues then multiset(s.queues[q].enqueued)[e] else 0
  }

  function Off(s: State, q: nat, e: Event): nat {
    if q in s.queues then multiset(s.queues[q].dequeued)[e] else 0
  }

  // A step puts into the order what its thread has in hand no more.
  ghost predicate PutsWhatItHeld(s: State, s': State, t: nat, q: nat, e: Event, news: nat) {
    Put(s', q, e) + One(At(PcOf(s', t), Holding(q, e))) == Put(s, q, e) + One(At(PcOf(s, t), Holding(q, e))) + news
  }

  lemma LinkStep(mode: Mode, s: State, a: Action, q: nat, e: Event)
    requires Enabled(mode, s, a) && a.Advance? && PcOf(s, a.t).EnqLink?
    ensures PutsWhatItHeld(s, Step(mode, s, a), a.t, q, e, 0)
  {
    OneMore(s.queues[PcOf(s, a.t).q].enqueued, PcOf(s, a.t).event, e);
  }

  // The other steps put nothing there.
  lemma OrderStays(mode: Mode, s: State, a: Action, q: nat, e: Event)
    requires Enabled(mode, s, a) && (a.Advance? ==> !PcOf(s, a.t).EnqLink?)
    ensures Put(Step(mode, s, a), q, e) == Put(s, q, e)
  {
  }

  lemma HandsStay(mode: Mode, s: State, a: Action, q: nat, e: Event)
    requires Enabled(mode, s, a) && a.Advance? && !PcOf(s, a.t).EnqLink?
    ensures At(PcOf(Step(mode, s, a), a.t), Holding(q, e)) <==> At(PcOf(s, a.t), Holding(q, e))
  {
  }

  lemma EnqueueStep(mode: Mode, s: State, a: Action, q: nat, e: Event)
    requires Enabled(mode, s, a)
    ensures PutsWhatItHeld(s, Step(mode, s, a), a.t, q, e, One(a.Enqueue? && a.q == q && a.event == e))
  {
    if a.Advance? && PcOf(s, a.t).EnqLink? {
      LinkStep(mode, s, a, q, e);
    } else {
      OrderStays(mode, s, a, q, e);
      if a.Advance? {
        HandsStay(mode, s, a, q, e);
      }
    }
  }

  // Of the calls of enqueue on a queue with some event, each has the event in the order, or is
  // still to put it there: one that has returned has put it there, once.
  lemma {:induction false} EnqueuesArePut(mode: Mode, run: seq<Action>, q: nat, e: Event, n: nat)
    requires CanRun(mode, run) && Below(run, n)
    ensures Enqueues(run, q, e) == Put(After(mode, run), q, e) + HowMany(After(mode, run), Holding(q, e), n)
  {
    if run == [] {
      NoneAtFirst(Holding(q, e), n);
    } else {
      var s, a := After(mode, run[..|run| - 1]), run[|run| - 1];
      assert a in run;
      EnqueuesArePut(mode, run[..|run| - 1], q, e, n);
      EnqueueStep(mode, s, a, q, e);
      OnlyOneMoves(mode, s, a);
      HowManyMove(s, Step(mode, s, a), Holding(q, e), n, a.t);
    }
  }

  // ----- dequeue -------------------------------------------------------------------------------

  // How many calls of dequeue there were on q.
  function Dequeues(run: seq<Action>, q: nat): nat {
    if run == [] then 0
    else Dequeues(run[..|run| - 1], q) + One(run[|run| - 1].Dequeue? && run[|run| - 1].q == q)
  }

  // A step with which a call of dequeue on q returns, the event if it has taken one.
  predicate Answers(mode: Mode, s: State, a: Action, q: nat)
    requires Enabled(mode, s, a)
  {
    Dequeuing(PcOf(s, a.t), q) && PcOf(Step(mode, s, a), a.t).Idle?
  }

  predicate AnswersWith(mode: Mode, s: State, a: Action, q: nat, e: Event)
    requires Enabled(mode, s, a)
  {
    Answers(mode, s, a, q) && At(PcOf(s, a.t), Returning(q, e))
  }

  // How many calls on q have returned, how many of them null, and how many e.
  function Answered(mode: Mode, run: seq<Action>, q: nat): nat
    requires CanRun(mode, run)
  {
    if run == [] then 0
    else
      var most := run[..|run| - 1];
      Answered(mode, most, q) + One(Answers(mode, After(mode, most), run[|run| - 1], q))
  }

  function AnsweredWith(mode: Mode, run: seq<Action>, q: nat, e: Event): nat
    requires CanRun(mode, run)
  {
    if run == [] then 0
    else
      var most := run[..|run| - 1];
      AnsweredWith(mode, most, q, e) + One(AnswersWith(mode, After(mode, most), run[|run| - 1], q, e))
  }

  // A step takes off the order what its thread has in hand then, and answers with that.
  ghost predicate TakesWhatItHas(s: State, s': State, t: nat, q: nat, e: Event, answers: nat) {
    Off(s', q, e) + One(At(PcOf(s, t), Returning(q, e)))
    == Off(s, q, e) + One(At(PcOf(s', t), Returning(q, e))) + answers
  }

  lemma PopStep(mode: Mode, s: State, a: Action, q: nat, e: Event)
    requires Enabled(mode, s, a) && a.Advance? && PcOf(s, a.t).DeqSwing?
    ensures TakesWhatItHas(s, Step(mode, s, a), a.t, q, e, 0)
  {
    OneMore(s.queues[PcOf(s, a.t).q].dequeued, PcOf(s, a.t).event, e);
  }

  lemma OffStays(mode: Mode, s: State, a: Action, q: nat, e: Event)
    requires Enabled(mode, s, a) && (a.Advance? ==> !PcOf(s, a.t).DeqSwing?)
    ensures Off(Step(mode, s, a), q, e) == Off(s, q, e)
  {
  }

  lemma DequeueStep(mode: Mode, s: State, a: Action, q: nat, e: Event)
    requires Enabled(mode, s, a)
    ensures TakesWhatItHas(s, Step(mode, s, a), a.t, q, e, One(AnswersWith(mode, s, a, q, e)))
  {
    if a.Advance? && PcOf(s, a.t).DeqSwing? {
      PopStep(mode, s, a, q, e);
    } else {
      OffStays(mode, s, a, q, e);
    }
  }

  lemma CallStep(mode: Mode, s: State, a: Action, q: nat)
    requires Enabled(mode, s, a)
    ensures One(Answers(mode, s, a, q)) + One(At(PcOf(Step(mode, s, a), a.t), Out(q)))
         == One(At(PcOf(s, a.t), Out(q))) + One(a.Dequeue? && a.q == q)
  {
    if a.Advance? {
      var pc, pc' := PcOf(s, a.t), PcOf(Step(mode, s, a), a.t);
      assert pc'.Idle? || (pc'.q == pc.q && (Enqueuing(pc, pc.q) <==> Enqueuing(pc', pc.q)));
    }
  }

  // Of the calls of dequeue on a queue, each has returned or is under way.
  lemma {:induction false} DequeuesAreAnswered(mode: Mode, run: seq<Action>, q: nat, n: nat)
    requires CanRun(mode, run) && Below(run, n)
    ensures Dequeues(run, q) == Answered(mode, run, q) + HowMany(After(mode, run), Out(q), n)
  {
    if run == [] {
      NoneAtFirst(Out(q), n);
    } else {
      var s, a := After(mode, run[..|run| - 1]), run[|run| - 1];
      assert a in run;
      DequeuesAreAnswered(mode, run[..|run| - 1], q, n);
      CallStep(mode, s, a, q);
      OnlyOneMoves(mode, s, a);
      HowManyMove(s, Step(mode, s, a), Out(q), n, a.t);
    }
  }

  // An event came off the order as often as calls have returned it or are about to; by
  // NullMeansEmpty the other calls that have returned found the queue empty.
  lemma {:induction false} AnswersCameOff(mode: Mode, run: seq<Action>, q: nat, e: Event, n: nat)
    requires CanRun(mode, run) && Below(run, n)
    ensures Off(After(mode, run), q, e) == AnsweredWith(mode, run, q, e) + HowMany(After(mode, run), Returning(q, e), n)
  {
    if run == [] {
      NoneAtFirst(Returning(q, e), n);
    } else {
      var s, a := After(mode, run[..|run| - 1]), run[|run| - 1];
      assert a in run;
      AnswersCameOff(mode, run[..|run| - 1], q, e, n);
      DequeueStep(mode, s, a, q, e);
      OnlyOneMoves(mode, s, a);
      HowManyMove(s, Step(mode, s, a), Returning(q, e), n, a.t);
    }
  }

  // What a call returns that does not return an event is the null of ReturnsNull.
  lemma OtherAnswersAreNull(mode: Mode, s: State, a: Action, q: nat)
    requires Enabled(mode, s, a) && Answers(mode, s, a, q)
    requires forall e :: !AnswersWith(mode, s, a, q, e)
    ensures ReturnsNull(mode, s, a.t)
  {
    assert PcOf(s, a.t).DeqFree? ==> AnswersWith(mode, s, a, q, PcOf(s, a.t).event);
    assert a == Advance(a.t, a.spurious);
    assert Enabled(mode, s, Advance(a.t, a.spurious));
  }
}
