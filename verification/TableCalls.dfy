// What becomes of the calls on the shared table: every allocation that has returned has handed
// out an id, every hold is released once, and new ids are made only when there is none to reuse.
module TableCalls {
  import opened SharedTable

  // ----- counting ------------------------------------------------------------------------------

  function One(b: bool): nat {
    if b then 1 else 0
  }

  predicate Allocating(pc: Pc) {
    pc.AllocLoaded? || pc.AllocRead? || pc.AllocFinish?
  }

  // How many of the threads below n are in alloc_entry.
  function HowMany(s: State, n: nat): nat {
    if n == 0 then 0 else HowMany(s, n - 1) + One(Allocating(PcOf(s, n - 1)))
  }

  ghost predicate Below(run: seq<Action>, n: nat) {
    forall a :: a in run ==> a.t < n
  }

  // The calls of alloc_entry.
  function Allocs(run: seq<Action>): nat {
    if run == [] then 0 else One(run[0].Load?) + Allocs(run[1..])
  }

  // How often id was handed out.
  function Outs(log: seq<Event>, id: nat): nat {
    if log == [] then 0 else Outs(log[..|log| - 1], id) + One(log[|log| - 1] == Out(id))
  }

  function AllOuts(log: seq<Event>): nat {
    if log == [] then 0 else AllOuts(log[..|log| - 1]) + One(log[|log| - 1].Out?)
  }

  // The calls of hold and of release for id.
  function Holds(run: seq<Action>, id: nat): nat {
    if run == [] then 0 else One(run[0].Hold? && run[0].id == id) + Holds(run[1..], id)
  }

  function Releases(run: seq<Action>, id: nat): nat {
    if run == [] then 0 else One(run[0].Release? && run[0].id == id) + Releases(run[1..], id)
  }

  function HoldCount(s: State, id: nat): nat {
    if id in s.holds then s.holds[id] else 0
  }

  // ----- allocations ---------------------------------------------------------------------------

  lemma {:induction false} HowManyMove(s: State, s': State, n: nat, t: nat)
    requires forall u :: u != t ==> PcOf(s', u) == PcOf(s, u)
    ensures HowMany(s', n) + (if t < n then One(Allocating(PcOf(s, t))) else 0)
         == HowMany(s, n) + (if t < n then One(Allocating(PcOf(s', t))) else 0)
  {
    if n > 0 {
      HowManyMove(s, s', n - 1, t);
    }
  }

  lemma OutsMore(log: seq<Event>, e: Event, id: nat)
    ensures AllOuts(log + [e]) == AllOuts(log) + One(e.Out?)
    ensures Outs(log + [e], id) == Outs(log, id) + One(e == Out(id))
  {
    assert (log + [e])[..|log|] == log;
  }

  lemma AllocStep(counted: bool, s: State, a: Action)
    requires Enabled(s, a)
    ensures var s' := Step(counted, s, a);
      AllOuts(s'.log) + One(Allocating(PcOf(s', a.t))) == AllOuts(s.log) + One(Allocating(PcOf(s, a.t))) + One(a.Load?)
  {
    match a
    case Finish(t) => OutsMore(s.log, Out(PcOf(s, t).id), 0);
    case Release(t, id) => OutsMore(s.log, Back(id), 0);
    case _ => OthersLogNothing(counted, s, a);
  }

  lemma OthersLogNothing(counted: bool, s: State, a: Action)
    requires Enabled(s, a) && !a.Finish? && !a.Release?
    ensures Step(counted, s, a).log == s.log
    ensures One(Allocating(PcOf(Step(counted, s, a), a.t))) == One(Allocating(PcOf(s, a.t))) + One(a.Load?)
  {
  }

  lemma OnlyOneMoves(counted: bool, s: State, a: Action)
    requires Enabled(s, a)
    ensures forall u :: u != a.t ==> PcOf(Step(counted, s, a), u) == PcOf(s, u)
  {
  }

  lemma {:induction false} AllocsFrom(counted: bool, s: State, run: seq<Action>, n: nat)
    requires CanRun(counted, s, run) && Below(run, n)
    ensures AllOuts(After(counted, s, run).log) + HowMany(After(counted, s, run), n)
         == AllOuts(s.log) + HowMany(s, n) + Allocs(run)
    decreases |run|
  {
    if run != [] {
      var s' := Step(counted, s, run[0]);
      assert run[0] in run;
      AllocStep(counted, s, run[0]);
      OnlyOneMoves(counted, s, run[0]);
      HowManyMove(s, s', n, run[0].t);
      AllocsFrom(counted, s', run[1..], n);
    }
  }

  lemma {:induction false} NoneAtFirst(n: nat)
    ensures HowMany(INIT, n) == 0
  {
    if n > 0 {
      NoneAtFirst(n - 1);
    }
  }

  // Every call of alloc_entry has handed out an id, one, or is under way.
  lemma AllocsHandOut(counted: bool, run: seq<Action>, n: nat)
    requires CanRun(counted, INIT, run) && Below(run, n)
    ensures Allocs(run) == AllOuts(After(counted, INIT, run).log) + HowMany(After(counted, INIT, run), n)
  {
    AllocsFrom(counted, INIT, run, n);
    NoneAtFirst(n);
  }

  // ----- holds ---------------------------------------------------------------------------------

  lemma HoldStep(s: State, a: Action, id: nat)
    requires Inv(s) && Enabled(s, a)
    ensures var s' := Step(true, s, a);
      HoldCount(s', id) + One(a.Release? && a.id == id) + Outs(s.log, id)
      == HoldCount(s, id) + One(a.Hold? && a.id == id) + Outs(s'.log, id)
  {
    assert ThreadOk(a.t, PcOf(s, a.t), s.top, s.place, s.nextFree);
    match a
    case Finish(t) => OutsMore(s.log, Out(PcOf(s, t).id), id);
    case Release(t, i) => OutsMore(s.log, Back(i), id);
    case _ =>
  }

  lemma {:induction false} HoldsFrom(s: State, run: seq<Action>, id: nat)
    requires Inv(s) && CanRun(true, s, run)
    ensures var n := After(true, s, run);
      HoldCount(n, id) + Releases(run, id) + Outs(s.log, id) == HoldCount(s, id) + Holds(run, id) + Outs(n.log, id)
    decreases |run|
  {
    if run != [] {
      StepKeepsInv(s, run[0]);
      HoldStep(s, run[0], id);
      HoldsFrom(Step(true, s, run[0]), run[1..], id);
    }
  }

  // The hold count of an id is one for each time it was handed out and for each hold, less the
  // releases, and it is out just while that is not zero.
  lemma HoldsAreCounted(run: seq<Action>, id: nat)
    requires CanRun(true, INIT, run)
    ensures var s := After(true, INIT, run);
      && HoldCount(s, id) + Releases(run, id) == Outs(s.log, id) + Holds(run, id)
      && (IsOut(s.log, id) <==> Outs(s.log, id) + Holds(run, id) > Releases(run, id))
  {
    RunKeepsInv(INIT, run);
    HoldsFrom(INIT, run, id);
  }

  // ----- new ids -------------------------------------------------------------------------------

  lemma {:induction false} RunSplit(counted: bool, s: State, a: seq<Action>, b: seq<Action>)
    requires CanRun(counted, s, a + b)
    ensures CanRun(counted, s, a) && CanRun(counted, After(counted, s, a), b)
    ensures After(counted, s, a + b) == After(counted, After(counted, s, a), b)
    decreases |a|
  {
    if a == [] {
      assert a + b == b;
    } else {
      assert (a + b)[0] == a[0] && (a + b)[1..] == a[1..] + b;
      RunSplit(counted, Step(counted, s, a[0]), a[1..], b);
    }
  }

  lemma PrefixRuns(counted: bool, run: seq<Action>, j: nat)
    requires CanRun(counted, INIT, run) && j <= |run|
    ensures CanRun(counted, INIT, run[..j])
  {
    assert run == run[..j] + run[j..];
    RunSplit(counted, INIT, run[..j], run[j..]);
  }

  lemma LastStep(counted: bool, run: seq<Action>) returns (most: seq<Action>, a: Action)
    requires CanRun(counted, INIT, run) && run != []
    ensures run == most + [a] && CanRun(counted, INIT, most) && Enabled(After(counted, INIT, most), a)
    ensures After(counted, INIT, run) == Step(counted, After(counted, INIT, most), a)
  {
    most, a := run[..|run| - 1], run[|run| - 1];
    assert run == most + [a];
    RunSplit(counted, INIT, most, [a]);
    assert [a][1..] == [];
  }

  // The step in which the thread loaded the word it has in hand, its last step so far.
  lemma {:induction false} WhenLoaded(counted: bool, run: seq<Action>, t: nat) returns (j: nat)
    requires CanRun(counted, INIT, run) && PcOf(After(counted, INIT, run), t).AllocLoaded?
    ensures j < |run| && run[j].t == t && (forall k :: j < k < |run| ==> run[k].t != t)
    ensures CanRun(counted, INIT, run[..j])
    ensures After(counted, INIT, run[..j]).top == PcOf(After(counted, INIT, run), t).top
    decreases |run|
  {
    var most, a := LastStep(counted, run);
    if a.t == t {
      j := |most|;
      assert run[..j] == most;
    } else {
      OnlyOneMoves(counted, After(counted, INIT, most), a);
      j := WhenLoaded(counted, most, t);
      assert run[..j] == most[..j];
    }
  }

  // The free list was empty when the thread, in its last step so far, loaded m_free_id.
  ghost predicate LoadedWhenEmpty(run: seq<Action>, t: nat, j: nat) {
    && j < |run| && run[j].t == t && (forall k :: j < k < |run| ==> run[k].t != t)
    && CanRun(true, INIT, run[..j])
    && var s := After(true, INIT, run[..j]); Walk(s.top.index, s.nextFree, [])
  }

  // A new id is made only by a thread that has found the free list empty in this call.
  lemma GrowsWhenEmpty(run: seq<Action>, t: nat)
    requires CanRun(true, INIT, run) && Enabled(After(true, INIT, run), Grow(t))
    ensures exists j :: LoadedWhenEmpty(run, t, j)
  {
    var j := WhenLoaded(true, run, t);
    assert LoadedWhenEmpty(run, t, j);
  }

  // And there are no more ids than that: only Grow makes one.
  lemma OnlyGrowGrows(counted: bool, s: State, a: Action)
    requires Enabled(s, a)
    ensures Step(counted, s, a).maxId == s.maxId + One(a.Grow?)
  {
  }
}
