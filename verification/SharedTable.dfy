// The concurrent free list behind SharedTableBase (src/table.cpp), as a machine
// whose steps are the individual atomic loads, stores and compare-and-swaps.
//
// m_free_id packs the index of the first free entry with a counter of pops.
// The state below carries three history variables that no step ever tests:
// `chain` (the free list, bottom first), `place` (where each id is) and `log`
// (the ids handed out and given back, in order).
module SharedTable {

  // The 64-bit word m_free_id: a low half with the index, a high half with the pop count.
  datatype Word = Word(index: nat, pops: nat)

  // Where a thread stands inside alloc_entry, free or free_entry.
  datatype Pc =
    | Idle
    | AllocLoaded(top: Word)             // m_free_id has been loaded
    | AllocRead(top: Word, next: nat)    // and then m_next_free of its entry
    | AllocFinish(id: nat)               // an id has been won, its entry is being set up
    | FreeReady(id: nat)                 // the last hold was released
    | FreeLoaded(id: nat, top: Word)     // m_free_id has been loaded
    | FreeLinked(id: nat, top: Word)     // m_next_free has been written

  datatype Place = InChain(pos: nat) | Held | Transit(thread: nat)

  datatype Event = Out(id: nat) | Back(id: nat)

  datatype State = State(
    top: Word,                 // m_free_id
    maxId: nat,                // m_max_id
    nextFree: map<nat, nat>,   // m_next_free of each entry
    holds: map<nat, nat>,      // m_hold_count of each entry
    pcs: map<nat, Pc>,
    chain: seq<nat>,
    place: map<nat, Place>,
    log: seq<Event>
  )

  // `spurious` is the licence of compare_exchange_weak to fail for no reason.
  datatype Action =
    | Load(t: nat)
    | ReadNext(t: nat)
    | Pop(t: nat, spurious: bool)
    | Grow(t: nat)
    | Finish(t: nat)
    | Hold(t: nat, id: nat)
    | Release(t: nat, id: nat)
    | LoadForFree(t: nat)
    | Link(t: nat)
    | Push(t: nat, spurious: bool)

  const INIT := State(Word(0, 0), 0, map[], map[], map[], [], map[], [])

  function PcOf(s: State, t: nat): Pc {
    if t in s.pcs then s.pcs[t] else Idle
  }

  // The comparison made by the compare-and-swaps. The code compares the whole
  // word; `counted == false` is the free list without its pop counter.
  predicate Same(counted: bool, a: Word, b: Word) {
    a.index == b.index && (counted ==> a.pops == b.pops)
  }

  predicate Enabled(s: State, a: Action) {
    match a
    case Load(t) => PcOf(s, t).Idle?
    case ReadNext(t) => PcOf(s, t).AllocLoaded? && PcOf(s, t).top.index in s.nextFree
    case Pop(t, _) => PcOf(s, t).AllocRead?
    case Grow(t) => PcOf(s, t).AllocLoaded? && PcOf(s, t).top.index == 0
    case Finish(t) => PcOf(s, t).AllocFinish?
    // Callers may hold, release or free only what was handed out to them.
    case Hold(t, id) => PcOf(s, t).Idle? && id in s.holds && s.holds[id] > 0
    case Release(t, id) => PcOf(s, t).Idle? && id in s.holds && s.holds[id] > 0
    case LoadForFree(t) => PcOf(s, t).FreeReady?
    case Link(t) => PcOf(s, t).FreeLoaded?
    case Push(t, _) => PcOf(s, t).FreeLinked?
  }

  function Goto(s: State, t: nat, pc: Pc): State {
    s.(pcs := s.pcs[t := pc])
  }

  function Step(counted: bool, s: State, a: Action): State
    requires Enabled(s, a)
  {
    match a
    case Load(t) =>
      Goto(s, t, AllocLoaded(s.top))
    case ReadNext(t) =>
      var top := PcOf(s, t).top;
      Goto(s, t, AllocRead(top, s.nextFree[top.index]))
    case Pop(t, spurious) =>
      var AllocRead(top, next) := PcOf(s, t);
      if !spurious && Same(counted, top, s.top) then
        Goto(s, t, AllocFinish(top.index)).(
          top := Word(next, top.pops + 1),
          chain := if s.chain == [] then [] else s.chain[..|s.chain| - 1],
          place := s.place[top.index := Transit(t)])
      else
        Goto(s, t, AllocLoaded(s.top))
    case Grow(t) =>
      var id := s.maxId + 1;
      Goto(s, t, AllocFinish(id)).(
        maxId := id,
        nextFree := s.nextFree[id := 0],
        holds := s.holds[id := 0],
        place := s.place[id := Transit(t)])
    case Finish(t) =>
      var id := PcOf(s, t).id;
      Goto(s, t, Idle).(
        holds := s.holds[id := 1],
        place := s.place[id := Held],
        log := s.log + [Out(id)])
    case Hold(t, id) =>
      s.(holds := s.holds[id := s.holds[id] + 1])
    case Release(t, id) =>
      var s' := s.(holds := s.holds[id := s.holds[id] - 1]);
      if s.holds[id] == 1 then
        Goto(s', t, FreeReady(id)).(
          place := s.place[id := Transit(t)],
          log := s.log + [Back(id)])
      else
        s'
    case LoadForFree(t) =>
      Goto(s, t, FreeLoaded(PcOf(s, t).id, s.top))
    case Link(t) =>
      var FreeLoaded(id, top) := PcOf(s, t);
      Goto(s, t, FreeLinked(id, top)).(nextFree := s.nextFree[id := top.index])
    case Push(t, spurious) =>
      var FreeLinked(id, top) := PcOf(s, t);
      if !spurious && Same(counted, top, s.top) then
        Goto(s, t, Idle).(
          top := Word(id, top.pops),
          chain := s.chain + [id],
          place := s.place[id := InChain(|s.chain|)])
      else
        Goto(s, t, FreeLoaded(id, s.top))
  }

  predicate CanRun(counted: bool, s: State, run: seq<Action>)
    decreases |run|
  {
    run == [] || (Enabled(s, run[0]) && CanRun(counted, Step(counted, s, run[0]), run[1..]))
  }

  function After(counted: bool, s: State, run: seq<Action>): State
    requires CanRun(counted, s, run)
    decreases |run|
  {
    if run == [] then s else After(counted, Step(counted, s, run[0]), run[1..])
  }

  // ----- the invariant ------------------------------------------------------------

  ghost predicate LinkOk(chain: seq<nat>, nextFree: map<nat, nat>, k: nat)
    requires k < |chain|
  {
    && chain[k] in nextFree
    && nextFree[chain[k]] == if k == 0 then 0 else chain[k - 1]
  }

  // The free list, bottom first: every entry points to the one below it.
  ghost predicate ChainOk(top: Word, chain: seq<nat>, place: map<nat, Place>, nextFree: map<nat, nat>) {
    && (forall k :: 0 <= k < |chain| ==> chain[k] in place && place[chain[k]] == InChain(k))
    && (forall k {:trigger LinkOk(chain, nextFree, k)} :: 0 <= k < |chain| ==> LinkOk(chain, nextFree, k))
    && (forall id :: id in place && place[id].InChain? ==>
         place[id].pos < |chain| && chain[place[id].pos] == id)
    && top.index == if chain == [] then 0 else chain[|chain| - 1]
  }

  ghost predicate IdsOk(maxId: nat, place: map<nat, Place>, nextFree: map<nat, nat>, holds: map<nat, nat>) {
    && (forall id :: id in place <==> 1 <= id <= maxId)
    && nextFree.Keys == place.Keys && holds.Keys == place.Keys
    && (forall id :: id in place ==> (holds[id] > 0 <==> place[id].Held?))
  }

  // A loaded word is no newer than the current one. While no pop has happened
  // since it was loaded, its entry is still somewhere in the free list.
  ghost predicate Loaded(loaded: Word, top: Word, place: map<nat, Place>) {
    && loaded.pops <= top.pops
    && (loaded.index != 0 ==> loaded.index in place)
    && (loaded.index != 0 && loaded.pops == top.pops ==> place[loaded.index].InChain?)
  }

  ghost predicate ThreadOk(t: nat, pc: Pc, top: Word, place: map<nat, Place>, nextFree: map<nat, nat>) {
    match pc
    case Idle => true
    case AllocLoaded(loaded) => Loaded(loaded, top, place)
    case AllocRead(loaded, next) =>
      && Loaded(loaded, top, place) && loaded.index != 0 && loaded.index in nextFree
      && (loaded.pops == top.pops ==> nextFree[loaded.index] == next)
    case AllocFinish(id) => id in place && place[id] == Transit(t)
    case FreeReady(id) => id in place && place[id] == Transit(t)
    case FreeLoaded(id, _) => id in place && place[id] == Transit(t)
    case FreeLinked(id, loaded) =>
      && id in place && place[id] == Transit(t)
      && id in nextFree && nextFree[id] == loaded.index
  }

  // Whether the last thing logged about an id is that it was handed out.
  predicate IsOut(log: seq<Event>, id: nat) {
    log != [] &&
    var last := log[|log| - 1];
    last == Out(id) || (last != Back(id) && IsOut(log[..|log| - 1], id))
  }

  ghost predicate LogOk(log: seq<Event>, place: map<nat, Place>) {
    && (forall id :: IsOut(log, id) <==> id in place && place[id].Held?)
    && (forall j :: 0 <= j < |log| && log[j].Out? ==> !IsOut(log[..j], log[j].id))
  }

  ghost predicate ThreadsOk(s: State) {
    forall t :: t in s.pcs ==> ThreadOk(t, s.pcs[t], s.top, s.place, s.nextFree)
  }

  // The id a thread has in its hands between the free list and the caller, 0 for none.
  function CarriedBy(pc: Pc): nat {
    match pc
    case AllocFinish(id) => id
    case FreeReady(id) => id
    case FreeLoaded(id, _) => id
    case FreeLinked(id, _) => id
    case _ => 0
  }

  ghost predicate TransitOk(s: State) {
    forall id :: id in s.place && s.place[id].Transit? ==>
      CarriedBy(PcOf(s, s.place[id].thread)) == id
  }

  ghost predicate Inv(s: State) {
    && IdsOk(s.maxId, s.place, s.nextFree, s.holds)
    && ChainOk(s.top, s.chain, s.place, s.nextFree)
    && ThreadsOk(s)
    && TransitOk(s)
    && LogOk(s.log, s.place)
  }

  lemma LogAppend(log: seq<Event>, e: Event)
    ensures forall id :: IsOut(log + [e], id) <==> e == Out(id) || (e != Back(id) && IsOut(log, id))
    ensures forall j :: 0 <= j < |log| ==> (log + [e])[..j] == log[..j]
    ensures (log + [e])[..|log|] == log
  {
    assert (log + [e])[..|log|] == log;
  }

  // An id goes elsewhere, held there or not.
  lemma MoveKeepsIds(s: State, id: nat, there: Place, held: nat)
    requires IdsOk(s.maxId, s.place, s.nextFree, s.holds)
    requires id in s.place && (held > 0 <==> there.Held?)
    ensures IdsOk(s.maxId, s.place[id := there], s.nextFree, s.holds[id := held])
    ensures s.holds[id] == held ==> s.holds[id := held] == s.holds
    ensures s.place[id] == there ==> s.place[id := there] == s.place
  {
  }

  lemma GrowKeepsIds(s: State, t: nat)
    requires IdsOk(s.maxId, s.place, s.nextFree, s.holds)
    ensures var id := s.maxId + 1;
      IdsOk(id, s.place[id := Transit(t)], s.nextFree[id := 0], s.holds[id := 0])
  {
  }

  lemma StepKeepsIds(s: State, a: Action)
    requires Enabled(s, a) && IdsOk(s.maxId, s.place, s.nextFree, s.holds)
    requires ThreadOk(a.t, PcOf(s, a.t), s.top, s.place, s.nextFree)
    ensures var s' := Step(true, s, a); IdsOk(s'.maxId, s'.place, s'.nextFree, s'.holds)
  {
    match a {
      case Pop(t, _) => MoveKeepsIds(s, PcOf(s, t).top.index, Transit(t), 0);
      case Grow(t) => GrowKeepsIds(s, t);
      case Finish(t) => MoveKeepsIds(s, PcOf(s, t).id, Held, 1);
      case Hold(t, id) => MoveKeepsIds(s, id, Held, s.holds[id] + 1);
      case Release(t, id) =>
        if s.holds[id] == 1 {
          MoveKeepsIds(s, id, Transit(t), 0);
        } else {
          MoveKeepsIds(s, id, Held, s.holds[id] - 1);
        }
      case Push(t, _) => MoveKeepsIds(s, PcOf(s, t).id, InChain(|s.chain|), 0);
      case _ =>
    }
  }

  lemma PopKeepsChain(top: Word, chain: seq<nat>, place: map<nat, Place>, nextFree: map<nat, nat>, t: nat)
    requires ChainOk(top, chain, place, nextFree) && chain != []
    ensures LinkOk(chain, nextFree, |chain| - 1)
    ensures ChainOk(Word(nextFree[top.index], top.pops + 1), chain[..|chain| - 1],
                    place[top.index := Transit(t)], nextFree)
  {
    var chain' := chain[..|chain| - 1];
    forall k | 0 <= k < |chain'| ensures LinkOk(chain', nextFree, k) {
      assert LinkOk(chain, nextFree, k);
    }
    assert LinkOk(chain, nextFree, |chain| - 1);
  }

  lemma PushKeepsChain(top: Word, chain: seq<nat>, place: map<nat, Place>, nextFree: map<nat, nat>, id: nat)
    requires ChainOk(top, chain, place, nextFree)
    requires id in place && !place[id].InChain? && id in nextFree && nextFree[id] == top.index
    ensures ChainOk(Word(id, top.pops), chain + [id], place[id := InChain(|chain|)], nextFree)
  {
    forall k | 0 <= k < |chain + [id]| ensures LinkOk(chain + [id], nextFree, k) {
      if k < |chain| {
        assert LinkOk(chain, nextFree, k);
      }
    }
  }

  // Writing to an entry that is not in the free list leaves the free list as it was.
  lemma WriteKeepsChain(top: Word, chain: seq<nat>, place: map<nat, Place>, place': map<nat, Place>,
                        nextFree: map<nat, nat>, nextFree': map<nat, nat>, id: nat)
    requires ChainOk(top, chain, place, nextFree)
    requires id in place ==> !place[id].InChain?
    requires id in place' && !place'[id].InChain? && place' == place[id := place'[id]]
    requires nextFree' == nextFree || (id in nextFree' && nextFree' == nextFree[id := nextFree'[id]])
    ensures ChainOk(top, chain, place', nextFree')
  {
    forall k | 0 <= k < |chain| ensures LinkOk(chain, nextFree', k) {
      assert LinkOk(chain, nextFree, k);
      assert k > 0 ==> LinkOk(chain, nextFree, k - 1);
    }
  }

  lemma PopStepKeepsChain(s: State, a: Action)
    requires a.Pop?
    requires Enabled(s, a) && IdsOk(s.maxId, s.place, s.nextFree, s.holds)
    requires ChainOk(s.top, s.chain, s.place, s.nextFree)
    requires ThreadOk(a.t, PcOf(s, a.t), s.top, s.place, s.nextFree)
    ensures var s' := Step(true, s, a); ChainOk(s'.top, s'.chain, s'.place, s'.nextFree)
  {
    if !a.spurious && PcOf(s, a.t).top == s.top {
      PopKeepsChain(s.top, s.chain, s.place, s.nextFree, a.t);
    }
  }

  lemma PushStepKeepsChain(s: State, a: Action)
    requires a.Push?
    requires Enabled(s, a) && IdsOk(s.maxId, s.place, s.nextFree, s.holds)
    requires ChainOk(s.top, s.chain, s.place, s.nextFree)
    requires ThreadOk(a.t, PcOf(s, a.t), s.top, s.place, s.nextFree)
    ensures var s' := Step(true, s, a); ChainOk(s'.top, s'.chain, s'.place, s'.nextFree)
  {
    var FreeLinked(id, top) := PcOf(s, a.t);
    if !a.spurious && top == s.top {
      PushKeepsChain(s.top, s.chain, s.place, s.nextFree, id);
    }
  }

  lemma StepKeepsChain(s: State, a: Action)
    requires Enabled(s, a) && IdsOk(s.maxId, s.place, s.nextFree, s.holds)
    requires ChainOk(s.top, s.chain, s.place, s.nextFree)
    requires ThreadOk(a.t, PcOf(s, a.t), s.top, s.place, s.nextFree)
    ensures var s' := Step(true, s, a); ChainOk(s'.top, s'.chain, s'.place, s'.nextFree)
  {
    var s' := Step(true, s, a);
    match a {
      case Pop(t, spurious) => PopStepKeepsChain(s, a);
      case Push(t, spurious) => PushStepKeepsChain(s, a);
      case Grow(t) => WriteKeepsChain(s.top, s.chain, s.place, s'.place, s.nextFree, s'.nextFree, s'.maxId);
      case Link(t) => WriteKeepsChain(s.top, s.chain, s.place, s'.place, s.nextFree, s'.nextFree, PcOf(s, t).id);
      case Finish(t) => WriteKeepsChain(s.top, s.chain, s.place, s'.place, s.nextFree, s'.nextFree, PcOf(s, t).id);
      case Release(t, id) =>
        if s.holds[id] == 1 {
          WriteKeepsChain(s.top, s.chain, s.place, s'.place, s.nextFree, s'.nextFree, id);
        }
      case _ =>
    }
  }

  lemma StepKeepsThisThread(s: State, a: Action)
    requires Enabled(s, a) && IdsOk(s.maxId, s.place, s.nextFree, s.holds)
    requires ChainOk(s.top, s.chain, s.place, s.nextFree)
    requires ThreadOk(a.t, PcOf(s, a.t), s.top, s.place, s.nextFree)
    ensures var s' := Step(true, s, a); ThreadOk(a.t, PcOf(s', a.t), s'.top, s'.place, s'.nextFree)
  {
  }

  // No step of one thread upsets what another thread relies on.
  lemma StepKeepsOtherThread(s: State, a: Action, t: nat)
    requires t != a.t && Enabled(s, a) && IdsOk(s.maxId, s.place, s.nextFree, s.holds)
    requires ThreadOk(a.t, PcOf(s, a.t), s.top, s.place, s.nextFree)
    requires ThreadOk(t, PcOf(s, t), s.top, s.place, s.nextFree)
    ensures var s' := Step(true, s, a); ThreadOk(t, PcOf(s', t), s'.top, s'.place, s'.nextFree)
  {
    assert PcOf(Step(true, s, a), t) == PcOf(s, t);
  }

  lemma StepKeepsLog(s: State, a: Action)
    requires Enabled(s, a) && LogOk(s.log, s.place) && IdsOk(s.maxId, s.place, s.nextFree, s.holds)
    requires ThreadOk(a.t, PcOf(s, a.t), s.top, s.place, s.nextFree)
    ensures var s' := Step(true, s, a); LogOk(s'.log, s'.place)
  {
    if a.Finish? {
      LogAppend(s.log, Out(PcOf(s, a.t).id));
    } else if a.Release? {
      LogAppend(s.log, Back(a.id));
    }
  }

  lemma StepKeepsTransit(s: State, a: Action)
    requires Enabled(s, a) && TransitOk(s) && IdsOk(s.maxId, s.place, s.nextFree, s.holds)
    requires ThreadOk(a.t, PcOf(s, a.t), s.top, s.place, s.nextFree)
    ensures TransitOk(Step(true, s, a))
  {
  }

  lemma StepKeepsInv(s: State, a: Action)
    requires Inv(s) && Enabled(s, a)
    ensures Inv(Step(true, s, a))
  {
    var s' := Step(true, s, a);
    assert ThreadOk(a.t, PcOf(s, a.t), s.top, s.place, s.nextFree);
    StepKeepsIds(s, a);
    StepKeepsChain(s, a);
    StepKeepsLog(s, a);
    StepKeepsTransit(s, a);
    forall t | t in s'.pcs ensures ThreadOk(t, s'.pcs[t], s'.top, s'.place, s'.nextFree) {
      if t == a.t {
        StepKeepsThisThread(s, a);
      } else {
        assert ThreadOk(t, PcOf(s, t), s.top, s.place, s.nextFree);
        StepKeepsOtherThread(s, a, t);
      }
    }
  }

  // ----- whole runs ------------------------------------------------------------------

  lemma {:induction false} RunKeepsInv(s: State, run: seq<Action>)
    requires Inv(s) && CanRun(true, s, run)
    ensures Inv(After(true, s, run))
    decreases |run|
  {
    if run != [] {
      StepKeepsInv(s, run[0]);
      RunKeepsInv(Step(true, s, run[0]), run[1..]);
    }
  }

  // Following m_next_free from `head` visits exactly `list`, last element first, and ends.
  ghost predicate Walk(head: nat, nextFree: map<nat, nat>, list: seq<nat>)
    decreases |list|
  {
    if list == [] then head == 0
    else
      && head == list[|list| - 1] && head in nextFree
      && Walk(nextFree[head], nextFree, list[..|list| - 1])
  }

  lemma {:induction false} ChainWalk(chain: seq<nat>, nextFree: map<nat, nat>, k: nat)
    requires k <= |chain|
    requires forall i :: 0 <= i < |chain| ==> LinkOk(chain, nextFree, i)
    ensures Walk(if k == 0 then 0 else chain[k - 1], nextFree, chain[..k])
  {
    if k > 0 {
      assert LinkOk(chain, nextFree, k - 1);
      assert chain[..k][..k - 1] == chain[..k - 1];
      ChainWalk(chain, nextFree, k - 1);
    }
  }

  ghost predicate Carries(s: State, t: nat, id: nat) {
    CarriedBy(PcOf(s, t)) == id
  }

  lemma CarriedIsInTransit(s: State, t: nat)
    requires Inv(s) && CarriedBy(PcOf(s, t)) != 0
    ensures CarriedBy(PcOf(s, t)) in s.place && s.place[CarriedBy(PcOf(s, t))] == Transit(t)
  {
    assert ThreadOk(t, PcOf(s, t), s.top, s.place, s.nextFree);
  }

  // An id is on the list, held by a caller, or carried by some thread, and only one of these.
  ghost predicate InOnePlace(s: State, list: seq<nat>, id: nat) {
    && id in s.holds
    && (id in list ==> s.holds[id] == 0)
    && (id in list || s.holds[id] > 0 <==> forall t :: !Carries(s, t, id))
  }

  lemma EveryIdIsSomewhere(s: State, id: nat)
    requires Inv(s) && 1 <= id <= s.maxId
    ensures InOnePlace(s, s.chain, id)
  {
    match s.place[id] {
      case InChain(pos) =>
        assert s.chain[pos] == id;
        forall t ensures !Carries(s, t, id) {
          if Carries(s, t, id) { CarriedIsInTransit(s, t); }
        }
      case Held =>
        forall t ensures !Carries(s, t, id) {
          if Carries(s, t, id) { CarriedIsInTransit(s, t); }
        }
      case Transit(t) => assert Carries(s, t, id);
    }
  }

  ghost predicate Distinct(ids: seq<nat>) {
    forall i, j :: 0 <= i < j < |ids| ==> ids[i] != ids[j]
  }

  lemma ChainIsDistinct(s: State)
    requires Inv(s)
    ensures Walk(s.top.index, s.nextFree, s.chain) && Distinct(s.chain)
    ensures forall id :: id in s.chain ==> 1 <= id <= s.maxId
  {
    ChainWalk(s.chain, s.nextFree, |s.chain|);
    assert s.chain[..|s.chain|] == s.chain;
  }

  lemma CarriedByOne(s: State)
    requires Inv(s)
    ensures forall id, t, u :: id != 0 && Carries(s, t, id) && Carries(s, u, id) ==> t == u
  {
    forall id, t, u | id != 0 && Carries(s, t, id) && Carries(s, u, id) ensures t == u {
      CarriedIsInTransit(s, t);
      CarriedIsInTransit(s, u);
    }
  }

  // In every reachable state the walk from m_free_id is finite and free of duplicates,
  // and each id ever created is in exactly one of three places: on that walk, held by a
  // caller, or carried by exactly one thread inside alloc_entry or free_entry.
  lemma FreeListIsSound(run: seq<Action>) returns (list: seq<nat>)
    requires CanRun(true, INIT, run)
    ensures var s := After(true, INIT, run);
      && Walk(s.top.index, s.nextFree, list) && Distinct(list)
      && (forall id :: id in list ==> 1 <= id <= s.maxId)
      && (forall id :: 1 <= id <= s.maxId ==> InOnePlace(s, list, id))
      && (forall id, t, u :: id != 0 && Carries(s, t, id) && Carries(s, u, id) ==> t == u)
  {
    RunKeepsInv(INIT, run);
    var s := After(true, INIT, run);
    list := s.chain;
    ChainIsDistinct(s);
    CarriedByOne(s);
    forall id | 1 <= id <= s.maxId ensures InOnePlace(s, list, id) {
      EveryIdIsSomewhere(s, id);
    }
  }

  lemma {:induction false} OutUntilBack(log: seq<Event>, i: nat, j: nat)
    requires i < j <= |log| && log[i].Out?
    requires forall k :: i < k < j ==> log[k] != Back(log[i].id)
    ensures IsOut(log[..j], log[i].id)
    decreases j
  {
    assert log[..j][..j - 1] == log[..j - 1];
    if i < j - 1 {
      OutUntilBack(log, i, j - 1);
    }
  }

  // No id is handed out twice unless it was given back in between.
  ghost predicate HandsOutOnce(counted: bool, run: seq<Action>, i: nat, j: nat)
    requires CanRun(counted, INIT, run)
  {
    var log := After(counted, INIT, run).log;
    i < j < |log| && log[i].Out? && log[j] == log[i] ==> exists k :: i < k < j && log[k] == Back(log[i].id)
  }

  lemma NoDoubleHandout(run: seq<Action>, i: nat, j: nat)
    requires CanRun(true, INIT, run)
    ensures HandsOutOnce(true, run, i, j)
  {
    RunKeepsInv(INIT, run);
    var log := After(true, INIT, run).log;
    if i < j < |log| && log[i].Out? && log[j] == log[i] && forall k :: i < k < j ==> log[k] != Back(log[i].id) {
      OutUntilBack(log, i, j);
      assert false;
    }
  }

  // ----- why the pop counter is there ---------------------------------------------------

  // `run` leads from the start to s.
  ghost predicate Leads(counted: bool, run: seq<Action>, s: State) {
    CanRun(counted, INIT, run) && After(counted, INIT, run) == s
  }

  lemma {:induction false} RunSnoc(counted: bool, s: State, run: seq<Action>, a: Action)
    requires CanRun(counted, s, run) && Enabled(After(counted, s, run), a)
    ensures CanRun(counted, s, run + [a])
    ensures After(counted, s, run + [a]) == Step(counted, After(counted, s, run), a)
    decreases |run|
  {
    if run == [] {
      assert run + [a] == [a];
      assert [a][1..] == [];
    } else {
      assert (run + [a])[0] == run[0] && (run + [a])[1..] == run[1..] + [a];
      RunSnoc(counted, Step(counted, s, run[0]), run[1..], a);
    }
  }

  lemma Extend(counted: bool, run: seq<Action>, s: State, a: Action) returns (run': seq<Action>, s': State)
    requires Leads(counted, run, s) && Enabled(s, a)
    ensures Leads(counted, run', s') && s' == Step(counted, s, a)
  {
    RunSnoc(counted, INIT, run, a);
    run', s' := run + [a], Step(counted, s, a);
  }

  // An undisturbed alloc_entry that finds the free list empty.
  lemma AllocFresh(counted: bool, run: seq<Action>, s: State, t: nat) returns (run': seq<Action>, s': State)
    requires Leads(counted, run, s) && PcOf(s, t).Idle? && s.top.index == 0
    ensures Leads(counted, run', s')
    ensures s'.top == s.top && s'.maxId == s.maxId + 1
    ensures s'.nextFree == s.nextFree[s'.maxId := 0] && s'.holds == s.holds[s'.maxId := 1]
    ensures s'.pcs == s.pcs[t := Idle] && s'.log == s.log + [Out(s'.maxId)]
  {
    run', s' := Extend(counted, run, s, Load(t));
    assert PcOf(s', t) == AllocLoaded(s.top);
    run', s' := Extend(counted, run', s', Grow(t));
    assert PcOf(s', t) == AllocFinish(s.maxId + 1);
    assert s'.holds == s.holds[s.maxId + 1 := 0];
    run', s' := Extend(counted, run', s', Finish(t));
  }

  // The start of an alloc_entry by thread t, up to the moment it has read m_next_free.
  lemma AllocPeek(counted: bool, run: seq<Action>, s: State, t: nat) returns (run': seq<Action>, s': State)
    requires Leads(counted, run, s) && PcOf(s, t).Idle? && s.top.index in s.nextFree
    ensures Leads(counted, run', s')
    ensures s' == Goto(s, t, AllocRead(s.top, s.nextFree[s.top.index]))
  {
    run', s' := Extend(counted, run, s, Load(t));
    run', s' := Extend(counted, run', s', ReadNext(t));
  }

  // The rest of that alloc_entry, if its compare-and-swap succeeds.
  lemma AllocPop(counted: bool, run: seq<Action>, s: State, t: nat) returns (run': seq<Action>, s': State)
    requires Leads(counted, run, s) && PcOf(s, t).AllocRead? && Same(counted, PcOf(s, t).top, s.top)
    ensures Leads(counted, run', s')
    ensures var AllocRead(top, next) := PcOf(s, t);
      && s'.top == Word(next, top.pops + 1) && s'.holds == s.holds[top.index := 1]
      && s'.log == s.log + [Out(top.index)]
    ensures s'.maxId == s.maxId && s'.nextFree == s.nextFree && s'.pcs == s.pcs[t := Idle]
  {
    run', s' := Extend(counted, run, s, Pop(t, false));
    run', s' := Extend(counted, run', s', Finish(t));
  }

  // An undisturbed free of an id held once.
  lemma FreeHeld(counted: bool, run: seq<Action>, s: State, t: nat, id: nat) returns (run': seq<Action>, s': State)
    requires Leads(counted, run, s) && PcOf(s, t).Idle? && id in s.holds && s.holds[id] == 1
    ensures Leads(counted, run', s')
    ensures s'.top == Word(id, s.top.pops) && s'.maxId == s.maxId
    ensures s'.nextFree == s.nextFree[id := s.top.index] && s'.holds == s.holds[id := 0]
    ensures s'.pcs == s.pcs[t := Idle] && s'.log == s.log + [Back(id)]
  {
    run', s' := Extend(counted, run, s, Release(t, id));
    run', s' := Extend(counted, run', s', LoadForFree(t));
    run', s' := Extend(counted, run', s', Link(t));
    run', s' := Extend(counted, run', s', Push(t, false));
  }

  // Ids 1 and 2 are in the free list, 1 on top, and thread 9 has seen just that.
  lemma InterruptedAlloc() returns (run: seq<Action>, s: State)
    ensures Leads(false, run, s)
    ensures s.top.index == 1 && s.nextFree == map[1 := 2, 2 := 0] && s.holds == map[1 := 0, 2 := 0]
    ensures PcOf(s, 1).Idle? && PcOf(s, 9).AllocRead? && PcOf(s, 9).top.index == 1 && PcOf(s, 9).next == 2
  {
    run, s := [], INIT;
    run, s := AllocFresh(false, run, s, 1);
    run, s := AllocFresh(false, run, s, 1);
    run, s := FreeHeld(false, run, s, 1, 2);
    run, s := FreeHeld(false, run, s, 1, 1);
    run, s := AllocPeek(false, run, s, 9);
  }

  // Meanwhile thread 1 takes 1 and 2, and puts 1 back.
  lemma ReusedTop() returns (run: seq<Action>, s: State, i: nat)
    ensures Leads(false, run, s)
    ensures s.top.index == 1 && s.nextFree == map[1 := 0, 2 := 0] && s.holds == map[1 := 0, 2 := 1]
    ensures PcOf(s, 1).Idle? && PcOf(s, 9).AllocRead? && PcOf(s, 9).top.index == 1 && PcOf(s, 9).next == 2
    ensures |s.log| == i + 2 && s.log[i..] == [Out(2), Back(1)]
  {
    run, s := InterruptedAlloc();
    run, s := AllocPeek(false, run, s, 1);
    run, s := AllocPop(false, run, s, 1);
    run, s := AllocPeek(false, run, s, 1);
    i := |s.log|;
    run, s := AllocPop(false, run, s, 1);
    run, s := FreeHeld(false, run, s, 1, 1);
  }

  // Without the pop counter one interrupted alloc_entry installs a stale m_next_free:
  // id 2 is handed out twice in a row.
  lemma UncountedListDoublesAnId() returns (run: seq<Action>, i: nat, j: nat)
    ensures CanRun(false, INIT, run)
    ensures var log := After(false, INIT, run).log;
      && i < j < |log| && log[i] == log[j] == Out(2)
      && forall k :: i < k < j ==> log[k] != Back(2)
  {
    var s;
    run, s, i := ReusedTop();
    assert s.log[i..][0] == s.log[i] && s.log[i..][1] == s.log[i + 1];
    run, s := AllocPop(false, run, s, 9);        // thread 9 takes 1 and installs 2
    run, s := AllocPeek(false, run, s, 1);
    run, s := AllocPop(false, run, s, 1);        // 2 is handed out while it is held
    j := i + 3;
  }

  // It is exactly the pop counter that keeps an id from being handed out twice.
  lemma CounterIsWhatMatters(counted: bool)
    ensures counted <==> forall run, i, j :: CanRun(counted, INIT, run) ==> HandsOutOnce(counted, run, i, j)
  {
    if counted {
      forall run, i, j | CanRun(counted, INIT, run) ensures HandsOutOnce(counted, run, i, j) {
        NoDoubleHandout(run, i, j);
      }
    } else {
      var run, i, j := UncountedListDoublesAnId();
      assert !HandsOutOnce(counted, run, i, j);
    }
  }

  // ----- where an id lives ----------------------------------------------------------------

  // The three table coordinates of an id: its low three bytes.
  function IndexToXyz(i: nat): (nat, nat, nat) {
    (i / 65536 % 256, i / 256 % 256, i % 256)
  }

  lemma XyzSpell(i: nat)
    ensures var (x, y, z) := IndexToXyz(i);
      x < 256 && y < 256 && z < 256 && 65536 * x + 256 * y + z == i % 0x100_0000
  {
    var q := i / 256;
    var r := q / 256;
    var p := r / 256;
    assert i == 256 * q + i % 256 && q == 256 * r + q % 256 && r == 256 * p + r % 256;
    assert i / 65536 == r by {
      assert i == 65536 * r + (256 * (q % 256) + i % 256);
    }
    assert i == 0x100_0000 * p + (65536 * (r % 256) + 256 * (q % 256) + i % 256);
  }

  // Two ids share a cell exactly when they agree modulo 2^24, so never below 2^24.
  lemma CellsAreDistinct(i: nat, j: nat)
    ensures IndexToXyz(i) == IndexToXyz(j) <==> i % 0x100_0000 == j % 0x100_0000
  {
    XyzSpell(i);
    XyzSpell(j);
  }
}
