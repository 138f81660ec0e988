// The same free list with its entries where the code has them: in cells of a table of 256
// by 256 by 256, found by the low three bytes of an id. A thread that frees knows the cell,
// and reads the id from it.
module TableCells {
  import opened SharedTable

  type Cell = (nat, nat, nat)

  // The ids that have cells of their own.
  const ROOM := 0x100_0000

  // Memory that was never written is zero.
  datatype Entry = Entry(index: nat, next: nat, holds: nat)

  const ZERO := Entry(0, 0, 0)

  datatype Work =
    | Resting
    | Loaded(top: Word)
    | Read(top: Word, next: nat)
    | Won(id: nat)
    | Released(cell: Cell)
    | Linking(cell: Cell, id: nat, top: Word)
    | Linked(cell: Cell, id: nat, top: Word)

  datatype Table = Table(top: Word, maxId: nat, cells: map<Cell, Entry>, works: map<nat, Work>, log: seq<Event>)

  const EMPTY := Table(Word(0, 0), 0, map[], map[], [])

  function At(c: Table, cell: Cell): Entry {
    if cell in c.cells then c.cells[cell] else ZERO
  }

  function WorkOf(c: Table, t: nat): Work {
    if t in c.works then c.works[t] else Resting
  }

  predicate Allowed(c: Table, a: Action) {
    match a
    case Load(t) => WorkOf(c, t).Resting?
    case ReadNext(t) => WorkOf(c, t).Loaded? && WorkOf(c, t).top.index != 0
    case Pop(t, _) => WorkOf(c, t).Read?
    case Grow(t) => WorkOf(c, t).Loaded? && WorkOf(c, t).top.index == 0
    case Finish(t) => WorkOf(c, t).Won?
    case Hold(t, id) => WorkOf(c, t).Resting? && 1 <= id <= c.maxId && At(c, IndexToXyz(id)).holds > 0
    case Release(t, id) => WorkOf(c, t).Resting? && 1 <= id <= c.maxId && At(c, IndexToXyz(id)).holds > 0
    case LoadForFree(t) => WorkOf(c, t).Released?
    case Link(t) => WorkOf(c, t).Linking?
    case Push(t, _) => WorkOf(c, t).Linked?
  }

  function Turn(c: Table, t: nat, work: Work): Table {
    c.(works := c.works[t := work])
  }

  function Put(c: Table, cell: Cell, e: Entry): Table {
    c.(cells := c.cells[cell := e])
  }

  function Do(c: Table, a: Action): Table
    requires Allowed(c, a)
  {
    match a
    case Load(t) => Turn(c, t, Loaded(c.top))
    case ReadNext(t) =>
      var top := WorkOf(c, t).top;
      Turn(c, t, Read(top, At(c, IndexToXyz(top.index)).next))
    case Pop(t, spurious) =>
      var Read(top, next) := WorkOf(c, t);
      if !spurious && Same(true, top, c.top) then
        Turn(c, t, Won(top.index)).(top := Word(next, top.pops + 1))
      else
        Turn(c, t, Loaded(c.top))
    case Grow(t) => Turn(c, t, Won(c.maxId + 1)).(maxId := c.maxId + 1)
    case Finish(t) =>
      var id := WorkOf(c, t).id;
      var cell := IndexToXyz(id);
      Put(Turn(c, t, Resting), cell, Entry(id, At(c, cell).next, 1)).(log := c.log + [Out(id)])
    case Hold(t, id) =>
      var e := At(c, IndexToXyz(id));
      Put(c, IndexToXyz(id), e.(holds := e.holds + 1))
    case Release(t, id) =>
      var e := At(c, IndexToXyz(id));
      var c' := Put(c, IndexToXyz(id), e.(holds := e.holds - 1));
      if e.holds == 1 then Turn(c', t, Released(IndexToXyz(id))).(log := c.log + [Back(id)]) else c'
    case LoadForFree(t) =>
      var cell := WorkOf(c, t).cell;
      Turn(c, t, Linking(cell, At(c, cell).index, c.top))
    case Link(t) =>
      var Linking(cell, id, top) := WorkOf(c, t);
      Put(Turn(c, t, Linked(cell, id, top)), cell, At(c, cell).(next := top.index))
    case Push(t, spurious) =>
      var Linked(cell, id, top) := WorkOf(c, t);
      if !spurious && Same(true, top, c.top) then
        Turn(c, t, Resting).(top := Word(id, top.pops))
      else
        Turn(c, t, Linking(cell, id, c.top))
  }

  predicate Runs(c: Table, run: seq<Action>)
    decreases |run|
  {
    run == [] || (Allowed(c, run[0]) && Runs(Do(c, run[0]), run[1..]))
  }

  function End(c: Table, run: seq<Action>): Table
    requires Runs(c, run)
    decreases |run|
  {
    if run == [] then c else End(Do(c, run[0]), run[1..])
  }

  // ----- entries by cell are entries by id --------------------------------------------------

  predicate SameWork(pc: Pc, work: Work) {
    match pc
    case Idle => work == Resting
    case AllocLoaded(top) => work == Loaded(top)
    case AllocRead(top, next) => work == Read(top, next)
    case AllocFinish(id) => work == Won(id)
    case FreeReady(id) => work == Released(IndexToXyz(id))
    case FreeLoaded(id, top) => work == Linking(IndexToXyz(id), id, top)
    case FreeLinked(id, top) => work == Linked(IndexToXyz(id), id, top)
  }

  // An id whose entry has been set up.
  predicate SetUp(s: State, id: nat)
    requires id in s.place
  {
    !(s.place[id].Transit? && PcOf(s, s.place[id].thread).AllocFinish?)
  }

  ghost predicate SameEntry(s: State, c: Table, id: nat) {
    && id in s.place && id in s.nextFree && id in s.holds
    && At(c, IndexToXyz(id)).next == s.nextFree[id] && At(c, IndexToXyz(id)).holds == s.holds[id]
    && (SetUp(s, id) ==> At(c, IndexToXyz(id)).index == id)
  }

  ghost predicate Alike(s: State, c: Table) {
    && c.top == s.top && c.maxId == s.maxId <= ROOM && c.log == s.log
    && (forall t {:trigger PcOf(s, t)} {:trigger WorkOf(c, t)} :: SameWork(PcOf(s, t), WorkOf(c, t)))
    && (forall id {:trigger SameEntry(s, c, id)} :: 1 <= id <= s.maxId ==> SameEntry(s, c, id))
    && (forall id {:trigger IndexToXyz(id)} :: s.maxId < id <= ROOM ==> At(c, IndexToXyz(id)) == ZERO)
  }

  lemma CellsApart(i: nat, j: nat)
    requires 1 <= i <= ROOM && 1 <= j <= ROOM && i != j
    ensures IndexToXyz(i) != IndexToXyz(j)
  {
    CellsAreDistinct(i, j);
    if i == ROOM {
      assert i % ROOM == 0 && j % ROOM == j;
    } else if j == ROOM {
      assert j % ROOM == 0 && i % ROOM == i;
    } else {
      assert i % ROOM == i && j % ROOM == j;
    }
  }

  // Between the same action on both, and as long as there is room.
  ghost predicate Both(s: State, c: Table, a: Action) {
    Inv(s) && Alike(s, c) && Allowed(c, a) && Enabled(s, a) && Do(c, a).maxId <= ROOM
  }

  lemma AllowedIsEnabled(s: State, c: Table, a: Action)
    requires Inv(s) && Alike(s, c) && Allowed(c, a)
    ensures Enabled(s, a)
  {
    assert SameWork(PcOf(s, a.t), WorkOf(c, a.t));
    assert ThreadOk(a.t, PcOf(s, a.t), s.top, s.place, s.nextFree);
    if a.Hold? || a.Release? {
      assert SameEntry(s, c, a.id);
    }
  }

  // Other threads stay where they are.
  lemma OthersRest(s: State, c: Table, a: Action, t: nat)
    requires Allowed(c, a) && Enabled(s, a) && t != a.t
    ensures PcOf(Step(true, s, a), t) == PcOf(s, t) && WorkOf(Do(c, a), t) == WorkOf(c, t)
  {
  }

  lemma WorksAlike(s: State, c: Table, a: Action)
    requires Both(s, c, a) && SameWork(PcOf(Step(true, s, a), a.t), WorkOf(Do(c, a), a.t))
    ensures forall t {:trigger PcOf(Step(true, s, a), t)} {:trigger WorkOf(Do(c, a), t)} ::
      SameWork(PcOf(Step(true, s, a), t), WorkOf(Do(c, a), t))
  {
    var s', c' := Step(true, s, a), Do(c, a);
    forall t ensures SameWork(PcOf(s', t), WorkOf(c', t)) {
      if t != a.t {
        assert SameWork(PcOf(s, t), WorkOf(c, t));
        OthersRest(s, c, a, t);
      }
    }
  }

  // Steps that write to no entry.
  lemma LoadsAlike(s: State, c: Table, a: Action)
    requires Both(s, c, a) && (a.Load? || a.ReadNext? || a.LoadForFree?)
    ensures Alike(Step(true, s, a), Do(c, a))
  {
    var s', c' := Step(true, s, a), Do(c, a);
    assert SameWork(PcOf(s, a.t), WorkOf(c, a.t));
    assert ThreadOk(a.t, PcOf(s, a.t), s.top, s.place, s.nextFree);
    if a.ReadNext? {
      assert SameEntry(s, c, PcOf(s, a.t).top.index);
    }
    if a.LoadForFree? {
      assert SameEntry(s, c, PcOf(s, a.t).id);
    }
    WorksAlike(s, c, a);
    forall id | 1 <= id <= s'.maxId ensures SameEntry(s', c', id) {
      assert SameEntry(s, c, id);
    }
  }

  lemma SwapsAlike(s: State, c: Table, a: Action)
    requires Both(s, c, a) && (a.Pop? || a.Push?)
    ensures Alike(Step(true, s, a), Do(c, a))
  {
    var s', c' := Step(true, s, a), Do(c, a);
    assert SameWork(PcOf(s, a.t), WorkOf(c, a.t));
    assert ThreadOk(a.t, PcOf(s, a.t), s.top, s.place, s.nextFree);
    WorksAlike(s, c, a);
    forall id | 1 <= id <= s'.maxId ensures SameEntry(s', c', id) {
      assert SameEntry(s, c, id);
    }
  }

  lemma GrowsAlike(s: State, c: Table, a: Action)
    requires Both(s, c, a) && a.Grow?
    ensures Alike(Step(true, s, a), Do(c, a))
  {
    var s', c' := Step(true, s, a), Do(c, a);
    WorksAlike(s, c, a);
    forall id | 1 <= id <= s'.maxId ensures SameEntry(s', c', id) {
      if id <= s.maxId {
        assert SameEntry(s, c, id);
      }
    }
  }

  // What becomes of the entries when one is written.
  lemma EntriesAlike(s: State, c: Table, a: Action, id: nat)
    requires Both(s, c, a) && 1 <= id <= s.maxId
    requires var s', c' := Step(true, s, a), Do(c, a);
      && s'.maxId == s.maxId && SameEntry(s', c', id)
      && (forall cell :: cell != IndexToXyz(id) ==> At(c', cell) == At(c, cell))
      && (forall j :: j != id && SameEntry(s, c, j) && At(c', IndexToXyz(j)) == At(c, IndexToXyz(j)) ==>
           SameEntry(s', c', j))
    ensures var s', c' := Step(true, s, a), Do(c, a);
      && (forall j {:trigger SameEntry(s', c', j)} :: 1 <= j <= s'.maxId ==> SameEntry(s', c', j))
      && (forall j {:trigger IndexToXyz(j)} :: s'.maxId < j <= ROOM ==> At(c', IndexToXyz(j)) == ZERO)
  {
    var s', c' := Step(true, s, a), Do(c, a);
    forall j | 1 <= j <= ROOM && j != id ensures At(c', IndexToXyz(j)) == At(c, IndexToXyz(j)) {
      CellsApart(id, j);
    }
    forall j | 1 <= j <= s'.maxId ensures SameEntry(s', c', j) {
      assert SameEntry(s, c, j);
    }
  }

  lemma FinishesAlike(s: State, c: Table, a: Action)
    requires Both(s, c, a) && (a.Finish? || a.Link?)
    ensures Alike(Step(true, s, a), Do(c, a))
  {
    assert SameWork(PcOf(s, a.t), WorkOf(c, a.t));
    assert ThreadOk(a.t, PcOf(s, a.t), s.top, s.place, s.nextFree);
    var id := PcOf(s, a.t).id;
    assert SameEntry(s, c, id);
    WorksAlike(s, c, a);
    EntriesAlike(s, c, a, id);
  }

  lemma HoldsAlike(s: State, c: Table, a: Action)
    requires Both(s, c, a) && a.Hold?
    ensures Alike(Step(true, s, a), Do(c, a))
  {
    assert SameWork(PcOf(s, a.t), WorkOf(c, a.t));
    assert SameEntry(s, c, a.id);
    WorksAlike(s, c, a);
    EntriesAlike(s, c, a, a.id);
  }

  lemma ReleasesAlike(s: State, c: Table, a: Action)
    requires Both(s, c, a) && a.Release?
    ensures Alike(Step(true, s, a), Do(c, a))
  {
    assert SameWork(PcOf(s, a.t), WorkOf(c, a.t));
    assert SameEntry(s, c, a.id);
    WorksAlike(s, c, a);
    EntriesAlike(s, c, a, a.id);
  }

  lemma StepsAlike(s: State, c: Table, a: Action)
    requires Both(s, c, a)
    ensures Alike(Step(true, s, a), Do(c, a))
  {
    if a.Grow? {
      GrowsAlike(s, c, a);
    } else if a.Finish? || a.Link? {
      FinishesAlike(s, c, a);
    } else if a.Hold? {
      HoldsAlike(s, c, a);
    } else if a.Release? {
      ReleasesAlike(s, c, a);
    } else if a.Pop? || a.Push? {
      SwapsAlike(s, c, a);
    } else {
      LoadsAlike(s, c, a);
    }
  }

  lemma {:induction false} MaxIdGrows(c: Table, run: seq<Action>)
    requires Runs(c, run)
    ensures c.maxId <= End(c, run).maxId
    decreases |run|
  {
    if run != [] {
      MaxIdGrows(Do(c, run[0]), run[1..]);
    }
  }

  lemma {:induction false} RunsAlike(s: State, c: Table, run: seq<Action>)
    requires Inv(s) && Alike(s, c) && Runs(c, run) && End(c, run).maxId <= ROOM
    ensures CanRun(true, s, run) && Inv(After(true, s, run)) && Alike(After(true, s, run), End(c, run))
    decreases |run|
  {
    if run != [] {
      AllowedIsEnabled(s, c, run[0]);
      MaxIdGrows(Do(c, run[0]), run[1..]);
      StepsAlike(s, c, run[0]);
      StepKeepsInv(s, run[0]);
      RunsAlike(Step(true, s, run[0]), Do(c, run[0]), run[1..]);
    }
  }

  // ----- as long as there is room ------------------------------------------------------------

  // Following m_next_free through the cells visits exactly `list`, last first, and ends.
  ghost predicate Visits(c: Table, head: nat, list: seq<nat>)
    decreases |list|
  {
    if list == [] then head == 0
    else head == list[|list| - 1] && Visits(c, At(c, IndexToXyz(head)).next, list[..|list| - 1])
  }

  lemma {:induction false} WalkVisits(s: State, c: Table, head: nat, list: seq<nat>)
    requires Alike(s, c) && s.nextFree.Keys == s.place.Keys && (forall id :: id in s.place <==> 1 <= id <= s.maxId)
    requires Walk(head, s.nextFree, list)
    ensures Visits(c, head, list)
    decreases |list|
  {
    if list != [] {
      assert SameEntry(s, c, head);
      WalkVisits(s, c, s.nextFree[head], list[..|list| - 1]);
    }
  }

  // Which id a thread has in its hands.
  function InHands(c: Table, t: nat): nat {
    match WorkOf(c, t)
    case Won(id) => id
    case Released(cell) => At(c, cell).index
    case Linking(_, id, _) => id
    case Linked(_, id, _) => id
    case _ => 0
  }

  ghost predicate Somewhere(c: Table, list: seq<nat>, id: nat) {
    && (id in list ==> At(c, IndexToXyz(id)).holds == 0)
    && (id in list || At(c, IndexToXyz(id)).holds > 0 <==> forall t :: InHands(c, t) != id)
  }

  lemma SameHands(s: State, c: Table, t: nat)
    requires Inv(s) && Alike(s, c)
    ensures InHands(c, t) == CarriedBy(PcOf(s, t))
  {
    assert SameWork(PcOf(s, t), WorkOf(c, t));
    assert ThreadOk(t, PcOf(s, t), s.top, s.place, s.nextFree);
    if PcOf(s, t).FreeReady? {
      assert SameEntry(s, c, PcOf(s, t).id);
    }
  }

  // While there is room, the list in the cells is finite and free of duplicates, and each id
  // is in exactly one place.
  lemma CellListIsSound(run: seq<Action>) returns (list: seq<nat>)
    requires Runs(EMPTY, run) && End(EMPTY, run).maxId <= ROOM
    ensures var c := End(EMPTY, run);
      && Visits(c, c.top.index, list) && Distinct(list)
      && (forall id :: id in list ==> 1 <= id <= c.maxId)
      && (forall id :: 1 <= id <= c.maxId ==> Somewhere(c, list, id))
      && (forall t, u :: InHands(c, t) == InHands(c, u) != 0 ==> t == u)
  {
    RunsAlike(INIT, EMPTY, run);
    var s, c := After(true, INIT, run), End(EMPTY, run);
    list := FreeListIsSound(run);
    WalkVisits(s, c, s.top.index, list);
    forall t ensures InHands(c, t) == CarriedBy(PcOf(s, t)) {
      SameHands(s, c, t);
    }
    forall id | 1 <= id <= c.maxId ensures Somewhere(c, list, id) {
      assert SameEntry(s, c, id) && InOnePlace(s, list, id);
      assert forall t :: Carries(s, t, id) <==> InHands(c, t) == id;
    }
    forall t, u | InHands(c, t) == InHands(c, u) != 0 ensures t == u {
      assert Carries(s, t, InHands(c, t)) && Carries(s, u, InHands(c, t));
    }
  }

  // No id is handed out twice unless it was given back in between.
  ghost predicate OnceInCells(run: seq<Action>, i: nat, j: nat)
    requires Runs(EMPTY, run)
  {
    var log := End(EMPTY, run).log;
    i < j < |log| && log[i].Out? && log[j] == log[i] ==> exists k :: i < k < j && log[k] == Back(log[i].id)
  }

  lemma NoDoubleCell(run: seq<Action>, i: nat, j: nat)
    requires Runs(EMPTY, run) && End(EMPTY, run).maxId <= ROOM
    ensures OnceInCells(run, i, j)
  {
    RunsAlike(INIT, EMPTY, run);
    NoDoubleHandout(run, i, j);
    assert HandsOutOnce(true, run, i, j);
  }

  // ----- and when there is none ------------------------------------------------------------

  ghost predicate Ends(run: seq<Action>, c: Table) {
    Runs(EMPTY, run) && End(EMPTY, run) == c
  }

  lemma {:induction false} OneMore(c: Table, run: seq<Action>, a: Action)
    requires Runs(c, run) && Allowed(End(c, run), a)
    ensures Runs(c, run + [a]) && End(c, run + [a]) == Do(End(c, run), a)
    decreases |run|
  {
    if run == [] {
      assert run + [a] == [a] && [a][1..] == [];
    } else {
      assert (run + [a])[0] == run[0] && (run + [a])[1..] == run[1..] + [a];
      OneMore(Do(c, run[0]), run[1..], a);
    }
  }

  lemma Extended(run: seq<Action>, c: Table, a: Action) returns (run': seq<Action>, c': Table)
    requires Ends(run, c) && Allowed(c, a)
    ensures Ends(run', c') && c' == Do(c, a)
  {
    OneMore(EMPTY, run, a);
    run', c' := run + [a], Do(c, a);
  }

  // n allocations of one thread, one after the other, and nothing freed.
  lemma {:induction false} AllocMany(n: nat) returns (run: seq<Action>, c: Table)
    ensures Ends(run, c) && c.top == Word(0, 0) && c.maxId == n && WorkOf(c, 0) == Resting
    ensures |c.log| == n && forall i :: 0 <= i < n ==> c.log[i] == Out(i + 1)
    ensures n > 0 ==> At(c, IndexToXyz(n)).index == n && At(c, IndexToXyz(n)).holds == 1
  {
    if n == 0 {
      run, c := [], EMPTY;
    } else {
      run, c := AllocMany(n - 1);
      run, c := Extended(run, c, Load(0));
      run, c := Extended(run, c, Grow(0));
      run, c := Extended(run, c, Finish(0));
    }
  }

  // Id 1 is released once its cell is also that of another id: what is freed is the other.
  lemma FreesAnother() returns (run: seq<Action>, c: Table)
    ensures Ends(run, c) && c.top == Word(ROOM + 1, 0) && c.maxId == ROOM + 1 && WorkOf(c, 0) == Resting
    ensures |c.log| == ROOM + 2 && c.log[ROOM] == Out(ROOM + 1) && c.log[ROOM + 1] == Back(1)
  {
    CellsAreDistinct(1, ROOM + 1);
    run, c := AllocMany(ROOM + 1);
    run, c := Extended(run, c, Release(0, 1));
    run, c := Extended(run, c, LoadForFree(0));
    run, c := Extended(run, c, Link(0));
    run, c := Extended(run, c, Push(0, false));
  }

  lemma FullTableDoublesAnId() returns (run: seq<Action>, c: Table)
    ensures Ends(run, c) && c.maxId == ROOM + 1
    ensures |c.log| == ROOM + 3 && c.log[ROOM] == Out(ROOM + 1) == c.log[ROOM + 2] && c.log[ROOM + 1] == Back(1)
  {
    run, c := FreesAnother();
    run, c := Extended(run, c, Load(0));
    run, c := Extended(run, c, ReadNext(0));
    run, c := Extended(run, c, Pop(0, false));
    run, c := Extended(run, c, Finish(0));
  }

  // Ids are handed out once at a time exactly as long as there are no more than 2^24 of them.
  lemma RoomIsExact(n: nat)
    ensures n <= ROOM <==>
      forall run, i, j :: Runs(EMPTY, run) && End(EMPTY, run).maxId <= n ==> OnceInCells(run, i, j)
  {
    if n <= ROOM {
      forall run, i, j | Runs(EMPTY, run) && End(EMPTY, run).maxId <= n ensures OnceInCells(run, i, j) {
        NoDoubleCell(run, i, j);
      }
    } else {
      var run, c := FullTableDoublesAnId();
      assert !OnceInCells(run, ROOM, ROOM + 2);
    }
  }
}
