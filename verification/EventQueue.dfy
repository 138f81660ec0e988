// The lock-free event queue (src/event-queue.cpp), as a machine whose steps are the
// individual atomic loads and compare-and-swaps of any number of threads on any number
// of queues. Nodes come from one pool shared by all queues; that the pool never hands
// out a node twice without a free in between is proved in module SharedTable.
//
// History variables, which no step tests: `nodes` (every node ever linked to a queue),
// `enqueued` and `dequeued` (the events in the order they went in and came out), and
// `owner` (what each node taken from the pool is used for).
module EventQueue {

  type Event = int

  // SharedEventPtr: a node index, 0 for null, and a modification count.
  datatype Ptr = Ptr(index: nat, count: nat)

  datatype Queue = Queue(head: Ptr, tail: Ptr, nodes: seq<nat>, enqueued: seq<Event>, dequeued: seq<Event>)

  datatype Pc =
    | Idle
    // enqueue, with its own node and event
    | EnqStart(q: nat, node: nat, event: Event)
    | EnqTail(q: nat, node: nat, event: Event, tail: Ptr)
    | EnqNext(q: nat, node: nat, event: Event, tail: Ptr, next: Ptr)
    | EnqLink(q: nat, node: nat, event: Event, tail: Ptr, next: Ptr)
    | EnqHelp(q: nat, node: nat, event: Event, tail: Ptr, next: Ptr)
    | EnqSwing(q: nat, node: nat, tail: Ptr)
    // dequeue
    | DeqStart(q: nat)
    | DeqHead(q: nat, head: Ptr)
    | DeqTail(q: nat, head: Ptr, tail: Ptr)
    | DeqNext(q: nat, head: Ptr, tail: Ptr, next: Ptr, sawEmpty: bool)
    | DeqHelp(q: nat, tail: Ptr, next: Ptr)
    | DeqRead(q: nat, head: Ptr, next: Ptr)
    | DeqSwing(q: nat, head: Ptr, next: Ptr, event: Event)
    | DeqFree(q: nat, node: nat, event: Event)

  datatype Owner = Slot(q: nat, pos: nat) | Private(t: nat)

  // The pool: what each node holds, and what it is used for while it is taken.
  datatype Pool = Pool(next: map<nat, Ptr>, event: map<nat, Event>, owner: map<nat, Owner>)

  datatype State = State(queues: map<nat, Queue>, pool: Pool, pcs: map<nat, Pc>)

  datatype Action =
    | Create(t: nat, q: nat, node: nat)
    | Enqueue(t: nat, q: nat, node: nat, event: Event)
    | Dequeue(t: nat, q: nat)
    | Advance(t: nat, spurious: bool)   // the next atomic step of t; `spurious` fails a weak CAS

  // Under which conditions queues are used. With `recycle`, dequeued nodes go back to
  // the pool; with `soloIn`, a queue has at most one enqueue at a time, and with `soloOut`
  // at most one dequeue.
  datatype Mode = Mode(recycle: bool, soloIn: bool, soloOut: bool)

  const INIT := State(map[], Pool(map[], map[], map[]), map[])

  function PcOf(s: State, t: nat): Pc {
    if t in s.pcs then s.pcs[t] else Idle
  }

  predicate Enqueuing(pc: Pc, q: nat) {
    (pc.EnqStart? || pc.EnqTail? || pc.EnqNext? || pc.EnqLink? || pc.EnqHelp? || pc.EnqSwing?) && pc.q == q
  }

  predicate Dequeuing(pc: Pc, q: nat) {
    !pc.Idle? && pc.q == q && !Enqueuing(pc, q)
  }

  predicate Enabled(mode: Mode, s: State, a: Action) {
    match a
    case Create(t, q, node) => PcOf(s, t).Idle? && q !in s.queues && node > 0 && node !in s.pool.owner
    case Enqueue(t, q, node, _) =>
      && PcOf(s, t).Idle? && q in s.queues && node > 0 && node !in s.pool.owner
      && (mode.soloIn ==> forall u <- s.pcs :: !Enqueuing(s.pcs[u], q))
    case Dequeue(t, q) =>
      && PcOf(s, t).Idle? && q in s.queues
      && (mode.soloOut ==> forall u <- s.pcs :: !Dequeuing(s.pcs[u], q))
    case Advance(t, _) => !PcOf(s, t).Idle? && PcOf(s, t).q in s.queues
  }

  function Goto(s: State, t: nat, pc: Pc): State {
    s.(pcs := s.pcs[t := pc])
  }

  function NextOf(p: Pool, node: nat): Ptr {
    if node in p.next then p.next[node] else Ptr(0, 0)
  }

  // What is read from a node. In the code this must be a node that was not freed since it was
  // linked (module QueueReads): a freed one is zeroed, and reading it dereferences null.
  function EventOf(p: Pool, node: nat): Event {
    if node in p.event then p.event[node] else 0
  }

  // Taking a node and constructing a SharedEvent in it.
  function Take(p: Pool, node: nat, e: Event, use: Owner): Pool {
    Pool(p.next[node := Ptr(0, 0)], p.event[node := e], p.owner[node := use])
  }

  // compare_exchange_weak on m_tail
  function SwingTail(s: State, q: nat, tail: Ptr, node: nat, spurious: bool): State
    requires q in s.queues
  {
    if !spurious && s.queues[q].tail == tail then
      s.(queues := s.queues[q := s.queues[q].(tail := Ptr(node, tail.count + 1))])
    else
      s
  }

  function Step(mode: Mode, s: State, a: Action): State
    requires Enabled(mode, s, a)
  {
    match a
    case Create(t, q, node) =>
      s.(queues := s.queues[q := Queue(Ptr(node, 0), Ptr(node, 0), [node], [], [])],
         pool := Take(s.pool, node, 0, Slot(q, 0)))
    case Enqueue(t, q, node, e) =>
      Goto(s, t, EnqStart(q, node, e)).(pool := Take(s.pool, node, e, Private(t)))
    case Dequeue(t, q) => Goto(s, t, DeqStart(q))
    case Advance(t, spurious) =>
      match PcOf(s, t)
      case EnqStart(q, node, e) => Goto(s, t, EnqTail(q, node, e, s.queues[q].tail))
      case EnqTail(q, node, e, tail) => Goto(s, t, EnqNext(q, node, e, tail, NextOf(s.pool, tail.index)))
      case EnqNext(q, node, e, tail, next) =>
        if s.queues[q].tail != tail then Goto(s, t, EnqStart(q, node, e))
        else if next.index == 0 then Goto(s, t, EnqLink(q, node, e, tail, next))
        else Goto(s, t, EnqHelp(q, node, e, tail, next))
      case EnqLink(q, node, e, tail, next) =>
        if !spurious && NextOf(s.pool, tail.index) == next then
          var Q := s.queues[q];
          Goto(s, t, EnqSwing(q, node, tail)).(
            queues := s.queues[q := Q.(nodes := Q.nodes + [node], enqueued := Q.enqueued + [e])],
            pool := s.pool.(
              next := s.pool.next[tail.index := Ptr(node, next.count + 1)],
              owner := s.pool.owner[node := Slot(q, |Q.nodes|)]))
        else
          Goto(s, t, EnqStart(q, node, e))
      case EnqHelp(q, node, e, tail, next) =>
        Goto(SwingTail(s, q, tail, next.index, spurious), t, EnqStart(q, node, e))
      case EnqSwing(q, node, tail) => Goto(SwingTail(s, q, tail, node, spurious), t, Idle)
      case DeqStart(q) => Goto(s, t, DeqHead(q, s.queues[q].head))
      case DeqHead(q, head) => Goto(s, t, DeqTail(q, head, s.queues[q].tail))
      case DeqTail(q, head, tail) =>
        Goto(s, t, DeqNext(q, head, tail, NextOf(s.pool, head.index), s.queues[q].enqueued == s.queues[q].dequeued))
      case DeqNext(q, head, tail, next, _) =>
        if s.queues[q].head != head then Goto(s, t, DeqStart(q))
        else if head.index != tail.index then Goto(s, t, DeqRead(q, head, next))
        else if next.index == 0 then Goto(s, t, Idle)     // returns null
        else Goto(s, t, DeqHelp(q, tail, next))
      case DeqHelp(q, tail, next) => Goto(SwingTail(s, q, tail, next.index, spurious), t, DeqStart(q))
      case DeqRead(q, head, next) => Goto(s, t, DeqSwing(q, head, next, EventOf(s.pool, next.index)))
      case DeqSwing(q, head, next, e) =>
        if !spurious && s.queues[q].head == head then
          var Q := s.queues[q];
          Goto(s, t, DeqFree(q, head.index, e)).(
            queues := s.queues[q := Q.(head := Ptr(next.index, head.count + 1), dequeued := Q.dequeued + [e])],
            pool := if mode.recycle then s.pool.(owner := s.pool.owner[head.index := Private(t)]) else s.pool)
        else
          Goto(s, t, DeqStart(q))
      case DeqFree(q, node, _) =>                         // returns the event
        if mode.recycle then
          Goto(s, t, Idle).(pool := s.pool.(next := s.pool.next[node := Ptr(0, 0)], owner := s.pool.owner - {node}))
        else
          Goto(s, t, Idle)
  }

  predicate CanRun(mode: Mode, run: seq<Action>)
    decreases |run|, 0
  {
    run == [] ||
    (CanRun(mode, run[..|run| - 1]) && Enabled(mode, After(mode, run[..|run| - 1]), run[|run| - 1]))
  }

  function After(mode: Mode, run: seq<Action>): State
    requires CanRun(mode, run)
    decreases |run|, 1
  {
    if run == [] then INIT else Step(mode, After(mode, run[..|run| - 1]), run[|run| - 1])
  }

  // ----- the invariant ------------------------------------------------------------

  // The oldest position of a queue whose node has not been given back to the pool.
  function Oldest(mode: Mode, Q: Queue): nat {
    if mode.recycle then Q.head.count else 0
  }

  ghost predicate NodeOk(q: nat, Q: Queue, k: nat, p: Pool)
    requires k < |Q.nodes| && |Q.enqueued| == |Q.nodes| - 1
  {
    && Q.nodes[k] in p.owner && p.owner[Q.nodes[k]] == Slot(q, k)
    && NextOf(p, Q.nodes[k]).index == (if k + 1 < |Q.nodes| then Q.nodes[k + 1] else 0)
    && (k > 0 ==> EventOf(p, Q.nodes[k]) == Q.enqueued[k - 1])
  }

  ghost predicate QueueOk(mode: Mode, q: nat, Q: Queue, p: Pool) {
    && |Q.enqueued| == |Q.nodes| - 1
    && Q.head.count <= Q.tail.count < |Q.nodes|
    && Q.nodes[Q.head.count] == Q.head.index && Q.nodes[Q.tail.count] == Q.tail.index
    && Q.dequeued == Q.enqueued[..Q.head.count]
    && (forall k :: 0 <= k < |Q.nodes| ==> Q.nodes[k] != 0)
    && (forall k {:trigger NodeOk(q, Q, k, p)} :: Oldest(mode, Q) <= k < |Q.nodes| ==> NodeOk(q, Q, k, p))
  }

  // p is a value that m_head or m_tail, now `now`, had at some time.
  ghost predicate Past(Q: Queue, now: Ptr, p: Ptr) {
    p.count <= now.count && p.count < |Q.nodes| && Q.nodes[p.count] == p.index
  }

  ghost predicate Follows(Q: Queue, p: Ptr, node: nat) {
    node != 0 && p.count + 1 < |Q.nodes| && Q.nodes[p.count + 1] == node
  }

  ghost predicate OwnNode(p: Pool, t: nat, node: nat, e: Event) {
    && node != 0 && node in p.owner && p.owner[node] == Private(t)
    && NextOf(p, node) == Ptr(0, 0) && EventOf(p, node) == e
  }

  // A tail loaded by an enqueue, and the next loaded from it.
  ghost predicate SeenTail(mode: Mode, Q: Queue, tail: Ptr, next: Ptr) {
    && (next.index != 0 ==> Follows(Q, tail, next.index))
    && (mode.recycle && next.index == 0 ==> tail.count == |Q.nodes| - 1)
  }

  ghost predicate ThreadOk(mode: Mode, t: nat, pc: Pc, s: State)
  {
    pc.Idle? || (pc.q in s.queues && var Q := s.queues[pc.q];
    match pc
    case EnqStart(q, node, e) => OwnNode(s.pool, t, node, e)
    case EnqTail(q, node, e, tail) => OwnNode(s.pool, t, node, e) && Past(Q, Q.tail, tail)
    case EnqNext(q, node, e, tail, next) =>
      && OwnNode(s.pool, t, node, e) && Past(Q, Q.tail, tail)
      && (tail.count == Q.tail.count ==> SeenTail(mode, Q, tail, next))
    case EnqLink(q, node, e, tail, next) =>
      && OwnNode(s.pool, t, node, e) && Past(Q, Q.tail, tail)
      && next.index == 0 && SeenTail(mode, Q, tail, next)
    case EnqHelp(q, node, e, tail, next) =>
      OwnNode(s.pool, t, node, e) && Past(Q, Q.tail, tail) && Follows(Q, tail, next.index)
    case EnqSwing(q, node, tail) => Past(Q, Q.tail, tail) && Follows(Q, tail, node)
    case DeqStart(q) => true
    case DeqHead(q, head) => Past(Q, Q.head, head)
    case DeqTail(q, head, tail) => Past(Q, Q.head, head) && Past(Q, Q.tail, tail) && head.count <= tail.count
    case DeqNext(q, head, tail, next, sawEmpty) =>
      && Past(Q, Q.head, head) && Past(Q, Q.tail, tail) && head.count <= tail.count
      && (head.count == Q.head.count ==>
           && (next.index != 0 ==> Follows(Q, head, next.index))
           && (next.index == 0 ==> sawEmpty && head.count == tail.count))
    case DeqHelp(q, tail, next) => Past(Q, Q.tail, tail) && Follows(Q, tail, next.index)
    case DeqRead(q, head, next) =>
      Past(Q, Q.head, head) && Follows(Q, head, next.index) && head.count < Q.tail.count
    case DeqSwing(q, head, next, e) =>
      && Past(Q, Q.head, head) && Follows(Q, head, next.index) && head.count < Q.tail.count
      && |Q.enqueued| > head.count
      && (head.count == Q.head.count ==> e == Q.enqueued[head.count])
    case DeqFree(q, node, _) => mode.recycle ==> node in s.pool.owner && s.pool.owner[node] == Private(t))
  }

  ghost predicate SoloOk(s: State) {
    forall t, u :: t != u ==> Apart(PcOf(s, t), PcOf(s, u))
  }

  ghost predicate Apart(pc: Pc, pc': Pc) {
    forall q :: !(Enqueuing(pc, q) && Enqueuing(pc', q))
  }

  ghost predicate Inv(mode: Mode, s: State) {
    && (forall q :: q in s.queues ==> QueueOk(mode, q, s.queues[q], s.pool))
    && (forall t :: t in s.pcs ==> ThreadOk(mode, t, s.pcs[t], s))
    && (mode.soloIn ==> SoloOk(s))
  }

  // ----- every step keeps the invariant ----------------------------------------------

  // How a queue may change in a step, as far as the threads working on it can tell.
  ghost predicate Grows(Q: Queue, Q': Queue) {
    && Q.nodes <= Q'.nodes && Q.enqueued <= Q'.enqueued
    && Q.head.count <= Q'.head.count && (Q.head.count == Q'.head.count ==> Q.head == Q'.head)
    && Q.tail.count <= Q'.tail.count && (Q.tail.count == Q'.tail.count ==> Q.tail == Q'.tail)
  }

  ghost predicate SameNode(p: Pool, p': Pool, node: nat) {
    && node in p.owner && node in p'.owner && p'.owner[node] == p.owner[node]
    && NextOf(p', node) == NextOf(p, node) && EventOf(p', node) == EventOf(p, node)
  }

  ghost predicate KeepsPrivate(u: nat, p: Pool, p': Pool) {
    forall node :: node in p.owner && p.owner[node] == Private(u) ==> SameNode(p, p', node)
  }

  lemma OtherThread(mode: Mode, u: nat, pc: Pc, s: State, s': State)
    requires ThreadOk(mode, u, pc, s) && KeepsPrivate(u, s.pool, s'.pool)
    requires !pc.Idle? ==> pc.q in s.queues && pc.q in s'.queues && Grows(s.queues[pc.q], s'.queues[pc.q])
    requires !pc.Idle? && mode.recycle && Enqueuing(pc, pc.q) ==> s'.queues[pc.q].nodes == s.queues[pc.q].nodes
    ensures ThreadOk(mode, u, pc, s')
  {
  }

  ghost predicate KeepsSlots(q: nat, p: Pool, p': Pool) {
    forall node :: node in p.owner && p.owner[node].Slot? && p.owner[node].q == q ==> SameNode(p, p', node)
  }

  lemma OtherQueue(mode: Mode, q: nat, Q: Queue, p: Pool, p': Pool)
    requires QueueOk(mode, q, Q, p) && KeepsSlots(q, p, p')
    ensures QueueOk(mode, q, Q, p')
  {
    forall k | Oldest(mode, Q) <= k < |Q.nodes| ensures NodeOk(q, Q, k, p') {
      assert NodeOk(q, Q, k, p);
    }
  }

  // The live nodes of a queue are told apart by their positions.
  lemma SamePosition(mode: Mode, q: nat, Q: Queue, p: Pool, i: nat, j: nat)
    requires QueueOk(mode, q, Q, p) && Oldest(mode, Q) <= i < |Q.nodes| && Oldest(mode, Q) <= j < |Q.nodes|
    requires Q.nodes[i] == Q.nodes[j]
    ensures i == j
  {
    assert NodeOk(q, Q, i, p) && NodeOk(q, Q, j, p);
  }

  // compare_exchange on m_tail, by whoever found the node that follows the tail.
  lemma SwingKeepsQueue(mode: Mode, s: State, q: nat, tail: Ptr, node: nat, spurious: bool)
    requires q in s.queues && QueueOk(mode, q, s.queues[q], s.pool)
    requires Past(s.queues[q], s.queues[q].tail, tail) && Follows(s.queues[q], tail, node)
    ensures var Q' := SwingTail(s, q, tail, node, spurious).queues[q];
      QueueOk(mode, q, Q', s.pool) && Grows(s.queues[q], Q') && Q'.nodes == s.queues[q].nodes
  {
    var Q := s.queues[q];
    var Q' := SwingTail(s, q, tail, node, spurious).queues[q];
    forall k | Oldest(mode, Q) <= k < |Q.nodes| ensures NodeOk(q, Q', k, s.pool) {
      assert NodeOk(q, Q, k, s.pool);
    }
  }

  // compare_exchange on the next of the tail: the new node goes to the end.
  lemma LinkKeepsQueue(mode: Mode, q: nat, Q: Queue, p: Pool, t: nat, node: nat, e: Event, tail: Ptr, next: Ptr)
    requires QueueOk(mode, q, Q, p) && OwnNode(p, t, node, e) && Past(Q, Q.tail, tail)
    requires next.index == 0 && SeenTail(mode, Q, tail, next) && NextOf(p, tail.index) == next
    ensures tail.count == |Q.nodes| - 1 && tail.index in p.owner && p.owner[tail.index] == Slot(q, tail.count)
    ensures var Q' := Q.(nodes := Q.nodes + [node], enqueued := Q.enqueued + [e]);
      var p' := p.(next := p.next[tail.index := Ptr(node, next.count + 1)],
                   owner := p.owner[node := Slot(q, |Q.nodes|)]);
      QueueOk(mode, q, Q', p') && Grows(Q, Q')
  {
    assert NodeOk(q, Q, |Q.nodes| - 1, p);
    if !mode.recycle {
      assert NodeOk(q, Q, tail.count, p);
    }
    var Q' := Q.(nodes := Q.nodes + [node], enqueued := Q.enqueued + [e]);
    var p' := p.(next := p.next[tail.index := Ptr(node, next.count + 1)], owner := p.owner[node := Slot(q, |Q.nodes|)]);
    forall k | Oldest(mode, Q) <= k < |Q'.nodes| ensures NodeOk(q, Q', k, p') {
      if k < |Q.nodes| {
        assert NodeOk(q, Q, k, p);
      }
    }
  }

  // compare_exchange on m_head: the event of the second node comes out.
  lemma PopKeepsQueue(mode: Mode, q: nat, Q: Queue, p: Pool, t: nat, next: Ptr, e: Event)
    requires QueueOk(mode, q, Q, p) && Follows(Q, Q.head, next.index) && Q.head.count < Q.tail.count
    requires e == Q.enqueued[Q.head.count]
    ensures Q.head.index in p.owner && p.owner[Q.head.index] == Slot(q, Q.head.count)
    ensures var Q' := Q.(head := Ptr(next.index, Q.head.count + 1), dequeued := Q.dequeued + [e]);
      var p' := if mode.recycle then p.(owner := p.owner[Q.head.index := Private(t)]) else p;
      QueueOk(mode, q, Q', p') && Grows(Q, Q')
  {
    assert NodeOk(q, Q, Q.head.count, p);
    var Q' := Q.(head := Ptr(next.index, Q.head.count + 1), dequeued := Q.dequeued + [e]);
    var p' := if mode.recycle then p.(owner := p.owner[Q.head.index := Private(t)]) else p;
    assert Q'.dequeued == Q.enqueued[..Q'.head.count];
    forall k | Oldest(mode, Q') <= k < |Q.nodes| ensures NodeOk(q, Q', k, p') {
      assert NodeOk(q, Q, k, p);
      assert NodeOk(q, Q, Q.head.count, p);
    }
  }

  // What a step of thread t on queue q leaves behind: the queue and the thread in order,
  // and nothing another thread or another queue relies on touched.
  ghost predicate Local(mode: Mode, s: State, s': State, t: nat, q: nat) {
    && q in s'.queues && QueueOk(mode, q, s'.queues[q], s'.pool)
    && (forall r :: r in s.queues && r != q ==> r in s'.queues && s'.queues[r] == s.queues[r])
    && (forall r :: r in s'.queues && r != q ==> r in s.queues)
    && (q in s.queues ==> Grows(s.queues[q], s'.queues[q]))
    && (forall r :: r != q ==> KeepsSlots(r, s.pool, s'.pool))
    && (forall u :: u != t ==> KeepsPrivate(u, s.pool, s'.pool))
    && ThreadOk(mode, t, PcOf(s', t), s')
    && s'.pcs.Keys <= s.pcs.Keys + {t} && s.pcs.Keys <= s'.pcs.Keys
    && (forall u :: u in s.pcs && u != t ==> s'.pcs[u] == s.pcs[u])
  }

  function QueueOf(s: State, a: Action): nat
    requires a.Advance? ==> !PcOf(s, a.t).Idle?
  {
    match a
    case Create(_, q, _) => q
    case Enqueue(_, q, _, _) => q
    case Dequeue(_, q) => q
    case Advance(t, _) => PcOf(s, t).q
  }

  // The thread is what it was before the step, so far as Inv goes.
  ghost predicate Before(mode: Mode, s: State, a: Action) {
    && Enabled(mode, s, a) && a.Advance?
    && QueueOk(mode, PcOf(s, a.t).q, s.queues[PcOf(s, a.t).q], s.pool)
    && ThreadOk(mode, a.t, PcOf(s, a.t), s)
  }

  lemma StartIsLocal(mode: Mode, s: State, a: Action)
    requires Enabled(mode, s, a) && !a.Advance?
    requires a.q in s.queues ==> QueueOk(mode, a.q, s.queues[a.q], s.pool)
    ensures Local(mode, s, Step(mode, s, a), a.t, a.q)
  {
    var s' := Step(mode, s, a);
    if a.Create? {
      assert NodeOk(a.q, s'.queues[a.q], 0, s'.pool);
    } else {
      OtherQueue(mode, a.q, s.queues[a.q], s.pool, s'.pool);
    }
  }

  lemma EnqueueReadIsLocal(mode: Mode, s: State, a: Action)
    requires Before(mode, s, a)
    requires var pc := PcOf(s, a.t); pc.EnqStart? || pc.EnqTail? || pc.EnqNext?
    ensures Local(mode, s, Step(mode, s, a), a.t, PcOf(s, a.t).q)
  {
    var pc := PcOf(s, a.t);
    var Q := s.queues[pc.q];
    assert NodeOk(pc.q, Q, Q.tail.count, s.pool);
  }

  lemma DequeueLoadIsLocal(mode: Mode, s: State, a: Action)
    requires Before(mode, s, a)
    requires var pc := PcOf(s, a.t); pc.DeqStart? || pc.DeqHead? || pc.DeqTail?
    ensures Local(mode, s, Step(mode, s, a), a.t, PcOf(s, a.t).q)
  {
    var pc := PcOf(s, a.t);
    assert NodeOk(pc.q, s.queues[pc.q], s.queues[pc.q].head.count, s.pool);
  }

  lemma DequeueReadIsLocal(mode: Mode, s: State, a: Action)
    requires Before(mode, s, a)
    requires var pc := PcOf(s, a.t); pc.DeqNext? || pc.DeqRead?
    ensures Local(mode, s, Step(mode, s, a), a.t, PcOf(s, a.t).q)
  {
    var pc := PcOf(s, a.t);
    var Q := s.queues[pc.q];
    if pc.DeqNext? && pc.head == Q.head && pc.head.index == pc.tail.index {
      SamePosition(mode, pc.q, Q, s.pool, pc.head.count, pc.tail.count);
    }
    if pc.DeqRead? && pc.head.count == Q.head.count {
      assert NodeOk(pc.q, Q, pc.head.count + 1, s.pool);
    }
  }

  lemma SwingIsLocal(mode: Mode, s: State, a: Action)
    requires Before(mode, s, a)
    requires var pc := PcOf(s, a.t); pc.EnqHelp? || pc.EnqSwing? || pc.DeqHelp?
    ensures Local(mode, s, Step(mode, s, a), a.t, PcOf(s, a.t).q)
  {
    var pc := PcOf(s, a.t);
    SwingKeepsQueue(mode, s, pc.q, pc.tail, if pc.EnqSwing? then pc.node else pc.next.index, a.spurious);
  }

  lemma LinkIsLocal(mode: Mode, s: State, a: Action)
    requires Before(mode, s, a) && PcOf(s, a.t).EnqLink?
    ensures Local(mode, s, Step(mode, s, a), a.t, PcOf(s, a.t).q)
  {
    var EnqLink(q, node, e, tail, next) := PcOf(s, a.t);
    if !a.spurious && NextOf(s.pool, tail.index) == next {
      LinkKeepsQueue(mode, q, s.queues[q], s.pool, a.t, node, e, tail, next);
    }
  }

  lemma PopIsLocal(mode: Mode, s: State, a: Action)
    requires Before(mode, s, a) && PcOf(s, a.t).DeqSwing?
    ensures Local(mode, s, Step(mode, s, a), a.t, PcOf(s, a.t).q)
  {
    var DeqSwing(q, head, next, e) := PcOf(s, a.t);
    if !a.spurious && s.queues[q].head == head {
      PopKeepsQueue(mode, q, s.queues[q], s.pool, a.t, next, e);
    }
  }

  lemma FreeIsLocal(mode: Mode, s: State, a: Action)
    requires Before(mode, s, a) && PcOf(s, a.t).DeqFree?
    ensures Local(mode, s, Step(mode, s, a), a.t, PcOf(s, a.t).q)
  {
    var q := PcOf(s, a.t).q;
    OtherQueue(mode, q, s.queues[q], s.pool, Step(mode, s, a).pool);
  }

  lemma StepIsLocal(mode: Mode, s: State, a: Action)
    requires Inv(mode, s) && Enabled(mode, s, a)
    ensures Local(mode, s, Step(mode, s, a), a.t, QueueOf(s, a))
  {
    if !a.Advance? {
      StartIsLocal(mode, s, a);
    } else {
      var pc := PcOf(s, a.t);
      assert Before(mode, s, a);
      if pc.EnqStart? || pc.EnqTail? || pc.EnqNext? {
        EnqueueReadIsLocal(mode, s, a);
      } else if pc.EnqHelp? || pc.EnqSwing? || pc.DeqHelp? {
        SwingIsLocal(mode, s, a);
      } else if pc.EnqLink? {
        LinkIsLocal(mode, s, a);
      } else if pc.DeqSwing? {
        PopIsLocal(mode, s, a);
      } else if pc.DeqFree? {
        FreeIsLocal(mode, s, a);
      } else if pc.DeqNext? || pc.DeqRead? {
        DequeueReadIsLocal(mode, s, a);
      } else {
        DequeueLoadIsLocal(mode, s, a);
      }
    }
  }

  lemma OthersStay(mode: Mode, s: State, a: Action, t: nat)
    requires Enabled(mode, s, a) && t != a.t
    ensures PcOf(Step(mode, s, a), t) == PcOf(s, t)
  {
  }

  // A thread comes to work on the tail of a queue only by calling enqueue.
  lemma RoleOfStep(mode: Mode, s: State, a: Action, r: nat)
    requires Enabled(mode, s, a)
    ensures Enqueuing(PcOf(Step(mode, s, a), a.t), r) ==> Enqueuing(PcOf(s, a.t), r) || (a.Enqueue? && a.q == r)
  {
    if a.Advance? {
      var pc, pc' := PcOf(s, a.t), PcOf(Step(mode, s, a), a.t);
      assert pc'.Idle? || pc'.q == pc.q;
    }
  }

  lemma StepKeepsSolo(mode: Mode, s: State, a: Action)
    requires mode.soloIn && SoloOk(s) && Enabled(mode, s, a)
    ensures SoloOk(Step(mode, s, a))
  {
    var s' := Step(mode, s, a);
    forall t, u | t != u ensures Apart(PcOf(s', t), PcOf(s', u)) {
      assert Apart(PcOf(s, t), PcOf(s, u));
      if t != a.t { OthersStay(mode, s, a, t); }
      if u != a.t { OthersStay(mode, s, a, u); }
      forall r ensures !(Enqueuing(PcOf(s', t), r) && Enqueuing(PcOf(s', u), r)) {
        RoleOfStep(mode, s, a, r);
      }
    }
  }

  lemma LocalKeepsQueues(mode: Mode, s: State, s': State, t: nat, q: nat)
    requires Local(mode, s, s', t, q)
    requires forall r :: r in s.queues ==> QueueOk(mode, r, s.queues[r], s.pool)
    ensures forall r :: r in s'.queues ==> QueueOk(mode, r, s'.queues[r], s'.pool)
  {
    forall r | r in s'.queues ensures QueueOk(mode, r, s'.queues[r], s'.pool) {
      if r != q {
        OtherQueue(mode, r, s.queues[r], s.pool, s'.pool);
      }
    }
  }

  // Only an enqueue adds nodes, and where a queue is used by one enqueue at a time it is
  // not another thread's.
  lemma NodesStayForOthers(mode: Mode, s: State, a: Action, u: nat)
    requires mode.soloIn && SoloOk(s) && Enabled(mode, s, a) && u in s.pcs && u != a.t
    ensures var pc := s.pcs[u]; !pc.Idle? && pc.q in s.queues && Enqueuing(pc, pc.q) ==>
      var s' := Step(mode, s, a); pc.q in s'.queues && s'.queues[pc.q].nodes == s.queues[pc.q].nodes
  {
    assert Apart(PcOf(s, a.t), PcOf(s, u));
  }

  lemma LocalKeepsThread(mode: Mode, s: State, a: Action, u: nat)
    requires mode.recycle ==> mode.soloIn
    requires mode.soloIn ==> SoloOk(s)
    requires Enabled(mode, s, a) && Local(mode, s, Step(mode, s, a), a.t, QueueOf(s, a))
    requires u in s.pcs && u != a.t && ThreadOk(mode, u, s.pcs[u], s)
    ensures ThreadOk(mode, u, s.pcs[u], Step(mode, s, a))
  {
    if mode.soloIn {
      NodesStayForOthers(mode, s, a, u);
    }
    OtherThread(mode, u, s.pcs[u], s, Step(mode, s, a));
  }

  lemma StepKeepsInv(mode: Mode, s: State, a: Action)
    requires mode.recycle ==> mode.soloIn
    requires Inv(mode, s) && Enabled(mode, s, a)
    ensures Inv(mode, Step(mode, s, a))
  {
    var s' := Step(mode, s, a);
    StepIsLocal(mode, s, a);
    LocalKeepsQueues(mode, s, s', a.t, QueueOf(s, a));
    forall u | u in s'.pcs ensures ThreadOk(mode, u, s'.pcs[u], s') {
      if u != a.t {
        LocalKeepsThread(mode, s, a, u);
      }
    }
    if mode.soloIn {
      StepKeepsSolo(mode, s, a);
    }
  }

  lemma {:induction false} RunKeepsInv(mode: Mode, run: seq<Action>)
    requires mode.recycle ==> mode.soloIn
    requires CanRun(mode, run)
    ensures Inv(mode, After(mode, run))
  {
    if run != [] {
      RunKeepsInv(mode, run[..|run| - 1]);
      StepKeepsInv(mode, After(mode, run[..|run| - 1]), run[|run| - 1]);
    }
  }

  // ----- the queue is a FIFO ------------------------------------------------------------

  // What was dequeued is exactly what was enqueued first, in that order.
  ghost predicate Fifo(mode: Mode, run: seq<Action>, q: nat)
    requires CanRun(mode, run)
  {
    var s := After(mode, run);
    q in s.queues ==> s.queues[q].dequeued <= s.queues[q].enqueued
  }

  // With one enqueue at a time and nodes recycled through the pool, or with any number of
  // enqueues and nodes never recycled. What overlapping dequeues read on the way to a
  // compare-and-swap that fails is another matter (module QueueReads).
  lemma QueueIsFifo(mode: Mode, run: seq<Action>, q: nat)
    requires mode.recycle ==> mode.soloIn
    requires CanRun(mode, run)
    ensures Fifo(mode, run, q)
  {
    RunKeepsInv(mode, run);
  }

  // The call of t ends with its next step.
  ghost predicate Returns(mode: Mode, s: State, t: nat) {
    exists spurious :: Enabled(mode, s, Advance(t, spurious)) && PcOf(Step(mode, s, Advance(t, spurious)), t).Idle?
  }

  // A dequeue about to return, with no event in hand.
  ghost predicate ReturnsNull(mode: Mode, s: State, t: nat) {
    Returns(mode, s, t) && Dequeuing(PcOf(s, t), PcOf(s, t).q) && !PcOf(s, t).DeqFree?
  }

  // Only loading the next of the head brings a thread where it can return null.
  lemma ComesFromDeqTail(mode: Mode, s: State, a: Action)
    requires Enabled(mode, s, a) && PcOf(Step(mode, s, a), a.t).DeqNext?
    ensures a.Advance? && PcOf(s, a.t).DeqTail?
    ensures var pc := PcOf(Step(mode, s, a), a.t); var q := pc.q;
      PcOf(s, a.t).q == q && q in s.queues && pc.sawEmpty == (s.queues[q].enqueued == s.queues[q].dequeued)
  {
  }

  // The step in which the thread loaded the next it has in hand, its last step so far.
  lemma {:induction false} WhenNextWasLoaded(mode: Mode, run: seq<Action>, t: nat) returns (j: nat)
    requires CanRun(mode, run) && PcOf(After(mode, run), t).DeqNext?
    ensures j < |run| && run[j].t == t && (forall k :: j < k < |run| ==> run[k].t != t)
    ensures CanRun(mode, run[..j]) && PcOf(After(mode, run[..j]), t).DeqTail?
    ensures var pc := PcOf(After(mode, run), t); var before := After(mode, run[..j]);
      && PcOf(before, t).q == pc.q && pc.q in before.queues
      && pc.sawEmpty == (before.queues[pc.q].enqueued == before.queues[pc.q].dequeued)
  {
    var n := |run| - 1;
    if run[n].t == t {
      ComesFromDeqTail(mode, After(mode, run[..n]), run[n]);
      j := n;
    } else {
      OthersStay(mode, After(mode, run[..n]), run[n], t);
      j := WhenNextWasLoaded(mode, run[..n], t);
      assert run[..n][..j] == run[..j];
    }
  }

  // The last step of t so far, after j others, loaded the next of the head from an empty queue.
  ghost predicate LoadedWhenEmpty(mode: Mode, run: seq<Action>, t: nat, j: nat)
    requires CanRun(mode, run) && !PcOf(After(mode, run), t).Idle?
  {
    && j < |run| && run[j].t == t && (forall k :: j < k < |run| ==> run[k].t != t)
    && CanRun(mode, run[..j]) && PcOf(After(mode, run[..j]), t).DeqTail?
    && var q, before := PcOf(After(mode, run), t).q, After(mode, run[..j]);
       q in before.queues && before.queues[q].enqueued == before.queues[q].dequeued
  }

  // A dequeue returns null only if the queue was empty at one moment during the call.
  ghost predicate NullWhenEmpty(mode: Mode, run: seq<Action>, t: nat)
    requires CanRun(mode, run)
  {
    ReturnsNull(mode, After(mode, run), t) ==> exists j :: LoadedWhenEmpty(mode, run, t, j)
  }

  lemma NullMeansEmpty(mode: Mode, run: seq<Action>, t: nat)
    requires mode.recycle ==> mode.soloIn
    requires CanRun(mode, run)
    ensures NullWhenEmpty(mode, run, t)
  {
    if ReturnsNull(mode, After(mode, run), t) {
      RunKeepsInv(mode, run);
      var s := After(mode, run);
      assert PcOf(s, t).DeqNext?;
      assert ThreadOk(mode, t, s.pcs[t], s);
      var j := WhenNextWasLoaded(mode, run, t);
      assert LoadedWhenEmpty(mode, run, t, j);
    }
  }

  // Following next from a node finds exactly these events, and then the end.
  ghost predicate Spells(p: Pool, node: nat, events: seq<Event>)
    decreases |events|
  {
    var n := NextOf(p, node).index;
    if events == [] then n == 0
    else n != 0 && EventOf(p, n) == events[0] && Spells(p, n, events[1..])
  }

  lemma {:induction false} NodesSpell(mode: Mode, q: nat, Q: Queue, p: Pool, k: nat)
    requires QueueOk(mode, q, Q, p) && Oldest(mode, Q) <= k < |Q.nodes|
    ensures Spells(p, Q.nodes[k], Q.enqueued[k..])
    decreases |Q.nodes| - k
  {
    assert NodeOk(q, Q, k, p);
    if k + 1 < |Q.nodes| {
      assert NodeOk(q, Q, k + 1, p);
      assert Q.enqueued[k..][1..] == Q.enqueued[k + 1..];
      NodesSpell(mode, q, Q, p, k + 1);
    }
  }

  // Nothing is lost: the list hanging from m_head holds what was enqueued and not yet dequeued.
  ghost predicate HoldsTheRest(mode: Mode, run: seq<Action>, q: nat)
    requires CanRun(mode, run)
  {
    var s := After(mode, run);
    q in s.queues ==>
      var Q := s.queues[q];
      |Q.dequeued| <= |Q.enqueued| && Spells(s.pool, Q.head.index, Q.enqueued[|Q.dequeued|..])
  }

  lemma ListHoldsTheRest(mode: Mode, run: seq<Action>, q: nat)
    requires mode.recycle ==> mode.soloIn
    requires CanRun(mode, run)
    ensures HoldsTheRest(mode, run, q)
  {
    RunKeepsInv(mode, run);
    var s := After(mode, run);
    if q in s.queues {
      NodesSpell(mode, q, s.queues[q], s.pool, s.queues[q].head.count);
    }
  }

  // ----- why two enqueues at a time and recycled nodes do not mix --------------------------

  ghost predicate Leads(mode: Mode, run: seq<Action>, s: State) {
    CanRun(mode, run) && After(mode, run) == s
  }

  lemma Extend(mode: Mode, run: seq<Action>, s: State, a: Action) returns (run': seq<Action>, s': State)
    requires Leads(mode, run, s) && Enabled(mode, s, a)
    ensures Leads(mode, run', s') && s' == Step(mode, s, a)
  {
    run' := run + [a];
    assert run'[..|run' | - 1] == run;
    s' := Step(mode, s, a);
  }

  const BUSY := Mode(true, false, true)

  // An enqueue up to the point where it has found node `tail` at the end of the queue.
  lemma EnqueuePeek(mode: Mode, run: seq<Action>, s: State, t: nat, node: nat, e: Event)
    returns (run': seq<Action>, s': State)
    requires Leads(mode, run, s) && Enabled(mode, s, Enqueue(t, 0, node, e))
    requires 0 in s.queues && s.queues[0].tail.index != node && NextOf(s.pool, s.queues[0].tail.index) == Ptr(0, 0)
    ensures Leads(mode, run', s')
    ensures s' == Goto(s, t, EnqLink(0, node, e, s.queues[0].tail, Ptr(0, 0))).(
                    pool := Take(s.pool, node, e, Private(t)))
  {
    run', s' := Extend(mode, run, s, Enqueue(t, 0, node, e));
    run', s' := Extend(mode, run', s', Advance(t, false));
    run', s' := Extend(mode, run', s', Advance(t, false));
    run', s' := Extend(mode, run', s', Advance(t, false));
  }

  // The rest of that enqueue: it links its node, and then may or may not move the tail.
  lemma EnqueueLink(mode: Mode, run: seq<Action>, s: State, t: nat) returns (run': seq<Action>, s': State)
    requires Leads(mode, run, s) && PcOf(s, t).EnqLink? && PcOf(s, t).q == 0 && 0 in s.queues
    requires NextOf(s.pool, PcOf(s, t).tail.index) == PcOf(s, t).next
    ensures Leads(mode, run', s')
    ensures var EnqLink(q, node, e, tail, next) := PcOf(s, t); var Q := s.queues[0];
      && 0 in s'.queues
      && s'.queues[0] == Q.(nodes := Q.nodes + [node], enqueued := Q.enqueued + [e],
           tail := if Q.tail == tail then Ptr(node, tail.count + 1) else Q.tail)
      && s'.pool.next == s.pool.next[tail.index := Ptr(node, next.count + 1)] && s'.pool.event == s.pool.event
      && s'.pool.owner.Keys == s.pool.owner.Keys + {node} && s'.pool.owner[node] == Slot(0, |Q.nodes|)
    ensures s'.pcs == s.pcs[t := Idle]
  {
    run', s' := Extend(mode, run, s, Advance(t, false));
    run', s' := Extend(mode, run', s', Advance(t, false));
  }

  lemma DequeuePeekSteps(mode: Mode, s: State, t: nat) returns (s1: State, s2: State, s3: State, s4: State)
    requires Enabled(mode, s, Dequeue(t, 0))
    ensures s1 == Step(mode, s, Dequeue(t, 0))
    ensures Enabled(mode, s1, Advance(t, false)) && s2 == Step(mode, s1, Advance(t, false))
    ensures Enabled(mode, s2, Advance(t, false)) && s3 == Step(mode, s2, Advance(t, false))
    ensures Enabled(mode, s3, Advance(t, false)) && s4 == Step(mode, s3, Advance(t, false))
    ensures var Q := s.queues[0];
      s4 == Goto(s, t, DeqNext(0, Q.head, Q.tail, NextOf(s.pool, Q.head.index), Q.enqueued == Q.dequeued))
  {
    var Q := s.queues[0];
    s1 := Goto(s, t, DeqStart(0));
    s2 := Goto(s, t, DeqHead(0, Q.head));
    s3 := Goto(s, t, DeqTail(0, Q.head, Q.tail));
    s4 := Goto(s, t, DeqNext(0, Q.head, Q.tail, NextOf(s.pool, Q.head.index), Q.enqueued == Q.dequeued));
  }

  // A dequeue up to the point where it has loaded the next of the head.
  lemma DequeuePeek(mode: Mode, run: seq<Action>, s: State, t: nat) returns (run': seq<Action>, s': State)
    requires Leads(mode, run, s) && Enabled(mode, s, Dequeue(t, 0))
    ensures Leads(mode, run', s')
    ensures var Q := s.queues[0];
      s' == Goto(s, t, DeqNext(0, Q.head, Q.tail, NextOf(s.pool, Q.head.index), Q.enqueued == Q.dequeued))
  {
    var s1, s2, s3, s4 := DequeuePeekSteps(mode, s, t);
    run', s' := Extend(mode, run, s, Dequeue(t, 0));
    run', s' := Extend(mode, run', s1, Advance(t, false));
    run', s' := Extend(mode, run', s2, Advance(t, false));
    run', s' := Extend(mode, run', s3, Advance(t, false));
  }

  // The reading half of a dequeue that found a second node.
  lemma DequeueRead(mode: Mode, run: seq<Action>, s: State, t: nat) returns (run': seq<Action>, s': State)
    requires Leads(mode, run, s) && PcOf(s, t).DeqNext? && PcOf(s, t).q == 0 && 0 in s.queues
    requires PcOf(s, t).head == s.queues[0].head && PcOf(s, t).head.index != PcOf(s, t).tail.index
    ensures Leads(mode, run', s')
    ensures var DeqNext(q, head, tail, next, _) := PcOf(s, t);
      s' == Goto(s, t, DeqSwing(0, head, next, EventOf(s.pool, next.index)))
  {
    run', s' := Extend(mode, run, s, Advance(t, false));
    run', s' := Extend(mode, run', s', Advance(t, false));
  }

  // The rest of it.
  lemma DequeuePop(mode: Mode, run: seq<Action>, s: State, t: nat) returns (run': seq<Action>, s': State)
    requires Leads(mode, run, s) && mode.recycle && PcOf(s, t).DeqSwing? && PcOf(s, t).q == 0 && 0 in s.queues
    requires PcOf(s, t).head == s.queues[0].head
    ensures Leads(mode, run', s')
    ensures var DeqSwing(q, head, next, e) := PcOf(s, t); var Q := s.queues[0];
      && 0 in s'.queues
      && s'.queues[0] == Q.(head := Ptr(next.index, head.count + 1), dequeued := Q.dequeued + [e])
      && s'.pool.next == s.pool.next[head.index := Ptr(0, 0)] && s'.pool.event == s.pool.event
      && s'.pool.owner.Keys == s.pool.owner.Keys - {head.index}
    ensures s'.pcs == s.pcs[t := Idle]
  {
    run', s' := Extend(mode, run, s, Advance(t, false));
    run', s' := Extend(mode, run', s', Advance(t, false));
  }

  // One enqueue is held up before its compare-and-swap while another one completes.
  lemma HeldUpEnqueue() returns (run: seq<Action>, s: State)
    ensures Leads(BUSY, run, s) && 0 in s.queues
    ensures s.queues[0] == Queue(Ptr(1, 0), Ptr(3, 1), [1, 3], [200], [])
    ensures s.pool.next == map[1 := Ptr(3, 1), 2 := Ptr(0, 0), 3 := Ptr(0, 0)]
    ensures s.pool.event == map[1 := 0, 2 := 100, 3 := 200] && s.pool.owner.Keys <= {1, 2, 3}
    ensures s.pcs == map[1 := EnqLink(0, 2, 100, Ptr(1, 0), Ptr(0, 0)), 2 := Idle]
  {
    run, s := Extend(BUSY, [], INIT, Create(0, 0, 1));
    assert s.queues[0] == Queue(Ptr(1, 0), Ptr(1, 0), [1], [], []);
    run, s := EnqueuePeek(BUSY, run, s, 1, 2, 100);
    run, s := EnqueuePeek(BUSY, run, s, 2, 3, 200);
    run, s := EnqueueLink(BUSY, run, s, 2);
  }

  // Meanwhile a dequeue reads that event ...
  lemma HeldUpBesideADequeue() returns (run: seq<Action>, s: State)
    ensures Leads(BUSY, run, s) && 0 in s.queues
    ensures s.queues[0] == Queue(Ptr(1, 0), Ptr(3, 1), [1, 3], [200], [])
    ensures s.pool.next == map[1 := Ptr(3, 1), 2 := Ptr(0, 0), 3 := Ptr(0, 0)] && s.pool.owner.Keys <= {1, 2, 3}
    ensures s.pcs == map[1 := EnqLink(0, 2, 100, Ptr(1, 0), Ptr(0, 0)), 2 := Idle,
                         3 := DeqSwing(0, Ptr(1, 0), Ptr(3, 1), 200)]
  {
    run, s := HeldUpEnqueue();
    run, s := DequeuePeek(BUSY, run, s, 3);
    run, s := DequeueRead(BUSY, run, s, 3);
  }

  // ... takes it, and frees the node the first enqueue is held up on.
  lemma HeldUpOnAFreedNode() returns (run: seq<Action>, s: State)
    ensures Leads(BUSY, run, s) && 0 in s.queues
    ensures s.queues[0] == Queue(Ptr(3, 1), Ptr(3, 1), [1, 3], [200], [200])
    ensures s.pool.next == map[1 := Ptr(0, 0), 2 := Ptr(0, 0), 3 := Ptr(0, 0)] && s.pool.owner.Keys <= {1, 2, 3}
    ensures s.pcs == map[1 := EnqLink(0, 2, 100, Ptr(1, 0), Ptr(0, 0)), 2 := Idle, 3 := Idle]
  {
    run, s := HeldUpBesideADequeue();
    run, s := DequeuePop(BUSY, run, s, 3);
  }

  // With two enqueues at a time and recycled nodes an event is lost: one enqueue is held
  // up before its compare-and-swap on the next of the last node; that node is dequeued and
  // freed, its `next` starts again at zero, and the compare-and-swap succeeds on a node
  // that is no longer in the queue. The next dequeue returns null although an event was
  // enqueued, by a call that has returned, and never dequeued.
  lemma BusyQueueLosesAnEvent() returns (run: seq<Action>, s: State)
    ensures Leads(BUSY, run, s) && 0 in s.queues
    ensures s.queues[0] == Queue(Ptr(3, 1), Ptr(3, 1), [1, 3, 2], [200, 100], [200])
    ensures s.pool.next == map[1 := Ptr(2, 1), 2 := Ptr(0, 0), 3 := Ptr(0, 0)] && s.pool.owner.Keys <= {1, 2, 3}
    ensures s.pcs == map[1 := Idle, 2 := Idle, 3 := DeqNext(0, Ptr(3, 1), Ptr(3, 1), Ptr(0, 0), false)]
  {
    run, s := HeldUpOnAFreedNode();
    run, s := EnqueueLink(BUSY, run, s, 1);             // thread 1 links node 2 to the freed node 1
    assert s.queues[0] == Queue(Ptr(3, 1), Ptr(3, 1), [1, 3, 2], [200, 100], [200]);
    assert s.pool.next == map[1 := Ptr(2, 1), 2 := Ptr(0, 0), 3 := Ptr(0, 0)];
    run, s := DequeuePeek(BUSY, run, s, 3);
  }

  // That null is the wrong answer, and the list is short of an event.
  lemma BusyQueueReturnsNull() returns (run: seq<Action>)
    ensures CanRun(BUSY, run) && !NullWhenEmpty(BUSY, run, 3) && !HoldsTheRest(BUSY, run, 0)
  {
    var s;
    run, s := BusyQueueLosesAnEvent();
    assert PcOf(Step(BUSY, s, Advance(3, false)), 3).Idle?;
    var i := WhenNextWasLoaded(BUSY, run, 3);
    forall j: nat ensures !LoadedWhenEmpty(BUSY, run, 3, j) {
      assert LoadedWhenEmpty(BUSY, run, 3, j) ==> j == i;
    }
    assert !Spells(s.pool, 3, [200, 100][1..]);
  }

  // The next event to be read is not the next one in the order ...
  lemma BusyQueueReadsAnother() returns (run: seq<Action>, s: State)
    ensures Leads(BUSY, run, s) && 0 in s.queues
    ensures s.queues[0].head == Ptr(3, 1)
    ensures s.queues[0].enqueued == [200, 100, 300] && s.queues[0].dequeued == [200]
    ensures 4 in s.pool.owner && s.pool.owner[4] == Slot(0, 3) && EventOf(s.pool, 4) == 300
    ensures PcOf(s, 3) == DeqRead(0, Ptr(3, 1), Ptr(4, 1))
  {
    run, s := BusyQueueLosesAnEvent();
    run, s := Extend(BUSY, run, s, Advance(3, false));
    run, s := EnqueuePeek(BUSY, run, s, 2, 4, 300);
    run, s := EnqueueLink(BUSY, run, s, 2);
    run, s := DequeuePeek(BUSY, run, s, 3);
    run, s := Extend(BUSY, run, s, Advance(3, false));
  }

  // ... and the lost event is left out of it: the one enqueued later comes out instead.
  lemma BusyQueueSkipsAnEvent() returns (run: seq<Action>, s: State)
    ensures Leads(BUSY, run, s) && 0 in s.queues
    ensures s.queues[0].enqueued == [200, 100, 300] && s.queues[0].dequeued == [200, 300]
  {
    run, s := BusyQueueReadsAnother();
    run, s := Extend(BUSY, run, s, Advance(3, false));
    run, s := DequeuePop(BUSY, run, s, 3);
  }
}
