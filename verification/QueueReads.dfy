// What a dequeue reads: the node after the head, whose event it takes before its
// compare-and-swap on m_head. That node has been freed and destroyed if another dequeue
// was faster, whatever becomes of the compare-and-swap.
module QueueReads {
  import opened EventQueue

  // ----- following next ------------------------------------------------------------------

  // The node n steps after a, or 0 past the end.
  function Walk(p: Pool, a: nat, n: nat): nat
    decreases n
  {
    if n == 0 || a == 0 then a else Walk(p, NextOf(p, a).index, n - 1)
  }

  // A node that was linked to a queue and not taken off since.
  predicate Linked(p: Pool, node: nat) {
    node in p.owner && p.owner[node].Slot?
  }

  // Whatever follows a node is linked, and follows no other.
  ghost predicate NextsOk(p: Pool) {
    && (forall n {:trigger NextOf(p, n)} :: NextOf(p, n).index != 0 ==> Linked(p, NextOf(p, n).index))
    && (forall n, m {:trigger NextOf(p, n), NextOf(p, m)} ::
          n != m && NextOf(p, n).index != 0 ==> NextOf(p, n).index != NextOf(p, m).index)
  }

  lemma {:induction false} WalkOn(p: Pool, a: nat, n: nat)
    ensures Walk(p, a, n) != 0 ==> Walk(p, a, n + 1) == NextOf(p, Walk(p, a, n)).index
    decreases n
  {
    if n > 0 && a != 0 {
      WalkOn(p, NextOf(p, a).index, n - 1);
    }
  }

  lemma {:induction false} WalkIsLinked(p: Pool, a: nat, n: nat)
    requires NextsOk(p) && Linked(p, a) && Walk(p, a, n) != 0
    ensures Linked(p, Walk(p, a, n))
    decreases n
  {
    if n > 0 && a != 0 {
      WalkIsLinked(p, NextOf(p, a).index, n - 1);
    }
  }

  // Linked nodes that have a next keep it.
  ghost predicate KeepsNexts(p: Pool, p': Pool) {
    forall n :: Linked(p, n) && NextOf(p, n).index != 0 ==> NextOf(p', n) == NextOf(p, n)
  }

  lemma {:induction false} WalkStays(p: Pool, p': Pool, a: nat, n: nat)
    requires NextsOk(p) && KeepsNexts(p, p') && Linked(p, a) && Walk(p, a, n) != 0
    ensures Walk(p', a, n) == Walk(p, a, n)
    decreases n
  {
    if n > 0 && a != 0 {
      assert NextOf(p, a).index != 0;
      WalkStays(p, p', NextOf(p, a).index, n - 1);
    }
  }

  // ----- the invariant -------------------------------------------------------------------

  predicate OnItsWay(pc: Pc, q: nat, node: nat) {
    pc.DeqFree? && pc.q == q && pc.node == node
  }

  // A node taken off q by a thread that is about to give it back.
  predicate Leaving(s: State, q: nat, node: nat) {
    node in s.pool.owner && s.pool.owner[node].Private? && OnItsWay(PcOf(s, s.pool.owner[node].t), q, node)
  }

  // The head is linked, only a node that is leaving comes before it, and the tail is
  // tail.count - head.count steps after it.
  ghost predicate EndsOk(s: State, q: nat)
    requires q in s.queues
  {
    var Q, p := s.queues[q], s.pool;
    && Q.head.index != 0 && Linked(p, Q.head.index)
    && (forall n {:trigger NextOf(p, n)} :: NextOf(p, n).index == Q.head.index ==> Leaving(s, q, n))
    && Q.head.count <= Q.tail.count && Q.tail.index != 0
    && Walk(p, Q.head.index, Q.tail.count - Q.head.count) == Q.tail.index
  }

  ghost predicate HeadsApart(s: State) {
    forall q, r :: q in s.queues && r in s.queues && q != r ==> s.queues[q].head.index != s.queues[r].head.index
  }

  // m_tail has been `tail`; if it still is, what follows it is known.
  ghost predicate TailWas(Q: Queue, tail: Ptr) {
    tail.count <= Q.tail.count && (tail.count == Q.tail.count ==> tail == Q.tail)
  }

  ghost predicate AtHead(p: Pool, Q: Queue, head: Ptr, tail: Ptr) {
    && head == Q.head && head.count <= tail.count <= Q.tail.count && tail.index != 0
    && Walk(p, head.index, tail.count - head.count) == tail.index
  }

  ghost predicate AtNext(p: Pool, Q: Queue, head: Ptr, next: Ptr) {
    head == Q.head && head.count < Q.tail.count && next.index != 0 && NextOf(p, head.index) == next
  }

  ghost predicate WorkOk(p: Pool, t: nat, pc: Pc, Q: Queue) {
    match pc
    case Idle => true
    case EnqStart(_, node, _) => node != 0 && node in p.owner && p.owner[node] == Private(t)
    case EnqTail(_, node, _, tail) => node != 0 && node in p.owner && p.owner[node] == Private(t) && TailWas(Q, tail)
    case EnqNext(_, node, _, tail, next) =>
      && node != 0 && node in p.owner && p.owner[node] == Private(t) && TailWas(Q, tail)
      && (tail == Q.tail && next.index != 0 ==> NextOf(p, tail.index) == next)
    case EnqLink(_, node, _, tail, next) =>
      node != 0 && node in p.owner && p.owner[node] == Private(t) && TailWas(Q, tail) && next.index == 0
    case EnqHelp(_, node, _, tail, next) =>
      && node != 0 && node in p.owner && p.owner[node] == Private(t) && TailWas(Q, tail) && next.index != 0
      && (tail == Q.tail ==> NextOf(p, tail.index) == next)
    case EnqSwing(_, node, tail) =>
      node != 0 && TailWas(Q, tail) && (tail == Q.tail ==> NextOf(p, tail.index).index == node)
    case DeqStart(_) => true
    case DeqHead(_, head) => head == Q.head
    case DeqTail(_, head, tail) => AtHead(p, Q, head, tail) && TailWas(Q, tail)
    case DeqNext(_, head, tail, next, _) =>
      && AtHead(p, Q, head, tail) && TailWas(Q, tail)
      && (next.index != 0 ==> NextOf(p, head.index) == next)
      && (head.count < tail.count ==> next.index != 0)
    case DeqHelp(_, tail, next) =>
      TailWas(Q, tail) && next.index != 0 && (tail == Q.tail ==> NextOf(p, tail.index) == next)
    case DeqRead(_, head, next) => AtNext(p, Q, head, next)
    case DeqSwing(_, head, next, _) => AtNext(p, Q, head, next)
    case DeqFree(_, node, _) => node in p.owner && p.owner[node] == Private(t)
  }

  ghost predicate ThreadIn(s: State, t: nat) {
    var pc := PcOf(s, t);
    !pc.Idle? ==> pc.q in s.queues && WorkOk(s.pool, t, pc, s.queues[pc.q])
  }

  ghost predicate OneOut(s: State) {
    forall t, u, q :: t != u ==> !(Dequeuing(PcOf(s, t), q) && Dequeuing(PcOf(s, u), q))
  }

  ghost predicate ListsOk(s: State) {
    NextsOk(s.pool) && HeadsApart(s) && forall q :: q in s.queues ==> EndsOk(s, q)
  }

  ghost predicate ReadInv(s: State) {
    ListsOk(s) && (forall t :: ThreadIn(s, t)) && OneOut(s)
  }

  // ----- every step keeps it -------------------------------------------------------------

  // What a step of t does to the pool and to the queues, as far as others rely on them.
  ghost predicate Gentle(s: State, s': State, t: nat) {
    && KeepsNexts(s.pool, s'.pool)
    && (forall n {:trigger NextOf(s'.pool, n)} ::
          NextOf(s'.pool, n).index != 0 && Linked(s.pool, NextOf(s'.pool, n).index) ==>
            NextOf(s.pool, n).index == NextOf(s'.pool, n).index)
    && (forall n :: n in s.pool.owner && s.pool.owner[n].Private? && s.pool.owner[n].t != t ==>
          n in s'.pool.owner && s'.pool.owner[n] == s.pool.owner[n])
    && (forall r :: r in s.queues ==> r in s'.queues && TailWas(s'.queues[r], s.queues[r].tail))
    && (forall u :: u != t ==> PcOf(s', u) == PcOf(s, u))
  }

  lemma TailIsLinked(s: State, q: nat)
    requires ListsOk(s) && q in s.queues
    ensures Linked(s.pool, s.queues[q].tail.index)
  {
    assert EndsOk(s, q);
    var Q := s.queues[q];
    WalkIsLinked(s.pool, Q.head.index, Q.tail.count - Q.head.count);
  }

  lemma EndsStay(s: State, s': State, t: nat, r: nat)
    requires ListsOk(s) && Gentle(s, s', t) && r in s.queues && s'.queues[r] == s.queues[r]
    requires Linked(s'.pool, s.queues[r].head.index)
    requires PcOf(s, t).DeqFree? ==> NextOf(s'.pool, PcOf(s, t).node).index == 0
    ensures EndsOk(s', r)
  {
    assert EndsOk(s, r);
    var Q := s.queues[r];
    WalkStays(s.pool, s'.pool, Q.head.index, Q.tail.count - Q.head.count);
    forall n | NextOf(s'.pool, n).index == Q.head.index ensures Leaving(s', r, n) {
      assert NextOf(s.pool, n).index == Q.head.index;
      assert Leaving(s, r, n);
    }
  }

  lemma WorkStays(s: State, s': State, t: nat, u: nat)
    requires ListsOk(s) && Gentle(s, s', t) && u != t && ThreadIn(s, u)
    requires forall q :: q in s.queues && Dequeuing(PcOf(s, u), q) ==> s'.queues[q].head == s.queues[q].head
    ensures ThreadIn(s', u)
  {
    var pc := PcOf(s, u);
    if !pc.Idle? {
      var Q := s.queues[pc.q];
      assert EndsOk(s, pc.q);
      TailIsLinked(s, pc.q);
      if pc.DeqTail? || pc.DeqNext? {
        WalkStays(s.pool, s'.pool, Q.head.index, pc.tail.count - Q.head.count);
      }
    }
  }

  // What a step of t leaves behind.
  ghost predicate Fine(s: State, s': State, t: nat) {
    && Gentle(s, s', t) && ListsOk(s') && ThreadIn(s', t)
    && forall q :: q in s.queues && s'.queues[q].head != s.queues[q].head ==> Dequeuing(PcOf(s, t), q)
  }

  // A step that leaves the heads and keeps the pool in order.
  lemma ListsStay(s: State, s': State)
    requires HeadsApart(s) && NextsOk(s'.pool) && s'.queues.Keys == s.queues.Keys
    requires forall r :: r in s.queues ==> s'.queues[r].head == s.queues[r].head && EndsOk(s', r)
    ensures ListsOk(s')
  {
  }

  // A step that changes nothing but where the thread is.
  lemma LoadIsFine(s: State, t: nat, pc: Pc)
    requires ListsOk(s) && ThreadIn(Goto(s, t, pc), t) && !PcOf(s, t).DeqFree?
    ensures Fine(s, Goto(s, t, pc), t)
  {
    var s' := Goto(s, t, pc);
    forall r | r in s.queues ensures EndsOk(s', r) {
      assert EndsOk(s, r);
      EndsStay(s, s', t, r);
    }
  }

  // Taking a node that is in nobody's hands.
  lemma TakeNexts(p: Pool, node: nat, e: Event, use: Owner)
    requires NextsOk(p) && node > 0 && node !in p.owner
    ensures NextsOk(Take(p, node, e, use)) && KeepsNexts(p, Take(p, node, e, use))
    ensures forall n {:trigger NextOf(p, n)} ::
      NextOf(p, n).index != node && NextOf(Take(p, node, e, use), n).index != node
  {
    var p' := Take(p, node, e, use);
    forall n ensures NextOf(p', n) == (if n == node then Ptr(0, 0) else NextOf(p, n)) && NextOf(p, n).index != node {
      assert NextOf(p, n).index == node ==> Linked(p, node);
    }
  }

  lemma CreateIsGentle(mode: Mode, s: State, a: Action)
    requires NextsOk(s.pool) && Enabled(mode, s, a) && a.Create?
    ensures Gentle(s, Step(mode, s, a), a.t) && NextsOk(Step(mode, s, a).pool)
  {
    TakeNexts(s.pool, a.node, 0, Slot(a.q, 0));
  }

  lemma EnqueueIsGentle(mode: Mode, s: State, a: Action)
    requires NextsOk(s.pool) && Enabled(mode, s, a) && a.Enqueue?
    ensures Gentle(s, Step(mode, s, a), a.t) && NextsOk(Step(mode, s, a).pool)
  {
    TakeNexts(s.pool, a.node, a.event, Private(a.t));
  }

  lemma CreatedEnds(mode: Mode, s: State, a: Action)
    requires ListsOk(s) && Enabled(mode, s, a) && a.Create?
    ensures EndsOk(Step(mode, s, a), a.q)
    ensures forall r :: r in s.queues ==> s.queues[r].head.index != a.node
  {
    var s' := Step(mode, s, a);
    TakeNexts(s.pool, a.node, 0, Slot(a.q, 0));
    forall r | r in s.queues ensures s.queues[r].head.index != a.node {
      assert EndsOk(s, r);
    }
    assert Walk(s'.pool, a.node, 0) == a.node;
    assert forall n {:trigger NextOf(s'.pool, n)} :: NextOf(s'.pool, n).index != a.node by {
      assert forall n {:trigger NextOf(s.pool, n)} :: NextOf(s.pool, n).index != a.node;
    }
  }

  lemma CreateIsFine(mode: Mode, s: State, a: Action)
    requires ListsOk(s) && Enabled(mode, s, a) && a.Create?
    ensures Fine(s, Step(mode, s, a), a.t)
  {
    var s' := Step(mode, s, a);
    CreateIsGentle(mode, s, a);
    forall r | r in s.queues ensures EndsOk(s', r) {
      assert EndsOk(s, r);
      EndsStay(s, s', a.t, r);
    }
    CreatedEnds(mode, s, a);
  }

  lemma EnqueueIsFine(mode: Mode, s: State, a: Action)
    requires ListsOk(s) && Enabled(mode, s, a) && a.Enqueue?
    ensures Fine(s, Step(mode, s, a), a.t)
  {
    var s' := Step(mode, s, a);
    EnqueueIsGentle(mode, s, a);
    forall r | r in s.queues ensures EndsOk(s', r) {
      assert EndsOk(s, r);
      EndsStay(s, s', a.t, r);
    }
    ListsStay(s, s');
  }

  lemma StartIsFine(mode: Mode, s: State, a: Action)
    requires ListsOk(s) && Enabled(mode, s, a) && !a.Advance?
    ensures Fine(s, Step(mode, s, a), a.t)
  {
    match a
    case Create(t, q, node) => CreateIsFine(mode, s, a);
    case Enqueue(t, q, node, e) => EnqueueIsFine(mode, s, a);
    case Dequeue(t, q) => LoadIsFine(s, t, DeqStart(q));
  }

  // The loads, and the tests of what was loaded.
  predicate Loads(pc: Pc) {
    || pc.EnqStart? || pc.EnqTail? || pc.EnqNext?
    || pc.DeqStart? || pc.DeqHead? || pc.DeqTail? || pc.DeqNext? || pc.DeqRead?
  }

  lemma NextIsKnown(s: State, t: nat)
    requires ListsOk(s) && ThreadIn(s, t) && PcOf(s, t).DeqTail?
    ensures var DeqTail(q, head, tail) := PcOf(s, t);
      head.count < tail.count ==> NextOf(s.pool, head.index).index != 0
  {
    var DeqTail(q, head, tail) := PcOf(s, t);
    assert EndsOk(s, q);
    assert tail.count > head.count ==> Walk(s.pool, NextOf(s.pool, head.index).index, tail.count - head.count - 1) != 0;
  }

  lemma LoadStepIsFine(mode: Mode, s: State, a: Action)
    requires ListsOk(s) && Enabled(mode, s, a) && a.Advance? && ThreadIn(s, a.t) && Loads(PcOf(s, a.t))
    ensures Fine(s, Step(mode, s, a), a.t)
  {
    var s' := Step(mode, s, a);
    var pc := PcOf(s, a.t);
    assert EndsOk(s, pc.q);
    if pc.DeqTail? {
      NextIsKnown(s, a.t);
    }
    assert s' == Goto(s, a.t, PcOf(s', a.t));
    LoadIsFine(s, a.t, PcOf(s', a.t));
  }

  lemma SwungEnds(s: State, s': State, q: nat, node: nat)
    requires ListsOk(s) && q in s.queues && s'.pool == s.pool && node != 0
    requires NextOf(s.pool, s.queues[q].tail.index).index == node
    requires q in s'.queues && s'.queues[q] == s.queues[q].(tail := Ptr(node, s.queues[q].tail.count + 1))
    requires forall n :: Leaving(s, q, n) ==> Leaving(s', q, n)
    ensures EndsOk(s', q)
  {
    assert EndsOk(s, q);
    var Q := s.queues[q];
    WalkOn(s.pool, Q.head.index, Q.tail.count - Q.head.count);
  }

  // compare_exchange on m_tail, by whoever knows what follows it.
  lemma SwingIsGentle(s: State, t: nat, pc: Pc, q: nat, tail: Ptr, node: nat, spurious: bool)
    requires q in s.queues
    ensures Gentle(s, Goto(SwingTail(s, q, tail, node, spurious), t, pc), t)
  {
  }

  lemma SwingKeepsLists(s: State, t: nat, pc: Pc, q: nat, tail: Ptr, node: nat, spurious: bool)
    requires ListsOk(s) && q in s.queues && node != 0 && !PcOf(s, t).DeqFree?
    requires tail == s.queues[q].tail ==> NextOf(s.pool, tail.index).index == node
    ensures ListsOk(Goto(SwingTail(s, q, tail, node, spurious), t, pc))
  {
    var s' := Goto(SwingTail(s, q, tail, node, spurious), t, pc);
    SwingIsGentle(s, t, pc, q, tail, node, spurious);
    forall r | r in s.queues ensures EndsOk(s', r) {
      assert EndsOk(s, r);
      if s'.queues[r] == s.queues[r] {
        EndsStay(s, s', t, r);
      } else {
        SwungEnds(s, s', r, node);
      }
    }
    ListsStay(s, s');
  }

  lemma SwingIsFine(s: State, t: nat, pc: Pc, q: nat, tail: Ptr, node: nat, spurious: bool)
    requires ListsOk(s) && q in s.queues && node != 0 && !PcOf(s, t).DeqFree?
    requires tail == s.queues[q].tail ==> NextOf(s.pool, tail.index).index == node
    requires ThreadIn(Goto(SwingTail(s, q, tail, node, spurious), t, pc), t)
    ensures Fine(s, Goto(SwingTail(s, q, tail, node, spurious), t, pc), t)
  {
    SwingIsGentle(s, t, pc, q, tail, node, spurious);
    SwingKeepsLists(s, t, pc, q, tail, node, spurious);
  }

  lemma SwingStepIsFine(mode: Mode, s: State, a: Action)
    requires ListsOk(s) && Enabled(mode, s, a) && a.Advance? && ThreadIn(s, a.t)
    requires var pc := PcOf(s, a.t); pc.EnqHelp? || pc.EnqSwing? || pc.DeqHelp?
    ensures Fine(s, Step(mode, s, a), a.t)
  {
    match PcOf(s, a.t)
    case EnqHelp(q, node, e, tail, next) =>
      SwingIsFine(s, a.t, EnqStart(q, node, e), q, tail, next.index, a.spurious);
    case EnqSwing(q, node, tail) => SwingIsFine(s, a.t, Idle, q, tail, node, a.spurious);
    case DeqHelp(q, tail, next) => SwingIsFine(s, a.t, DeqStart(q), q, tail, next.index, a.spurious);
  }

  // compare_exchange on the next of whatever node: the new node is nobody's next so far.
  lemma LinkNexts(p: Pool, at: nat, node: nat, count: nat, use: Owner)
    requires NextsOk(p) && NextOf(p, at).index == 0 && use.Slot?
    requires node != 0 && node in p.owner && p.owner[node].Private?
    ensures var p' := p.(next := p.next[at := Ptr(node, count)], owner := p.owner[node := use]);
      && NextsOk(p') && KeepsNexts(p, p')
      && forall n {:trigger NextOf(p', n)} :: NextOf(p', n) == if n == at then Ptr(node, count) else NextOf(p, n)
  {
    var p' := p.(next := p.next[at := Ptr(node, count)], owner := p.owner[node := use]);
    forall n
      ensures NextOf(p', n) == (if n == at then Ptr(node, count) else NextOf(p, n)) && NextOf(p, n).index != node
    {
      assert NextOf(p, n).index == node ==> Linked(p, node);
    }
    forall n | NextOf(p', n).index != 0 ensures Linked(p', NextOf(p', n).index) {
      assert n != at ==> Linked(p, NextOf(p, n).index);
    }
  }

  lemma LinkedEnds(s: State, s': State, t: nat, r: nat)
    requires ListsOk(s) && Gentle(s, s', t) && r in s.queues && !PcOf(s, t).DeqFree?
    requires var Q, Q' := s.queues[r], s'.queues[r]; Q'.head == Q.head && Q'.tail == Q.tail
    requires Linked(s.pool, s.queues[r].head.index) ==> Linked(s'.pool, s.queues[r].head.index)
    ensures EndsOk(s', r)
  {
    assert EndsOk(s, r);
    var Q := s.queues[r];
    WalkStays(s.pool, s'.pool, Q.head.index, Q.tail.count - Q.head.count);
    forall n | NextOf(s'.pool, n).index == Q.head.index ensures Leaving(s', r, n) {
      assert NextOf(s.pool, n).index == Q.head.index;
      assert Leaving(s, r, n);
    }
  }

  lemma LinkIsGentle(mode: Mode, s: State, a: Action)
    requires NextsOk(s.pool) && Enabled(mode, s, a) && a.Advance? && ThreadIn(s, a.t) && PcOf(s, a.t).EnqLink?
    requires !a.spurious && NextOf(s.pool, PcOf(s, a.t).tail.index) == PcOf(s, a.t).next
    ensures var s' := Step(mode, s, a); Gentle(s, s', a.t) && NextsOk(s'.pool) && ThreadIn(s', a.t)
  {
    var EnqLink(q, node, e, tail, next) := PcOf(s, a.t);
    LinkNexts(s.pool, tail.index, node, next.count + 1, Slot(q, |s.queues[q].nodes|));
  }

  lemma LinkIsFine(mode: Mode, s: State, a: Action)
    requires ListsOk(s) && Enabled(mode, s, a) && a.Advance? && ThreadIn(s, a.t) && PcOf(s, a.t).EnqLink?
    ensures Fine(s, Step(mode, s, a), a.t)
  {
    var s' := Step(mode, s, a);
    var EnqLink(q, node, e, tail, next) := PcOf(s, a.t);
    if a.spurious || NextOf(s.pool, tail.index) != next {
      LoadIsFine(s, a.t, EnqStart(q, node, e));
    } else {
      LinkIsGentle(mode, s, a);
      forall r | r in s.queues ensures EndsOk(s', r) {
        LinkedEnds(s, s', a.t, r);
      }
      ListsStay(s, s');
    }
  }

  // Giving back a node that is nobody's next.
  lemma FreeNexts(p: Pool, node: nat)
    requires NextsOk(p) && node in p.owner && p.owner[node].Private?
    ensures var p' := p.(next := p.next[node := Ptr(0, 0)], owner := p.owner - {node});
      && NextsOk(p') && KeepsNexts(p, p')
      && forall n {:trigger NextOf(p', n)} :: NextOf(p', n) == if n == node then Ptr(0, 0) else NextOf(p, n)
  {
    var p' := p.(next := p.next[node := Ptr(0, 0)], owner := p.owner - {node});
    forall n ensures NextOf(p', n) == if n == node then Ptr(0, 0) else NextOf(p, n) {
    }
    forall n | NextOf(p', n).index != 0 ensures Linked(p', NextOf(p', n).index) {
      assert Linked(p, NextOf(p, n).index);
    }
  }

  lemma FreeIsGentle(mode: Mode, s: State, a: Action)
    requires mode.recycle
    requires NextsOk(s.pool) && Enabled(mode, s, a) && a.Advance? && ThreadIn(s, a.t) && PcOf(s, a.t).DeqFree?
    ensures var s' := Step(mode, s, a); Gentle(s, s', a.t) && NextsOk(s'.pool)
    ensures NextOf(Step(mode, s, a).pool, PcOf(s, a.t).node).index == 0
  {
    FreeNexts(s.pool, PcOf(s, a.t).node);
  }

  lemma FreeIsFine(mode: Mode, s: State, a: Action)
    requires mode.recycle
    requires ListsOk(s) && Enabled(mode, s, a) && a.Advance? && ThreadIn(s, a.t) && PcOf(s, a.t).DeqFree?
    ensures Fine(s, Step(mode, s, a), a.t)
  {
    var s' := Step(mode, s, a);
    FreeIsGentle(mode, s, a);
    forall r | r in s.queues ensures EndsOk(s', r) {
      assert EndsOk(s, r);
      EndsStay(s, s', a.t, r);
    }
    ListsStay(s, s');
  }

  // Nothing comes before a head that is about to go.
  lemma HeadIsFirst(s: State, t: nat, n: nat)
    requires ListsOk(s) && ThreadIn(s, t) && OneOut(s) && PcOf(s, t).DeqSwing?
    ensures NextOf(s.pool, n).index != s.queues[PcOf(s, t).q].head.index
  {
    var q := PcOf(s, t).q;
    assert EndsOk(s, q);
    if NextOf(s.pool, n).index == s.queues[q].head.index {
      assert Leaving(s, q, n);
      assert Dequeuing(PcOf(s, s.pool.owner[n].t), q) && Dequeuing(PcOf(s, t), q);
      assert false;
    }
  }

  // compare_exchange on m_head succeeds.
  ghost predicate Pops(mode: Mode, s: State, a: Action) {
    && mode.recycle && ListsOk(s) && OneOut(s) && Enabled(mode, s, a) && a.Advance? && ThreadIn(s, a.t)
    && PcOf(s, a.t).DeqSwing? && !a.spurious
  }

  lemma PopIsGentle(mode: Mode, s: State, a: Action)
    requires Pops(mode, s, a)
    ensures var s' := Step(mode, s, a); Gentle(s, s', a.t) && NextsOk(s'.pool) && ThreadIn(s', a.t)
  {
    var q := PcOf(s, a.t).q;
    assert EndsOk(s, q);
    var s' := Step(mode, s, a);
    assert forall n {:trigger NextOf(s'.pool, n)} :: NextOf(s'.pool, n) == NextOf(s.pool, n);
    forall n ensures NextOf(s.pool, n).index != s.queues[q].head.index {
      HeadIsFirst(s, a.t, n);
    }
  }

  // The second node becomes the head; the first one is leaving.
  lemma PoppedEnds(mode: Mode, s: State, a: Action)
    requires Pops(mode, s, a)
    ensures EndsOk(Step(mode, s, a), PcOf(s, a.t).q)
  {
    var DeqSwing(q, head, next, e) := PcOf(s, a.t);
    assert EndsOk(s, q);
    PopIsGentle(mode, s, a);
    var s' := Step(mode, s, a);
    var n := s.queues[q].tail.count - head.count;
    assert Walk(s.pool, next.index, n - 1) == Walk(s.pool, head.index, n);
    HeadIsFirst(s, a.t, head.index);
    WalkStays(s.pool, s'.pool, next.index, n - 1);
    forall m | NextOf(s'.pool, m).index == next.index ensures Leaving(s', q, m) {
      assert NextOf(s.pool, m).index == NextOf(s.pool, head.index).index;
    }
  }

  lemma OtherHead(mode: Mode, s: State, a: Action, r: nat)
    requires Pops(mode, s, a) && r in s.queues && r != PcOf(s, a.t).q
    ensures s.queues[r].head.index != PcOf(s, a.t).next.index && EndsOk(Step(mode, s, a), r)
  {
    var q := PcOf(s, a.t).q;
    assert EndsOk(s, q) && EndsOk(s, r);
    var first := s.queues[q].head.index;
    assert !Leaving(s, r, first);
    assert NextOf(s.pool, first).index != s.queues[r].head.index;
    PopIsGentle(mode, s, a);
    EndsStay(s, Step(mode, s, a), a.t, r);
  }

  lemma PopIsFine(mode: Mode, s: State, a: Action)
    requires mode.recycle && OneOut(s)
    requires ListsOk(s) && Enabled(mode, s, a) && a.Advance? && ThreadIn(s, a.t) && PcOf(s, a.t).DeqSwing?
    ensures Fine(s, Step(mode, s, a), a.t)
  {
    var s' := Step(mode, s, a);
    var q := PcOf(s, a.t).q;
    if a.spurious {
      LoadIsFine(s, a.t, DeqStart(q));
    } else {
      PopIsGentle(mode, s, a);
      PoppedEnds(mode, s, a);
      forall r | r in s.queues && r != q ensures s.queues[r].head.index != s'.queues[q].head.index && EndsOk(s', r) {
        OtherHead(mode, s, a, r);
      }
    }
  }

  lemma StepIsFine(mode: Mode, s: State, a: Action)
    requires mode.recycle && ReadInv(s) && Enabled(mode, s, a)
    ensures Fine(s, Step(mode, s, a), a.t)
  {
    assert ThreadIn(s, a.t);
    if !a.Advance? {
      StartIsFine(mode, s, a);
    } else {
      var pc := PcOf(s, a.t);
      if Loads(pc) {
        LoadStepIsFine(mode, s, a);
      } else if pc.EnqLink? {
        LinkIsFine(mode, s, a);
      } else if pc.DeqSwing? {
        PopIsFine(mode, s, a);
      } else if pc.DeqFree? {
        FreeIsFine(mode, s, a);
      } else {
        SwingStepIsFine(mode, s, a);
      }
    }
  }

  // A thread comes to work on the head of a queue only by calling dequeue.
  lemma OutOfStep(mode: Mode, s: State, a: Action, q: nat)
    requires Enabled(mode, s, a)
    ensures Dequeuing(PcOf(Step(mode, s, a), a.t), q) ==> Dequeuing(PcOf(s, a.t), q) || (a.Dequeue? && a.q == q)
  {
    if a.Advance? {
      var pc, pc' := PcOf(s, a.t), PcOf(Step(mode, s, a), a.t);
      assert pc'.Idle? || pc'.q == pc.q;
    }
  }

  lemma StepKeepsOneOut(mode: Mode, s: State, a: Action)
    requires mode.soloOut && OneOut(s) && Enabled(mode, s, a)
    ensures OneOut(Step(mode, s, a))
  {
    var s' := Step(mode, s, a);
    forall t, u, q | t != u ensures !(Dequeuing(PcOf(s', t), q) && Dequeuing(PcOf(s', u), q)) {
      assert !(Dequeuing(PcOf(s, t), q) && Dequeuing(PcOf(s, u), q));
      if t != a.t { OthersStay(mode, s, a, t); }
      if u != a.t { OthersStay(mode, s, a, u); }
      OutOfStep(mode, s, a, q);
    }
  }

  lemma StepKeepsReadInv(mode: Mode, s: State, a: Action)
    requires mode.recycle && mode.soloOut && ReadInv(s) && Enabled(mode, s, a)
    ensures ReadInv(Step(mode, s, a))
  {
    var s' := Step(mode, s, a);
    StepIsFine(mode, s, a);
    forall u ensures ThreadIn(s', u) {
      if u != a.t {
        forall q | q in s.queues && Dequeuing(PcOf(s, u), q) ensures s'.queues[q].head == s.queues[q].head {
          assert !(Dequeuing(PcOf(s, u), q) && Dequeuing(PcOf(s, a.t), q));
        }
        WorkStays(s, s', a.t, u);
      }
    }
    StepKeepsOneOut(mode, s, a);
  }

  lemma {:induction false} RunKeepsReadInv(mode: Mode, run: seq<Action>)
    requires mode.recycle && mode.soloOut && CanRun(mode, run)
    ensures ReadInv(After(mode, run))
  {
    if run != [] {
      RunKeepsReadInv(mode, run[..|run| - 1]);
      StepKeepsReadInv(mode, After(mode, run[..|run| - 1]), run[|run| - 1]);
    }
  }

  // ----- what is read ----------------------------------------------------------------------

  // A dequeue about to read an event reads that of a node that was linked to a queue and not
  // taken off since: nobody has freed it.
  ghost predicate ReadsLive(mode: Mode, run: seq<Action>, t: nat)
    requires CanRun(mode, run)
  {
    var s := After(mode, run);
    PcOf(s, t).DeqRead? ==> PcOf(s, t).next.index != 0 && Linked(s.pool, PcOf(s, t).next.index)
  }

  // It is the node that comes after the head in the order of enqueueing.
  ghost predicate ReadsNext(mode: Mode, run: seq<Action>, t: nat)
    requires CanRun(mode, run)
  {
    var s := After(mode, run);
    PcOf(s, t).DeqRead? ==>
      var DeqRead(q, head, next) := PcOf(s, t);
      next.index in s.pool.owner && s.pool.owner[next.index] == Slot(q, head.count + 1)
  }

  // With one dequeue at a time no freed node is read, even where enqueues overlap.
  lemma ReadsAreLive(mode: Mode, run: seq<Action>, t: nat)
    requires mode.recycle ==> mode.soloOut
    requires CanRun(mode, run)
    ensures ReadsLive(mode, run, t)
  {
    var s := After(mode, run);
    if PcOf(s, t).DeqRead? {
      if mode.recycle {
        RunKeepsReadInv(mode, run);
        assert ThreadIn(s, t);
      } else {
        RunKeepsInv(mode, run);
        var DeqRead(q, head, next) := PcOf(s, t);
        assert ThreadOk(mode, t, PcOf(s, t), s) && NodeOk(q, s.queues[q], head.count + 1, s.pool);
      }
    }
  }

  lemma ReadsAreNext(mode: Mode, run: seq<Action>, t: nat)
    requires mode.recycle ==> mode.soloIn && mode.soloOut
    requires CanRun(mode, run)
    ensures ReadsNext(mode, run, t)
  {
    var s := After(mode, run);
    RunKeepsInv(mode, run);
    if mode.recycle {
      RunKeepsReadInv(mode, run);
      assert ThreadIn(s, t);
    }
    if PcOf(s, t).DeqRead? {
      ReadIsNext(mode, s, t);
    }
  }

  lemma ReadIsNext(mode: Mode, s: State, t: nat)
    requires Inv(mode, s) && PcOf(s, t).DeqRead?
    requires mode.recycle ==> PcOf(s, t).q in s.queues && PcOf(s, t).head == s.queues[PcOf(s, t).q].head
    ensures var DeqRead(q, head, next) := PcOf(s, t);
      next.index in s.pool.owner && s.pool.owner[next.index] == Slot(q, head.count + 1)
  {
    var DeqRead(q, head, next) := PcOf(s, t);
    assert ThreadOk(mode, t, s.pcs[t], s) && QueueOk(mode, q, s.queues[q], s.pool);
    assert NodeOk(q, s.queues[q], head.count + 1, s.pool);
  }

  // ----- modes ---------------------------------------------------------------------------

  // What can be run where less may overlap can be run where more may.
  ghost predicate Looser(mode: Mode, mode': Mode) {
    && mode.recycle == mode'.recycle
    && (mode'.soloIn ==> mode.soloIn) && (mode'.soloOut ==> mode.soloOut)
  }

  lemma {:induction false} RunsLooser(mode: Mode, mode': Mode, run: seq<Action>)
    requires Looser(mode, mode') && CanRun(mode, run)
    ensures CanRun(mode', run) && After(mode', run) == After(mode, run)
  {
    if run != [] {
      RunsLooser(mode, mode', run[..|run| - 1]);
    }
  }

  // Two dequeues and one enqueue at a time.
  const CROWD := Mode(true, true, false)

  lemma OneEvent() returns (run: seq<Action>, s: State)
    ensures Leads(CROWD, run, s) && 0 in s.queues
    ensures s.queues[0] == Queue(Ptr(1, 0), Ptr(2, 1), [1, 2], [100], [])
    ensures s.pool.next == map[1 := Ptr(2, 1), 2 := Ptr(0, 0)] && s.pool.owner.Keys == {1, 2}
    ensures s.pcs == map[1 := Idle]
  {
    run, s := Extend(CROWD, [], INIT, Create(0, 0, 1));
    assert s.queues[0] == Queue(Ptr(1, 0), Ptr(1, 0), [1], [], []);
    run, s := EnqueuePeek(CROWD, run, s, 1, 2, 100);
    run, s := EnqueueLink(CROWD, run, s, 1);
  }

  // Two events, one enqueued after the other.
  lemma TwoEvents() returns (run: seq<Action>, s: State)
    ensures Leads(CROWD, run, s) && 0 in s.queues
    ensures s.queues[0] == Queue(Ptr(1, 0), Ptr(3, 2), [1, 2, 3], [100, 200], [])
    ensures s.pool.next == map[1 := Ptr(2, 1), 2 := Ptr(3, 1), 3 := Ptr(0, 0)] && s.pool.owner.Keys == {1, 2, 3}
    ensures s.pcs == map[1 := Idle]
  {
    run, s := OneEvent();
    run, s := EnqueuePeek(CROWD, run, s, 1, 3, 200);
    run, s := EnqueueLink(CROWD, run, s, 1);
  }

  // A dequeue is held up before it reads the first of them.
  lemma HeldUpRead() returns (run: seq<Action>, s: State)
    ensures Leads(CROWD, run, s) && 0 in s.queues
    ensures s.queues[0] == Queue(Ptr(1, 0), Ptr(3, 2), [1, 2, 3], [100, 200], [])
    ensures s.pool.next == map[1 := Ptr(2, 1), 2 := Ptr(3, 1), 3 := Ptr(0, 0)] && s.pool.owner.Keys == {1, 2, 3}
    ensures s.pcs == map[1 := Idle, 2 := DeqRead(0, Ptr(1, 0), Ptr(2, 1))]
  {
    run, s := TwoEvents();
    run, s := DequeuePeek(CROWD, run, s, 2);
    run, s := Extend(CROWD, run, s, Advance(2, false));
  }

  // Meanwhile another takes both of them ...
  lemma AnotherReads() returns (run: seq<Action>, s: State, e: Event)
    ensures Leads(CROWD, run, s) && 0 in s.queues
    ensures s.queues[0] == Queue(Ptr(1, 0), Ptr(3, 2), [1, 2, 3], [100, 200], [])
    ensures s.pool.next == map[1 := Ptr(2, 1), 2 := Ptr(3, 1), 3 := Ptr(0, 0)] && s.pool.owner.Keys == {1, 2, 3}
    ensures s.pcs == map[1 := Idle, 2 := DeqRead(0, Ptr(1, 0), Ptr(2, 1)), 3 := DeqSwing(0, Ptr(1, 0), Ptr(2, 1), e)]
  {
    run, s := HeldUpRead();
    run, s := DequeuePeek(CROWD, run, s, 3);
    e := EventOf(s.pool, 2);
    run, s := DequeueRead(CROWD, run, s, 3);
  }

  lemma AnotherPops() returns (run: seq<Action>, s: State)
    ensures Leads(CROWD, run, s) && 0 in s.queues
    ensures s.queues[0].head == Ptr(2, 1) && s.queues[0].tail == Ptr(3, 2)
    ensures s.pool.next == map[1 := Ptr(0, 0), 2 := Ptr(3, 1), 3 := Ptr(0, 0)] && s.pool.owner.Keys == {2, 3}
    ensures s.pcs == map[1 := Idle, 2 := DeqRead(0, Ptr(1, 0), Ptr(2, 1)), 3 := Idle]
  {
    var e;
    run, s, e := AnotherReads();
    run, s := DequeuePop(CROWD, run, s, 3);
  }

  // ... and frees the node that the first is about to read.
  lemma CrowdedQueueReadsAFreedNode() returns (run: seq<Action>, s: State)
    ensures Leads(CROWD, run, s) && PcOf(s, 2) == DeqRead(0, Ptr(1, 0), Ptr(2, 1)) && 2 !in s.pool.owner
  {
    run, s := AnotherPops();
    run, s := DequeuePeek(CROWD, run, s, 3);
    run, s := DequeueRead(CROWD, run, s, 3);
    run, s := DequeuePop(CROWD, run, s, 3);
  }

  // ----- exactly when the queue is safe ----------------------------------------------------

  // Order, null only when empty, and nothing lost: each holds of every run exactly if nodes
  // are not recycled while a queue is open to more than one enqueue at a time.
  lemma OrderExactly(mode: Mode)
    ensures (mode.recycle ==> mode.soloIn) <==> (forall run, q :: CanRun(mode, run) ==> Fifo(mode, run, q))
    ensures (mode.recycle ==> mode.soloIn) <==> (forall run, t :: CanRun(mode, run) ==> NullWhenEmpty(mode, run, t))
    ensures (mode.recycle ==> mode.soloIn) <==> (forall run, q :: CanRun(mode, run) ==> HoldsTheRest(mode, run, q))
  {
    if mode.recycle ==> mode.soloIn {
      forall run, q | CanRun(mode, run) ensures Fifo(mode, run, q) && HoldsTheRest(mode, run, q) {
        QueueIsFifo(mode, run, q);
        ListHoldsTheRest(mode, run, q);
      }
      forall run, t | CanRun(mode, run) ensures NullWhenEmpty(mode, run, t) {
        NullMeansEmpty(mode, run, t);
      }
    } else {
      var run := BusyQueueReturnsNull();
      NullLooser(BUSY, mode, run, 3);
      RunsLooser(BUSY, mode, run);
      assert !HoldsTheRest(mode, run, 0);
      var run', s' := BusyQueueSkipsAnEvent();
      RunsLooser(BUSY, mode, run');
      assert s'.queues[0].dequeued[1] != s'.queues[0].enqueued[1];
      assert !Fifo(mode, run', 0);
    }
  }

  lemma NullLooser(mode: Mode, mode': Mode, run: seq<Action>, t: nat)
    requires Looser(mode, mode') && CanRun(mode, run) && !NullWhenEmpty(mode, run, t)
    ensures CanRun(mode', run) && !NullWhenEmpty(mode', run, t)
  {
    RunsLooser(mode, mode', run);
    forall j: nat ensures !LoadedWhenEmpty(mode', run, t, j) {
      if j < |run| {
        assert !LoadedWhenEmpty(mode, run, t, j);
        PrefixRuns(mode, run, j);
        RunsLooser(mode, mode', run[..j]);
      }
    }
  }

  lemma {:induction false} PrefixRuns(mode: Mode, run: seq<Action>, j: nat)
    requires CanRun(mode, run) && j <= |run|
    ensures CanRun(mode, run[..j])
  {
    if j == |run| {
      assert run[..j] == run;
    } else {
      PrefixRuns(mode, run[..|run| - 1], j);
      assert run[..|run| - 1][..j] == run[..j];
    }
  }

  // No freed node is read exactly if nodes are not recycled while a queue is open to more
  // than one dequeue at a time.
  lemma LiveExactly(mode: Mode)
    ensures (mode.recycle ==> mode.soloOut) <==> (forall run, t :: CanRun(mode, run) ==> ReadsLive(mode, run, t))
  {
    if mode.recycle ==> mode.soloOut {
      forall run, t | CanRun(mode, run) ensures ReadsLive(mode, run, t) {
        ReadsAreLive(mode, run, t);
      }
    } else {
      var run, s := CrowdedQueueReadsAFreedNode();
      RunsLooser(CROWD, mode, run);
      assert !ReadsLive(mode, run, 2);
    }
  }

  // The node read is always the next in the order exactly if, with nodes recycled, a queue
  // has one enqueue and one dequeue at a time.
  lemma NextExactly(mode: Mode)
    ensures (mode.recycle ==> mode.soloIn && mode.soloOut) <==>
            (forall run, t :: CanRun(mode, run) ==> ReadsNext(mode, run, t))
  {
    if mode.recycle ==> mode.soloIn && mode.soloOut {
      forall run, t | CanRun(mode, run) ensures ReadsNext(mode, run, t) {
        ReadsAreNext(mode, run, t);
      }
    } else if !mode.soloOut {
      var run, s := CrowdedQueueReadsAFreedNode();
      RunsLooser(CROWD, mode, run);
      assert !ReadsNext(mode, run, 2);
    } else {
      var run, s := BusyQueueReadsAnother();
      RunsLooser(BUSY, mode, run);
      assert !ReadsNext(mode, run, 3);
    }
  }

  // All of it together: one enqueue and one dequeue at a time, or no recycling.
  ghost predicate Safe(mode: Mode, run: seq<Action>)
    requires CanRun(mode, run)
  {
    && (forall q :: Fifo(mode, run, q) && HoldsTheRest(mode, run, q))
    && (forall t :: NullWhenEmpty(mode, run, t) && ReadsLive(mode, run, t))
  }

  lemma SafeExactly(mode: Mode)
    ensures (mode.recycle ==> mode.soloIn && mode.soloOut) <==> (forall run :: CanRun(mode, run) ==> Safe(mode, run))
  {
    OrderExactly(mode);
    LiveExactly(mode);
    if mode.recycle ==> mode.soloIn && mode.soloOut {
      forall run | CanRun(mode, run) ensures Safe(mode, run) {
      }
    } else if !mode.soloOut {
      var run, t :| CanRun(mode, run) && !ReadsLive(mode, run, t);
      assert !Safe(mode, run);
    } else {
      var run, q :| CanRun(mode, run) && !Fifo(mode, run, q);
      assert !Safe(mode, run);
    }
  }
}
