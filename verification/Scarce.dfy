// The sparse array of pointers (src/scarce.hpp) with eight slots a node: a radix tree that
// grows upward with the largest index and loses every node that becomes empty.
module Scarce {
  datatype Option<+T> = None | Some(value: T)

  const MAX_INDEX := 0x4000_0000

  // Beyond this, the bits of an index are not all seen: it is cut down to an int.
  const ALL_INDICES := 0x1_0000_0000

  const MAX_LEVEL := 9

  // ----- indices -------------------------------------------------------------------------------

  // i >> (3 * k)
  function Up(i: nat, k: nat): nat {
    if k == 0 then i else Up(i, k - 1) / 8
  }

  // sizeof(int) * 8 - clz(i), and 0 for 0
  function Bits(i: nat): nat {
    if i == 0 then 0 else 1 + Bits(i / 2)
  }

  // The level of the topmost node on the way to i.
  function TopLevel(i: nat): nat {
    var levels := (Bits(i) + 2) / 3;
    if levels <= 1 then 0 else levels - 1
  }

  lemma BitsOfEighth(i: nat)
    ensures i >= 8 ==> Bits(i) == 3 + Bits(i / 8)
    ensures 0 < i < 8 ==> 1 <= Bits(i) <= 3
  {
    assert i >= 8 ==> i / 2 / 2 / 2 == i / 8;
    assert Bits(i / 2 / 2) == if i / 2 / 2 == 0 then 0 else 1 + Bits(i / 2 / 2 / 2);
  }

  lemma {:induction false} UpTwice(i: nat, k: nat)
    ensures Up(i, k + 1) == Up(i / 8, k)
  {
    if k > 0 {
      UpTwice(i, k - 1);
    }
  }

  // The top level is the lowest from which all of the index is seen.
  lemma {:induction false} TopLevelIsLeast(i: nat)
    ensures Up(i, TopLevel(i) + 1) == 0
    ensures TopLevel(i) > 0 ==> Up(i, TopLevel(i)) > 0
    decreases i
  {
    BitsOfEighth(i);
    if i >= 8 {
      TopLevelIsLeast(i / 8);
      BitsOfEighth(i / 8);
      UpTwice(i, TopLevel(i));
      if TopLevel(i / 8) > 0 {
        UpTwice(i, TopLevel(i / 8));
      } else {
        assert Up(i, 1) == i / 8;
      }
    } else {
      assert Up(i, 1) == i / 8;
    }
  }

  lemma {:induction false} UpZero(i: nat, k: nat, m: nat)
    requires Up(i, k) == 0 && k <= m
    ensures Up(i, m) == 0
    decreases m
  {
    if k < m {
      UpZero(i, k, m - 1);
    }
  }

  // Exactly the indices below 2 to the 30 need ten levels at most.
  lemma TopLevelBound(i: nat)
    ensures TopLevel(i) <= MAX_LEVEL <==> i < MAX_INDEX
  {
    UpTen(i);
    TopLevelIsLeast(i);
    if TopLevel(i) > MAX_LEVEL {
      if Up(i, 10) == 0 {
        UpZero(i, 10, TopLevel(i));
      }
    } else {
      UpZero(i, TopLevel(i) + 1, 10);
    }
  }

  lemma UpTen(i: nat)
    ensures Up(i, 10) == 0 <==> i < MAX_INDEX
  {
    assert Up(i, 1) < 0x800_0000 <==> i < MAX_INDEX;
    assert Up(i, 2) < 0x100_0000 <==> i < MAX_INDEX;
    assert Up(i, 3) < 0x20_0000 <==> i < MAX_INDEX;
    assert Up(i, 4) < 0x4_0000 <==> i < MAX_INDEX;
    assert Up(i, 5) < 0x8000 <==> i < MAX_INDEX;
    assert Up(i, 6) < 0x1000 <==> i < MAX_INDEX;
    assert Up(i, 7) < 0x200 <==> i < MAX_INDEX;
    assert Up(i, 8) < 0x40 <==> i < MAX_INDEX;
    assert Up(i, 9) < 8 <==> i < MAX_INDEX;
  }

  // ----- slots -----------------------------------------------------------------------------------

  // How many slots are not null.
  function Filled<T>(s: seq<Option<T>>): nat {
    if s == [] then 0 else Filled(s[..|s| - 1]) + if s[|s| - 1].Some? then 1 else 0
  }

  lemma {:induction false} FilledUpdate<T>(s: seq<Option<T>>, n: nat, x: Option<T>)
    requires n < |s|
    ensures Filled(s[n := x]) + (if s[n].Some? then 1 else 0) == Filled(s) + (if x.Some? then 1 else 0)
  {
    var m := |s| - 1;
    if n < m {
      FilledUpdate(s[..m], n, x);
      assert s[n := x][..m] == s[..m][n := x];
    } else {
      assert s[n := x][..m] == s[..m];
    }
  }

  lemma {:induction false} FilledNone<T>(s: seq<Option<T>>)
    ensures Filled(s) == 0 <==> forall n :: 0 <= n < |s| ==> s[n] == None
  {
    if s != [] {
      FilledNone(s[..|s| - 1]);
      assert forall n :: 0 <= n < |s| - 1 ==> s[..|s| - 1][n] == s[n];
    }
  }

  function Nulls<T>(): seq<Option<T>> {
    [None, None, None, None, None, None, None, None]
  }

  function At<T>(m: map<nat, T>, i: nat): Option<T> {
    if i in m then Some(m[i]) else None
  }

  // ----- nodes -----------------------------------------------------------------------------------

  // Where a node is: its level, and what all indices below it have in common.
  datatype Key = Key(level: nat, prefix: nat)

  function Child(k: Key, n: nat): Key
    requires k.level > 0
  {
    Key(k.level - 1, 8 * k.prefix + n)
  }

  function Parent(k: Key): Key {
    Key(k.level + 1, k.prefix / 8)
  }

  // The node of a level on the way to i.
  function KeyOf(i: nat, level: nat): Key {
    Key(level, Up(i, level + 1))
  }

  function Digit(i: nat, level: nat): nat {
    Up(i, level) % 8
  }

  lemma OnTheWay(i: nat, level: nat)
    ensures level > 0 ==> KeyOf(i, level - 1) == Child(KeyOf(i, level), Digit(i, level))
    ensures LeafIndex(KeyOf(i, 0), Digit(i, 0)) == i
  {
    assert Up(i, 1) == i / 8;
  }

  // The index of a leaf.
  function LeafIndex(k: Key, n: nat): nat {
    8 * k.prefix + n
  }

  lemma LeafKey(k: Key, n: nat)
    requires k.level == 0 && n < 8
    ensures KeyOf(LeafIndex(k, n), 0) == k
  {
    assert Up(LeafIndex(k, n), 1) == LeafIndex(k, n) / 8;
  }

  class Node<T> {
    ghost const key: Key
    const level: nat
    var count: int
    var branches: seq<Option<Node<T>>>
    var leaves: seq<Option<T>>

    constructor (level: nat, ghost key: Key)
      requires key.level == level
      ensures this.level == level && this.key == key && count == 0 && branches == Nulls() && leaves == Nulls()
    {
      this.level, this.key := level, key;
      count, branches, leaves := 0, Nulls(), Nulls();
    }

    ghost function Slots(): nat
      reads this
    {
      if level > 0 then Filled(branches) else Filled(leaves)
    }
  }

  // A pointer to a node: m_root, or a branch of another node.
  datatype Slot<T> = RootSlot | BranchSlot(node: Node<T>, n: nat)

  class ScarcePointerArray<T> {
    var root: Node?<T>
    ghost var nodes: map<Key, Node<T>>
    ghost var contents: map<nat, T>

    ghost predicate BranchOk(k: Key, n: nat)
      requires k in nodes && k.level > 0 && n < |nodes[k].branches|
      reads this, nodes.Values
    {
      nodes[k].branches[n] == if Child(k, n) in nodes then Some(nodes[Child(k, n)]) else None
    }

    ghost predicate LeafOk(k: Key, n: nat)
      requires k in nodes && n < |nodes[k].leaves|
      reads this, nodes.Values
    {
      nodes[k].leaves[n] == At(contents, LeafIndex(k, n))
    }

    ghost predicate NodeOk(k: Key)
      requires k in nodes
      reads this, nodes.Values
    {
      var x := nodes[k];
      && x.key == k && x.level == k.level && |x.branches| == |x.leaves| == 8
      && (forall n :: 0 <= n < 8 && k.level > 0 ==> BranchOk(k, n))
      && (forall n :: 0 <= n < 8 && k.level == 0 ==> LeafOk(k, n))
    }

    // A node is the root or a child.
    ghost predicate Hangs(k: Key)
      reads this
    {
      root != null && (if k.level < root.level then Parent(k) in nodes else k == Key(root.level, 0))
    }

    // The tree is made of just these nodes, and its leaves are the contents.
    ghost predicate Shape()
      reads this, nodes.Values
    {
      && (root == null ==> nodes == map[])
      && (root != null ==> root.level <= MAX_LEVEL && Key(root.level, 0) in nodes && nodes[Key(root.level, 0)] == root)
      && (forall k {:trigger NodeOk(k)} :: k in nodes ==> NodeOk(k))
      && (forall k {:trigger Hangs(k)} :: k in nodes ==> Hangs(k))
      && (forall i :: i in contents ==> i < MAX_INDEX && KeyOf(i, 0) in nodes)
    }

    ghost predicate Counted(k: Key)
      requires k in nodes
      reads this, nodes.Values
    {
      nodes[k].count == nodes[k].Slots() > 0
    }

    ghost predicate CountsBut(spare: Key)
      reads this, nodes.Values
    {
      forall k {:trigger Counted(k)} :: k in nodes && k != spare ==> Counted(k)
    }

    // The count of every node is the number of its children, and no node is empty.
    ghost predicate Valid()
      reads this, nodes.Values
    {
      Shape() && forall k {:trigger Counted(k)} :: k in nodes ==> Counted(k)
    }

    constructor ()
      ensures Valid() && contents == map[] && root == null
    {
      root, nodes, contents := null, map[], map[];
    }

    // ----- reading -------------------------------------------------------------------------------

    // All nodes on the way to an index that is there are there.
    lemma WayUp(i: nat, level: nat)
      requires Shape() && i in contents && root != null && level <= root.level
      ensures KeyOf(i, level) in nodes
      decreases level
    {
      if level > 0 {
        WayUp(i, level - 1);
        assert Hangs(KeyOf(i, level - 1));
      }
    }

    // And the root is above them.
    lemma RootIsAbove(i: nat)
      requires Shape() && i in contents
      ensures root != null && TopLevel(i) <= root.level
    {
      WayUp(i, root.level);
      assert Hangs(KeyOf(i, root.level));
      TopLevelIsLeast(i);
      if TopLevel(i) > root.level {
        UpZero(i, root.level + 1, TopLevel(i));
      }
    }

    // From the top level up, the way to an index keeps to the left.
    lemma LeftAbove(i: nat, level: nat)
      requires TopLevel(i) <= level
      ensures KeyOf(i, level) == Key(level, 0) && (TopLevel(i) < level ==> Digit(i, level) == 0)
    {
      TopLevelIsLeast(i);
      UpZero(i, TopLevel(i) + 1, level + 1);
      if TopLevel(i) < level {
        UpZero(i, TopLevel(i) + 1, level);
      }
    }

    // What is found at the end of a way that is missing a node.
    lemma NothingBelow(i: nat, level: nat)
      requires Shape() && root != null && level <= root.level && KeyOf(i, level) !in nodes
      ensures At(contents, i) == None
    {
      if i in contents {
        WayUp(i, level);
      }
    }

    method Get(i: nat) returns (v: Option<T>)
      requires Valid() && i < ALL_INDICES
      ensures v == At(contents, i)
    {
      var level := TopLevel(i);
      if root == null || root.level < level {
        if i in contents {
          RootIsAbove(i);
        }
        return None;
      }
      var node: Node<T> := root;
      LeftAbove(i, node.level);
      while node.level > level
        invariant level <= node.level <= root.level
        invariant KeyOf(i, node.level) in nodes && nodes[KeyOf(i, node.level)] == node
        decreases node.level
      {
        LeftAbove(i, node.level);
        OnTheWay(i, node.level);
        assert NodeOk(KeyOf(i, node.level)) && BranchOk(KeyOf(i, node.level), 0);
        if node.branches[0] == None {
          NothingBelow(i, node.level - 1);
          return None;
        }
        assert NodeOk(KeyOf(i, node.level - 1));
        node := node.branches[0].value;
      }
      while level > 0
        invariant level == node.level <= root.level
        invariant KeyOf(i, level) in nodes && nodes[KeyOf(i, level)] == node
      {
        OnTheWay(i, level);
        assert NodeOk(KeyOf(i, level)) && BranchOk(KeyOf(i, level), Digit(i, level));
        if node.branches[Digit(i, level)] == None {
          NothingBelow(i, level - 1);
          return None;
        }
        assert NodeOk(KeyOf(i, level - 1));
        node := node.branches[Digit(i, level)].value;
        level := level - 1;
      }
      OnTheWay(i, 0);
      assert NodeOk(KeyOf(i, 0)) && LeafOk(KeyOf(i, 0), Digit(i, 0));
      v := node.leaves[Digit(i, 0)];
    }

    // ----- growing -------------------------------------------------------------------------------

    // Node p has been put on top of the old root, and nothing else was changed.
    twostate predicate Raised(new p: Node<T>)
      reads *
    {
      && old(root) != null && root == p && contents == old(contents) && p !in old(nodes.Values)
      && p.level == old(root).level + 1 && p.key == Key(p.level, 0) && nodes == old(nodes)[p.key := p]
      && p.branches == Nulls()[0 := Some(old(root) as Node<T>)] && p.leaves == Nulls()
      && (forall y :: y in old(nodes.Values) ==>
           y.branches == old(y.branches) && y.leaves == old(y.leaves) && y.count == old(y.count))
    }

    twostate lemma RaisedShape(new p: Node<T>)
      requires old(Shape()) && Raised(p) && p.level <= MAX_LEVEL
      ensures Shape()
    {
      forall k | k in nodes ensures NodeOk(k) {
        if k != p.key {
          assert old(NodeOk(k)) && old(Hangs(k));
          forall n | 0 <= n < 8 && k.level > 0 ensures BranchOk(k, n) {
            assert old(BranchOk(k, n));
          }
          forall n | 0 <= n < 8 && k.level == 0 ensures LeafOk(k, n) {
            assert old(LeafOk(k, n));
          }
        } else {
          forall n | 0 <= n < 8 ensures BranchOk(k, n) {
            assert Child(k, n) in nodes ==> old(Hangs(Child(k, n)));
          }
        }
      }
      forall k | k in nodes ensures Hangs(k) {
        assert k != p.key ==> old(Hangs(k));
      }
    }

    // A new root on top of the old one.
    method Raise()
      requires Valid() && root != null && root.level < MAX_LEVEL
      modifies this
      ensures Valid() && contents == old(contents) && root != null && root.level == old(root.level) + 1
      ensures fresh(nodes.Values - old(nodes.Values))
    {
      var p := new Node<T>(root.level + 1, Key(root.level + 1, 0));
      p.branches := p.branches[0 := Some(root)];
      p.count := 1;
      FilledUpdate<Node<T>>(Nulls(), 0, Some(root));
      FilledNone<Node<T>>(Nulls());
      nodes := nodes[p.key := p];
      root := p;
      forall k | k in nodes ensures Counted(k) {
        assert k != p.key ==> old(Counted(k));
      }
      assert Shape() by {
        RaisedShape(p);
      }
    }

    // In order, but for a node that may have no children yet.
    ghost predicate Almost(k: Key)
      reads this, nodes.Values
    {
      Shape() && k in nodes && nodes[k].count == nodes[k].Slots() && CountsBut(k)
    }

    // A first root, with no children yet.
    method Plant(level: nat)
      requires Valid() && root == null && level <= MAX_LEVEL
      modifies this
      ensures contents == old(contents) && root != null && root.level == level && Almost(Key(level, 0))
      ensures fresh(nodes.Values)
    {
      var p := new Node<T>(level, Key(level, 0));
      FilledNone<Node<T>>(Nulls());
      FilledNone<T>(Nulls());
      nodes := map[p.key := p];
      root := p;
      assert contents == map[] by {
        assert forall i :: i !in contents;
      }
      assert NodeOk(p.key) && Hangs(p.key);
    }

    // A root that is high enough.
    method Grow(level: nat)
      requires Valid() && level <= MAX_LEVEL
      modifies this
      ensures contents == old(contents) && root != null && level <= root.level && Almost(Key(root.level, 0))
      ensures fresh(nodes.Values - old(nodes.Values))
    {
      if root == null {
        Plant(level);
      } else {
        while root.level < level
          invariant Valid() && root != null && root.level <= MAX_LEVEL
          invariant contents == old(contents) && fresh(nodes.Values - old(nodes.Values))
          decreases level - root.level
        {
          Raise();
        }
        assert Counted(Key(root.level, 0));
      }
    }

    // ----- setting -------------------------------------------------------------------------------

    // Node `child` has been put in slot n of the node at `key`, and nothing else was changed.
    twostate predicate Added(key: Key, n: nat, new child: Node<T>)
      requires key.level > 0 && key in old(nodes)
      reads *
    {
      var x := old(nodes[key]);
      && root == old(root) && contents == old(contents)
      && Child(key, n) !in old(nodes) && child !in old(nodes.Values) && nodes == old(nodes)[Child(key, n) := child]
      && child.key == Child(key, n) && child.level == key.level - 1
      && child.branches == Nulls() && child.leaves == Nulls()
      && n < old(|x.branches|) && x.branches == old(x.branches)[n := Some(child)] && x.leaves == old(x.leaves)
      && (forall y :: y in old(nodes.Values) && y != x ==>
           y.branches == old(y.branches) && y.leaves == old(y.leaves) && y.count == old(y.count))
    }

    twostate lemma AddedShape(new key: Key, new n: nat, new child: Node<T>)
      requires key.level > 0 && key in old(nodes) && old(Shape()) && n < 8 && Added(key, n, child)
      ensures Shape()
    {
      assert old(NodeOk(key)) && old(Hangs(key));
      NoOrphans(child.key);
      forall k | k in nodes ensures NodeOk(k) {
        if k != child.key {
          assert old(NodeOk(k));
          forall m | 0 <= m < 8 && k.level > 0 ensures BranchOk(k, m) {
            assert old(BranchOk(k, m));
          }
          forall m | 0 <= m < 8 && k.level == 0 ensures LeafOk(k, m) {
            assert old(LeafOk(k, m));
          }
        }
      }
      forall k | k in nodes ensures Hangs(k) {
        assert k != child.key ==> old(Hangs(k));
      }
    }

    // Nothing is below a node that is not there.
    twostate lemma NoOrphans(new k: Key)
      requires old(Shape()) && k !in old(nodes) && old(root) != null && k.level < old(root).level
      ensures forall n :: 0 <= n < 8 && k.level > 0 ==> Child(k, n) !in old(nodes)
      ensures forall n :: 0 <= n < 8 && k.level == 0 ==> LeafIndex(k, n) !in old(contents)
    {
      forall n | 0 <= n < 8 && k.level > 0 ensures Child(k, n) !in old(nodes) {
        assert Child(k, n) in old(nodes) ==> old(Hangs(Child(k, n)));
      }
      forall n | 0 <= n < 8 && k.level == 0 ensures LeafIndex(k, n) !in old(contents) {
        LeafKey(k, n);
      }
    }

    method AddChild(node: Node<T>, n: nat) returns (child: Node<T>)
      requires Almost(node.key) && nodes[node.key] == node && node.level == node.key.level > 0
      requires n < 8 == |node.branches| && node.branches[n] == None
      modifies this`nodes, node
      ensures Almost(Child(node.key, n)) && nodes[Child(node.key, n)] == child && child.level == node.level - 1
      ensures fresh(child) && nodes == old(nodes)[Child(node.key, n) := child]
    {
      ghost var key := node.key;
      assert NodeOk(key) && BranchOk(key, n);
      child := new Node<T>(node.level - 1, Child(key, n));
      FilledUpdate(node.branches, n, Some(child));
      FilledNone<Node<T>>(Nulls());
      FilledNone<T>(Nulls());
      node.branches := node.branches[n := Some(child)];
      node.count := node.count + 1;
      nodes := nodes[child.key := child];
      forall k | k in old(nodes) && k != key ensures nodes[k] != node && old(Counted(k)) {
        assert old(NodeOk(k));
      }
      assert Shape() by {
        AddedShape(key, n, child);
      }
    }

    // One step down on the way to i, to a new node if there is none.
    method StepDown(node: Node<T>, n: nat) returns (child: Node<T>)
      requires Almost(node.key) && nodes[node.key] == node && node.level == node.key.level > 0
      requires n < 8 == |node.branches|
      modifies this`nodes, node
      ensures Almost(Child(node.key, n)) && nodes[Child(node.key, n)] == child && child.level == node.level - 1
      ensures fresh(nodes.Values - old(nodes.Values))
    {
      ghost var key := node.key;
      assert NodeOk(key) && BranchOk(key, n);
      if node.branches[n] == None {
        child := AddChild(node, n);
      } else {
        child := node.branches[n].value;
        assert NodeOk(Child(key, n)) && Counted(Child(key, n));
        FilledNone(node.branches);
      }
    }

    // The leaf node for i, and new nodes on the way where there are none.
    method Reach(i: nat) returns (node: Node<T>)
      requires root != null && TopLevel(i) <= root.level && Almost(Key(root.level, 0))
      modifies this`nodes, nodes.Values
      ensures Almost(KeyOf(i, 0)) && nodes[KeyOf(i, 0)] == node && node.level == 0
      ensures fresh(nodes.Values - old(nodes.Values))
    {
      var level := TopLevel(i);
      node := root;
      LeftAbove(i, root.level);
      while node.level > level
        invariant level <= node.level <= root.level
        invariant Almost(KeyOf(i, node.level)) && nodes[KeyOf(i, node.level)] == node
        invariant fresh(nodes.Values - old(nodes.Values))
        decreases node.level
      {
        assert NodeOk(KeyOf(i, node.level));
        LeftAbove(i, node.level);
        OnTheWay(i, node.level);
        node := StepDown(node, 0);
      }
      while level > 0
        invariant level == node.level && Almost(KeyOf(i, level)) && nodes[KeyOf(i, level)] == node
        invariant fresh(nodes.Values - old(nodes.Values))
      {
        assert NodeOk(KeyOf(i, level));
        OnTheWay(i, level);
        node := StepDown(node, Digit(i, level));
        level := level - 1;
      }
    }

    // The leaf of i has been set, or cleared, and nothing else was changed but its count.
    twostate predicate LeafChanged(i: nat, new v: Option<T>)
      requires KeyOf(i, 0) in old(nodes)
      reads *
    {
      var x := old(nodes[KeyOf(i, 0)]);
      && root == old(root) && nodes == old(nodes)
      && contents == (if v.Some? then old(contents)[i := v.value] else old(contents) - {i})
      && Digit(i, 0) < old(|x.leaves|) && x.leaves == old(x.leaves)[Digit(i, 0) := v] && x.branches == old(x.branches)
      && (forall y :: y in nodes.Values && y != x ==>
           y.branches == old(y.branches) && y.leaves == old(y.leaves) && y.count == old(y.count))
    }

    twostate lemma LeafShape(new i: nat, new v: Option<T>)
      requires old(Shape()) && i < MAX_INDEX && KeyOf(i, 0) in old(nodes) && LeafChanged(i, v)
      ensures Shape()
    {
      OnTheWay(i, 0);
      forall k | k in nodes ensures NodeOk(k) {
        assert old(NodeOk(k)) && old(NodeOk(KeyOf(i, 0)));
        forall m | 0 <= m < 8 && k.level > 0 ensures BranchOk(k, m) {
          assert old(BranchOk(k, m));
        }
        forall m | 0 <= m < 8 && k.level == 0 ensures LeafOk(k, m) {
          assert old(LeafOk(k, m));
          LeafKey(k, m);
        }
      }
      forall k | k in nodes ensures Hangs(k) {
        assert old(Hangs(k));
      }
    }

    lemma OthersElsewhere(key: Key)
      requires Shape() && key in nodes
      ensures forall k :: k in nodes && k != key ==> nodes[k] != nodes[key]
    {
      forall k | k in nodes && k != key ensures nodes[k] != nodes[key] {
        assert NodeOk(k) && NodeOk(key);
      }
    }

    method Put(node: Node<T>, i: nat, v: T) returns (was: Option<T>)
      requires Almost(KeyOf(i, 0)) && nodes[KeyOf(i, 0)] == node && i < MAX_INDEX
      modifies this`contents, node
      ensures Valid() && contents == old(contents)[i := v] && was == At(old(contents), i)
    {
      ghost var key := KeyOf(i, 0);
      var n := Digit(i, 0);
      OnTheWay(i, 0);
      OthersElsewhere(key);
      assert NodeOk(key) && LeafOk(key, n);
      FilledUpdate(node.leaves, n, Some(v));
      was := node.leaves[n];
      node.leaves := node.leaves[n := Some(v)];
      if was == None {
        node.count := node.count + 1;
      }
      contents := contents[i := v];
      FilledNone(node.leaves);
      assert node.leaves[n].Some?;
      forall k | k in nodes ensures Counted(k) {
        assert k != key ==> old(Counted(k));
      }
      assert Shape() by {
        LeafShape(i, Some(v));
      }
    }

    // ----- removing ------------------------------------------------------------------------------

    // In order, but for the count of one node, which has just lost a child.
    ghost predicate Over(k: Key)
      reads this, nodes.Values
    {
      Shape() && k in nodes && nodes[k].count == nodes[k].Slots() + 1 && CountsBut(k)
    }

    method Take(node: Node<T>, i: nat)
      requires Valid() && KeyOf(i, 0) in nodes && nodes[KeyOf(i, 0)] == node && i in contents
      modifies this`contents, node
      ensures Over(KeyOf(i, 0)) && contents == old(contents) - {i}
    {
      ghost var key := KeyOf(i, 0);
      var n := Digit(i, 0);
      OnTheWay(i, 0);
      OthersElsewhere(key);
      assert NodeOk(key) && LeafOk(key, n) && Counted(key);
      FilledUpdate(node.leaves, n, None);
      node.leaves := node.leaves[n := None];
      contents := contents - {i};
      forall k | k in nodes && k != key ensures Counted(k) {
        assert old(Counted(k));
      }
      assert Shape() by {
        LeafShape(i, None);
      }
    }

    twostate lemma SameShape()
      requires old(Shape()) && root == old(root) && nodes == old(nodes) && contents == old(contents)
      requires forall y :: y in nodes.Values ==> y.branches == old(y.branches) && y.leaves == old(y.leaves)
      ensures Shape()
    {
      forall k | k in nodes ensures NodeOk(k) && Hangs(k) {
        assert old(NodeOk(k)) && old(Hangs(k));
        forall m | 0 <= m < 8 && k.level > 0 ensures BranchOk(k, m) {
          assert old(BranchOk(k, m));
        }
        forall m | 0 <= m < 8 && k.level == 0 ensures LeafOk(k, m) {
          assert old(LeafOk(k, m));
        }
      }
    }

    // --node->count
    method Discount(node: Node<T>)
      requires Over(node.key) && nodes[node.key] == node
      modifies node`count
      ensures Almost(node.key)
    {
      OthersElsewhere(node.key);
      node.count := node.count - 1;
      forall k | k in nodes && k != node.key ensures Counted(k) {
        assert old(Counted(k));
      }
      assert Shape() by {
        SameShape();
      }
    }

    // A node with no children has nothing below.
    lemma NothingInside(k: Key)
      requires Shape() && k in nodes && nodes[k].Slots() == 0
      ensures forall n :: 0 <= n < 8 && k.level > 0 ==> Child(k, n) !in nodes
      ensures forall i :: i in contents ==> KeyOf(i, 0) != k
    {
      assert NodeOk(k);
      FilledNone(nodes[k].branches);
      FilledNone(nodes[k].leaves);
      forall n | 0 <= n < 8 && k.level > 0 ensures Child(k, n) !in nodes {
        assert BranchOk(k, n);
      }
      forall n | 0 <= n < 8 && k.level == 0 ensures LeafIndex(k, n) !in contents {
        assert LeafOk(k, n);
      }
      forall i | i in contents ensures KeyOf(i, 0) != k {
        OnTheWay(i, 0);
      }
    }

    // The root is the last one.
    lemma NothingButRoot(k: Key)
      requires Shape() && root != null && root.Slots() == 0 && k in nodes
      ensures k == Key(root.level, 0)
      decreases if root == null then 0 else root.level - k.level
    {
      NothingInside(Key(root.level, 0));
      assert Hangs(k);
      if k.level < root.level {
        assert k == Child(Parent(k), k.prefix % 8);
        NothingButRoot(Parent(k));
      }
    }

    // delete node, and m_root with it
    method DropRoot()
      requires root != null && Almost(Key(root.level, 0)) && root.Slots() == 0
      modifies this
      ensures Valid() && contents == old(contents) && root == null
    {
      forall k | k in nodes ensures k == Key(root.level, 0) {
        NothingButRoot(k);
      }
      forall i ensures i !in contents {
        NothingInside(Key(root.level, 0));
      }
      root, nodes := null, map[];
    }

    // A node has been taken out of the slot of its parent, and nothing else was changed.
    twostate predicate Dropped(key: Key)
      requires Parent(key) in old(nodes)
      reads *
    {
      var x, n := old(nodes[Parent(key)]), key.prefix % 8;
      && root == old(root) && contents == old(contents) && nodes == old(nodes) - {key}
      && n < old(|x.branches|) && x.branches == old(x.branches)[n := None] && x.leaves == old(x.leaves)
      && (forall y :: y in old(nodes.Values) && y != x ==>
           y.branches == old(y.branches) && y.leaves == old(y.leaves) && y.count == old(y.count))
    }

    twostate lemma DroppedShape(new key: Key)
      requires old(Shape()) && key in old(nodes) && Parent(key) in old(nodes) && old(root) != null
      requires key.level < old(root).level && Dropped(key)
      requires forall n :: 0 <= n < 8 && key.level > 0 ==> Child(key, n) !in old(nodes)
      requires forall i :: i in contents ==> KeyOf(i, 0) != key
      ensures Shape()
    {
      assert old(NodeOk(Parent(key)));
      forall k | k in nodes ensures NodeOk(k) {
        assert old(NodeOk(k));
        forall m | 0 <= m < 8 && k.level > 0 ensures BranchOk(k, m) {
          assert old(BranchOk(k, m));
        }
        forall m | 0 <= m < 8 && k.level == 0 ensures LeafOk(k, m) {
          assert old(LeafOk(k, m));
        }
      }
      forall k | k in nodes ensures Hangs(k) {
        assert old(Hangs(k));
        assert Parent(k) == key ==> k == Child(key, k.prefix % 8);
      }
    }

    // delete node, and *pp = nullptr in its parent
    method DropNode(parent: Node<T>, n: nat, ghost key: Key)
      requires Almost(key) && nodes[key].Slots() == 0 && root != null && key.level < root.level
      requires Parent(key) in nodes && nodes[Parent(key)] == parent && n == key.prefix % 8 < |parent.branches|
      modifies this`nodes, parent`branches
      ensures Over(Parent(key)) && nodes == old(nodes) - {key}
    {
      NothingInside(key);
      OthersElsewhere(Parent(key));
      assert NodeOk(Parent(key)) && BranchOk(Parent(key), n) && Counted(Parent(key));
      assert Child(Parent(key), n) == key;
      FilledUpdate(parent.branches, n, None);
      parent.branches := parent.branches[n := None];
      nodes := nodes - {key};
      forall k | k in nodes && k != Parent(key) ensures Counted(k) {
        assert old(Counted(k));
      }
      assert Shape() by {
        DroppedShape(key);
      }
    }

    // ----- the way down and up again ---------------------------------------------------------------

    // The slots passed on the way to i, from m_root to the one that holds the node of `level`.
    ghost predicate SlotOk(i: nat, path: seq<Slot<T>>, j: nat)
      requires j < |path| && root != null
      reads this, nodes.Values
    {
      if j == 0 then path[j] == RootSlot
      else if j > root.level then false
      else
        var above := root.level - j + 1;
        KeyOf(i, above) in nodes && path[j] == BranchSlot(nodes[KeyOf(i, above)], Digit(i, above))
    }

    ghost predicate PathOk(i: nat, path: seq<Slot<T>>, level: nat)
      reads this, nodes.Values
    {
      && root != null && level <= root.level && |path| == root.level - level + 1
      && KeyOf(i, root.level) == Key(root.level, 0)
      && forall j {:trigger SlotOk(i, path, j)} :: 0 <= j < |path| ==> SlotOk(i, path, j)
    }

    // One step down, if there is a node.
    method Follow(i: nat, path: seq<Slot<T>>, node: Node<T>, n: nat)
      returns (child: Option<Node<T>>, path': seq<Slot<T>>)
      requires Shape() && PathOk(i, path, node.level) && node.level > 0 && n == Digit(i, node.level)
      requires KeyOf(i, node.level) in nodes && nodes[KeyOf(i, node.level)] == node
      ensures child == None ==> At(contents, i) == None
      ensures child.Some? ==>
        && child.value.level == node.level - 1 && KeyOf(i, node.level - 1) in nodes
        && nodes[KeyOf(i, node.level - 1)] == child.value && PathOk(i, path', node.level - 1)
    {
      ghost var key := KeyOf(i, node.level);
      assert NodeOk(key) && BranchOk(key, n);
      OnTheWay(i, node.level);
      child := node.branches[n];
      path' := path + [BranchSlot(node, n)];
      if child == None {
        NothingBelow(i, node.level - 1);
      } else {
        assert NodeOk(KeyOf(i, node.level - 1));
        forall j | 0 <= j < |path'| ensures SlotOk(i, path', j) {
          assert j < |path| ==> SlotOk(i, path, j);
        }
      }
    }

    // The leaf node of i and the slots on the way there, which are ten at most.
    method Find(i: nat) returns (node: Option<Node<T>>, path: seq<Slot<T>>)
      requires Valid() && i < ALL_INDICES
      ensures node == None ==> At(contents, i) == None
      ensures node.Some? ==>
        && node.value.level == 0 && KeyOf(i, 0) in nodes && nodes[KeyOf(i, 0)] == node.value
        && PathOk(i, path, 0) && |path| <= 10
    {
      var level := TopLevel(i);
      path := [RootSlot];
      if root == null || root.level < level {
        if i in contents {
          RootIsAbove(i);
        }
        return None, path;
      }
      var x: Node<T> := root;
      LeftAbove(i, root.level);
      while x.level > level
        invariant level <= x.level <= root.level && KeyOf(i, x.level) in nodes && nodes[KeyOf(i, x.level)] == x
        invariant PathOk(i, path, x.level)
        decreases x.level
      {
        LeftAbove(i, x.level);
        node, path := Follow(i, path, x, 0);
        if node == None {
          return;
        }
        x := node.value;
      }
      while level > 0
        invariant level == x.level && KeyOf(i, x.level) in nodes && nodes[KeyOf(i, x.level)] == x
        invariant PathOk(i, path, x.level)
      {
        node, path := Follow(i, path, x, Digit(i, level));
        if node == None {
          return;
        }
        x := node.value;
        level := level - 1;
      }
      node := Some(x);
    }

    // The node that a slot on the way points to.
    method NodeAt(ghost i: nat, path: seq<Slot<T>>, ghost level: nat) returns (node: Node<T>)
      requires Shape() && PathOk(i, path, level) && KeyOf(i, level) in nodes
      ensures node == nodes[KeyOf(i, level)] && node.key == KeyOf(i, level)
      ensures path[|path| - 1] == RootSlot <==> level == root.level
      ensures level < root.level ==>
        && Parent(KeyOf(i, level)) in nodes && path[|path| - 1].node == nodes[Parent(KeyOf(i, level))]
        && path[|path| - 1].n == KeyOf(i, level).prefix % 8 < |path[|path| - 1].node.branches|
        && PathOk(i, path[..|path| - 1], level + 1)
    {
      var j := |path| - 1;
      assert SlotOk(i, path, j) && NodeOk(KeyOf(i, level));
      if path[j] == RootSlot {
        node := root;
      } else {
        OnTheWay(i, level + 1);
        assert NodeOk(KeyOf(i, level + 1)) && BranchOk(KeyOf(i, level + 1), path[j].n);
        node := path[j].node.branches[path[j].n].value;
        forall m | 0 <= m < j ensures SlotOk(i, path[..j], m) {
          assert SlotOk(i, path, m);
        }
      }
    }

    // Where the slots on the way are does not change while the nodes below them go.
    twostate lemma PathStays(new i: nat, path: seq<Slot<T>>, new level: nat)
      requires old(PathOk(i, path, level)) && root == old(root) && level > 0
      requires forall k :: k in old(nodes) && k.level > level ==> k in nodes && nodes[k] == old(nodes)[k]
      ensures PathOk(i, path, level)
    {
      forall j | 0 <= j < |path| ensures SlotOk(i, path, j) {
        assert old(SlotOk(i, path, j));
      }
    }

    // From a node that has lost a child up, nodes go until one has children left.
    method Prune(i: nat, path: seq<Slot<T>>)
      requires Over(KeyOf(i, 0)) && PathOk(i, path, 0)
      modifies this, nodes.Values
      ensures Valid() && contents == old(contents) && nodes.Values <= old(nodes.Values)
    {
      var depth := |path|;
      ghost var level := 0;
      assert path[..depth] == path;
      while depth > 0
        invariant nodes.Values <= old(nodes.Values) && contents == old(contents)
        invariant depth <= |path| && PathOk(i, path[..depth], level) && Over(KeyOf(i, level))
        decreases depth
      {
        ghost var key := KeyOf(i, level);
        var node := NodeAt(i, path[..depth], level);
        depth := depth - 1;
        assert path[..depth + 1][..depth] == path[..depth];
        label L:
        Discount(node);
        if node.count > 0 {
          return;
        }
        if path[depth] == RootSlot {
          DropRoot();
          return;
        }
        DropNode(path[depth].node, path[depth].n, key);
        PathStays@L(i, path[..depth], level + 1);
        level := level + 1;
      }
    }

    // The slots on the way to an index from 2 to the 30 on would not fit where they are kept.
    method Set(i: nat, v: Option<T>) returns (was: Option<T>)
      requires Valid() && i < ALL_INDICES && (v.Some? ==> i < MAX_INDEX)
      modifies this, nodes.Values
      ensures Valid() && was == At(old(contents), i)
      ensures contents == if v.Some? then old(contents)[i := v.value] else old(contents) - {i}
      ensures fresh(nodes.Values - old(nodes.Values))
    {
      if v.Some? {
        TopLevelBound(i);
        Grow(TopLevel(i));
        var node := Reach(i);
        was := Put(node, i, v.value);
      } else {
        was := Remove(i);
      }
    }

    method Remove(i: nat) returns (was: Option<T>)
      requires Valid() && i < ALL_INDICES
      modifies this, nodes.Values
      ensures Valid() && was == At(old(contents), i) && contents == old(contents) - {i}
      ensures nodes.Values <= old(nodes.Values)
    {
      var node, path := Find(i);
      was := None;
      if node.Some? {
        OnTheWay(i, 0);
        assert NodeOk(KeyOf(i, 0)) && LeafOk(KeyOf(i, 0), Digit(i, 0));
        was := node.value.leaves[Digit(i, 0)];
        if was.Some? {
          label L:
          Take(node.value, i);
          forall j | 0 <= j < |path| ensures SlotOk(i, path, j) {
            assert old@L(SlotOk(i, path, j));
          }
          Prune(i, path);
        }
      }
    }

    // ----- no dead wood --------------------------------------------------------------------------

    // Below every node there is something.
    lemma EveryNodeHolds(k: Key) returns (i: nat)
      requires Valid() && k in nodes
      ensures i in contents && KeyOf(i, k.level) == k
      decreases k.level
    {
      var x := nodes[k];
      assert NodeOk(k) && Counted(k);
      if k.level > 0 {
        FilledNone(x.branches);
        var n :| 0 <= n < 8 && x.branches[n] != None;
        assert BranchOk(k, n);
        assert Child(k, n) in nodes;
        i := EveryNodeHolds(Child(k, n));
        assert Up(i, k.level + 1) == Up(i, k.level) / 8;
      } else {
        FilledNone(x.leaves);
        var n :| 0 <= n < 8 && x.leaves[n] != None;
        assert LeafOk(k, n);
        i := LeafIndex(k, n);
        LeafKey(k, n);
      }
    }

    // With the last index the root is gone too.
    lemma EmptyHasNoRoot()
      requires Valid()
      ensures root == null <==> contents == map[]
    {
      if root == null {
        assert forall i :: i !in contents;
      } else {
        var i := EveryNodeHolds(Key(root.level, 0));
      }
    }
  }
}
