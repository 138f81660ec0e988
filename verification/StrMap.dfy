// The byte trie (src/str-map.cpp, src/str-map.hpp): nodes whose ranges of children grow by
// replacing the node, and a parser that walks them.
module StrMap {
  datatype Option<+T> = None | Some(value: T)

  // uint8_t
  newtype byte = x: int | 0 <= x < 256

  // i + 1, which is 0 for the last byte.
  function Succ(i: byte): byte {
    if i == 255 then 0 else i + 1
  }

  // How many children a node of this range has room for. A range that ends before it starts
  // has none.
  function Room(start: byte, end: byte): nat {
    if start <= end then end as nat - start as nat else 0
  }

  type Str = seq<byte>

  // The last byte is not in it: no range of a node has that.
  predicate Fits(s: Str) {
    255 !in s
  }

  class Node {
    ghost const key: Str          // the bytes on the way here
    var str: Option<Str>
    var start: byte
    var end: byte
    var children: seq<Node?>

    constructor (ghost key: Str, str: Option<Str>, start: byte, end: byte)
      ensures this.key == key && this.str == str && this.start == start && this.end == end
      ensures children == Nulls(Room(start, end))
    {
      this.key, this.str, this.start, this.end := key, str, start, end;
      children := Nulls(Room(start, end));
    }

    predicate Sized()
      reads this
    {
      |children| == Room(start, end)
    }

    predicate Ranged()
      reads this
    {
      start <= end && Sized()
    }

    // The child for a byte.
    function Next(c: byte): Node?
      requires Sized()
      reads this
    {
      if start <= c < end then children[c as nat - start as nat] else null
    }
  }

  function Nulls(n: nat): seq<Node?> {
    seq(n, _ => null)
  }

  // ----- nodes for the rest of a string -----------------------------------------------------------

  predicate OnChain(str: Str, p: nat, k: Str) {
    p <= |k| <= |str| && k == str[..|k|]
  }

  // The node for k has one child, for the next byte of str, or is the last one.
  ghost predicate LinkOk(chain: map<Str, Node>, str: Str, k: Str)
    requires k in chain && |k| <= |str|
    reads chain.Values
  {
    var x := chain[k];
    && x.key == k && x.Ranged() && x.str == None
    && (|k| < |str| ==> str[..|k| + 1] in chain)
    && forall c :: x.Next(c) == if |k| < |str| && c == str[|k|] then chain[str[..|k| + 1]] else null
  }

  // Nodes for all prefixes of str from the one of length p on.
  ghost predicate ChainOk(chain: map<Str, Node>, str: Str, p: nat)
    reads chain.Values
  {
    && (forall k {:trigger OnChain(str, p, k)} :: k in chain <==> OnChain(str, p, k))
    && (forall k {:trigger LinkOk(chain, str, k)} :: k in chain ==> |k| <= |str| && LinkOk(chain, str, k))
  }

  // It is in order if and only if every child written is within its node.
  method MakeChain(str: Str, p: nat) returns (top: Node, leaf: Node, ghost chain: map<Str, Node>, ok: bool)
    requires p <= |str|
    ensures ok <==> Fits(str[p..])
    ensures ok ==> ChainOk(chain, str, p) && str[..p] in chain && top == chain[str[..p]]
    ensures ok ==> str in chain && leaf == chain[str]
    ensures fresh(chain.Values)
  {
    leaf := new Node(str, None, 0, 0);
    top := leaf;
    chain := map[str := leaf];
    ok := true;
    assert str[..|str|] == str;
    var i := |str|;
    while i > p && ok
      invariant p <= i <= |str| && (ok <==> Fits(str[i..])) && fresh(chain.Values)
      invariant ok ==> ChainOk(chain, str, i) && str[..i] in chain && top == chain[str[..i]]
      invariant ok ==> str in chain && leaf == chain[str]
    {
      i := i - 1;
      var c := str[i];
      assert str[i..] == [c] + str[i + 1..];
      var node := new Node(str[..i], None, c, Succ(c));
      if |node.children| == 0 {
        ok := false;
        Longer(str, p, i);
      } else {
        node.children := node.children[0 := top];
        assert ChainOk(chain, str, i + 1);
        LongerChain(chain, str, i, node);
        ghost var below := chain.Values;
        chain := chain[str[..i] := node];
        assert chain.Values <= below + {node};
        top := node;
      }
    }
    Longer(str, p, i);
  }

  lemma Longer(str: Str, p: nat, i: nat)
    requires p <= i <= |str|
    ensures Fits(str[p..]) ==> Fits(str[i..])
  {
    assert str[p..] == str[p..i] + str[i..];
  }

  lemma LongerChain(chain: map<Str, Node>, str: Str, i: nat, node: Node)
    requires i < |str| && ChainOk(chain, str, i + 1) && str[..i + 1] in chain && node !in chain.Values
    requires node.key == str[..i] && node.Ranged() && node.str == None
    requires node.start == str[i] && node.end as int == str[i] as int + 1 && node.children == [chain[str[..i + 1]]]
    ensures ChainOk(chain[str[..i] := node], str, i)
  {
    var chain' := chain[str[..i] := node];
    forall k ensures k in chain' <==> OnChain(str, i, k) {
      assert k in chain <==> OnChain(str, i + 1, k);
    }
    forall k | k in chain' ensures |k| <= |str| && LinkOk(chain', str, k) {
      if k != str[..i] {
        assert OnChain(str, i + 1, k) && LinkOk(chain, str, k);
      }
    }
  }

  lemma OneLonger(str: Str, p: nat, k: Str, c: byte)
    ensures OnChain(str, p, k + [c]) <==> p <= |k| + 1 <= |str| && k == str[..|k|] && c == str[|k|]
    ensures OnChain(str, p, k + [c]) ==> k + [c] == str[..|k| + 1]
  {
    if |k| < |str| && k == str[..|k|] && c == str[|k|] {
      assert k + [c] == str[..|k| + 1];
    }
    if OnChain(str, p, k + [c]) {
      assert (k + [c])[..|k|] == k && (k + [c])[|k|] == c;
    }
  }

  lemma OnChainPrefix(str: Str, p: nat, k: Str)
    requires p <= |str|
    ensures OnChain(str, p, k) ==> str[..p] <= k
  {
  }

  lemma OneLongerThan(k: Str, j: Str, c: byte)
    ensures j + [c] == k <==> k != [] && j == k[..|k| - 1] && c == k[|k| - 1]
  {
  }

  // insert_node: the node itself, or one with a wider range that takes its place. For the last
  // byte the child is written behind the new node, which has room for no child and finds none.
  method InsertNode(parent: Node, i: byte, child: Node) returns (p: Node, ok: bool)
    requires parent.Ranged()
    modifies parent
    ensures ok <==> i != 255
    ensures p == parent || fresh(p)
    ensures p.key == parent.key && p.str == old(parent.str) && p.Sized()
    ensures ok ==> p.Ranged() && forall c :: p.Next(c) == if c == i then child else old(parent.Next(c))
    ensures !ok ==> forall c :: p.Next(c) == null
  {
    var a, b := parent.start, parent.end;
    if a <= i < b {
      parent.children := parent.children[i as nat - a as nat := child];
      p := parent;
    } else if i < a {
      p := new Node(parent.key, parent.str, i, b);
      p.children := Nulls(a as nat - i as nat) + parent.children;
      p.children := p.children[0 := child];
    } else {
      p := new Node(parent.key, parent.str, a, Succ(i));
      if |p.children| <= i as nat - a as nat {
        return p, false;
      }
      p.children := parent.children + Nulls(i as nat + 1 - b as nat);
      p.children := p.children[i as nat - a as nat := child];
    }
    ok := true;
  }

  class StrMap {
    var root: Node
    ghost var nodes: map<Str, Node>
    ghost var inserted: set<Str>
    var sound: bool               // every child was written within its node

    ghost predicate EdgeOk(k: Str, c: byte)
      requires k in nodes
      reads this, nodes.Values
    {
      nodes[k].Ranged() && nodes[k].Next(c) == if k + [c] in nodes then nodes[k + [c]] else null
    }

    ghost predicate NodeOk(k: Str)
      requires k in nodes
      reads this, nodes.Values
    {
      && nodes[k].key == k && nodes[k].Ranged()
      && (forall c {:trigger EdgeOk(k, c)} :: EdgeOk(k, c))
      && (k != [] ==> k[..|k| - 1] in nodes)
    }

    // The tree is made of just these nodes.
    ghost predicate Shape()
      reads this, nodes.Values
    {
      && [] in nodes && nodes[[]] == root
      && forall k {:trigger NodeOk(k)} :: k in nodes ==> NodeOk(k)
    }

    ghost predicate StrOk(k: Str)
      requires k in nodes
      reads this, nodes.Values
    {
      nodes[k].str == if k in inserted then Some(k) else None
    }

    ghost predicate Covered(k: Str)
      reads this
    {
      exists s :: s in inserted && k <= s
    }

    // Its nodes are the prefixes of the strings inserted, which they know.
    ghost predicate Valid()
      reads this, nodes.Values
    {
      && Shape()
      && (forall k {:trigger StrOk(k)} :: k in nodes ==> StrOk(k))
      && (forall k {:trigger Covered(k)} :: k in nodes && k != [] ==> Covered(k))
      && (forall s :: s in inserted ==> s in nodes)
    }

    // ----- inserting -------------------------------------------------------------------------------

    lemma PrefixIsThere(k: Str, s: Str)
      requires Shape() && s in nodes && k <= s
      ensures k in nodes
      decreases |s|
    {
      if k != s {
        assert NodeOk(s);
        PrefixIsThere(k, s[..|s| - 1]);
      }
    }

    // The rest of str has been hung below the node at k, which p has taken the place of, and
    // nothing else was changed.
    twostate predicate Attached(k: Str, new p: Node, new chain: map<Str, Node>, str: Str)
      requires k in old(nodes)
      reads *
    {
      && |k| < |str| && k == str[..|k|] && str[..|k| + 1] !in old(nodes)
      && ChainOk(chain, str, |k| + 1) && str[..|k| + 1] in chain
      && chain.Keys !! old(nodes.Keys) && nodes == old(nodes)[k := p] + chain
      && root == (if k == [] then p else old(root))
      && p.key == k && p.str == old(nodes[k].str) && p.Ranged() && old(nodes[k].Ranged())
      && (forall c :: p.Next(c) == if c == str[|k|] then chain[str[..|k| + 1]] else old(nodes[k].Next(c)))
      && (forall j {:trigger Kept(k, p, j)} :: j in old(nodes) && j != k ==> Kept(k, p, j))
    }

    // The node at j is the same, and its children are, but for the one at k.
    twostate predicate Kept(k: Str, new p: Node, j: Str)
      requires j in old(nodes)
      reads *
    {
      && j in nodes && nodes[j] == old(nodes[j]) && nodes[j].Ranged() && old(nodes[j].Ranged())
      && nodes[j].str == old(nodes[j].str)
      && (forall c :: nodes[j].Next(c) ==
           (if k != [] && j == k[..|k| - 1] && c == k[|k| - 1] then p else old(nodes[j].Next(c))))
    }

    // No node is below one that is not there.
    lemma NothingBelow(top: Str)
      requires Shape() && top !in nodes
      ensures forall s :: s in nodes ==> !(top <= s)
    {
      forall s | s in nodes ensures !(top <= s) {
        if top <= s {
          PrefixIsThere(top, s);
        }
      }
    }

    // The nodes after it, one at a time.
    twostate lemma AttachedNode(k: Str, new p: Node, new chain: map<Str, Node>, new str: Str, new j: Str)
      requires old(Shape()) && k in old(nodes) && Attached(k, p, chain, str) && j in nodes
      requires forall s :: s in old(nodes) ==> !(str[..|k| + 1] <= s)
      ensures NodeOk(j)
    {
      var n := |k| + 1;
      assert old(NodeOk(k)) && (j in old(nodes) ==> old(NodeOk(j)));
      assert j in chain ==> OnChain(str, n, j) && LinkOk(chain, str, j);
      assert j in old(nodes) && j != k ==> Kept(k, p, j);
      assert OnChain(str, n, j) ==> j[..|j| - 1] == str[..|j| - 1];
      assert OnChain(str, n, j) && |j| > n ==> OnChain(str, n, j[..|j| - 1]);
      forall c ensures EdgeOk(j, c) {
        OneLonger(str, n, j, c);
        OneLongerThan(k, j, c);
        assert j + [c] in chain <==> OnChain(str, n, j + [c]);
        assert j in old(nodes) ==> old(EdgeOk(j, c));
        assert OnChain(str, n, j) ==> str[..n] <= j + [c];
      }
    }

    twostate lemma AttachedShape(k: Str, new p: Node, new chain: map<Str, Node>, new str: Str)
      requires old(Shape()) && k in old(nodes) && Attached(k, p, chain, str)
      requires forall s :: s in old(nodes) ==> !(str[..|k| + 1] <= s)
      ensures Shape()
    {
      forall j | j in nodes ensures NodeOk(j) {
        AttachedNode(k, p, chain, str, j);
      }
    }

    lemma OthersElsewhere(k: Str)
      requires Shape() && k in nodes
      ensures forall j :: j in nodes && j != k ==> nodes[j] != nodes[k]
    {
      forall j | j in nodes && j != k ensures nodes[j] != nodes[k] {
        assert NodeOk(j) && NodeOk(k);
      }
    }

    // And what the nodes know.
    twostate lemma AttachedStrings(k: Str, new p: Node, new chain: map<Str, Node>, new str: Str)
      requires old(Valid()) && k in old(nodes) && Attached(k, p, chain, str) && inserted == old(inserted)
      ensures forall j {:trigger StrOk(j)} :: j in nodes ==> StrOk(j)
      ensures forall j {:trigger Covered(j)} :: j in nodes && j != [] ==> j <= str || Covered(j)
      ensures forall s :: s in inserted ==> s in nodes
    {
      forall j | j in nodes ensures StrOk(j) && (j != [] ==> j <= str || Covered(j)) {
        if j in chain {
          assert OnChain(str, |k| + 1, j) && LinkOk(chain, str, j);
        } else {
          assert old(StrOk(j)) && (j != [] ==> old(Covered(j)));
          assert j != k ==> Kept(k, p, j);
        }
      }
    }

    // *r = node, with r a slot: m_root, or one of another node
    method Replace(up: Node?, at: byte, node: Node)
      requires up != null ==> up.Ranged() && up.start <= at < up.end
      modifies `root, if up == null then {} else {up}
      ensures root == if up == null then node else old(root)
      ensures up != null ==>
        && up.str == old(up.str) && up.Ranged()
        && forall c :: up.Next(c) == if c == at then node else old(up.Next(c))
    {
      if up == null {
        root := node;
      } else {
        up.children := up.children[at as nat - up.start as nat := node];
      }
    }

    // What r is for the node at k: m_root, or the slot of the node above.
    ghost predicate SlotOf(k: Str, up: Node?, at: byte)
      reads this
    {
      if k == [] then up == null else k[..|k| - 1] in nodes && up == nodes[k[..|k| - 1]] && at == k[|k| - 1]
    }

    lemma SlotIsThere(k: Str, up: Node?, at: byte)
      requires Shape() && k in nodes && SlotOf(k, up, at)
      ensures up != null ==> up.Ranged() && up.start <= at < up.end && up != nodes[k] && up in nodes.Values
    {
      if k != [] {
        OthersElsewhere(k);
        assert NodeOk(k[..|k| - 1]) && EdgeOk(k[..|k| - 1], at) && k == k[..|k| - 1] + [at];
      }
    }

    lemma ChainIsNew(chain: map<Str, Node>, str: Str, p: nat)
      requires Shape() && ChainOk(chain, str, p) && p <= |str| && str[..p] !in nodes
      ensures forall j :: j in nodes ==> j !in chain
    {
      NothingBelow(str[..p]);
      forall j | j in nodes ensures j !in chain {
        assert j in chain <==> OnChain(str, p, j);
        OnChainPrefix(str, p, j);
      }
    }

    // A chain of new nodes goes below a node.
    method Splice(str: Str, p: nat, up: Node?, at: byte, parent: Node, top: Node, ghost chain: map<Str, Node>)
      returns (q: Node, ok: bool)
      requires Shape() && p < |str| && str[..p] in nodes && parent == nodes[str[..p]]
      requires str[..p + 1] !in nodes && SlotOf(str[..p], up, at) && chain.Keys !! nodes.Keys
      requires ChainOk(chain, str, p + 1) && str[..p + 1] in chain && top == chain[str[..p + 1]]
      requires parent !in chain.Values && (up != null ==> up !in chain.Values)
      modifies this`root, this`nodes, parent, if up == null then {} else {up}
      ensures ok <==> str[p] != 255
      ensures q == parent || fresh(q)
      ensures ok ==> Attached(str[..p], q, chain, str)
      ensures !ok ==> nodes == old(nodes)
    {
      ghost var k := str[..p];
      OthersElsewhere(k);
      SlotIsThere(k, up, at);
      assert NodeOk(k);
      q, ok := InsertNode(parent, str[p], top);
      Replace(up, at, q);
      if ok {
        nodes := nodes[k := q] + chain;
        assert ChainOk(chain, str, p + 1);
        forall j | j in old(nodes) && j != k ensures Kept(k, q, j) {
          assert old(NodeOk(j));
          assert k != [] ==> old(NodeOk(k[..|k| - 1]));
        }
      }
    }

    // In order, but that the node of str, which is there, may not know it yet.
    ghost predicate Ready(str: Str)
      reads this, nodes.Values
    {
      && Shape() && str in nodes
      && (forall k {:trigger StrOk(k)} :: k in nodes ==> StrOk(k))
      && (forall k {:trigger Covered(k)} :: k in nodes && k != [] ==> k <= str || Covered(k))
      && (forall s :: s in inserted ==> s in nodes)
    }

    // The rest of a string below the last node there is.
    method Hang(str: Str, p: nat, up: Node?, at: byte, parent: Node) returns (leaf: Node, ok: bool)
      requires Valid() && p < |str| && str[..p] in nodes && parent == nodes[str[..p]]
      requires str[..p + 1] !in nodes && SlotOf(str[..p], up, at)
      modifies this`root, this`nodes, nodes.Values
      ensures ok <==> Fits(str[p..])
      ensures ok ==> Ready(str) && leaf == nodes[str]
      ensures fresh(nodes.Values - old(nodes.Values))
    {
      NothingBelow(str[..p + 1]);
      SlotIsThere(str[..p], up, at);
      assert str[p..] == [str[p]] + str[p + 1..];
      var top;
      ghost var chain;
      top, leaf, chain, ok := MakeChain(str, p + 1);
      if ok {
        ok := HangChain(str, p, up, at, parent, top, leaf, chain);
      }
    }

    method HangChain(str: Str, p: nat, up: Node?, at: byte, parent: Node, top: Node, leaf: Node,
                     ghost chain: map<Str, Node>)
      returns (ok: bool)
      requires Valid() && p < |str| && str[..p] in nodes && parent == nodes[str[..p]]
      requires str[..p + 1] !in nodes && SlotOf(str[..p], up, at)
      requires ChainOk(chain, str, p + 1) && str[..p + 1] in chain && top == chain[str[..p + 1]]
      requires str in chain && leaf == chain[str] && chain.Values !! nodes.Values
      modifies this`root, this`nodes, nodes.Values
      ensures ok <==> str[p] != 255
      ensures ok ==> Ready(str) && leaf == nodes[str]
      ensures fresh(nodes.Values - old(nodes.Values) - chain.Values)
    {
      NothingBelow(str[..p + 1]);
      SlotIsThere(str[..p], up, at);
      ChainIsNew(chain, str, p + 1);
      assert Valid();
      label L:
      var q;
      q, ok := Splice(str, p, up, at, parent, top, chain);
      if ok {
        assert nodes.Values <= old(nodes.Values) + {q} + chain.Values;
        AttachedStrings@L(str[..p], q, chain, str);
        AttachedShape@L(str[..p], q, chain, str);
      }
    }

    // n->str = Str::make(str)
    method SetStr(n: Node, str: Str)
      requires Ready(str) && n == nodes[str]
      modifies this`inserted, n`str
      ensures Valid() && inserted == old(inserted) + {str}
    {
      OthersElsewhere(str);
      n.str := Some(str);
      inserted := inserted + {str};
      forall k | k in nodes ensures NodeOk(k) && StrOk(k) && (k != [] ==> Covered(k)) {
        assert old(NodeOk(k)) && old(StrOk(k));
        forall c ensures EdgeOk(k, c) {
          assert old(EdgeOk(k, c));
        }
        if k <= str {
          assert str in inserted;
        } else if k != [] {
          assert old(Covered(k));
          var s :| s in old(inserted) && k <= s;
          assert s in inserted;
        }
      }
    }

    // No node has a child for the last byte.
    lemma NodesFit(k: Str)
      requires Shape() && k in nodes
      ensures Fits(k)
      decreases |k|
    {
      if k != [] {
        var j, c := k[..|k| - 1], k[|k| - 1];
        assert k == j + [c] && NodeOk(k);
        assert NodeOk(j) && EdgeOk(j, c);
        NodesFit(j);
      }
    }

    // Every child is written within its node if and only if the last byte is not in the string.
    method InsertString(str: Str)
      requires Valid() && sound
      modifies this, nodes.Values
      ensures sound <==> Fits(str)
      ensures sound ==> Valid() && inserted == old(inserted) + {str}
      ensures fresh(nodes.Values - old(nodes.Values))
    {
      var up: Node?, at: byte := null, 0;
      var n, p := root, 0;
      assert str[..0] == [] && str[..|str|] == str;
      while p < |str|
        invariant p <= |str|
        invariant str[..p] in nodes && n == nodes[str[..p]] && SlotOf(str[..p], up, at)
      {
        var i := str[p];
        assert NodeOk(str[..p]) && EdgeOk(str[..p], i) && str[..p] + [i] == str[..p + 1];
        if n.Next(i) == null {
          NodesFit(str[..p]);
          assert str == str[..p] + str[p..];
          n, sound := Hang(str, p, up, at, n);
          if sound {
            SetStr(n, str);
          }
          return;
        }
        assert str[..p + 1][..p] == str[..p];
        up, at := n, i;
        n := n.Next(i);
        p := p + 1;
      }
      NodesFit(str);
      SetStr(n, str);
    }

    // Inserting all strings of a list, as far as that goes: to the end if and only if the last
    // byte is in none of them.
    constructor (strings: seq<Str>)
      ensures sound <==> forall s <- strings :: Fits(s)
      ensures sound ==> Valid() && inserted == (set s | s in strings)
      ensures fresh(nodes.Values)
    {
      var node := new Node([], None, 0, 0);
      root := node;
      nodes, inserted, sound := map[[] := node], {}, true;
      new;
      var i := 0;
      while i < |strings| && sound
        invariant i <= |strings| && fresh(nodes.Values)
        invariant sound <==> forall s <- strings[..i] :: Fits(s)
        invariant sound ==> Valid() && inserted == (set s | s in strings[..i])
      {
        assert strings[..i + 1] == strings[..i] + [strings[i]];
        InsertString(strings[i]);
        i := i + 1;
      }
      assert strings[..|strings|] == strings;
      assert forall s <- strings[..i] :: s in strings;
    }

    // The nodes are the root and all prefixes of what was inserted.
    lemma NodesArePrefixes(k: Str)
      requires Valid()
      ensures k in nodes <==> k == [] || exists s :: s in inserted && k <= s
    {
      if k in nodes && k != [] {
        assert Covered(k);
      }
      if s :| s in inserted && k <= s {
        PrefixIsThere(k, s);
      }
    }
  }

  // ----- parsing ---------------------------------------------------------------------------------

  // The string itself if it is one of those inserted, null for a proper prefix of one, and
  // otherwise the empty string.
  ghost function Verdict(inserted: set<Str>, t: Str): Option<Str> {
    if t in inserted then Some(t)
    else if exists s :: s in inserted && t <= s then None
    else Some([])
  }

  class Parser {
    var node: Node?

    constructor (map_: StrMap)
      requires map_.Valid()
      ensures At(map_, [])
    {
      node := map_.root;
    }

    // Where the parser is after some bytes.
    ghost predicate At(map_: StrMap, seen: Str)
      reads this, map_
    {
      node == if seen in map_.nodes then map_.nodes[seen] else null
    }

    method Parse(map_: StrMap, c: byte, ghost seen: Str) returns (r: Option<Str>)
      requires map_.Valid() && At(map_, seen)
      modifies this
      ensures At(map_, seen + [c]) && r == Verdict(map_.inserted, seen + [c])
    {
      ghost var more := seen + [c];
      map_.NodesArePrefixes(more);
      assert more[..|more| - 1] == seen;
      assert more in map_.nodes ==> map_.NodeOk(more) && map_.StrOk(more);
      if node == null {
        return Some([]);
      }
      assert map_.NodeOk(seen) && map_.EdgeOk(seen, c);
      if node.start <= c < node.end {
        node := node.children[c as nat - node.start as nat];
        r := if node != null then node.str else Some([]);
      } else {
        node := null;
        r := Some([]);
      }
    }

    // Whatever the strings inserted and their order, the last answer is about the whole.
    method ParseAll(map_: StrMap, t: Str) returns (r: Option<Str>)
      requires map_.Valid() && At(map_, []) && t != []
      modifies this
      ensures At(map_, t) && r == Verdict(map_.inserted, t)
    {
      r := Some([]);
      for i := 0 to |t|
        invariant At(map_, t[..i]) && (i > 0 ==> r == Verdict(map_.inserted, t[..i]))
      {
        assert t[..i + 1] == t[..i] + [t[i]];
        r := Parse(map_, t[i], t[..i]);
      }
      assert t[..|t|] == t;
    }
  }
}
