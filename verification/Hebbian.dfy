/** The Hebbian network as a value: what each update does to counts, edges and arities. */
module Hebbian {
  import opened Keys

  const HANDLE_SIZE: nat := 32

  /** `neighbors` maps each neighbour to the count of the edge to it. */
  datatype Node = Node(count: nat, arity: nat, importance: real, toSpread: real, neighbors: map<Key, nat>)

  /**
   * What a caller may pass as a handle: a string of the wrong size, which is refused, or one written in the
   * alphabet. Only then are the tries of a network maps.
   */
  ghost predicate Written(alphabet: set<char>, h: Key) {
    |h| == HANDLE_SIZE ==> Config(HANDLE_SIZE, alphabet).Canonical(h)
  }

  datatype Net = Net(nodes: map<Key, Node>, largestArity: nat, tokens: real)

  const EMPTY_NET := Net(map[], 0, 1.0)

  function NewNode(): Node {
    Node(1, 0, 0.0, 0.0, map[])
  }

  function AddNode(net: Net, h: Key): Net {
    var n := if h in net.nodes then var n := net.nodes[h]; n.(count := n.count + 1) else NewNode();
    net.(nodes := net.nodes[h := n])
  }

  function AddAsymmetricEdge(net: Net, a: Key, b: Key): Net
    requires a in net.nodes
  {
    var n := net.nodes[a];
    var count := if b in n.neighbors then n.neighbors[b] + 1 else 1;
    var linked := n.(neighbors := n.neighbors[b := count]);
    if count == 1 then
      Net(net.nodes[a := linked.(arity := n.arity + 1)],
          if n.arity + 1 > net.largestArity then n.arity + 1 else net.largestArity, net.tokens)
    else net.(nodes := net.nodes[a := linked])
  }

  function AddSymmetricEdge(net: Net, a: Key, b: Key): Net
    requires a in net.nodes && b in net.nodes
  {
    AddAsymmetricEdge(AddAsymmetricEdge(net, a, b), b, a)
  }

  function NodeCount(net: Net, h: Key): nat {
    if h in net.nodes then net.nodes[h].count else 0
  }

  function EdgeCount(net: Net, a: Key, b: Key): nat {
    if a in net.nodes && b in net.nodes[a].neighbors then net.nodes[a].neighbors[b] else 0
  }

  // ---------------------------------------------------------------- one correlation request

  predicate AllSized(hs: seq<Key>) {
    forall i | 0 <= i < |hs| :: |hs[i]| == HANDLE_SIZE
  }

  /** The handles of a request up to the first one of the wrong size. */
  function Sized(hs: seq<Key>): (r: seq<Key>)
    ensures AllSized(r) && r <= hs && (AllSized(hs) ==> r == hs) && (|r| < |hs| ==> |hs[|r|]| != HANDLE_SIZE)
  {
    if hs == [] || |hs[0]| != HANDLE_SIZE then [] else [hs[0]] + Sized(hs[1..])
  }

  function AddNodes(net: Net, hs: seq<Key>): (r: Net)
    ensures r.nodes.Keys == net.nodes.Keys + (set h | h in hs)
  {
    if hs == [] then net else AddNode(AddNodes(net, hs[..|hs| - 1]), hs[|hs| - 1])
  }

  /** Two handles of a request are joined once, the lesser one first. */
  function JoinPair(net: Net, s1: Key, s2: Key): Net
    requires s1 in net.nodes && s2 in net.nodes
  {
    if Before(s1, s2) then AddSymmetricEdge(net, s1, s2) else net
  }

  /** The inner loop of a correlation: `s1` joined with those of the first `n` handles that come after it. */
  function JoinOne(net: Net, s1: Key, hs: seq<Key>, n: nat): (r: Net)
    requires n <= |hs| && s1 in net.nodes && forall h | h in hs :: h in net.nodes
    ensures r.nodes.Keys == net.nodes.Keys
  {
    if n == 0 then net else JoinPair(JoinOne(net, s1, hs, n - 1), s1, hs[n - 1])
  }

  function JoinAll(net: Net, hs: seq<Key>, n: nat): (r: Net)
    requires n <= |hs| && forall h | h in hs :: h in net.nodes
    ensures r.nodes.Keys == net.nodes.Keys
  {
    if n == 0 then net else JoinOne(JoinAll(net, hs, n - 1), hs[n - 1], hs, |hs|)
  }

  /** A handle of the wrong size is an error: the handles before it stay added. */
  function Correlate(net: Net, hs: seq<Key>): Net {
    var added := AddNodes(net, Sized(hs));
    if AllSized(hs) then JoinAll(added, hs, |hs|) else added
  }

  // ---------------------------------------------------------------- exact counts

  /** How often `h` is among the first `n` handles. */
  function Times(hs: seq<Key>, h: Key, n: nat): nat
    requires n <= |hs|
  {
    if n == 0 then 0 else Times(hs, h, n - 1) + if hs[n - 1] == h then 1 else 0
  }

  lemma {:induction false} TimesPrefix(hs: seq<Key>, m: nat, h: Key, n: nat)
    requires n <= m <= |hs|
    ensures Times(hs[..m], h, n) == Times(hs, h, n)
  {
    if n > 0 { TimesPrefix(hs, m, h, n - 1); }
  }

  lemma {:induction false} NodesAreCounted(net: Net, hs: seq<Key>, h: Key)
    ensures NodeCount(AddNodes(net, hs), h) == NodeCount(net, h) + Times(hs, h, |hs|)
  {
    if hs != [] {
      NodesAreCounted(net, hs[..|hs| - 1], h);
      TimesPrefix(hs, |hs| - 1, h, |hs| - 1);
    }
  }

  lemma {:induction false} AddNodesKeepsEdges(net: Net, hs: seq<Key>, a: Key, b: Key)
    ensures EdgeCount(AddNodes(net, hs), a, b) == EdgeCount(net, a, b)
  {
    if hs != [] { AddNodesKeepsEdges(net, hs[..|hs| - 1], a, b); }
  }

  lemma EdgeIsCounted(net: Net, x: Key, y: Key, a: Key, b: Key)
    requires x in net.nodes && y in net.nodes && x != y
    ensures EdgeCount(AddSymmetricEdge(net, x, y), a, b) ==
            EdgeCount(net, a, b) + if (a == x && b == y) || (a == y && b == x) then 1 else 0
  {
  }

  /** What the inner loop for `s1` adds to the edge from `a` to `b`. */
  function Joined(s1: Key, hs: seq<Key>, a: Key, b: Key, n: nat): nat
    requires n <= |hs|
  {
    if s1 == a && Before(a, b) then Times(hs, b, n)
    else if s1 == b && Before(b, a) then Times(hs, a, n)
    else 0
  }

  lemma {:induction false} JoinOneCounts(net: Net, s1: Key, hs: seq<Key>, n: nat, a: Key, b: Key)
    requires n <= |hs| && s1 in net.nodes && forall h | h in hs :: h in net.nodes
    ensures EdgeCount(JoinOne(net, s1, hs, n), a, b) == EdgeCount(net, a, b) + Joined(s1, hs, a, b, n)
  {
    if n > 0 {
      JoinOneCounts(net, s1, hs, n - 1, a, b);
      BeforeIsTotal(a, b);
      BeforeIsTotal(s1, hs[n - 1]);
      if Before(s1, hs[n - 1]) {
        EdgeIsCounted(JoinOne(net, s1, hs, n - 1), s1, hs[n - 1], a, b);
      }
    }
  }

  /** What the first `n` rounds of the outer loop add to the edge from `a` to `b`. */
  function Pairs(hs: seq<Key>, a: Key, b: Key, n: nat): nat
    requires n <= |hs|
  {
    if a == b then 0
    else if Before(a, b) then Times(hs, a, n) * Times(hs, b, |hs|)
    else Times(hs, b, n) * Times(hs, a, |hs|)
  }

  lemma OneMore(m: nat, k: nat)
    ensures (m + 1) * k == m * k + k
  {
  }

  lemma PairsGrow(hs: seq<Key>, a: Key, b: Key, n: nat)
    requires 0 < n <= |hs|
    ensures Pairs(hs, a, b, n) == Pairs(hs, a, b, n - 1) + Joined(hs[n - 1], hs, a, b, |hs|)
  {
    BeforeIsTotal(a, b);
    OneMore(Times(hs, a, n - 1), Times(hs, b, |hs|));
    OneMore(Times(hs, b, n - 1), Times(hs, a, |hs|));
  }

  lemma {:induction false} JoinAllCounts(net: Net, hs: seq<Key>, n: nat, a: Key, b: Key)
    requires n <= |hs| && forall h | h in hs :: h in net.nodes
    ensures EdgeCount(JoinAll(net, hs, n), a, b) == EdgeCount(net, a, b) + Pairs(hs, a, b, n)
  {
    if n > 0 {
      JoinAllCounts(net, hs, n - 1, a, b);
      JoinOneCounts(JoinAll(net, hs, n - 1), hs[n - 1], hs, |hs|, a, b);
      PairsGrow(hs, a, b, n);
    }
  }

  /** Joining changes no node but its arity and neighbours. */
  ghost predicate SameButLinks(m: Net, n: Net) {
    && m.nodes.Keys == n.nodes.Keys && m.tokens == n.tokens
    && forall h | h in m.nodes :: n.nodes[h] == m.nodes[h].(arity := n.nodes[h].arity, neighbors :=
        n.nodes[h].neighbors)
  }

  lemma AddSymmetricEdgeLinks(net: Net, a: Key, b: Key)
    requires a in net.nodes && b in net.nodes
    ensures SameButLinks(net, AddSymmetricEdge(net, a, b))
  {
  }

  lemma LinksChain(k: Net, m: Net, n: Net)
    requires SameButLinks(k, m) && SameButLinks(m, n)
    ensures SameButLinks(k, n)
  {
  }

  lemma {:induction false} JoinOneLinks(net: Net, s1: Key, hs: seq<Key>, n: nat)
    requires n <= |hs| && s1 in net.nodes && forall h | h in hs :: h in net.nodes
    ensures SameButLinks(net, JoinOne(net, s1, hs, n))
  {
    if n > 0 {
      var r := JoinOne(net, s1, hs, n - 1);
      JoinOneLinks(net, s1, hs, n - 1);
      if Before(s1, hs[n - 1]) {
        AddSymmetricEdgeLinks(r, s1, hs[n - 1]);
        LinksChain(net, r, AddSymmetricEdge(r, s1, hs[n - 1]));
      }
    }
  }

  lemma {:induction false} JoinAllLinks(net: Net, hs: seq<Key>, n: nat)
    requires n <= |hs| && forall h | h in hs :: h in net.nodes
    ensures SameButLinks(net, JoinAll(net, hs, n))
  {
    if n > 0 {
      JoinAllLinks(net, hs, n - 1);
      JoinOneLinks(JoinAll(net, hs, n - 1), hs[n - 1], hs, |hs|);
    }
  }

  /** What one request adds to the count of the node `h`, and to the edge from `a` to `b`. */
  function NodeMult(hs: seq<Key>, h: Key): nat {
    Times(Sized(hs), h, |Sized(hs)|)
  }

  function EdgeMult(hs: seq<Key>, a: Key, b: Key): nat {
    if a == b || !AllSized(hs) then 0 else NodeMult(hs, a) * NodeMult(hs, b)
  }

  lemma PairsOfAll(hs: seq<Key>, a: Key, b: Key)
    requires AllSized(hs)
    ensures Pairs(hs, a, b, |hs|) == EdgeMult(hs, a, b)
  {
  }

  lemma Commutes(m: nat, n: nat)
    ensures m * n == n * m
  {
  }

  /** A request adds each handle's multiplicity to its node and the product of two to their edge, both ways. */
  lemma CorrelationIsExact(alphabet: set<char>, net: Net, hs: seq<Key>, a: Key, b: Key)
    requires Injective(alphabet) && forall h | h in hs :: Written(alphabet, h)
    ensures NodeCount(Correlate(net, hs), a) == NodeCount(net, a) + NodeMult(hs, a)
    ensures EdgeCount(Correlate(net, hs), a, b) == EdgeCount(net, a, b) + EdgeMult(hs, a, b)
  {
    var added := AddNodes(net, Sized(hs));
    NodesAreCounted(net, Sized(hs), a);
    AddNodesKeepsEdges(net, Sized(hs), a, b);
    if AllSized(hs) {
      JoinAllLinks(added, hs, |hs|);
      JoinAllCounts(added, hs, |hs|, a, b);
      PairsOfAll(hs, a, b);
    }
  }

  // ---------------------------------------------------------------- the graph

  ghost predicate NodeSound(net: Net, h: Key)
    requires h in net.nodes
  {
    var n := net.nodes[h];
    && n.count > 0 && n.arity == |n.neighbors| && n.arity <= net.largestArity
    && h !in n.neighbors && n.neighbors.Keys <= net.nodes.Keys
    && forall b | b in n.neighbors :: n.neighbors[b] > 0
  }

  /** Arities count neighbours, the largest is recorded, no edge is a loop and every edge leads to a node. */
  ghost predicate GraphSound(net: Net) {
    && (forall h {:trigger NodeSound(net, h)} | h in net.nodes :: NodeSound(net, h))
    && (net.largestArity == 0 || exists h :: HasLargest(net, h))
  }

  ghost predicate HasLargest(net: Net, h: Key) {
    h in net.nodes && net.nodes[h].arity == net.largestArity
  }

  lemma AddNodeSound(net: Net, h: Key)
    requires GraphSound(net)
    ensures GraphSound(AddNode(net, h))
  {
    var net' := AddNode(net, h);
    forall k | k in net'.nodes
      ensures NodeSound(net', k)
    {
      assert k in net.nodes ==> NodeSound(net, k);
    }
    if net.largestArity != 0 {
      var k :| HasLargest(net, k);
      assert HasLargest(net', k);
    }
  }

  lemma LinkedNodeSound(net: Net, a: Key, b: Key)
    requires a in net.nodes && b in net.nodes && a != b && NodeSound(net, a)
    ensures NodeSound(AddAsymmetricEdge(net, a, b), a)
  {
  }

  lemma OtherNodeSound(net: Net, a: Key, b: Key, k: Key)
    requires a in net.nodes && k in net.nodes && k != a && NodeSound(net, k)
    ensures NodeSound(AddAsymmetricEdge(net, a, b), k)
  {
  }

  lemma LargestIsKept(net: Net, a: Key, b: Key)
    requires a in net.nodes && NodeSound(net, a) && (net.largestArity == 0 || exists h :: HasLargest(net, h))
    ensures var net' := AddAsymmetricEdge(net, a, b);
            net'.largestArity == 0 || exists h :: HasLargest(net', h)
  {
    var net' := AddAsymmetricEdge(net, a, b);
    if net.largestArity != 0 {
      var k :| HasLargest(net, k);
      assert HasLargest(net', k) || HasLargest(net', a);
    } else if net'.largestArity != 0 {
      assert HasLargest(net', a);
    }
  }

  lemma AddAsymmetricEdgeSound(net: Net, a: Key, b: Key)
    requires GraphSound(net) && a in net.nodes && b in net.nodes && a != b
    ensures GraphSound(AddAsymmetricEdge(net, a, b))
  {
    var net' := AddAsymmetricEdge(net, a, b);
    assert NodeSound(net, a);
    forall k | k in net'.nodes
      ensures NodeSound(net', k)
    {
      assert NodeSound(net, k);
      if k == a { LinkedNodeSound(net, a, b); } else { OtherNodeSound(net, a, b, k); }
    }
    LargestIsKept(net, a, b);
  }

  lemma AddSymmetricEdgeSound(net: Net, a: Key, b: Key)
    requires GraphSound(net) && a in net.nodes && b in net.nodes && a != b
    ensures GraphSound(AddSymmetricEdge(net, a, b))
  {
    AddAsymmetricEdgeSound(net, a, b);
    AddAsymmetricEdgeSound(AddAsymmetricEdge(net, a, b), b, a);
  }

  lemma {:induction false} AddNodesSound(net: Net, hs: seq<Key>)
    requires GraphSound(net)
    ensures GraphSound(AddNodes(net, hs))
  {
    if hs != [] {
      AddNodesSound(net, hs[..|hs| - 1]);
      AddNodeSound(AddNodes(net, hs[..|hs| - 1]), hs[|hs| - 1]);
    }
  }

  lemma {:induction false} JoinOneSound(net: Net, s1: Key, hs: seq<Key>, n: nat)
    requires n <= |hs| && s1 in net.nodes && forall h | h in hs :: h in net.nodes
    requires GraphSound(net)
    ensures GraphSound(JoinOne(net, s1, hs, n))
  {
    if n > 0 {
      var r := JoinOne(net, s1, hs, n - 1);
      JoinOneSound(net, s1, hs, n - 1);
      BeforeIsTotal(s1, hs[n - 1]);
      if Before(s1, hs[n - 1]) {
        AddSymmetricEdgeSound(r, s1, hs[n - 1]);
      }
    }
  }

  lemma {:induction false} JoinAllSound(net: Net, hs: seq<Key>, n: nat)
    requires n <= |hs| && forall h | h in hs :: h in net.nodes
    requires GraphSound(net)
    ensures GraphSound(JoinAll(net, hs, n))
  {
    if n > 0 {
      JoinAllSound(net, hs, n - 1);
      JoinOneSound(JoinAll(net, hs, n - 1), hs[n - 1], hs, |hs|);
    }
  }

  lemma CorrelateSound(net: Net, hs: seq<Key>)
    requires GraphSound(net)
    ensures GraphSound(Correlate(net, hs))
  {
    AddNodesSound(net, Sized(hs));
    if AllSized(hs) {
      JoinAllSound(AddNodes(net, Sized(hs)), hs, |hs|);
    }
  }
}
