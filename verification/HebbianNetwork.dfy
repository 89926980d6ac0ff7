/** The Hebbian network as its objects, and the updater that feeds it correlation requests. */
module HebbianNetworks {
  import opened Prelude
  import opened Keys
  import H = Hebbian

  /** What an object holds, with the object itself: the network's memory as a value. */
  datatype Cell = Cell(node: Node, arity: nat, count: nat, importance: real, toSpread: real, links: map<Key, Link>)

  datatype Link = Link(edge: Edge, count: nat, node1: Option<Node>, node2: Option<Node>)

  /** Each handle has a node of its own, and each edge is found where its two ends say. */
  ghost predicate Wired(cells: map<Key, Cell>) {
    && (forall h | h in cells :: cells[h].node.handle == h)
    && (forall a, b {:trigger Tied(cells, a, b)} | a in cells && b in cells[a].links :: Tied(cells, a, b))
  }

  ghost predicate Tied(cells: map<Key, Cell>, a: Key, b: Key)
    requires a in cells && b in cells[a].links
  {
    var l := cells[a].links[b];
    l.count > 0 && b in cells && l.node1 == Some(cells[a].node) && l.node2 == Some(cells[b].node)
  }

  ghost function NodeOf(c: Cell): H.Node {
    H.Node(c.count, c.arity, c.importance, c.toSpread, map b | b in c.links :: c.links[b].count)
  }

  ghost function NodesOf(cells: map<Key, Cell>): map<Key, H.Node> {
    map h | h in cells :: NodeOf(cells[h])
  }

  ghost function EdgesOf(cells: map<Key, Cell>): set<Edge> {
    set a, b | a in cells && b in cells[a].links :: cells[a].links[b].edge
  }

  class Node {
    ghost const handle: Key
    var arity: nat
    var count: nat
    var importance: real
    var stimuliToSpread: real
    var neighbors: map<Key, Edge>

    constructor (ghost handle: Key)
      ensures this.handle == handle && arity == 0 && count == 1 && importance == 0.0 && stimuliToSpread == 0.0
              && neighbors == map[]
    {
      this.handle, arity, count, importance, stimuliToSpread, neighbors := handle, 0, 1, 0.0, 0.0, map[];
    }

    ghost function View(): Cell
      reads this, neighbors.Values
    {
      Cell(this, arity, count, importance, stimuliToSpread, map b | b in neighbors :: neighbors[b].View())
    }

    method Merge(other: Node)
      modifies this`count, this`importance
      ensures count == old(count) + old(other.count) && importance == old(importance) + old(other.importance)
    {
      count := count + other.count;
      importance := importance + other.importance;
    }

    /** The neighbour `handle2` is held by `edge`, and no other one is. */
    ghost predicate Has(handle2: Key, edge: Edge)
      reads this
    {
      && handle2 in neighbors && neighbors[handle2] == edge
      && forall b | b in neighbors && b != handle2 :: neighbors[b] != edge
    }

    /** The neighbours' insert: one more on the count of a known edge, or a new edge object. */
    method InsertNeighbor(handle2: Key) returns (edge: Edge)
      requires handle2 in neighbors ==> Has(handle2, neighbors[handle2])
      modifies this`neighbors, (if handle2 in neighbors then {neighbors[handle2]} else {})`count
      ensures Has(handle2, edge) && View() == Put(old(View()), handle2, edge)
      ensures if handle2 in old(neighbors) then neighbors == old(neighbors) else fresh(edge)
      ensures neighbors == old(neighbors)[handle2 := edge]
    {
      ghost var links := View().links;
      var e := new Edge();
      if handle2 in neighbors {
        neighbors[handle2].Merge(e);
      } else {
        neighbors := neighbors[handle2 := e];
      }
      edge := neighbors[handle2];
      assert View().links == links[handle2 := edge.View()];
    }

    /** A first-time edge learns its ends. */
    method LinkNeighbor(handle2: Key, node2: Option<Node>, edge: Edge)
      requires Has(handle2, edge)
      modifies edge`node1, edge`node2, this`arity
      ensures View() == Linked(old(View()), handle2, node2)
    {
      ghost var links := View().links;
      edge.node1 := Some(this);
      edge.node2 := node2;
      arity := arity + 1;
      assert View().links == links[handle2 := edge.View()];
    }
  }

  class Edge {
    var count: nat
    var node1: Option<Node>
    var node2: Option<Node>

    constructor ()
      ensures count == 1 && node1 == None && node2 == None
    {
      count, node1, node2 := 1, None, None;
    }

    ghost function View(): Link
      reads this
    {
      Link(this, count, node1, node2)
    }

    method Merge(other: Edge)
      modifies this`count
      ensures count == old(count) + old(other.count)
    {
      count := count + other.count;
    }
  }

  class HebbianNetwork {
    ghost const alphabet: set<char>
    var nodes: map<Key, Node>
    var largestArity: nat
    var tokensToDistribute: real

    ghost function EdgeObjects(): set<Edge>
      reads this`nodes, nodes.Values`neighbors
    {
      set a, b | a in nodes && b in nodes[a].neighbors :: nodes[a].neighbors[b]
    }

    ghost function Cells(): map<Key, Cell>
      reads this`nodes, nodes.Values, EdgeObjects()
    {
      map h | h in nodes :: nodes[h].View()
    }

    /** The network as a value. */
    ghost function View(): H.Net
      reads this, nodes.Values, EdgeObjects()
    {
      H.Net(NodesOf(Cells()), largestArity, tokensToDistribute)
    }

    ghost predicate Valid()
      reads this`nodes, nodes.Values, EdgeObjects()
    {
      Wired(Cells())
    }

    /** The tries of this network are maps for this handle. */
    ghost predicate Takes(handle: Key) {
      Injective(alphabet) && H.Written(alphabet, handle)
    }

    constructor (ghost alphabet: set<char>)
      ensures Valid() && View() == H.EMPTY_NET && nodes == map[] && this.alphabet == alphabet
    {
      this.alphabet := alphabet;
      nodes, largestArity, tokensToDistribute := map[], 0, 1.0;
    }

    /** The node an insert under this handle would merge into, as a frame. */
    ghost function Target(handle: Key): set<Node>
      reads this
    {
      if handle in nodes then {nodes[handle]} else {}
    }

    /** The nodes' insert: one more on the count of a known handle, or a new node. */
    method InsertNode(handle: Key, n: Node)
      requires Takes(handle) && n.handle == handle && (forall h | h in nodes :: nodes[h] != n)
               && n.View() == Cell(n, 0, 1, 0.0, 0.0, map[]) && Valid()
      modifies this`nodes, Target(handle)
      ensures nodes == old(nodes)[handle := if handle in old(nodes) then old(nodes[handle]) else n]
      ensures Cells() == Inserted(old(Cells()), handle, n)
    {
      ghost var cells := Cells();
      if handle in nodes {
        nodes[handle].Merge(n);
      } else {
        nodes := nodes[handle := n];
      }
      forall h | h in nodes
        ensures nodes[h].View() == Inserted(cells, handle, n)[h]
      {
        assert h in cells ==> cells[h].node == nodes[h];
      }
    }

    /** A new node, or one more on the count of the one there is; a node keeps its object for good. */
    method AddNode(handle: Key) returns (r: Result<Node>)
      requires Valid() && Takes(handle)
      modifies this`nodes, Target(handle)
      ensures Valid() && (r.Success? <==> |handle| == H.HANDLE_SIZE)
      ensures r.Failure? ==> nodes == old(nodes) && Cells() == old(Cells())
      ensures r.Success? ==> handle in nodes && r.value == nodes[handle] && View() == H.AddNode(old(View()), handle)
      ensures nodes.Keys == old(nodes.Keys) + (if r.Success? then {handle} else {}) && forall h | h in old(nodes) ::
              nodes[h] == old(nodes[h])
      ensures forall n | n in nodes.Values :: n in old(nodes.Values) || fresh(n)
      ensures EdgeObjects() == old(EdgeObjects())
    {
      if |handle| != H.HANDLE_SIZE {
        return Failure;
      }
      ghost var cells, edges := Cells(), EdgeObjects();
      EdgesInCells();
      var n := new Node(handle);
      assert Cells() == cells;
      InsertNode(handle, n);
      EdgesInCells();
      InsertKeepsEdges(cells, handle, n);
      assert EdgeObjects() == edges;
      InsertWires(cells, handle, n);
      InsertIsAddNode(cells, handle, n, largestArity, tokensToDistribute);
      return Success(nodes[handle]);
    }

    /** A handle of the wrong size is an error; an unknown one is NULL. */
    function LookupNode(handle: Key): (r: Result<Option<Node>>)
      requires Takes(handle)
      reads this
      ensures r.Success? <==> |handle| == H.HANDLE_SIZE
      ensures r.Success? && r.value.Some? ==> handle in nodes && r.value.value == nodes[handle]
      ensures r.Success? && r.value.None? ==> handle !in nodes
    {
      if |handle| != H.HANDLE_SIZE then Failure else Success(if handle in nodes then Some(nodes[handle]) else None)
    }

    /** Zero for a handle that is no node. */
    method GetNodeCount(handle: Key) returns (r: Result<nat>)
      requires Takes(handle)
      ensures r.Success? <==> |handle| == H.HANDLE_SIZE
      ensures r.Success? ==> r.value == H.NodeCount(View(), handle)
    {
      var found := LookupNode(handle);
      match found
      case Failure => return Failure;
      case Success(None) => return Success(0);
      case Success(Some(n)) => return Success(n.count);
    }

    method GetNodeImportance(handle: Key) returns (r: Result<real>)
      requires Takes(handle)
      ensures r.Success? <==> |handle| == H.HANDLE_SIZE
      ensures r.Success? && handle in nodes ==> r.value == View().nodes[handle].importance
      ensures r.Success? && handle !in nodes ==> r.value == 0.0
    {
      var found := LookupNode(handle);
      match found
      case Failure => return Failure;
      case Success(None) => return Success(0.0);
      case Success(Some(n)) => return Success(n.importance);
    }

    /** The second handle is looked up, and so checked, only if the first one is a node. */
    method GetAsymmetricEdgeCount(handle1: Key, handle2: Key) returns (r: Result<nat>)
      requires Takes(handle1) && Takes(handle2)
      ensures r.Success? <==> |handle1| == H.HANDLE_SIZE && (handle1 in nodes ==> |handle2| == H.HANDLE_SIZE)
      ensures r.Success? ==> r.value == H.EdgeCount(View(), handle1, handle2)
    {
      var found := LookupNode(handle1);
      match found
      case Failure => return Failure;
      case Success(None) => return Success(0);
      case Success(Some(source)) =>
        if |handle2| != H.HANDLE_SIZE {
          return Failure;
        }
        return Success(if handle2 in source.neighbors then source.neighbors[handle2].count else 0);
    }

    /** Takes all the undistributed tokens; by the frame nothing else changes. */
    method AlienateTokens() returns (answer: real)
      modifies this`tokensToDistribute
      ensures answer == old(tokensToDistribute) && tokensToDistribute == 0.0
    {
      answer := tokensToDistribute;
      tokensToDistribute := 0.0;
    }

    // ---------------------------------------------------------------- edges

    /** The edge an insert would merge into, as a frame. */
    ghost function EdgeTarget(handle1: Key, handle2: Key): set<Edge>
      reads this, nodes.Values
    {
      if handle1 in nodes && handle2 in nodes[handle1].neighbors then {nodes[handle1].neighbors[handle2]} else {}
    }

    /** No other node has the edge object `edge` among its neighbours'. */
    ghost predicate OnlyAt(handle1: Key, edge: Edge)
      reads this, nodes.Values
    {
      forall h | h in nodes && h != handle1 :: edge !in nodes[h].neighbors.Values
             && (handle1 in nodes ==> nodes[h] != nodes[handle1])
    }

    /** An insert among the neighbours of a node. */
    method InsertEdge(handle1: Key, n1: Node, handle2: Key) returns (edge: Edge)
      requires Valid() && handle1 in nodes && n1 == nodes[handle1]
      modifies n1`neighbors, EdgeTarget(handle1, handle2)`count
      ensures OnlyAt(handle1, edge) && n1.Has(handle2, edge)
      ensures Cells() == PutAt(old(Cells()), handle1, handle2, edge)
      ensures edge.count == Cells()[handle1].links[handle2].count
      ensures if handle2 in old(n1.neighbors) then edge == old(n1.neighbors[handle2]) else fresh(edge)
      ensures n1.neighbors == old(n1.neighbors)[handle2 := edge]
    {
      ghost var cells := Cells();
      AtItsPlaceOnly(handle1, handle2);
      edge := n1.InsertNeighbor(handle2);
      OneCell(cells, Cells(), handle1, Put(cells[handle1], handle2, edge));
    }

    /** A first-time edge learns its ends, and counts in the arities. */
    method LinkEnds(handle1: Key, handle2: Key, n1: Node, node2: Option<Node>, edge: Edge)
      requires OnlyAt(handle1, edge) && handle1 in nodes && n1 == nodes[handle1] && n1.Has(handle2, edge)
      modifies edge`node1, edge`node2, n1`arity, this`largestArity
      ensures Cells() == LinkedAt(old(Cells()), handle1, handle2, node2)
      ensures largestArity == if old(n1.arity) + 1 > old(largestArity) then old(n1.arity) + 1 else old(largestArity)
    {
      ghost var cells := Cells();
      n1.LinkNeighbor(handle2, node2, edge);
      OneCell(cells, Cells(), handle1, Linked(cells[handle1], handle2, node2));
      if n1.arity > largestArity {
        largestArity := n1.arity;
      }
    }

    /** The insert, and the links and arities of an edge whose count shows that it is new. */
    method JoinNodes(handle1: Key, handle2: Key, n1: Node, node2: Option<Node>) returns (edge: Edge)
      requires Valid() && handle1 in nodes && handle2 in nodes && n1 == nodes[handle1] && node2 == Some(nodes[handle2])
      modifies this`largestArity, n1, EdgeTarget(handle1, handle2)
      ensures Cells() == Joined(old(Cells()), handle1, handle2, edge)
      ensures largestArity == Largest(old(Cells()), handle1, handle2, old(largestArity))
      ensures if handle2 in old(n1.neighbors) then edge == old(n1.neighbors[handle2]) else fresh(edge)
      ensures n1.neighbors == old(n1.neighbors)[handle2 := edge]
    {
      ghost var cells := Cells();
      assert handle2 in cells[handle1].links ==> Tied(cells, handle1, handle2);
      edge := InsertEdge(handle1, n1, handle2);
      if edge.count == 1 {
        LinkEnds(handle1, handle2, n1, node2, edge);
      }
      JoinedInSteps(cells, handle1, handle2, edge);
    }

    /** One more on the edge's count; an edge added for the first time is linked and counted in the arities. */
    method AddAsymmetricEdge(handle1: Key, handle2: Key, node1: Option<Node>, node2: Option<Node>) returns (edge: Edge)
      requires Valid() && handle1 in nodes && handle2 in nodes
      requires Takes(handle1) && Takes(handle2) && (node1 == None || node1 == Some(nodes[handle1]))
      requires node2 == Some(nodes[handle2])
      modifies this`largestArity, nodes[handle1], EdgeTarget(handle1, handle2)
      ensures Valid() && View() == H.AddAsymmetricEdge(old(View()), handle1, handle2)
      ensures edge in old(EdgeTarget(handle1, handle2)) || fresh(edge)
      ensures nodes[handle1].neighbors == old(nodes[handle1].neighbors)[handle2 := edge]
      ensures EdgeObjects() <= old(EdgeObjects()) + {edge}
    {
      ghost var cells, largest := Cells(), largestArity;
      EdgesInCells();
      var n1 := if node1 == None then nodes[handle1] else node1.value;
      edge := JoinNodes(handle1, handle2, n1, node2);
      assert handle2 in cells[handle1].links ==> Tied(cells, handle1, handle2);
      JoinedWires(cells, handle1, handle2, edge);
      JoinedIsAddEdge(cells, handle1, handle2, edge, largest, tokensToDistribute);
      EdgesInCells();
      EdgesJoined(cells, handle1, handle2, edge);
    }

    lemma EdgesInCells()
      ensures EdgesOf(Cells()) == EdgeObjects()
    {
      forall a, b | a in nodes && b in nodes[a].neighbors
        ensures nodes[a].neighbors[b] in EdgesOf(Cells())
      {
        assert Cells()[a].links[b].edge == nodes[a].neighbors[b];
      }
    }

    /** One direction, with a frame that the other one fits in as well. */
    method AddDirection(handle1: Key, handle2: Key, node1: Option<Node>, node2: Option<Node>)
      requires Valid() && handle1 in nodes && handle2 in nodes
      requires Takes(handle1) && Takes(handle2) && node1 == Some(nodes[handle1]) && node2 == Some(nodes[handle2])
      modifies this`largestArity, nodes.Values, EdgeObjects()
      ensures Valid() && View() == H.AddAsymmetricEdge(old(View()), handle1, handle2)
      ensures forall e | e in EdgeObjects() :: e in old(EdgeObjects()) || fresh(e)
    {
      TargetIsEdge(handle1, handle2);
      var edge := AddAsymmetricEdge(handle1, handle2, node1, node2);
    }

    /** Both directions of an edge. */
    method AddSymmetricEdge(handle1: Key, handle2: Key, node1: Option<Node>, node2: Option<Node>)
      requires Valid() && handle1 in nodes && handle2 in nodes
      requires Takes(handle1) && Takes(handle2) && node1 == Some(nodes[handle1]) && node2 == Some(nodes[handle2])
      modifies this`largestArity, nodes.Values, EdgeObjects()
      ensures Valid() && View() == H.AddSymmetricEdge(old(View()), handle1, handle2)
      ensures forall e | e in EdgeObjects() :: e in old(EdgeObjects()) || fresh(e)
    {
      AddDirection(handle1, handle2, node1, node2);
      AddDirection(handle2, handle1, node2, node1);
    }

    lemma TargetIsEdge(handle1: Key, handle2: Key)
      ensures EdgeTarget(handle1, handle2) <= EdgeObjects()
    {
    }

    lemma NodesApart()
      requires Valid()
      ensures forall h | h in nodes :: nodes[h].handle == h
    {
      forall h | h in nodes
        ensures nodes[h].handle == h
      {
        assert Cells()[h].node == nodes[h];
      }
    }

    /** No edge object is at two places. */
    lemma AtItsPlaceOnly(handle1: Key, handle2: Key)
      requires Valid() && handle1 in nodes
      ensures handle2 in nodes[handle1].neighbors ==>
                OnlyAt(handle1, nodes[handle1].neighbors[handle2])
                    && nodes[handle1].Has(handle2, nodes[handle1].neighbors[handle2])
      ensures forall h | h in nodes && h != handle1 :: nodes[h] != nodes[handle1]
    {
      NodesApart();
      if handle2 in nodes[handle1].neighbors {
        var edge := nodes[handle1].neighbors[handle2];
        assert Tied(Cells(), handle1, handle2);
        forall h, b | h in nodes && b in nodes[h].neighbors && (h != handle1 || b != handle2)
          ensures nodes[h].neighbors[b] != edge
        {
          assert Tied(Cells(), h, b);
        }
      }
    }
  }

  lemma OneCell(cells: map<Key, Cell>, cells': map<Key, Cell>, a: Key, c: Cell)
    requires a in cells && cells'.Keys == cells.Keys && cells'[a] == c
    requires forall h | h in cells && h != a :: cells'[h] == cells[h]
    ensures cells' == cells[a := c]
  {
  }

  ghost function Put(c: Cell, b: Key, edge: Edge): Cell {
    c.(links := c.links[b := if b in c.links then c.links[b].(count := c.links[b].count + 1)
        else Link(edge, 1, None, None)])
  }

  ghost function Linked(c: Cell, b: Key, node2: Option<Node>): Cell
    requires b in c.links
  {
    c.(arity := c.arity + 1, links := c.links[b := c.links[b].(node1 := Some(c.node), node2 := node2)])
  }

  ghost function Joined(cells: map<Key, Cell>, a: Key, b: Key, edge: Edge): map<Key, Cell>
    requires a in cells && b in cells
  {
    var c := Put(cells[a], b, edge);
    cells[a := if b in cells[a].links then c else Linked(c, b, Some(cells[b].node))]
  }

  lemma EdgesJoined(cells: map<Key, Cell>, a: Key, b: Key, edge: Edge)
    requires a in cells && b in cells
    ensures EdgesOf(Joined(cells, a, b, edge)) <= EdgesOf(cells) + {edge}
  {
  }

  ghost function Largest(cells: map<Key, Cell>, a: Key, b: Key, largestArity: nat): nat
    requires a in cells
  {
    if b !in cells[a].links && cells[a].arity + 1 > largestArity then cells[a].arity + 1 else largestArity
  }

  ghost function PutAt(cells: map<Key, Cell>, a: Key, b: Key, edge: Edge): map<Key, Cell>
    requires a in cells
  {
    cells[a := Put(cells[a], b, edge)]
  }

  ghost function LinkedAt(cells: map<Key, Cell>, a: Key, b: Key, node2: Option<Node>): map<Key, Cell>
    requires a in cells && b in cells[a].links
  {
    cells[a := Linked(cells[a], b, node2)]
  }

  lemma JoinedInSteps(cells: map<Key, Cell>, a: Key, b: Key, edge: Edge)
    requires a in cells && b in cells
    ensures Joined(cells, a, b, edge) ==
            if b in cells[a].links then PutAt(cells, a, b, edge)
                else LinkedAt(PutAt(cells, a, b, edge), a, b, Some(cells[b].node))
  {
  }

  lemma JoinedWires(cells: map<Key, Cell>, a: Key, b: Key, edge: Edge)
    requires Wired(cells) && a in cells && b in cells
    ensures Wired(Joined(cells, a, b, edge))
  {
    var cells' := Joined(cells, a, b, edge);
    forall c, d | c in cells' && d in cells'[c].links
      ensures Tied(cells', c, d)
    {
      assert d in cells[c].links ==> Tied(cells, c, d);
    }
  }

  lemma JoinedIsAddEdge(cells: map<Key, Cell>, a: Key, b: Key, edge: Edge, largestArity: nat, tokens: real)
    requires a in cells && b in cells
    requires b in cells[a].links ==> cells[a].links[b].count > 0
    ensures H.Net(NodesOf(Joined(cells, a, b, edge)), Largest(cells, a, b, largestArity), tokens) ==
            H.AddAsymmetricEdge(H.Net(NodesOf(cells), largestArity, tokens), a, b)
  {
    assert NodeOf(Joined(cells, a, b, edge)[a]).neighbors ==
           H.AddAsymmetricEdge(H.Net(NodesOf(cells), largestArity, tokens), a, b).nodes[a].neighbors;
  }

  ghost function Inserted(cells: map<Key, Cell>, handle: Key, n: Node): map<Key, Cell> {
    cells[handle := if handle in cells then cells[handle].(count := cells[handle].count + 1)
        else Cell(n, 0, 1, 0.0, 0.0, map[])]
  }

  lemma InsertWires(cells: map<Key, Cell>, handle: Key, n: Node)
    requires Wired(cells) && n.handle == handle
    ensures Wired(Inserted(cells, handle, n))
  {
    var cells' := Inserted(cells, handle, n);
    forall a, b | a in cells' && b in cells'[a].links
      ensures Tied(cells', a, b)
    {
      assert Tied(cells, a, b);
    }
  }

  lemma InsertKeepsEdges(cells: map<Key, Cell>, handle: Key, n: Node)
    ensures EdgesOf(Inserted(cells, handle, n)) == EdgesOf(cells)
  {
    var cells' := Inserted(cells, handle, n);
    forall a, b | a in cells && b in cells[a].links
      ensures cells[a].links[b].edge in EdgesOf(cells')
    {
      assert cells'[a].links == cells[a].links;
    }
  }

  lemma InsertIsAddNode(cells: map<Key, Cell>, handle: Key, n: Node, largestArity: nat, tokens: real)
    ensures H.Net(NodesOf(Inserted(cells, handle, n)), largestArity, tokens) ==
            H.AddNode(H.Net(NodesOf(cells), largestArity, tokens), handle)
  {
  }
}
