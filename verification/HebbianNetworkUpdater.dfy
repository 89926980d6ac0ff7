/** Correlation requests, served on the network's objects. */
module HebbianNetworkUpdaters {
  import opened Prelude
  import opened Keys
  import H = Hebbian
  import opened HebbianNetworks

  class ExactCountHebbianUpdater {
    constructor () {}

    /** The first loop: nodes are added up to the first handle of the wrong size. */
    method AddNodes(network: HebbianNetwork, handles: seq<Key>) returns (ok: bool)
      requires network.Valid() && forall h | h in handles :: network.Takes(h)
      modifies network, network.nodes.Values, network.EdgeObjects()
      ensures network.Valid() && network.View() == H.AddNodes(old(network.View()), H.Sized(handles))
      ensures ok <==> H.AllSized(handles)
      ensures forall n | n in network.nodes.Values :: n in old(network.nodes.Values) || fresh(n)
      ensures network.EdgeObjects() == old(network.EdgeObjects())
      ensures ok ==> forall h | h in handles :: h in network.nodes
    {
      ghost var before, nodes, edges := network.View(), network.nodes.Values, network.EdgeObjects();
      ghost var view := before;
      for i := 0 to |handles|
        invariant network.Valid() && network.View() == view && network.EdgeObjects() == edges
        invariant view == H.AddNodes(before, handles[..i]) && H.AllSized(handles[..i])
        invariant forall n | n in network.nodes.Values :: n in nodes || fresh(n)
      {
        var added := network.AddNode(handles[i]);
        if added.Failure? {
          SizedStops(handles, i);
          return false;
        }
        AddNodesStep(before, handles, i);
        view := H.AddNode(view, handles[i]);
      }
      assert handles[..|handles|] == handles;
      assert view.nodes.Keys == network.nodes.Keys;
      ok := true;
    }

    /** The body of the inner loop: each pair is joined once, the lesser handle first. */
    method JoinPair(network: HebbianNetwork, s1: Key, node1: Option<Node>, s2: Key)
      requires network.Valid() && s1 in network.nodes && node1 == Some(network.nodes[s1])
      requires s2 in network.nodes && |s2| == H.HANDLE_SIZE && network.Takes(s1) && network.Takes(s2)
      modifies network`largestArity, network.nodes.Values, network.EdgeObjects()
      ensures network.Valid()
      ensures network.View() == H.JoinPair(old(network.View()), s1, s2)
      ensures forall e | e in network.EdgeObjects() :: e in old(network.EdgeObjects()) || fresh(e)
    {
      if Before(s1, s2) {
        var node2 := network.LookupNode(s2);
        network.AddSymmetricEdge(s1, s2, node1, node2.value);
      }
    }

    /** The inner loop: `s1` joined with every handle after it in string order. */
    method JoinOne(network: HebbianNetwork, s1: Key, node1: Option<Node>, handles: seq<Key>)
      requires network.Valid() && s1 in network.nodes && node1 == Some(network.nodes[s1])
      requires network.Takes(s1) && H.AllSized(handles) && forall h | h in handles ::
                 h in network.nodes && network.Takes(h)
      modifies network`largestArity, network.nodes.Values, network.EdgeObjects()
      ensures network.Valid() && network.View() == H.JoinOne(old(network.View()), s1, handles, |handles|)
      ensures forall e | e in network.EdgeObjects() :: e in old(network.EdgeObjects()) || fresh(e)
    {
      ghost var before, edges := network.View(), network.EdgeObjects();
      for j := 0 to |handles|
        invariant network.Valid() && network.View() == H.JoinOne(before, s1, handles, j)
        invariant forall e | e in network.EdgeObjects() :: e in edges || fresh(e)
      {
        JoinOneStep(before, s1, handles, j);
        assert handles[j] in handles;
        JoinPair(network, s1, node1, handles[j]);
      }
    }

    /** A whole correlation request. A wrong handle size is an error, after some nodes have been added. */
    method Correlation(network: Option<HebbianNetwork>, handles: seq<Key>) returns (ok: bool)
      requires network.Some? ==> network.value.Valid() && forall h | h in handles :: network.value.Takes(h)
      modifies if network.Some? then {network.value} + network.value.nodes.Values + network.value.EdgeObjects() else {}
      ensures network.None? ==> ok
      ensures network.Some? ==> network.value.Valid() && (ok <==> forall i | 0 <= i < |handles| :: |handles[i]| == 32)
      ensures network.Some? ==> network.value.View() == H.Correlate(old(network.value.View()), handles)
    {
      if network == None {
        return true;
      }
      var net := network.value;
      ok := AddNodes(net, handles);
      if !ok {
        return;
      }
      ghost var before, nodes, edges := net.View(), net.nodes, net.EdgeObjects();
      for i := 0 to |handles|
        invariant net.Valid() && net.View() == H.JoinAll(before, handles, i) && net.nodes == nodes
        invariant forall e | e in net.EdgeObjects() :: e in edges || fresh(e)
      {
        var node1 := net.LookupNode(handles[i]);
        JoinOne(net, handles[i], node1.value, handles);
      }
    }
  }

  lemma AddNodesStep(net: H.Net, hs: seq<Key>, i: nat)
    requires i < |hs| && H.AllSized(hs[..i]) && |hs[i]| == H.HANDLE_SIZE
    ensures H.AddNodes(net, hs[..i + 1]) == H.AddNode(H.AddNodes(net, hs[..i]), hs[i]) && H.AllSized(hs[..i + 1])
  {
    var r := hs[..i + 1];
    assert |r| == i + 1 && r[i] == hs[i] && r[..i] == hs[..i] && r == hs[..i] + [hs[i]];
  }

  lemma JoinOneStep(net: H.Net, s1: Key, hs: seq<Key>, j: nat)
    requires j < |hs| && s1 in net.nodes && forall h | h in hs :: h in net.nodes
    ensures H.JoinOne(net, s1, hs, j + 1) == H.JoinPair(H.JoinOne(net, s1, hs, j), s1, hs[j])
  {
  }

  /** Reading stops at the first handle of the wrong size. */
  lemma {:induction false} SizedStops(handles: seq<Key>, i: nat)
    requires i < |handles| && |handles[i]| != H.HANDLE_SIZE && H.AllSized(handles[..i])
    ensures H.Sized(handles) == handles[..i]
    ensures !H.AllSized(handles)
  {
    if i > 0 {
      assert handles[..i][0] == handles[0];
      assert handles[1..][..i - 1] == handles[..i][1..];
      SizedStops(handles[1..], i - 1);
      assert handles[..i] == [handles[0]] + handles[1..][..i - 1];
    }
  }
}
