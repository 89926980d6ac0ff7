/** Runs of correlation and stimulate requests on one network: what holds after any number of them. */
module NetworkRuns {
  import opened Keys
  import opened Sums
  import opened Hebbian
  import opened Spreading
  import opened Accounting

  datatype Request = Correlation(handles: seq<Key>) | Stimulation(stimuli: Stimuli)

  /** The handles of a request are written in the alphabet. */
  ghost predicate Clean(alphabet: set<char>, r: Request) {
    match r
    case Correlation(hs) => forall h | h in hs :: Written(alphabet, h)
    case Stimulation(req) => forall h | h in req :: Written(alphabet, h)
  }

  /** One request, taken whole. A stimulate request that would divide by zero is not a step. */
  ghost predicate Serves(net: Net, r: Request, net': Net) {
    match r
    case Correlation(hs) => net' == Correlate(net, hs)
    case Stimulation(req) => Countable(net) && (Rejected(req) || Divides(net, req)) && net' == Spread(net, req)
  }

  /** The states of a network, new at first, that serves requests over an alphabet without slot clashes. */
  ghost predicate IsRun(alphabet: set<char>, nets: seq<Net>, rs: seq<Request>) {
    && Injective(alphabet) && (forall i | 0 <= i < |rs| :: Clean(alphabet, rs[i]))
    && |nets| == |rs| + 1 && nets[0] == EMPTY_NET
    && forall i | 0 <= i < |rs| :: Serves(nets[i], rs[i], nets[i + 1])
  }

  // ---------------------------------------------------------------- the graph, in every reachable state

  lemma SameGraphSound(m: Net, n: Net)
    requires GraphSound(m) && SameGraph(m, n)
    ensures GraphSound(n)
  {
    forall h | h in n.nodes
      ensures NodeSound(n, h)
    {
      assert NodeSound(m, h);
    }
    if m.largestArity != 0 {
      var k :| HasLargest(m, k);
      assert HasLargest(n, k);
    }
  }

  /** In every reachable state arities count neighbours, the largest is known and edges join distinct nodes. */
  lemma {:induction false} GraphIsAlwaysSound(alphabet: set<char>, nets: seq<Net>, rs: seq<Request>, i: nat)
    requires IsRun(alphabet, nets, rs) && i <= |rs|
    ensures GraphSound(nets[i])
  {
    if i > 0 {
      GraphIsAlwaysSound(alphabet, nets, rs, i - 1);
      assert Serves(nets[i - 1], rs[i - 1], nets[i - 1 + 1]);
      match rs[i - 1]
      case Correlation(hs) => CorrelateSound(nets[i - 1], hs);
      case Stimulation(req) =>
        SpreadKeepsGraph(nets[i - 1], req);
        SameGraphSound(nets[i - 1], nets[i]);
    }
  }

  // ---------------------------------------------------------------- exact counts

  /** How often the first `i` requests name `h`. */
  function NodeTotal(rs: seq<Request>, h: Key, i: nat): nat
    requires i <= |rs|
  {
    if i == 0 then 0
    else NodeTotal(rs, h, i - 1) + if rs[i - 1].Correlation? then NodeMult(rs[i - 1].handles, h) else 0
  }

  /** The products of multiplicities over the first `i` requests. */
  function EdgeTotal(rs: seq<Request>, a: Key, b: Key, i: nat): nat
    requires i <= |rs|
  {
    if i == 0 then 0
    else EdgeTotal(rs, a, b, i - 1) + if rs[i - 1].Correlation? then EdgeMult(rs[i - 1].handles, a, b) else 0
  }

  /** Counts are sums over all requests so far; no other request touches them. */
  lemma {:induction false} CountsAreExact(alphabet: set<char>, nets: seq<Net>, rs: seq<Request>, i: nat, a: Key, b: Key)
    requires IsRun(alphabet, nets, rs) && i <= |rs|
    ensures NodeCount(nets[i], a) == NodeTotal(rs, a, i)
    ensures EdgeCount(nets[i], a, b) == EdgeTotal(rs, a, b, i)
  {
    if i > 0 {
      CountsAreExact(alphabet, nets, rs, i - 1, a, b);
      GraphIsAlwaysSound(alphabet, nets, rs, i - 1);
      assert Serves(nets[i - 1], rs[i - 1], nets[i - 1 + 1]);
      match rs[i - 1]
      case Correlation(hs) =>
        assert Clean(alphabet, rs[i - 1]);
        CorrelationIsExact(alphabet, nets[i - 1], hs, a, b);
      case Stimulation(req) => SpreadKeepsGraph(nets[i - 1], req);
    }
  }

  lemma {:induction false} TotalsAreSymmetric(rs: seq<Request>, a: Key, b: Key, i: nat)
    requires i <= |rs|
    ensures EdgeTotal(rs, a, b, i) == EdgeTotal(rs, b, a, i)
  {
    if i > 0 {
      TotalsAreSymmetric(rs, a, b, i - 1);
      if rs[i - 1].Correlation? {
        Commutes(NodeMult(rs[i - 1].handles, a), NodeMult(rs[i - 1].handles, b));
      }
    }
  }

  /** Edge counts are the same both ways, and no node has an edge to itself. */
  lemma EdgesAreSymmetric(alphabet: set<char>, nets: seq<Net>, rs: seq<Request>, i: nat, a: Key, b: Key)
    requires IsRun(alphabet, nets, rs) && i <= |rs|
    ensures EdgeCount(nets[i], a, b) == EdgeCount(nets[i], b, a)
    ensures EdgeCount(nets[i], a, a) == 0
  {
    CountsAreExact(alphabet, nets, rs, i, a, b);
    CountsAreExact(alphabet, nets, rs, i, b, a);
    TotalsAreSymmetric(rs, a, b, i);
    GraphIsAlwaysSound(alphabet, nets, rs, i);
    assert a in nets[i].nodes ==> NodeSound(nets[i], a);
  }

  ghost predicate NoDuplicates(r: Request) {
    r.Correlation? ==> forall h :: NodeMult(r.handles, h) <= 1
  }

  lemma AtMostOnce(m: nat, n: nat)
    requires n <= 1
    ensures m * n <= m
  {
  }

  lemma {:induction false} EdgesWithinNodes(rs: seq<Request>, a: Key, b: Key, i: nat)
    requires i <= |rs| && forall j | 0 <= j < i :: NoDuplicates(rs[j])
    ensures EdgeTotal(rs, a, b, i) <= NodeTotal(rs, a, i)
  {
    if i > 0 {
      EdgesWithinNodes(rs, a, b, i - 1);
      assert NoDuplicates(rs[i - 1]);
      if rs[i - 1].Correlation? {
        AtMostOnce(NodeMult(rs[i - 1].handles, a), NodeMult(rs[i - 1].handles, b));
      }
    }
  }

  /** With no handle twice in a request, every weight is a probability. */
  lemma WeightsAreProbabilities(alphabet: set<char>, nets: seq<Net>, rs: seq<Request>, i: nat, a: Key, b: Key)
    requires IsRun(alphabet, nets, rs) && i <= |rs| && forall j | 0 <= j < i :: NoDuplicates(rs[j])
    requires a in nets[i].nodes && b in nets[i].nodes[a].neighbors
    ensures nets[i].nodes[a].count > 0 && 0.0 < Weight(nets[i], a, b) <= 1.0
  {
    GraphIsAlwaysSound(alphabet, nets, rs, i);
    assert NodeSound(nets[i], a);
    CountsAreExact(alphabet, nets, rs, i, a, b);
    EdgesWithinNodes(rs, a, b, i);
    Ratio(EdgeCount(nets[i], a, b), nets[i].nodes[a].count);
  }

  // ---------------------------------------------------------------- tokens, over whole runs

  lemma AddNodeKeepsTokens(net: Net, h: Key)
    requires NonNegative(net)
    ensures NonNegative(AddNode(net, h)) && Total(AddNode(net, h)) == Total(net)
  {
    if h in net.nodes {
      assert Importances(AddNode(net, h)) == Importances(net);
    } else {
      assert Importances(AddNode(net, h)) == Importances(net)[h := 0.0];
      SumPuts(Importances(net), h, 0.0);
    }
  }

  lemma {:induction false} AddNodesKeepsTokens(net: Net, hs: seq<Key>)
    requires NonNegative(net)
    ensures NonNegative(AddNodes(net, hs)) && Total(AddNodes(net, hs)) == Total(net)
  {
    if hs != [] {
      AddNodesKeepsTokens(net, hs[..|hs| - 1]);
      AddNodeKeepsTokens(AddNodes(net, hs[..|hs| - 1]), hs[|hs| - 1]);
    }
  }

  /** The importances are those of `net`, with nothing for a node that is not there. */
  ghost predicate SameImportances(net: Net, net': Net) {
    forall h | h in net'.nodes ::
      net'.nodes[h].importance == if h in net.nodes then net.nodes[h].importance else 0.0
  }

  lemma {:induction false} AddNodesKeepsImportances(net: Net, hs: seq<Key>)
    ensures AddNodes(net, hs).tokens == net.tokens && SameImportances(net, AddNodes(net, hs))
  {
    if hs != [] { AddNodesKeepsImportances(net, hs[..|hs| - 1]); }
  }

  /** A correlation spends no token, changes nobody's importance and gives new nodes none. */
  lemma CorrelateKeepsImportances(net: Net, hs: seq<Key>)
    ensures Correlate(net, hs).tokens == net.tokens && net.nodes.Keys <= Correlate(net, hs).nodes.Keys
    ensures SameImportances(net, Correlate(net, hs))
  {
    AddNodesKeepsImportances(net, Sized(hs));
    if AllSized(hs) { JoinAllLinks(AddNodes(net, hs), hs, |hs|); }
  }

  lemma CorrelateKeepsTokens(net: Net, hs: seq<Key>)
    requires NonNegative(net)
    ensures NonNegative(Correlate(net, hs)) && Total(Correlate(net, hs)) == Total(net)
  {
    AddNodesKeepsTokens(net, Sized(hs));
    if AllSized(hs) {
      JoinAllLinks(AddNodes(net, hs), hs, |hs|);
      assert Importances(AddNodes(net, hs)) == Importances(Correlate(net, hs));
    }
  }

  ghost predicate WellFormed(r: Request) {
    r.Stimulation? && !Rejected(r.stimuli) ==> SumIsExact(r.stimuli)
  }

  /** A request that loses no token: what a caller can check before sending it. */
  ghost predicate Lossless(net: Net, r: Request) {
    r.Stimulation? ==>
      if Rejected(r.stimuli) then net.tokens == 0.0
      else (Pool(net) == 0.0 || (r.stimuli[SUM_KEY] > 0 && AllKnown(net, r.stimuli))) && IsolatedAreIdle(net, r.stimuli)
  }

  lemma ServingTokens(net: Net, r: Request, net': Net)
    requires GraphSound(net) && NonNegative(net) && Serves(net, r, net') && WellFormed(r)
    ensures NonNegative(net') && Total(net') <= Total(net)
    ensures Total(net') == Total(net) <==> Lossless(net, r)
  {
    match r
    case Correlation(hs) => CorrelateKeepsTokens(net, hs);
    case Stimulation(req) =>
      SpreadIsNonNegative(net, req);
      if !Rejected(req) { ConservedExactlyWhen(net, req); }
  }

  /**
   * Over any run of well-formed requests no importance is negative and there is never more than the one
   * token the network began with; all of it is still there exactly if every request so far was lossless.
   */
  lemma {:induction false} TokensOverRuns(alphabet: set<char>, nets: seq<Net>, rs: seq<Request>, i: nat)
    requires IsRun(alphabet, nets, rs) && i <= |rs| && forall j | 0 <= j < i :: WellFormed(rs[j])
    ensures NonNegative(nets[i]) && Total(nets[i]) <= 1.0
    ensures Total(nets[i]) == 1.0 <==> forall j | 0 <= j < i :: Lossless(nets[j], rs[j])
  {
    if i == 0 {
      assert Importances(nets[0]) == map[];
    } else {
      TokensOverRuns(alphabet, nets, rs, i - 1);
      GraphIsAlwaysSound(alphabet, nets, rs, i - 1);
      assert WellFormed(rs[i - 1]) && Serves(nets[i - 1], rs[i - 1], nets[i - 1 + 1]);
      ServingTokens(nets[i - 1], rs[i - 1], nets[i]);
    }
  }

  /** So the documented promise holds while no node is isolated and all boosted handles are nodes. */
  lemma TokensStayFixed(alphabet: set<char>, nets: seq<Net>, rs: seq<Request>, i: nat)
    requires IsRun(alphabet, nets, rs) && i <= |rs| && forall j | 0 <= j < i :: WellFormed(rs[j])
    requires forall j | 0 <= j < i && rs[j].Stimulation? ::
               !Rejected(rs[j].stimuli) && rs[j].stimuli[SUM_KEY] > 0 && AllKnown(nets[j], rs[j].stimuli)
    requires forall j, h | 0 <= j < i && rs[j].Stimulation? :: !Isolated(nets[j], h)
    ensures Total(nets[i]) == 1.0
  {
    TokensOverRuns(alphabet, nets, rs, i);
  }
}
