/** A broadcast ends: a bound on the deliveries it can cause. */
module FloodProgress {
  import opened Flood

  /** How many deliveries a message of this length can still cause among `n` nodes: one, and up to `n` longer ones. */
  function Weight(n: nat, length: nat): (w: nat)
    ensures w > 0
    decreases n + 1 - length
  {
    if length > n then 1 else (n + 1) * Weight(n, length + 1)
  }

  ghost function Load(n: nat, ms: multiset<Path>): nat
    decreases |ms|
  {
    if ms == multiset{} then 0
    else
      var m :| m in ms;
      Weight(n, |m|) + Load(n, ms - multiset{m})
  }

  lemma {:induction false} LoadTakesOut(n: nat, ms: multiset<Path>, m: Path)
    requires m in ms
    ensures Load(n, ms) == Weight(n, |m|) + Load(n, ms - multiset{m})
    decreases |ms|
  {
    var x :| x in ms && Load(n, ms) == Weight(n, |x|) + Load(n, ms - multiset{x});
    if x != m {
      LoadTakesOut(n, ms - multiset{x}, m);
      LoadTakesOut(n, ms - multiset{m}, x);
      assert ms - multiset{x} - multiset{m} == ms - multiset{m} - multiset{x};
    }
  }

  lemma {:induction false} LoadAdds(n: nat, a: multiset<Path>, b: multiset<Path>)
    ensures Load(n, a + b) == Load(n, a) + Load(n, b)
    decreases |b|
  {
    if m :| m in b {
      LoadTakesOut(n, b, m);
      LoadTakesOut(n, a + b, m);
      assert a + b - multiset{m} == a + (b - multiset{m});
      LoadAdds(n, a, b - multiset{m});
    } else {
      assert a + b == a;
    }
  }

  lemma OneMoreTime(k: nat, w: nat)
    ensures (k + 1) * w == k * w + w
  {
  }

  lemma {:induction false} LoadOfEqual(n: nat, ms: multiset<Path>, length: nat)
    requires forall m | m in ms :: |m| == length
    ensures Load(n, ms) == |ms| * Weight(n, length)
    decreases |ms|
  {
    if m :| m in ms {
      LoadTakesOut(n, ms, m);
      LoadOfEqual(n, ms - multiset{m}, length);
      OneMoreTime(|ms| - 1, Weight(n, length));
    }
  }

  lemma {:induction false} SetIsSmall(xs: set<Id>, path: Path)
    ensures |set p | p in xs :: path + [p]| == |xs|
    decreases |xs|
  {
    if x :| x in xs {
      SetIsSmall(xs - {x}, path);
      var rest := set p | p in xs - {x} :: path + [p];
      assert forall p | p in xs - {x} :: End(path + [p]) == p;
      assert path + [x] !in rest;
      assert (set p | p in xs :: path + [p]) == rest + {path + [x]};
    } else {
      assert (set p | p in xs :: path + [p]) == {};
    }
  }

  lemma SubsetIsSmall(a: set<Id>, b: set<Id>)
    requires a <= b
    ensures |a| <= |b|
  {
    assert b == a + (b - a);
  }

  lemma ForwardsAreFew(peers: set<Id>, visited: set<Id>, path: Path, universe: set<Id>)
    requires peers <= universe
    ensures |Forwards(peers, visited, path)| <= |universe|
    ensures forall m | m in Forwards(peers, visited, path) :: |m| == |path| + 1
  {
    SetIsSmall(peers - visited, path);
    SubsetIsSmall(peers - visited, universe);
    assert (set p | p in peers - visited :: path + [p]) == set p | p in peers && p !in visited :: path + [p];
  }

  /** All the nodes there are, or ever will be. */
  ghost predicate Within(s: State, universe: set<Id>) {
    && (forall n :: Peers(s.peers, n) <= universe)
    && forall m | m in s.inflight :: Nodes(m) <= universe
  }

  lemma {:induction false} SimpleIsShort(p: Path, universe: set<Id>)
    requires Simple(p) && Nodes(p) <= universe
    ensures |p| <= |universe|
    decreases |p|
  {
    if p != [] {
      SimpleIsShort(Front(p), universe - {End(p)});
    }
  }

  lemma Fewer(k: nat, n: nat, w: nat)
    requires k <= n && w > 0
    ensures k * w < (n + 1) * w
  {
    assert (n + 1) * w == k * w + (n + 1 - k) * w;
    assert (n + 1 - k) * w >= w;
  }

  lemma GrowWithin(s: State, n: Id, peer: Id, universe: set<Id>)
    requires Within(s, universe) && peer in universe
    ensures Within(Apply(s, AddPeer(n, peer)), universe)
  {
    var g := Grow(s.peers, n, peer);
    forall k
      ensures Peers(g, k) <= universe
    {
      assert Peers(s.peers, k) <= universe && Peers(s.peers, n) <= universe;
    }
  }

  lemma TakeWithin(s: State, m: Path, universe: set<Id>)
    requires Within(s, universe) && m in s.inflight && m != []
    ensures Within(Take(s, m), universe)
  {
  }

  lemma ForwardsWeighLess(n: nat, out: multiset<Path>, length: nat)
    requires length <= n && |out| <= n && forall x | x in out :: |x| == length + 1
    ensures Load(n, out) < Weight(n, length)
  {
    LoadOfEqual(n, out, length + 1);
    Fewer(|out|, n, Weight(n, length + 1));
  }

  /** Taking a message uses up more load than the messages it is sent on as. */
  lemma DeliverySinks(g: Graph, origin: Id, s: State, m: Path, universe: set<Id>)
    requires Inv(g, origin, s) && Within(s, universe) && m in s.inflight
    ensures m != [] && Load(|universe|, Take(s, m).inflight) < Load(|universe|, s.inflight)
  {
    var n := |universe|;
    assert Known(s, m) && MessageOk(s, origin, m);
    LoadTakesOut(n, s.inflight, m);
    if End(m) !in Front(m) {
      var peers := Peers(s.peers, End(m));
      var out := Forwards(peers, Nodes(Front(m)), m);
      SimpleExtends(m);
      SimpleIsShort(m, universe);
      assert peers <= universe;
      ForwardsAreFew(peers, Nodes(Front(m)), m, universe);
      ForwardsWeighLess(n, out, |m|);
      LoadAdds(n, s.inflight - multiset{m}, out);
    }
  }

  function Deliveries(es: seq<Event>, i: nat): nat
    requires i <= |es|
  {
    if i == 0 then 0 else Deliveries(es, i - 1) + if es[i - 1].Deliver? then 1 else 0
  }

  /**
   * Over any finite set of nodes, however they come to know each other meanwhile, a broadcast causes a
   * bounded number of deliveries.
   */
  lemma {:induction false} DeliveriesAreBounded(g: Graph, origin: Id, ss: seq<State>, es: seq<Event>, i: nat,
                                                universe: set<Id>)
    requires IsRun(g, origin, ss, es) && i <= |es| && Within(ss[0], universe)
    requires forall j | 0 <= j < |es| && es[j].AddPeer? :: es[j].peer in universe
    ensures Within(ss[i], universe)
    ensures Deliveries(es, i) + Load(|universe|, ss[i].inflight) <= Load(|universe|, ss[0].inflight)
  {
    if i > 0 {
      DeliveriesAreBounded(g, origin, ss, es, i - 1, universe);
      RunInv(g, origin, ss, es, i - 1);
      assert Legal(ss[i - 1], es[i - 1]) && ss[i - 1 + 1] == Apply(ss[i - 1], es[i - 1]);
      match es[i - 1]
      case Deliver(m) =>
        DeliverySinks(g, origin, ss[i - 1], m, universe);
        TakeWithin(ss[i - 1], m, universe);
      case AddPeer(n, p) => GrowWithin(ss[i - 1], n, p, universe);
    }
  }

  lemma RunGrows(g: Graph, origin: Id, ss: seq<State>, es: seq<Event>, e: Event)
    requires IsRun(g, origin, ss, es) && Legal(ss[|es|], e)
    ensures IsRun(g, origin, ss + [Apply(ss[|es|], e)], es + [e])
  {
    var ss', es' := ss + [Apply(ss[|es|], e)], es + [e];
    forall i | 0 <= i < |es'|
      ensures Legal(ss'[i], es'[i]) && ss'[i + 1] == Apply(ss'[i], es'[i])
    {
      if i < |es| {
        assert ss'[i] == ss[i] && es'[i] == es[i] && ss'[i + 1] == ss[i + 1];
      }
    }
  }

  /** And it can always be completed, on the graph as it stands. */
  lemma {:induction false} RunsOut(g: Graph, origin: Id, ss: seq<State>, es: seq<Event>, universe: set<Id>)
    returns (ss': seq<State>, es': seq<Event>)
    requires IsRun(g, origin, ss, es) && Within(ss[|es|], universe)
    ensures IsRun(g, origin, ss', es') && es <= es' && ss'[|es'|].inflight == multiset{}
    ensures ss'[|es'|].peers == ss[|es|].peers
    decreases Load(|universe|, ss[|es|].inflight)
  {
    var s := ss[|es|];
    if m :| m in s.inflight {
      RunInv(g, origin, ss, es, |es|);
      DeliverySinks(g, origin, s, m, universe);
      TakeWithin(s, m, universe);
      RunGrows(g, origin, ss, es, Deliver(m));
      ss', es' := RunsOut(g, origin, ss + [Take(s, m)], es + [Deliver(m)], universe);
    } else {
      ss', es' := ss, es;
    }
  }

  /** What has been executed was taken. */
  lemma {:induction false} ExecutedWasTaken(g: Graph, origin: Id, ss: seq<State>, es: seq<Event>, i: nat, m: Path)
    requires IsRun(g, origin, ss, es) && i <= |es| && m in ss[i].executed
    ensures exists j | 0 <= j < i :: es[j] == Deliver(m)
  {
    if i > 0 {
      assert Legal(ss[i - 1], es[i - 1]) && ss[i - 1 + 1] == Apply(ss[i - 1], es[i - 1]);
      if m in ss[i - 1].executed {
        ExecutedWasTaken(g, origin, ss, es, i - 1, m);
      } else {
        TakeCounts(ss[i - 1], es[i - 1].m, m);
        assert es[i - 1] == Deliver(m);
      }
    }
  }

  const TRIANGLE: Graph := map["a" := {"b", "c"}, "b" := {"a", "c"}, "c" := {"a", "b"}]

  /** Three nodes that all know each other: a broadcast has run out, and one node has executed it twice. */
  lemma TriangleExecutesTwice() returns (ss: seq<State>, es: seq<Event>)
    ensures IsRun(TRIANGLE, "a", ss, es) && ss[|es|].inflight == multiset{}
    ensures ["a", "b"] in ss[|es|].executed && ["a", "c", "b"] in ss[|es|].executed
  {
    var start, universe := Flood.Broadcast(TRIANGLE, "a"), {"a", "b", "c"};
    forall m | m in start.inflight
      ensures Nodes(m) <= universe
    {
      ForwardsAre({"b", "c"}, {}, ["a"], m);
      assert m == ["a"] + [End(m)];
    }
    ss, es := RunsOut(TRIANGLE, "a", [start], [], universe);
    ExecutedExactly(TRIANGLE, "a", ss, es);
    assert Route(TRIANGLE, "a", ["a", "b"]) && Route(TRIANGLE, "a", ["a", "c", "b"]);
  }

  /** Of three nodes, `a` knows `b`, and `b` learns of `c` after `a` has begun: `c` executes the broadcast. */
  lemma JoinerExecutes() returns (ss: seq<State>, es: seq<Event>)
    ensures IsRun(map["a" := {"b"}], "a", ss, es) && ss[|es|].inflight == multiset{}
    ensures es != [] && es[0] == AddPeer("b", "c") && ["a", "b", "c"] in ss[|es|].executed
  {
    var g: Graph, universe := map["a" := {"b"}], {"a", "b", "c"};
    var start, e := Flood.Broadcast(g, "a"), AddPeer("b", "c");
    forall m | m in start.inflight
      ensures Nodes(m) <= universe
    {
      ForwardsAre({"b"}, {}, ["a"], m);
      assert m == ["a"] + [End(m)];
    }
    ss, es := RunsOut(g, "a", [start, Apply(start, e)], [e], universe);
    JoinerIsSent(ss, es);
  }

  lemma JoinerIsSent(ss: seq<State>, es: seq<Event>)
    requires IsRun(map["a" := {"b"}], "a", ss, es) && ss[|es|].inflight == multiset{}
    requires es != [] && es[0] == AddPeer("b", "c")
    ensures ["a", "b", "c"] in ss[|es|].executed
  {
    var g: Graph, m: Path := map["a" := {"b"}], ["a", "b"];
    assert Route(g, "a", m);
    ExecutedExactly(g, "a", ss, es);
    ExecutedWasTaken(g, "a", ss, es, |es|, m);
    var j :| 0 <= j < |es| && es[j] == Deliver(m);
    assert j != 0;
    LateJoinerIsReached(g, "a", ss, es, 0, j, "c");
    assert m + ["c"] == ["a", "b", "c"];
  }
}
