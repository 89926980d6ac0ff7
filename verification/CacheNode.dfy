/** The cache network: one server that knows its clients, clients that know their server. */
module CacheNodes {
  import opened Flood
  import opened MessageBrokers

  class CacheNodeServer {
    const broker: SynchronousGRPC

    constructor (nodeId: Id)
      ensures fresh(broker) && broker.nodeId == nodeId && broker.peers == {}
    {
      broker := new SynchronousGRPC(nodeId);
    }

    method NodeJoinedNetwork(nodeId: Id)
      modifies broker`peers
      ensures broker.peers == old(broker.peers) + {nodeId}
    {
      broker.AddPeer(nodeId);
    }
  }

  class CacheNodeClient {
    const broker: SynchronousGRPC
    const serverId: Id

    constructor (nodeId: Id, serverId: Id)
      ensures fresh(broker) && broker.nodeId == nodeId && broker.peers == {serverId} && this.serverId == serverId
    {
      this.serverId := serverId;
      broker := new SynchronousGRPC(nodeId);
      new;
      broker.AddPeer(serverId);
    }

    /** A client takes no notice of other nodes. */
    method NodeJoinedNetwork(nodeId: Id)
      ensures broker.peers == old(broker.peers)
    {
    }
  }

  // ---------------------------------------------------------------- the star

  /** Every node but the server knows the server at most. */
  ghost predicate Star(g: Graph, server: Id) {
    forall n | n != server :: Peers(g, n) <= {server}
  }

  /** The only acquaintances the two kinds of nodes make. */
  ghost predicate StarEvent(server: Id, e: Event) {
    e.AddPeer? ==> e.n == server || e.peer == server
  }

  lemma RouteInStar(g: Graph, server: Id, origin: Id, p: Path)
    requires Star(g, server) && Route(g, origin, p)
    ensures origin == server ==> p == [origin, End(p)]
    ensures origin != server ==> p == if End(p) == server then [origin, server] else [origin, server, End(p)]
  {
    assert p[1] in Peers(g, p[0]);
    assert |p| > 2 ==> p[2] in Peers(g, p[1]);
    assert |p| > 3 ==> p[3] in Peers(g, p[2]);
  }

  lemma StarHasOneRouteEach(g: Graph, server: Id, origin: Id)
    requires Star(g, server)
    ensures OneRouteEach(g, origin)
  {
    forall p, q | Route(g, origin, p) && Route(g, origin, q) && End(p) == End(q)
      ensures p == q
    {
      RouteInStar(g, server, origin, p);
      RouteInStar(g, server, origin, q);
    }
  }

  lemma {:induction false} StarStays(g: Graph, server: Id, origin: Id, ss: seq<State>, es: seq<Event>, i: nat)
    requires IsRun(g, origin, ss, es) && Star(g, server) && i <= |es|
    requires forall j | 0 <= j < |es| :: StarEvent(server, es[j])
    ensures Star(ss[i].peers, server)
  {
    if i > 0 {
      StarStays(g, server, origin, ss, es, i - 1);
      assert Legal(ss[i - 1], es[i - 1]) && ss[i - 1 + 1] == Apply(ss[i - 1], es[i - 1]);
      assert StarEvent(server, es[i - 1]);
      match es[i - 1]
      case AddPeer(n, p) =>
        forall k | k != server
          ensures Peers(ss[i].peers, k) <= {server}
        {
          assert Peers(ss[i - 1].peers, k) <= {server};
        }
      case Deliver(_) =>
    }
  }

  /**
   * In the cache network, joins included, no node ever executes a broadcast twice; and when no message is
   * left, a client that knows the server, and every client the server knew, has executed it exactly once.
   */
  lemma StarExecutesOnce(g: Graph, server: Id, origin: Id, ss: seq<State>, es: seq<Event>)
    requires IsRun(g, origin, ss, es) && Star(g, server)
    requires forall j | 0 <= j < |es| :: StarEvent(server, es[j])
    ensures AtMostOnceEach(ss[|es|])
    ensures ss[|es|].inflight == multiset{} && (origin == server || server in Peers(g, origin)) ==>
              forall n | n in Peers(g, server) + {server} && n != origin :: Executes(ss[|es|], n)
  {
    StarStays(g, server, origin, ss, es, |es|);
    StarHasOneRouteEach(ss[|es|].peers, server, origin);
    OneRouteSuffices(g, origin, ss, es);
    if ss[|es|].inflight == multiset{} && (origin == server || server in Peers(g, origin)) {
      forall n | n in Peers(g, server) + {server} && n != origin
        ensures Executes(ss[|es|], n)
      {
        var w := if origin == server then [server, n] else if n == server then [origin, server]
            else [origin, server, n];
        assert Walk(g, w) && w[0] == origin && End(w) == n;
        EveryoneIsReached(g, origin, ss, es, n);
      }
    }
  }
}
