/** Broadcast flooding: every message carries the path it has taken, over a peer graph that may grow. */
module Flood {

  type Id = string
  type Path = seq<Id>
  type Graph = map<Id, set<Id>>

  function Peers(g: Graph, n: Id): set<Id> {
    if n in g then g[n] else {}
  }

  function End(p: Path): Id
    requires p != []
  {
    p[|p| - 1]
  }

  function Front(p: Path): Path
    requires p != []
  {
    p[..|p| - 1]
  }

  /**
   * One broadcast: the messages under way, each as its visited list followed by its addressee, and the
   * messages whose command has been executed.
   */
  datatype State = State(peers: Graph, inflight: multiset<Path>, executed: multiset<Path>)

  /** A node learns of a peer, or an inbox thread takes a message. */
  datatype Event = AddPeer(n: Id, peer: Id) | Deliver(m: Path)

  /** The messages a node sends on: to each of its peers that is not among the `visited` nodes. */
  function Forwards(peers: set<Id>, visited: set<Id>, path: Path): multiset<Path> {
    multiset(set p | p in peers && p !in visited :: path + [p])
  }

  function Nodes(p: Path): set<Id> {
    set n | n in p
  }

  function Broadcast(g: Graph, origin: Id): State {
    State(g, Forwards(Peers(g, origin), {}, [origin]), multiset{})
  }

  /** A message that comes back to a visited node is dropped; any other is sent on and executed. */
  function Take(s: State, m: Path): State
    requires m in s.inflight && m != []
  {
    var rest := s.(inflight := s.inflight - multiset{m});
    if End(m) in Front(m) then rest
    else
      rest.(inflight := rest.inflight + Forwards(Peers(s.peers, End(m)), Nodes(Front(m)), m),
            executed := s.executed + multiset{m})
  }

  function Grow(g: Graph, n: Id, peer: Id): Graph {
    g[n := Peers(g, n) + {peer}]
  }

  ghost predicate Legal(s: State, e: Event) {
    e.Deliver? ==> e.m in s.inflight && e.m != []
  }

  function Apply(s: State, e: Event): State
    requires Legal(s, e)
  {
    match e
    case AddPeer(n, p) => s.(peers := Grow(s.peers, n, p))
    case Deliver(m) => Take(s, m)
  }

  /** The states of a broadcast from `origin`, begun on the graph `g`. */
  ghost predicate IsRun(g: Graph, origin: Id, ss: seq<State>, es: seq<Event>) {
    && |ss| == |es| + 1 && ss[0] == Broadcast(g, origin)
    && forall i | 0 <= i < |es| :: Legal(ss[i], es[i]) && ss[i + 1] == Apply(ss[i], es[i])
  }

  // ---------------------------------------------------------------- paths

  ghost predicate Simple(p: Path) {
    forall i, j | 0 <= i < j < |p| :: p[i] != p[j]
  }

  ghost predicate Walk(g: Graph, p: Path) {
    forall i | 0 <= i < |p| - 1 :: p[i + 1] in Peers(g, p[i])
  }

  /** A simple path of at least one step from the origin. */
  ghost predicate Route(g: Graph, origin: Id, p: Path) {
    |p| >= 2 && p[0] == origin && Simple(p) && Walk(g, p)
  }

  ghost predicate Reaches(g: Graph, a: Id, b: Id) {
    exists p: Path :: p != [] && p[0] == a && End(p) == b && Walk(g, p)
  }

  lemma FrontOfRoute(g: Graph, origin: Id, p: Path)
    requires Route(g, origin, p)
    ensures |p| == 2 || Route(g, origin, Front(p))
    ensures End(p) in Peers(g, End(Front(p))) && End(p) !in Front(p)
  {
  }

  // ---------------------------------------------------------------- what every step keeps

  ghost predicate Known(s: State, m: Path) {
    m in s.inflight || m in s.executed
  }

  /**
   * A message under way was sent once, along a simple path of the graph, by the node that executed it, and to
   * none of the nodes that had received it before.
   */
  ghost predicate MessageOk(s: State, origin: Id, m: Path) {
    && |m| >= 2 && m[0] == origin && Simple(Front(m)) && Walk(s.peers, m)
    && (|m| == 2 || (Front(m) in s.executed && End(m) !in Front(Front(m))))
  }

  ghost predicate Once(s: State, m: Path) {
    s.inflight[m] + s.executed[m] <= 1
  }

  /** Whoever has executed (and the origin at first) has sent to all peers it had at the start. */
  ghost predicate HasSent(g: Graph, s: State, m: Path)
    requires m != []
  {
    forall p | p in Peers(g, End(m)) && p !in m :: Known(s, m + [p])
  }

  ghost predicate Inv(g: Graph, origin: Id, s: State) {
    && (forall m | Known(s, m) :: MessageOk(s, origin, m))
    && (forall m :: Once(s, m))
    && (forall m | m in s.executed :: Simple(m))
    && (forall m | m in s.executed && m != [] :: HasSent(g, s, m))
    && HasSent(g, s, [origin])
    && (forall n :: Peers(g, n) <= Peers(s.peers, n))
  }

  lemma ForwardsAre(peers: set<Id>, visited: set<Id>, path: Path, m: Path)
    ensures m in Forwards(peers, visited, path) <==>
            m != [] && Front(m) == path && End(m) in peers && End(m) !in visited
    ensures Forwards(peers, visited, path)[m] <= 1
  {
    var out := set p | p in peers && p !in visited :: path + [p];
    if m != [] && Front(m) == path && End(m) in peers && End(m) !in visited {
      assert m == path + [End(m)];
      assert m in out;
    }
  }

  lemma BroadcastInv(g: Graph, origin: Id)
    ensures Inv(g, origin, Broadcast(g, origin))
  {
  }

  lemma WalkGrows(g: Graph, g': Graph, m: Path)
    requires Walk(g, m) && forall n :: Peers(g, n) <= Peers(g', n)
    ensures Walk(g', m)
  {
  }

  lemma AddPeerInv(g: Graph, origin: Id, s: State, n: Id, peer: Id)
    requires Inv(g, origin, s)
    ensures Inv(g, origin, Apply(s, AddPeer(n, peer)))
  {
    var s' := Apply(s, AddPeer(n, peer));
    forall m | Known(s', m)
      ensures MessageOk(s', origin, m)
    {
      assert Known(s, m);
      WalkGrows(s.peers, s'.peers, m);
    }
    forall m
      ensures Once(s', m) && (m in s'.executed && m != [] ==> HasSent(g, s', m))
    {
      assert Once(s, m) && (m in s.executed && m != [] ==> HasSent(g, s, m));
    }
  }

  /** What becomes of one path when the message `m` is taken. */
  lemma TakeCounts(s: State, m: Path, x: Path)
    requires m in s.inflight && m != []
    ensures var s' := Take(s, m);
            var drop := End(m) in Front(m);
            && s'.executed[x] == s.executed[x] + (if x == m && !drop then 1 else 0)
            && s'.inflight[x] == s.inflight[x] - (if x == m then 1 else 0) +
               (if drop then 0 else Forwards(Peers(s.peers, End(m)), Nodes(Front(m)), m)[x])
  {
  }

  /** What is known stays known, but for the message taken if it is dropped. */
  lemma TakeKnows(s: State, m: Path, x: Path)
    requires m in s.inflight && m != []
    ensures Known(Take(s, m), x) <==>
            (Known(s, x) && !(x == m && End(m) in Front(m) && s.inflight[m] == 1 && m !in s.executed)) ||
            (End(m) !in Front(m) && x in Forwards(Peers(s.peers, End(m)), Nodes(Front(m)), m))
    ensures x in s.executed ==> x in Take(s, m).executed
  {
  }

  lemma TakeOnce(g: Graph, origin: Id, s: State, m: Path, x: Path)
    requires Inv(g, origin, s) && m in s.inflight
    ensures m != [] && Once(Take(s, m), x)
  {
    assert Known(s, m) && MessageOk(s, origin, m);
    TakeCounts(s, m, x);
    ForwardsAre(Peers(s.peers, End(m)), Nodes(Front(m)), m, x);
    assert Once(s, x) && Once(s, m);
    assert Known(s, x) ==> MessageOk(s, origin, x);
  }

  lemma SimpleExtends(p: Path)
    requires p != [] && Simple(Front(p)) && End(p) !in Front(p)
    ensures Simple(p)
  {
  }

  lemma WalkExtends(g: Graph, p: Path, n: Id)
    requires p != [] && Walk(g, p) && n in Peers(g, End(p))
    ensures Walk(g, p + [n])
  {
  }

  lemma TakeMessages(g: Graph, origin: Id, s: State, m: Path, x: Path)
    requires Inv(g, origin, s) && m in s.inflight && m != [] && Known(Take(s, m), x)
    ensures MessageOk(Take(s, m), origin, x)
  {
    assert Known(s, m) && MessageOk(s, origin, m);
    TakeKnows(s, m, x);
    if Known(s, x) {
      assert MessageOk(s, origin, x);
      if |x| > 2 { TakeKnows(s, m, Front(x)); }
    } else {
      ForwardsAre(Peers(s.peers, End(m)), Nodes(Front(m)), m, x);
      SimpleExtends(m);
      WalkExtends(s.peers, m, End(x));
      assert x == m + [End(x)];
      TakeCounts(s, m, m);
    }
  }

  lemma TakeSends(g: Graph, origin: Id, s: State, m: Path, x: Path)
    requires Inv(g, origin, s) && m in s.inflight && m != [] && x != []
    requires HasSent(g, s, x) || (x == m && End(m) !in Front(m))
    ensures HasSent(g, Take(s, m), x)
  {
  }

  lemma DeliverInv(g: Graph, origin: Id, s: State, m: Path)
    requires Inv(g, origin, s) && m in s.inflight
    ensures m != [] && Inv(g, origin, Apply(s, Deliver(m)))
  {
    assert Known(s, m) && MessageOk(s, origin, m);
    var s' := Take(s, m);
    forall x | Known(s', x)
      ensures MessageOk(s', origin, x)
    {
      TakeMessages(g, origin, s, m, x);
    }
    forall x
      ensures Once(s', x)
    {
      TakeOnce(g, origin, s, m, x);
    }
    forall x | x in s'.executed
      ensures Simple(x) && (x != [] ==> HasSent(g, s', x))
    {
      TakeCounts(s, m, x);
      if x in s.executed {
        if x != [] { TakeSends(g, origin, s, m, x); }
      } else {
        SimpleExtends(m);
        TakeSends(g, origin, s, m, x);
      }
    }
    TakeSends(g, origin, s, m, [origin]);
  }

  /** Every reachable state of a broadcast, on whatever graph and however it grows. */
  lemma {:induction false} RunInv(g: Graph, origin: Id, ss: seq<State>, es: seq<Event>, i: nat)
    requires IsRun(g, origin, ss, es) && i <= |es|
    ensures Inv(g, origin, ss[i])
  {
    if i == 0 {
      BroadcastInv(g, origin);
    } else {
      RunInv(g, origin, ss, es, i - 1);
      assert Legal(ss[i - 1], es[i - 1]) && ss[i - 1 + 1] == Apply(ss[i - 1], es[i - 1]);
      match es[i - 1]
      case AddPeer(n, p) => AddPeerInv(g, origin, ss[i - 1], n, p);
      case Deliver(m) => DeliverInv(g, origin, ss[i - 1], m);
    }
  }

  // ---------------------------------------------------------------- what is executed

  /** Every executed message came along a simple path; the origin, first on every path, executes none. */
  lemma ExecutedAreRoutes(g: Graph, origin: Id, s: State, m: Path)
    requires Inv(g, origin, s) && m in s.executed
    ensures Route(s.peers, origin, m) && End(m) != origin && s.executed[m] == 1
  {
    assert Known(s, m) && MessageOk(s, origin, m) && Once(s, m);
  }

  /** With nothing under way, the command has been executed along every simple path of the graph at the start. */
  lemma {:induction false} RoutesAreExecuted(g: Graph, origin: Id, s: State, m: Path)
    requires Inv(g, origin, s) && s.inflight == multiset{} && Route(g, origin, m)
    ensures m in s.executed
    decreases |m|
  {
    FrontOfRoute(g, origin, m);
    var p := Front(m);
    assert m == p + [End(m)];
    if |m| == 2 {
      assert p == [origin];
      assert HasSent(g, s, [origin]);
    } else {
      RoutesAreExecuted(g, origin, s, p);
      assert HasSent(g, s, p);
    }
    assert Known(s, p + [End(m)]);
  }

  /**
   * When no message is left, executions lie between the simple paths of the graph at broadcast time and
   * those of the graph as it has become, each at most once; on a fixed graph they are those, each once.
   */
  lemma ExecutedExactly(g: Graph, origin: Id, ss: seq<State>, es: seq<Event>)
    requires IsRun(g, origin, ss, es) && ss[|es|].inflight == multiset{}
    ensures forall m | Route(g, origin, m) :: ss[|es|].executed[m] == 1
    ensures forall m :: ss[|es|].executed[m] == (if m in ss[|es|].executed then 1 else 0)
    ensures forall m | m in ss[|es|].executed :: Route(ss[|es|].peers, origin, m)
    ensures ss[|es|].peers == g ==> forall m :: ss[|es|].executed[m] == if Route(g, origin, m) then 1 else 0
  {
    var s := ss[|es|];
    RunInv(g, origin, ss, es, |es|);
    forall m | m in s.executed
      ensures Route(s.peers, origin, m) && s.executed[m] == 1
    {
      ExecutedAreRoutes(g, origin, s, m);
    }
    forall m | Route(g, origin, m)
      ensures m in s.executed
    {
      RoutesAreExecuted(g, origin, s, m);
    }
  }

  // ---------------------------------------------------------------- what the graph learns on the way

  /** What `n` has heard of after the first `i` events: its peers at the start, and those it was told of. */
  ghost predicate Learned(g: Graph, es: seq<Event>, i: nat, n: Id, p: Id)
    requires i <= |es|
  {
    p in Peers(g, n) || exists j | 0 <= j < i :: es[j] == AddPeer(n, p)
  }

  /** A node's peers are exactly those; nobody else's change when it learns of one. */
  lemma {:induction false} PeersAreLearned(g: Graph, origin: Id, ss: seq<State>, es: seq<Event>, i: nat, n: Id, p: Id)
    requires IsRun(g, origin, ss, es) && i <= |es|
    ensures p in Peers(ss[i].peers, n) <==> Learned(g, es, i, n, p)
  {
    if i > 0 {
      PeersAreLearned(g, origin, ss, es, i - 1, n, p);
      var e := es[i - 1];
      assert Legal(ss[i - 1], e) && ss[i - 1 + 1] == Apply(ss[i - 1], e);
      assert p in Peers(ss[i].peers, n) <==> p in Peers(ss[i - 1].peers, n) || e == AddPeer(n, p);
    }
  }

  /** Someone sent the message `m` within the first `i` events: the origin, or a node as it took its front. */
  ghost predicate WasSent(g: Graph, origin: Id, es: seq<Event>, i: nat, m: Path)
    requires i <= |es|
  {
    |m| >= 2 &&
    if |m| == 2 then m[0] == origin && m[1] in Peers(g, origin)
    else exists j | 0 <= j < i :: es[j] == Deliver(Front(m)) && Learned(g, es, j, End(Front(m)), End(m))
  }

  /** A message that was not known before came from the node that took its front. */
  lemma NewIsForwarded(g: Graph, origin: Id, s: State, d: Path, m: Path)
    requires Inv(g, origin, s) && d in s.inflight && d != [] && Known(Take(s, d), m) && !Known(s, m)
    ensures |m| > 2 && Front(m) == d && End(m) in Peers(s.peers, End(d))
  {
    assert Known(s, d) && MessageOk(s, origin, d);
    TakeKnows(s, d, m);
    ForwardsAre(Peers(s.peers, End(d)), Nodes(Front(d)), d, m);
  }

  lemma SentNow(g: Graph, origin: Id, es: seq<Event>, i: nat, s: State, m: Path)
    requires 0 < i <= |es| && Inv(g, origin, s) && Legal(s, es[i - 1])
    requires Known(Apply(s, es[i - 1]), m) && !Known(s, m)
    requires forall n, p | p in Peers(s.peers, n) :: Learned(g, es, i - 1, n, p)
    ensures WasSent(g, origin, es, i, m)
  {
    var e := es[i - 1];
    if e.Deliver? {
      NewIsForwarded(g, origin, s, e.m, m);
      assert es[i - 1] == Deliver(Front(m)) && Learned(g, es, i - 1, End(Front(m)), End(m));
    }
  }

  lemma AllPeersAreLearned(g: Graph, origin: Id, ss: seq<State>, es: seq<Event>, i: nat)
    requires IsRun(g, origin, ss, es) && i <= |es|
    ensures forall n, p | p in Peers(ss[i].peers, n) :: Learned(g, es, i, n, p)
  {
    forall n, p | p in Peers(ss[i].peers, n)
      ensures Learned(g, es, i, n, p)
    {
      PeersAreLearned(g, origin, ss, es, i, n, p);
    }
  }

  lemma StepOf(g: Graph, origin: Id, ss: seq<State>, es: seq<Event>, i: nat)
    requires IsRun(g, origin, ss, es) && i < |es|
    ensures Inv(g, origin, ss[i]) && Legal(ss[i], es[i]) && ss[i + 1] == Apply(ss[i], es[i])
  {
    RunInv(g, origin, ss, es, i);
  }

  lemma StartSent(g: Graph, origin: Id, es: seq<Event>, m: Path)
    requires Known(Broadcast(g, origin), m)
    ensures WasSent(g, origin, es, 0, m)
  {
    ForwardsAre(Peers(g, origin), {}, [origin], m);
  }

  lemma WasSentBefore(g: Graph, origin: Id, es: seq<Event>, i: nat, m: Path)
    requires i < |es| && WasSent(g, origin, es, i, m)
    ensures WasSent(g, origin, es, i + 1, m)
  {
  }

  lemma {:induction false} KnownWasSent(g: Graph, origin: Id, ss: seq<State>, es: seq<Event>, i: nat, m: Path)
    requires IsRun(g, origin, ss, es) && i <= |es| && Known(ss[i], m)
    ensures WasSent(g, origin, es, i, m)
  {
    if i == 0 {
      StartSent(g, origin, es, m);
    } else {
      StepOf(g, origin, ss, es, i - 1);
      if Known(ss[i - 1], m) {
        KnownWasSent(g, origin, ss, es, i - 1, m);
        WasSentBefore(g, origin, es, i - 1, m);
      } else {
        AllPeersAreLearned(g, origin, ss, es, i - 1);
        SentNow(g, origin, es, i, ss[i - 1], m);
      }
    }
  }

  /** A message to a node it has not visited is not dropped. */
  lemma {:induction false} StaysKnown(g: Graph, origin: Id, ss: seq<State>, es: seq<Event>, i: nat, k: nat, m: Path)
    requires IsRun(g, origin, ss, es) && i <= k <= |es| && Known(ss[i], m) && m != [] && End(m) !in Front(m)
    ensures Known(ss[k], m)
  {
    if k > i {
      StaysKnown(g, origin, ss, es, i, k - 1, m);
      assert Legal(ss[k - 1], es[k - 1]) && ss[k - 1 + 1] == Apply(ss[k - 1], es[k - 1]);
      if es[k - 1].Deliver? { TakeKnows(ss[k - 1], es[k - 1].m, m); }
    }
  }

  /** What is known once it has been sent, and goes where it has not been, is executed in the end. */
  lemma KnownIsExecuted(g: Graph, origin: Id, ss: seq<State>, es: seq<Event>, i: nat, m: Path)
    requires IsRun(g, origin, ss, es) && ss[|es|].inflight == multiset{} && i <= |es| && Known(ss[i], m)
    requires |m| >= 2 && Simple(m)
    ensures m in ss[|es|].executed
  {
    StaysKnown(g, origin, ss, es, i, |es|, m);
  }

  lemma ForwardedIsKnown(g: Graph, origin: Id, ss: seq<State>, es: seq<Event>, j: nat, m: Path)
    requires IsRun(g, origin, ss, es) && j < |es| && |m| > 2 && Simple(m)
    requires es[j] == Deliver(Front(m)) && Learned(g, es, j, End(Front(m)), End(m))
    ensures Known(ss[j + 1], m)
  {
    var f := Front(m);
    assert Legal(ss[j], es[j]) && ss[j + 1] == Apply(ss[j], es[j]);
    PeersAreLearned(g, origin, ss, es, j, End(f), End(m));
    ForwardsAre(Peers(ss[j].peers, End(f)), Nodes(Front(f)), f, m);
    assert End(f) !in Front(f) && End(m) !in Front(f);
    TakeKnows(ss[j], f, m);
  }

  lemma SentIsExecuted(g: Graph, origin: Id, ss: seq<State>, es: seq<Event>, m: Path)
    requires IsRun(g, origin, ss, es) && ss[|es|].inflight == multiset{}
    requires WasSent(g, origin, es, |es|, m) && Simple(m)
    ensures m in ss[|es|].executed
  {
    if |m| == 2 {
      assert Front(m) == [origin];
      ForwardsAre(Peers(g, origin), {}, [origin], m);
      KnownIsExecuted(g, origin, ss, es, 0, m);
    } else {
      var j :| 0 <= j < |es| && es[j] == Deliver(Front(m)) && Learned(g, es, j, End(Front(m)), End(m));
      ForwardedIsKnown(g, origin, ss, es, j, m);
      KnownIsExecuted(g, origin, ss, es, j + 1, m);
    }
  }

  /**
   * However the graph grows: when no message is left, the command has been executed along exactly the simple
   * paths on which the origin knew the first node when it began, and each node knew the next one when it
   * took the message.
   */
  lemma ExecutedIffSent(g: Graph, origin: Id, ss: seq<State>, es: seq<Event>, m: Path)
    requires IsRun(g, origin, ss, es) && ss[|es|].inflight == multiset{}
    ensures m in ss[|es|].executed <==> Simple(m) && WasSent(g, origin, es, |es|, m)
  {
    RunInv(g, origin, ss, es, |es|);
    if m in ss[|es|].executed {
      ExecutedAreRoutes(g, origin, ss[|es|], m);
      KnownWasSent(g, origin, ss, es, |es|, m);
    } else if Simple(m) && WasSent(g, origin, es, |es|, m) {
      SentIsExecuted(g, origin, ss, es, m);
    }
  }

  /** A peer that a node learns of before it takes the message is sent the command as well, and executes it. */
  lemma LateJoinerIsReached(g: Graph, origin: Id, ss: seq<State>, es: seq<Event>, i: nat, j: nat, p: Id)
    requires IsRun(g, origin, ss, es) && ss[|es|].inflight == multiset{} && i < j < |es|
    requires es[j].Deliver? && es[j].m in ss[|es|].executed && p !in es[j].m
    requires es[j].m != [] && es[i] == AddPeer(End(es[j].m), p)
    ensures es[j].m + [p] in ss[|es|].executed
  {
    var m := es[j].m;
    RunInv(g, origin, ss, es, |es|);
    ExecutedAreRoutes(g, origin, ss[|es|], m);
    assert Front(m + [p]) == m && End(m + [p]) == p;
    SimpleExtends(m + [p]);
    assert Learned(g, es, j, End(m), p);
    SentIsExecuted(g, origin, ss, es, m + [p]);
  }

  // ---------------------------------------------------------------- who is reached

  /** Cutting the loops out of a walk leaves a simple path between the same ends. */
  lemma {:induction false} WalkHasSimplePath(g: Graph, w: Path) returns (p: Path)
    requires w != [] && Walk(g, w)
    ensures p != [] && p[0] == w[0] && End(p) == End(w) && Simple(p) && Walk(g, p)
    decreases |w|
  {
    if i, j :| 0 <= i < j < |w| && w[i] == w[j] {
      var cut := w[..i] + w[j..];
      forall k | 0 <= k < |cut| - 1
        ensures cut[k + 1] in Peers(g, cut[k])
      {
        if k >= i {
          assert cut[k] == w[k - i + j] && cut[k + 1] == w[k - i + j + 1];
        } else if k + 1 == i {
          assert cut[k] == w[k] && cut[k + 1] == w[k + 1];
        } else {
          assert cut[k] == w[k] && cut[k + 1] == w[k + 1];
        }
      }
      p := WalkHasSimplePath(g, cut);
    } else {
      p := w;
    }
  }

  ghost predicate Executes(s: State, n: Id) {
    exists m :: m in s.executed && m != [] && End(m) == n
  }

  /**
   * When no message is left, every node the origin could reach at broadcast time has executed the command,
   * except the origin, which never does.
   */
  lemma EveryoneIsReached(g: Graph, origin: Id, ss: seq<State>, es: seq<Event>, n: Id)
    requires IsRun(g, origin, ss, es)
    ensures !Executes(ss[|es|], origin)
    ensures ss[|es|].inflight == multiset{} && Reaches(g, origin, n) && n != origin ==> Executes(ss[|es|], n)
  {
    var s := ss[|es|];
    RunInv(g, origin, ss, es, |es|);
    forall m | m in s.executed && m != []
      ensures End(m) != origin
    {
      ExecutedAreRoutes(g, origin, s, m);
    }
    if s.inflight == multiset{} && Reaches(g, origin, n) && n != origin {
      var w: Path :| w != [] && w[0] == origin && End(w) == n && Walk(g, w);
      var p := WalkHasSimplePath(g, w);
      RoutesAreExecuted(g, origin, s, p);
    }
  }

  // ---------------------------------------------------------------- how often

  /** No node is at the end of two simple paths from the origin. */
  ghost predicate OneRouteEach(g: Graph, origin: Id) {
    forall p, q | Route(g, origin, p) && Route(g, origin, q) && End(p) == End(q) :: p == q
  }

  ghost predicate AtMostOnceEach(s: State) {
    && (forall m :: s.executed[m] <= 1)
    && forall p, q | p in s.executed && q in s.executed && p != [] && q != [] && End(p) == End(q) :: p == q
  }

  /** On a fixed graph no node executes the command twice exactly if no node has two simple paths to it. */
  lemma OnceIffOneRoute(g: Graph, origin: Id, ss: seq<State>, es: seq<Event>)
    requires IsRun(g, origin, ss, es) && ss[|es|].inflight == multiset{} && ss[|es|].peers == g
    ensures AtMostOnceEach(ss[|es|]) <==> OneRouteEach(g, origin)
  {
    var s := ss[|es|];
    ExecutedExactly(g, origin, ss, es);
    assert forall m :: s.executed[m] == if Route(g, origin, m) then 1 else 0;
    assert forall m :: m in s.executed <==> Route(g, origin, m);
  }

  /** At any time, even while the graph grows: unique simple paths suffice. */
  lemma OneRouteSuffices(g: Graph, origin: Id, ss: seq<State>, es: seq<Event>)
    requires IsRun(g, origin, ss, es) && OneRouteEach(ss[|es|].peers, origin)
    ensures AtMostOnceEach(ss[|es|])
  {
    var s := ss[|es|];
    RunInv(g, origin, ss, es, |es|);
    forall m | m in s.executed
      ensures Route(s.peers, origin, m) && s.executed[m] == 1
    {
      ExecutedAreRoutes(g, origin, s, m);
    }
  }

  // ---------------------------------------------------------------- graphs with one route to each node

  /**
   * A tree with back edges: each node that can be reached has its branch from the origin, and each of its
   * peers is on that branch already or is a child, whose branch is one longer.
   */
  ghost predicate Branches(g: Graph, origin: Id, branch: Id -> Path) {
    && branch(origin) == [origin]
    && (forall n | branch(n) != [] :: End(branch(n)) == n)
    && forall n, p | branch(n) != [] && p in Peers(g, n) && p !in branch(n) :: branch(p) == branch(n) + [p]
  }

  /** Every simple path is then the branch of its end. */
  lemma {:induction false} RouteIsBranch(g: Graph, origin: Id, branch: Id -> Path, p: Path)
    requires Branches(g, origin, branch) && Route(g, origin, p)
    ensures branch(End(p)) == p
    decreases |p|
  {
    FrontOfRoute(g, origin, p);
    if |p| > 2 {
      RouteIsBranch(g, origin, branch, Front(p));
    } else {
      assert Front(p) == [origin];
    }
    assert p == Front(p) + [End(p)];
  }

  /** The origin's own path, the route to a node that has one, and nothing for a node that has none. */
  ghost function RouteTo(g: Graph, origin: Id, n: Id): (p: Path)
    ensures n == origin ==> p == [origin]
    ensures p != [] && n != origin ==> Route(g, origin, p) && End(p) == n
    ensures p == [] ==> forall q | Route(g, origin, q) :: End(q) != n
  {
    if n == origin then [origin]
    else if exists p :: Route(g, origin, p) && End(p) == n then
      var p :| Route(g, origin, p) && End(p) == n;
      p
    else []
  }

  lemma RouteExtends(g: Graph, origin: Id, p: Path, n: Id)
    requires p == [origin] || Route(g, origin, p)
    requires n in Peers(g, End(p)) && n !in p
    ensures Route(g, origin, p + [n])
  {
    assert Front(p + [n]) == p;
    SimpleExtends(p + [n]);
    WalkExtends(g, p, n);
  }

  /** Simple paths are unique exactly if the graph, from the origin on, is a tree with back edges. */
  lemma OneRouteIffBranches(g: Graph, origin: Id)
    ensures OneRouteEach(g, origin) <==> exists branch :: Branches(g, origin, branch)
  {
    if OneRouteEach(g, origin) {
      var branch := n => RouteTo(g, origin, n);
      forall n, p | branch(n) != [] && p in Peers(g, n) && p !in branch(n)
        ensures branch(p) == branch(n) + [p]
      {
        RouteExtends(g, origin, branch(n), p);
        assert End(branch(n) + [p]) == p;
      }
      assert Branches(g, origin, branch);
    }
    if branch :| Branches(g, origin, branch) {
      forall p, q | Route(g, origin, p) && Route(g, origin, q) && End(p) == End(q)
        ensures p == q
      {
        RouteIsBranch(g, origin, branch, p);
        RouteIsBranch(g, origin, branch, q);
      }
    }
  }
}
