/** A network of three nodes, and where its tokens go: every rate and constant of a request at work. */
module TokenFlows {
  import opened Keys
  import opened Sums
  import opened Hebbian
  import opened Spreading
  import opened Accounting
  import opened NetworkRuns
  import opened TokenLosses

  /** Three different handles. */
  datatype Trio = Trio(x: Key, y: Key, z: Key) {
    ghost predicate Ok() {
      x != y && y != z && x != z
    }  }

  /** The tokens not yet distributed, and the importances of the three. */
  datatype Amounts = Amounts(tokens: real, x: real, y: real, z: real)

  /** `x` joined once with each of `y` and `z`. */
  function Hub(t: Trio, a: Amounts): Net {
    Net(map[t.x := Node(2, 2, a.x, 0.0, map[t.y := 1, t.z := 1]),
            t.y := Node(1, 1, a.y, 0.0, map[t.x := 1]),
            t.z := Node(1, 1, a.z, 0.0, map[t.x := 1])],
        2, a.tokens)
  }

  lemma SumOfThree(m: map<Key, real>, x: Key, y: Key, z: Key)
    requires x != y && y != z && x != z && m.Keys == {x, y, z}
    ensures Sum(m) == m[x] + m[y] + m[z]
  {
    SumTakesOut(m, x);
    SumTakesOut(m - {x}, y);
    SumTakesOut(m - {x} - {y}, z);
    assert m - {x} - {y} - {z} == map[];
  }

  lemma HubIsSound(t: Trio, a: Amounts)
    requires t.Ok()
    ensures GraphSound(Hub(t, a)) && Countable(Hub(t, a))
  {
    var net := Hub(t, a);
    assert |map[t.y := 1, t.z := 1]| == 2;
    forall h | h in net.nodes
      ensures NodeSound(net, h)
    {
    }
    assert HasLargest(net, t.x);
  }

  // ---------------------------------------------------------------- one request

  /** The importances once a tenth of each has gone to the handle `b`, together with the undistributed tokens. */
  function Boosted(t: Trio, a: Amounts, b: Key): Amounts {
    var pool := a.tokens + 0.1 * (a.x + a.y + a.z);
    Amounts(0.0,
            0.9 * a.x + if b == t.x then pool else 0.0,
            0.9 * a.y + if b == t.y then pool else 0.0,
            0.9 * a.z + if b == t.z then pool else 0.0)
  }

  /** `x` spreads a tenth, half of it to each neighbour; `y` and `z` spread 55 thousandths, all of it to `x`. */
  function Diffused(u: Amounts): Amounts {
    Amounts(0.0, 0.9 * u.x + 0.055 * u.y + 0.055 * u.z, 0.945 * u.y + 0.05 * u.x, 0.945 * u.z + 0.05 * u.x)
  }

  lemma HubRents(t: Trio, a: Amounts)
    requires t.Ok()
    ensures Pool(Hub(t, a)) == a.tokens + 0.1 * (a.x + a.y + a.z)
  {
    SumOfThree(Rents(Hub(t, a)), t.x, t.y, t.z);
  }

  /** What boosting a handle makes of one node's importance. */
  lemma BoostUpdates(net: Net, b: Key, h: Key)
    requires h in net.nodes && |b| == HANDLE_SIZE
    ensures Updated(net, Boost(b), h) == 0.9 * net.nodes[h].importance + if b == h then Pool(net) else 0.0
  {
    BoostIsFine(b);
  }

  lemma HubUpdates(t: Trio, a: Amounts, b: Key)
    requires t.Ok() && |b| == HANDLE_SIZE
    ensures var net, u := Hub(t, a), Boosted(t, a, b);
            && Updated(net, Boost(b), t.x) == u.x && Updated(net, Boost(b), t.y) == u.y
            && Updated(net, Boost(b), t.z) == u.z
  {
    HubRents(t, a);
    BoostUpdates(Hub(t, a), b, t.x);
    BoostUpdates(Hub(t, a), b, t.y);
    BoostUpdates(Hub(t, a), b, t.z);
  }

  lemma HubRates(t: Trio, a: Amounts)
    requires t.Ok()
    ensures Rate(Hub(t, a), t.x) == 0.1 && Rate(Hub(t, a), t.y) == Rate(Hub(t, a), t.z) == 0.055
  {
  }

  lemma HubSetsAside(t: Trio, a: Amounts, b: Key)
    requires t.Ok() && |b| == HANDLE_SIZE
    ensures var net, u := Hub(t, a), Boosted(t, a, b);
            && ToSpread(net, Boost(b), t.x) == 0.1 * u.x && ToSpread(net, Boost(b), t.y) == 0.055 * u.y
            && ToSpread(net, Boost(b), t.z) == 0.055 * u.z
  {
    HubUpdates(t, a, b);
    HubRates(t, a);
  }

  lemma HubEdges(t: Trio, a: Amounts)
    requires t.Ok()
    ensures Sum(EdgeCounts(Hub(t, a), t.x)) == 2.0
    ensures Sum(EdgeCounts(Hub(t, a), t.y)) == Sum(EdgeCounts(Hub(t, a), t.z)) == 1.0
  {
    var net := Hub(t, a);
    var ex, ey, ez := EdgeCounts(net, t.x), EdgeCounts(net, t.y), EdgeCounts(net, t.z);
    assert ex == map[t.y := 1.0, t.z := 1.0] && ey == map[t.x := 1.0] && ez == map[t.x := 1.0];
    SumTakesOut(ex, t.y);
    assert ex - {t.y} == map[t.z := 1.0];
    SumTakesOut(ex - {t.y}, t.z);
    assert ex - {t.y} - {t.z} == map[];
    SumTakesOut(ey, t.x);
    assert ey - {t.x} == map[];
  }

  /** Of `n` edge counts in all, one is for `j`. */
  lemma DeliveryOnEdge(net: Net, i: Key, amount: real, j: Key, n: real)
    requires Countable(net) && i in net.nodes && NodeSound(net, i) && j in net.nodes[i].neighbors
    requires net.nodes[i].neighbors[j] == 1 && Sum(EdgeCounts(net, i)) == n
    ensures n > 0.0 && Delivery(net, i, amount, j) == amount / n
  {
    DeliveryIsByEdgeCounts(net, i, amount, j);
    assert Prod(n, Delivery(net, i, amount, j)) == Prod(amount, 1.0);
  }

  lemma HubDeliversFromX(t: Trio, a: Amounts, amount: real)
    requires t.Ok() && Countable(Hub(t, a))
    ensures Delivery(Hub(t, a), t.x, amount, t.x) == 0.0
    ensures Delivery(Hub(t, a), t.x, amount, t.y) == Delivery(Hub(t, a), t.x, amount, t.z) == amount / 2.0
  {
    HubIsSound(t, a);
    HubEdges(t, a);
    assert NodeSound(Hub(t, a), t.x);
    DeliveryOnEdge(Hub(t, a), t.x, amount, t.y, 2.0);
    DeliveryOnEdge(Hub(t, a), t.x, amount, t.z, 2.0);
  }

  lemma HubDeliversToX(t: Trio, a: Amounts, amount: real, i: Key)
    requires t.Ok() && Countable(Hub(t, a)) && (i == t.y || i == t.z)
    ensures Delivery(Hub(t, a), i, amount, t.x) == amount
    ensures Delivery(Hub(t, a), i, amount, t.y) == Delivery(Hub(t, a), i, amount, t.z) == 0.0
  {
    HubIsSound(t, a);
    HubEdges(t, a);
    assert NodeSound(Hub(t, a), i);
    DeliveryOnEdge(Hub(t, a), i, amount, t.x, 1.0);
  }

  /** What the three set aside. */
  ghost predicate SetsAside(t: Trio, a: Amounts, req: Stimuli, aside: Amounts) {
    && t.Ok() && ToSpread(Hub(t, a), req, t.x) == aside.x && ToSpread(Hub(t, a), req, t.y) == aside.y
    && ToSpread(Hub(t, a), req, t.z) == aside.z
  }

  /** What a node of the hub is sent. */
  ghost function Receipts(net: Net, req: Stimuli, j: Key): real
    requires Countable(net) && net.largestArity > 0
  {
    Sum(Column(Sent(net, req), net.nodes.Keys, j))
  }

  lemma HubReceives(t: Trio, a: Amounts, req: Stimuli, j: Key, aside: Amounts)
    requires t.Ok() && Countable(Hub(t, a)) && SetsAside(t, a, req, aside)
    ensures var net := Hub(t, a);
            Receipts(net, req, j) ==
            Delivery(net, t.x, aside.x, j) + Delivery(net, t.y, aside.y, j) + Delivery(net, t.z, aside.z, j)
  {
    var net := Hub(t, a);
    var column := Column(Sent(net, req), net.nodes.Keys, j);
    assert net.nodes.Keys == {t.x, t.y, t.z};
    SumOfThree(column, t.x, t.y, t.z);
    assert column[t.x] == Delivery(net, t.x, ToSpread(net, req, t.x), j);
    assert column[t.y] == Delivery(net, t.y, ToSpread(net, req, t.y), j);
    assert column[t.z] == Delivery(net, t.z, ToSpread(net, req, t.z), j);
  }

  lemma HubReceipts(t: Trio, a: Amounts, req: Stimuli, aside: Amounts)
    requires t.Ok() && Countable(Hub(t, a)) && SetsAside(t, a, req, aside)
    ensures Receipts(Hub(t, a), req, t.x) == aside.y + aside.z
    ensures Receipts(Hub(t, a), req, t.y) == Receipts(Hub(t, a), req, t.z) == aside.x / 2.0
  {
    HubDeliversFromX(t, a, aside.x);
    HubDeliversToX(t, a, aside.y, t.y);
    HubDeliversToX(t, a, aside.z, t.z);
    HubReceives(t, a, req, t.x, aside);
    HubReceives(t, a, req, t.y, aside);
    HubReceives(t, a, req, t.z, aside);
  }

  lemma HubFinals(t: Trio, a: Amounts, b: Key)
    requires t.Ok() && |b| == HANDLE_SIZE && Countable(Hub(t, a))
    ensures var net, d := Hub(t, a), Diffused(Boosted(t, a, b));
            && Final(net, Boost(b), t.x) == d.x && Final(net, Boost(b), t.y) == d.y && Final(net, Boost(b), t.z) == d.z
  {
    var u := Boosted(t, a, b);
    HubUpdates(t, a, b);
    HubSetsAside(t, a, b);
    HubReceipts(t, a, Boost(b), Amounts(0.0, 0.1 * u.x, 0.055 * u.y, 0.055 * u.z));
  }

  lemma SpreadAt(net: Net, req: Stimuli, h: Key)
    requires Countable(net) && Divides(net, req) && h in net.nodes
    ensures h in Spread(net, req).nodes
    ensures Spread(net, req).nodes[h] == net.nodes[h].(importance := Final(net, req, h), toSpread := 0.0)
  {
  }

  ghost predicate LikeHub(t: Trio, a: Amounts, net: Net, h: Key) {
    h in net.nodes && h in Hub(t, a).nodes && net.nodes[h] == Hub(t, a).nodes[h]
  }

  lemma HubWith(t: Trio, a: Amounts, net: Net)
    requires t.Ok() && net.nodes.Keys == {t.x, t.y, t.z} && net.largestArity == 2 && net.tokens == a.tokens
    requires LikeHub(t, a, net, t.x) && LikeHub(t, a, net, t.y) && LikeHub(t, a, net, t.z)
    ensures net == Hub(t, a)
  {
    assert net.nodes == Hub(t, a).nodes;
  }

  lemma HubDivides(t: Trio, a: Amounts, b: Key)
    requires t.Ok() && |b| == HANDLE_SIZE
    ensures Countable(Hub(t, a)) && Divides(Hub(t, a), Boost(b))
  {
    BoostIsFine(b);
    HubIsSound(t, a);
  }

  lemma SpreadElsewhere(net: Net, req: Stimuli)
    requires Countable(net) && Divides(net, req)
    ensures var net' := Spread(net, req);
            net'.nodes.Keys == net.nodes.Keys && net'.largestArity == net.largestArity && net'.tokens == 0.0
  {
  }

  lemma HubShape(t: Trio, a: Amounts)
    ensures Hub(t, a).nodes.Keys == {t.x, t.y, t.z} && Hub(t, a).largestArity == 2
  {
  }

  lemma HubSpreadsAt(t: Trio, a: Amounts, b: Key, a': Amounts, h: Key)
    requires t.Ok() && |b| == HANDLE_SIZE && Countable(Hub(t, a)) && Divides(Hub(t, a), Boost(b))
    requires a' == Diffused(Boosted(t, a, b)) && (h == t.x || h == t.y || h == t.z)
    ensures LikeHub(t, a', Spread(Hub(t, a), Boost(b)), h)
  {
    HubFinals(t, a, b);
    SpreadAt(Hub(t, a), Boost(b), h);
  }

  /** A request that boosts one handle leaves a hub, with these importances and no token undistributed. */
  lemma HubSpreads(t: Trio, a: Amounts, b: Key, a': Amounts)
    requires t.Ok() && |b| == HANDLE_SIZE && Countable(Hub(t, a)) && Divides(Hub(t, a), Boost(b))
    requires a' == Diffused(Boosted(t, a, b))
    ensures Spread(Hub(t, a), Boost(b)) == Hub(t, a')
  {
    HubShape(t, a);
    SpreadElsewhere(Hub(t, a), Boost(b));
    HubSpreadsAt(t, a, b, a', t.x);
    HubSpreadsAt(t, a, b, a', t.y);
    HubSpreadsAt(t, a, b, a', t.z);
    HubWith(t, a', Spread(Hub(t, a), Boost(b)));
  }

  // ---------------------------------------------------------------- a run that gets there

  /** Of two handles, in order, the inner loops of a correlation join the first with the second, once. */
  lemma JoinsOnce(net: Net, x: Key, y: Key)
    requires Before(x, y) && x in net.nodes && y in net.nodes
    ensures JoinOne(net, x, [x, y], 2) == AddSymmetricEdge(net, x, y)
    ensures JoinOne(net, y, [x, y], 2) == net
  {
    BeforeIsTotal(x, y);
    BeforeIsTotal(x, x);
    BeforeIsTotal(y, y);
    assert JoinOne(net, x, [x, y], 1) == JoinPair(JoinOne(net, x, [x, y], 0), x, x) == net;
    assert JoinOne(net, y, [x, y], 1) == JoinPair(JoinOne(net, y, [x, y], 0), y, x) == net;
  }

  lemma PairIsAdded(net: Net, x: Key, y: Key)
    requires |x| == |y| == HANDLE_SIZE
    ensures AddNodes(net, Sized([x, y])) == AddNode(AddNode(net, x), y)
  {
    assert [x, y][1..] == [y] && Sized([y]) == [y];
    assert Sized([x, y]) == [x] + [y];
    assert ([x] + [y])[..1] == [x] && [x][..0] == [];
    assert AddNodes(net, [x]) == AddNode(AddNodes(net, []), x);
  }

  lemma PairIs(net: Net, x: Key, y: Key)
    requires |x| == |y| == HANDLE_SIZE && Before(x, y)
    ensures Correlate(net, [x, y]) == AddSymmetricEdge(AddNode(AddNode(net, x), y), x, y)
  {
    var added := AddNode(AddNode(net, x), y);
    PairIsAdded(net, x, y);
    JoinsOnce(added, x, y);
    JoinsOnce(AddSymmetricEdge(added, x, y), x, y);
    assert JoinAll(added, [x, y], 1) == JoinOne(JoinAll(added, [x, y], 0), x, [x, y], 2);
  }

  lemma FirstPair(x: Key, y: Key)
    requires x != y
    ensures AddSymmetricEdge(AddNode(AddNode(EMPTY_NET, x), y), x, y) ==
            Net(map[x := Node(1, 1, 0.0, 0.0, map[y := 1]), y := Node(1, 1, 0.0, 0.0, map[x := 1])], 1, 1.0)
  {
  }

  lemma SecondPair(t: Trio, one: Net)
    requires t.Ok()
    requires one == Net(map[t.x := Node(1, 1, 0.0, 0.0, map[t.y := 1]), t.y := Node(1, 1, 0.0, 0.0, map[t.x := 1])],
                        1, 1.0)
    ensures AddSymmetricEdge(AddNode(AddNode(one, t.x), t.z), t.x, t.z) == Hub(t, FULL)
  {
    HubWith(t, FULL, AddSymmetricEdge(AddNode(AddNode(one, t.x), t.z), t.x, t.z));
  }

  /** Two correlations make a hub. */
  lemma HubIsReached(t: Trio)
    requires t.Ok() && |t.x| == |t.y| == |t.z| == HANDLE_SIZE && Before(t.x, t.y) && Before(t.x, t.z)
    ensures Correlate(Correlate(EMPTY_NET, [t.x, t.y]), [t.x, t.z]) == Hub(t, FULL)
  {
    PairIs(EMPTY_NET, t.x, t.y);
    FirstPair(t.x, t.y);
    PairIs(Correlate(EMPTY_NET, [t.x, t.y]), t.x, t.z);
    SecondPair(t, Correlate(EMPTY_NET, [t.x, t.y]));
  }

  lemma RunOfFour(nets: seq<Net>, rs: seq<Request>)
    requires |nets| == 5 && |rs| == 4 && nets[0] == EMPTY_NET && Injective(DIGITS)
    requires Clean(DIGITS, rs[0]) && Clean(DIGITS, rs[1]) && Clean(DIGITS, rs[2]) && Clean(DIGITS, rs[3])
    requires Serves(nets[0], rs[0], nets[1]) && Serves(nets[1], rs[1], nets[2])
    requires Serves(nets[2], rs[2], nets[3]) && Serves(nets[3], rs[3], nets[4])
    ensures IsRun(DIGITS, nets, rs)
  {
  }

  /** A network with one token, none of it distributed. */
  const FULL := Amounts(1.0, 0.0, 0.0, 0.0)

  const AFTER_ONE := Amounts(0.0, 0.055, 0.945, 0.0)
  const AFTER_TWO := Amounts(0.0, 0.0968275, 0.8061975, 0.096975)

  lemma FirstFlow(t: Trio)
    requires t.Ok()
    ensures Boosted(t, FULL, t.y) == Amounts(0.0, 0.0, 1.0, 0.0)
    ensures Diffused(Amounts(0.0, 0.0, 1.0, 0.0)) == AFTER_ONE
  {
  }

  lemma SecondFlow(t: Trio)
    requires t.Ok()
    ensures Boosted(t, AFTER_ONE, t.z) == Amounts(0.0, 0.0495, 0.8505, 0.1)
    ensures Diffused(Amounts(0.0, 0.0495, 0.8505, 0.1)) == AFTER_TWO
  {
  }

  lemma FlowStep(t: Trio, a: Amounts, b: Key, a': Amounts)
    requires t.Ok() && |b| == HANDLE_SIZE && a' == Diffused(Boosted(t, a, b))
    requires Written(DIGITS, b) && Written(DIGITS, SUM_KEY)
    ensures Clean(DIGITS, Stimulation(Boost(b))) && Serves(Hub(t, a), Stimulation(Boost(b)), Hub(t, a'))
  {
    HubDivides(t, a, b);
    HubSpreads(t, a, b, a');
    BoostServes(Hub(t, a), b);
  }

  lemma HubStep(t: Trio, one: Net)
    requires Three(t.x, t.y, t.z) && Before(t.x, t.y) && Before(t.x, t.z) && one == Correlate(EMPTY_NET, [t.x, t.y])
    ensures Clean(DIGITS, Correlation([t.x, t.y])) && Serves(EMPTY_NET, Correlation([t.x, t.y]), one)
    ensures Clean(DIGITS, Correlation([t.x, t.z])) && Serves(one, Correlation([t.x, t.z]), Hub(t, FULL))
  {
    HubIsReached(t);
    CorrelationServes(EMPTY_NET, [t.x, t.y]);
    CorrelationServes(one, [t.x, t.z]);
  }

  lemma FlowSteps(t: Trio)
    requires Three(t.x, t.y, t.z) && Written(DIGITS, SUM_KEY)
    ensures Clean(DIGITS, Stimulation(Boost(t.y))) && Clean(DIGITS, Stimulation(Boost(t.z)))
    ensures Serves(Hub(t, FULL), Stimulation(Boost(t.y)), Hub(t, AFTER_ONE))
    ensures Serves(Hub(t, AFTER_ONE), Stimulation(Boost(t.z)), Hub(t, AFTER_TWO))
  {
    FirstFlow(t);
    FlowStep(t, FULL, t.y, AFTER_ONE);
    SecondFlow(t);
    FlowStep(t, AFTER_ONE, t.z, AFTER_TWO);
  }

  lemma FlowRun(one: Net, two: Net, three: Net, four: Net, q: Request, r: Request, s: Request, t: Request)
    returns (nets: seq<Net>, rs: seq<Request>)
    requires Injective(DIGITS) && Clean(DIGITS, q) && Clean(DIGITS, r) && Clean(DIGITS, s) && Clean(DIGITS, t)
    requires Serves(EMPTY_NET, q, one) && Serves(one, r, two) && Serves(two, s, three) && Serves(three, t, four)
    ensures nets == [EMPTY_NET, one, two, three, four] && rs == [q, r, s, t] && IsRun(DIGITS, nets, rs)
  {
    nets, rs := [EMPTY_NET, one, two, three, four], [q, r, s, t];
    RunOfFour(nets, rs);
  }

  lemma HubAmounts(t: Trio, a: Amounts)
    requires t.Ok()
    ensures HasAmounts(Hub(t, a), t.x, t.y, t.z, a.x, a.y, a.z)
  {
  }

  /** The network has just these nodes, with just these importances. */
  ghost predicate HasAmounts(net: Net, x: Key, y: Key, z: Key, ix: real, iy: real, iz: real) {
    && net.nodes.Keys == {x, y, z}
    && net.nodes[x].importance == ix && net.nodes[y].importance == iy && net.nodes[z].importance == iz
  }

  lemma FlowStates(x: Key, y: Key, z: Key) returns (one: Net, two: Net, three: Net, four: Net)
    requires Three(x, y, z) && Before(x, y) && Before(x, z) && Written(DIGITS, SUM_KEY)
    ensures Clean(DIGITS, Correlation([x, y])) && Serves(EMPTY_NET, Correlation([x, y]), one)
    ensures Clean(DIGITS, Correlation([x, z])) && Serves(one, Correlation([x, z]), two)
    ensures Clean(DIGITS, Stimulation(Boost(y))) && Serves(two, Stimulation(Boost(y)), three)
    ensures Clean(DIGITS, Stimulation(Boost(z))) && Serves(three, Stimulation(Boost(z)), four)
    ensures HasAmounts(three, x, y, z, 0.055, 0.945, 0.0)
    ensures HasAmounts(four, x, y, z, 0.0968275, 0.8061975, 0.096975)
  {
    var t := Trio(x, y, z);
    one, two := Correlate(EMPTY_NET, [x, y]), Hub(t, FULL);
    three, four := Hub(t, AFTER_ONE), Hub(t, AFTER_TWO);
    HubStep(t, one);
    FlowSteps(t);
    HubAmounts(t, AFTER_ONE);
    HubAmounts(t, AFTER_TWO);
  }

  /**
   * Two requests for pairs of handles, one that boosts `y`, which is joined with `x` alone, and one that boosts
   * `z`. After the first `y` has spread 55 thousandths of its token; for the second every node pays a tenth of
   * its importance as rent, which goes to `z`, and then all spread.
   */
  lemma TokensFlow(x: Key, y: Key, z: Key) returns (nets: seq<Net>, rs: seq<Request>)
    requires Three(x, y, z) && Before(x, y) && Before(x, z) && Written(DIGITS, SUM_KEY)
    ensures IsRun(DIGITS, nets, rs) && |nets| == 5
    ensures rs == [Correlation([x, y]), Correlation([x, z]), Stimulation(Boost(y)), Stimulation(Boost(z))]
    ensures HasAmounts(nets[3], x, y, z, 0.055, 0.945, 0.0)
    ensures HasAmounts(nets[4], x, y, z, 0.0968275, 0.8061975, 0.096975)
  {
    var one, two, three, four := FlowStates(x, y, z);
    nets, rs := FlowRun(one, two, three, four, Correlation([x, y]), Correlation([x, z]), Stimulation(Boost(y)),
        Stimulation(Boost(z)));
  }

  /** There are such handles. */
  lemma FlowHandles()
    ensures var x, y, z := Handle('0'), Handle('1'), Handle('2');
            Three(x, y, z) && Before(x, y) && Before(x, z) && Written(DIGITS, SUM_KEY)
  {
    DigitHandles();
    assert Handle('0')[0] == '0' && Handle('1')[0] == '1' && Handle('2')[0] == '2';
  }
}
