/** Two runs in which tokens are lost, by an unknown handle and by a node without neighbours. */
module TokenLosses {
  import opened Keys
  import opened Sums
  import opened Hebbian
  import opened Spreading
  import opened Accounting
  import opened NetworkRuns

  const DIGITS: set<char> := {'0', '1', '2'}

  function Handle(ch: char): Key {
    seq(HANDLE_SIZE, _ => ch)
  }

  /** All the stimulus goes to one handle. */
  function Boost(h: Key): Stimuli {
    map[h := 1, SUM_KEY := 1]
  }

  lemma BoostIsFine(h: Key)
    requires |h| == HANDLE_SIZE
    ensures !Rejected(Boost(h)) && SumIsExact(Boost(h)) && Stimulus(Boost(h), h) == 1
    ensures forall k | k != h :: Stimulus(Boost(h), k) == 0
  {
    assert h != SUM_KEY;
    assert Counts(Boost(h)) == map[h := 1.0];
    SumTakesOut(Counts(Boost(h)), h);
    assert Counts(Boost(h)) - {h} == map[];
  }

  lemma DigitsAreClean(ch: char)
    requires ch in DIGITS
    ensures Injective(DIGITS) && Written(DIGITS, Handle(ch)) && Written(DIGITS, SUM_KEY) && |Handle(ch)| == HANDLE_SIZE
  {
  }

  /** A new network, one request that boosts a handle it does not know: every token is gone. */
  lemma UnknownHandleTakesAll() returns (nets: seq<Net>, rs: seq<Request>)
    ensures IsRun(DIGITS, nets, rs) && |rs| == 1 && WellFormed(rs[0])
    ensures Total(nets[0]) == 1.0 && Total(nets[1]) == 0.0
  {
    var h := Handle('0');
    DigitsAreClean('0');
    BoostIsFine(h);
    nets, rs := [EMPTY_NET, Spread(EMPTY_NET, Boost(h))], [Stimulation(Boost(h))];
    assert Importances(nets[0]) == map[] && Importances(nets[1]) == map[];
  }

  /** A network that has spent no token, in which `z` alone has no neighbours. */
  ghost predicate Ready(net: Net, z: Key) {
    && GraphSound(net) && net.largestArity > 0 && net.tokens == 1.0
    && (forall h | h in net.nodes :: net.nodes[h].importance == 0.0)
    && Isolated(net, z) && (forall h | Isolated(net, h) :: h == z)
  }

  lemma ReadyPool(net: Net, z: Key)
    requires Ready(net, z)
    ensures Pool(net) == 1.0 && Total(net) == 1.0
  {
    SumOfZeros(Importances(net));
    SumOfZeros(Rents(net));
  }

  lemma ReadyWages(net: Net, z: Key)
    requires Ready(net, z) && |z| == HANDLE_SIZE
    ensures forall h | h in net.nodes :: Updated(net, Boost(z), h) == if h == z then 1.0 else 0.0
    ensures Sum(Wages(net, Boost(z))) == 1.0
  {
    var wages := Wages(net, Boost(z));
    ReadyPool(net, z);
    BoostIsFine(z);
    assert forall h | h in net.nodes :: wages[h] == if h == z then 1.0 else 0.0;
    SumTakesOut(wages, z);
    SumOfZeros(wages - {z});
  }

  lemma ReadyLosses(net: Net, z: Key)
    requires Ready(net, z) && |z| == HANDLE_SIZE
    ensures Sum(Losses(net, Boost(z))) == SPREADING_RATE_LOWERBOUND
  {
    var losses := Losses(net, Boost(z));
    ReadyWages(net, z);
    SumTakesOut(losses, z);
    SumOfZeros(losses - {z});
  }

  lemma ReadyDivides(net: Net, z: Key)
    requires Ready(net, z) && |z| == HANDLE_SIZE
    ensures Countable(net) && Divides(net, Boost(z)) && AllKnown(net, Boost(z))
  {
    BoostIsFine(z);
    CountableWhenSound(net);
  }

  lemma ReadyLoses(net: Net, z: Key)
    requires Ready(net, z) && |z| == HANDLE_SIZE && Countable(net) && Divides(net, Boost(z))
    ensures Total(net) == 1.0 && Total(Spread(net, Boost(z))) == 0.99
  {
    ReadyPool(net, z);
    ReadyWages(net, z);
    ReadyLosses(net, z);
    TotalsFollow(net, Boost(z));
  }

  // ---------------------------------------------------------------- a run that gets there

  /** Three different handles, written in digits. */
  ghost predicate Three(x: Key, y: Key, z: Key) {
    && |x| == |y| == |z| == HANDLE_SIZE && x != y && y != z && x != z
    && Injective(DIGITS) && Written(DIGITS, x) && Written(DIGITS, y) && Written(DIGITS, z)
  }

  /** `x` and `y` joined, and then `z` added alone. */
  function Pair(x: Key, y: Key): Net {
    Correlate(EMPTY_NET, [x, y])
  }

  function PairAndOne(x: Key, y: Key, z: Key): Net {
    Correlate(Pair(x, y), [z])
  }

  lemma OfOne(z: Key, h: Key)
    requires |z| == HANDLE_SIZE
    ensures AllSized([z]) && Sized([z]) == [z] && NodeMult([z], h) == if h == z then 1 else 0
  {
    assert Sized([z]) == [z] && Times([z], h, 0) == 0;
  }

  lemma OfTwo(x: Key, y: Key, h: Key)
    requires |x| == |y| == HANDLE_SIZE && x != y
    ensures AllSized([x, y]) && Sized([x, y]) == [x, y] && NodeMult([x, y], h) == if h == x || h == y then 1 else 0
  {
    assert [x, y][1..] == [y];
    assert Sized([x, y]) == [x, y];
    assert Times([x, y], h, 1) == (if h == x then 1 else 0) && Times([x, y], h, 0) == 0;
  }

  lemma PairEdges(x: Key, y: Key, z: Key, a: Key, b: Key)
    requires Three(x, y, z)
    ensures EdgeCount(PairAndOne(x, y, z), a, b) == if (a == x && b == y) || (a == y && b == x) then 1 else 0
  {
    CorrelationIsExact(DIGITS, EMPTY_NET, [x, y], a, b);
    CorrelationIsExact(DIGITS, Pair(x, y), [z], a, b);
    OfTwo(x, y, a);
    OfTwo(x, y, b);
    OfOne(z, a);
    OfOne(z, b);
  }

  lemma PairNodes(x: Key, y: Key, z: Key)
    requires Three(x, y, z)
    ensures PairAndOne(x, y, z).nodes.Keys == {x, y, z}
  {
    OfTwo(x, y, z);
    OfOne(z, z);
  }

  lemma PairSpendsNothing(x: Key, y: Key, z: Key)
    ensures var net := PairAndOne(x, y, z);
            GraphSound(net) && net.tokens == 1.0 && forall h | h in net.nodes :: net.nodes[h].importance == 0.0
  {
    CorrelateSound(EMPTY_NET, [x, y]);
    CorrelateSound(Pair(x, y), [z]);
    CorrelateKeepsImportances(EMPTY_NET, [x, y]);
    CorrelateKeepsImportances(Pair(x, y), [z]);
  }

  lemma EdgeOfNeighbor(net: Net, h: Key)
    requires h in net.nodes && NodeSound(net, h)
    ensures Isolated(net, h) || exists b :: EdgeCount(net, h, b) > 0
  {
    if b :| b in net.nodes[h].neighbors { assert EdgeCount(net, h, b) == net.nodes[h].neighbors[b]; }
  }

  lemma LinkedOrNot(net: Net, x: Key, y: Key, z: Key)
    requires GraphSound(net) && net.nodes.Keys == {x, y, z} && Three(x, y, z)
    requires forall a, b :: EdgeCount(net, a, b) == if (a == x && b == y) || (a == y && b == x) then 1 else 0
    ensures net.largestArity > 0 && Isolated(net, z) && !Isolated(net, x) && !Isolated(net, y)
  {
    assert EdgeCount(net, x, y) == 1 && EdgeCount(net, y, x) == 1;
    assert NodeSound(net, x) && NodeSound(net, z);
    EdgeOfNeighbor(net, z);
    assert |net.nodes[x].neighbors.Keys| > 0 by { assert y in net.nodes[x].neighbors.Keys; }
  }

  lemma PairIsReady(x: Key, y: Key, z: Key)
    requires Three(x, y, z)
    ensures Ready(PairAndOne(x, y, z), z)
  {
    PairSpendsNothing(x, y, z);
    PairNodes(x, y, z);
    forall a, b
      ensures EdgeCount(PairAndOne(x, y, z), a, b) == if (a == x && b == y) || (a == y && b == x) then 1 else 0
    {
      PairEdges(x, y, z, a, b);
    }
    LinkedOrNot(PairAndOne(x, y, z), x, y, z);
  }

  lemma DigitHandles()
    ensures Three(Handle('0'), Handle('1'), Handle('2')) && Written(DIGITS, SUM_KEY)
  {
    assert Handle('0')[0] == '0' && Handle('1')[0] == '1' && Handle('2')[0] == '2';
    DigitsAreClean('0');
    DigitsAreClean('1');
    DigitsAreClean('2');
  }

  lemma RunOfThree(nets: seq<Net>, rs: seq<Request>)
    requires |nets| == 4 && |rs| == 3 && nets[0] == EMPTY_NET && Injective(DIGITS)
    requires Clean(DIGITS, rs[0]) && Clean(DIGITS, rs[1]) && Clean(DIGITS, rs[2])
    requires Serves(nets[0], rs[0], nets[1]) && Serves(nets[1], rs[1], nets[2]) && Serves(nets[2], rs[2], nets[3])
    ensures IsRun(DIGITS, nets, rs)
  {
  }

  lemma CorrelationServes(net: Net, hs: seq<Key>)
    requires Injective(DIGITS) && forall h | h in hs :: Written(DIGITS, h)
    ensures Clean(DIGITS, Correlation(hs)) && Serves(net, Correlation(hs), Correlate(net, hs))
  {
  }

  lemma BoostServes(net: Net, z: Key)
    requires Written(DIGITS, z) && Written(DIGITS, SUM_KEY) && Countable(net) && Divides(net, Boost(z))
    ensures Clean(DIGITS, Stimulation(Boost(z))) && Serves(net, Stimulation(Boost(z)), Spread(net, Boost(z)))
  {
  }

  lemma LossFirst(x: Key, y: Key, z: Key) returns (r: Request, s: Request)
    requires Three(x, y, z)
    ensures Serves(EMPTY_NET, r, Pair(x, y)) && Serves(Pair(x, y), s, PairAndOne(x, y, z))
    ensures Clean(DIGITS, r) && Clean(DIGITS, s) && r.Correlation? && s.Correlation?
  {
    r, s := Correlation([x, y]), Correlation([z]);
    CorrelationServes(EMPTY_NET, [x, y]);
    CorrelationServes(Pair(x, y), [z]);
  }

  lemma LossLast(two: Net, z: Key) returns (three: Net)
    requires Ready(two, z) && |z| == HANDLE_SIZE && Written(DIGITS, z) && Written(DIGITS, SUM_KEY)
    ensures Clean(DIGITS, Stimulation(Boost(z))) && Serves(two, Stimulation(Boost(z)), three) && AllKnown(two, Boost(z))
    ensures Total(two) == 1.0 && Total(three) == 0.99
  {
    ReadyDivides(two, z);
    ReadyLoses(two, z);
    BoostServes(two, z);
    three := Spread(two, Boost(z));
  }

  lemma LossParts(x: Key, y: Key, z: Key) returns (one: Net, two: Net, three: Net, r: Request, s: Request, t: Request)
    requires Three(x, y, z) && Written(DIGITS, SUM_KEY)
    ensures Clean(DIGITS, r) && Clean(DIGITS, s) && Clean(DIGITS, t) && r.Correlation? && s.Correlation?
            && t == Stimulation(Boost(z))
    ensures Serves(EMPTY_NET, r, one) && Serves(one, s, two) && Serves(two, t, three)
    ensures AllKnown(two, Boost(z)) && Total(two) == 1.0 && Total(three) == 0.99
  {
    PairIsReady(x, y, z);
    r, s := LossFirst(x, y, z);
    one, two, t := Pair(x, y), PairAndOne(x, y, z), Stimulation(Boost(z));
    three := LossLast(two, z);
  }

  lemma LossRun(one: Net, two: Net, three: Net, r: Request, s: Request, t: Request)
    returns (nets: seq<Net>, rs: seq<Request>)
    requires Injective(DIGITS) && Clean(DIGITS, r) && Clean(DIGITS, s) && Clean(DIGITS, t)
    requires Serves(EMPTY_NET, r, one) && Serves(one, s, two) && Serves(two, t, three)
    ensures nets == [EMPTY_NET, one, two, three] && rs == [r, s, t] && IsRun(DIGITS, nets, rs)
  {
    nets, rs := [EMPTY_NET, one, two, three], [r, s, t];
    RunOfThree(nets, rs);
  }

  /** Two nodes joined, a third one alone, and a request that boosts it: one hundredth of all tokens is gone. */
  lemma IsolatedNodeLosesShare() returns (nets: seq<Net>, rs: seq<Request>)
    ensures IsRun(DIGITS, nets, rs) && |rs| == 3 && WellFormed(rs[0]) && WellFormed(rs[1]) && WellFormed(rs[2])
    ensures rs[2].Stimulation? && AllKnown(nets[2], rs[2].stimuli)
    ensures Total(nets[2]) == 1.0 && Total(nets[3]) == 0.99
  {
    var z := Handle('2');
    DigitHandles();
    var one, two, three, r, s, t := LossParts(Handle('0'), Handle('1'), z);
    BoostIsFine(z);
    nets, rs := LossRun(one, two, three, r, s, t);
  }
}
