/** One stimulate request: rent, wages and one diffusion cycle as simultaneous formulas, and where tokens go. */
module Spreading {
  import opened Keys
  import opened Sums
  import opened Hebbian

  const RENT_RATE := 0.1
  const SPREADING_RATE_LOWERBOUND := 0.01
  const SPREADING_RATE_UPPERBOUND := 0.1
  const SUM_KEY: string := "SUM"

  /** A stimulate request: a count per handle, and under "SUM" the total the counts are divided by. */
  type Stimuli = map<string, nat>

  /** An exception: no "SUM", or another key that is no handle. */
  predicate Rejected(req: Stimuli) {
    SUM_KEY !in req || exists h | h in req :: h != SUM_KEY && |h| != HANDLE_SIZE
  }

  /** Otherwise every division of the request has a positive divisor. */
  predicate Divides(net: Net, req: Stimuli) {
    && !Rejected(req)
    && (req.Keys != {SUM_KEY} ==> req[SUM_KEY] > 0)
    && (net.nodes != map[] ==> net.largestArity > 0)
  }

  predicate Countable(net: Net) {
    forall h | h in net.nodes :: net.nodes[h].count > 0
  }

  // ---------------------------------------------------------------- rent and wages

  function Rent(net: Net, h: Key): real
    requires h in net.nodes
  {
    RENT_RATE * net.nodes[h].importance
  }

  ghost function Rents(net: Net): map<Key, real> {
    map h | h in net.nodes :: Rent(net, h)
  }

  ghost function TotalRent(net: Net): real {
    Sum(Rents(net))
  }

  /** What the wages are paid from. */
  ghost function Pool(net: Net): real {
    net.tokens + TotalRent(net)
  }

  function Stimulus(req: Stimuli, h: Key): nat {
    if h in req && h != SUM_KEY then req[h] else 0
  }

  function Wage(pool: real, req: Stimuli, h: Key): real {
    if h in req && h != SUM_KEY && SUM_KEY in req && req[SUM_KEY] > 0
    then (req[h] as real * pool) / req[SUM_KEY] as real
    else 0.0
  }

  /** Importance once rent and wages are consolidated. */
  ghost function Updated(net: Net, req: Stimuli, h: Key): real
    requires h in net.nodes
  {
    net.nodes[h].importance - Rent(net, h) + Wage(Pool(net), req, h)
  }

  function RateOf(arity: nat, largestArity: nat): real
    requires largestArity > 0
  {
    SPREADING_RATE_LOWERBOUND +
    (SPREADING_RATE_UPPERBOUND - SPREADING_RATE_LOWERBOUND) * (arity as real / largestArity as real)
  }

  function Rate(net: Net, h: Key): real
    requires h in net.nodes && net.largestArity > 0
  {
    RateOf(net.nodes[h].arity, net.largestArity)
  }

  ghost function ToSpread(net: Net, req: Stimuli, h: Key): real
    requires h in net.nodes && net.largestArity > 0
  {
    Prod(Updated(net, req, h), Rate(net, h))
  }

  /** Every rate lies between the two bounds, and only an isolated node has the lower one. */
  lemma RateIsBounded(net: Net, h: Key)
    requires h in net.nodes && NodeSound(net, h) && net.largestArity > 0
    ensures SPREADING_RATE_LOWERBOUND <= Rate(net, h) <= SPREADING_RATE_UPPERBOUND
    ensures Rate(net, h) == SPREADING_RATE_LOWERBOUND <==> net.nodes[h].neighbors == map[]
  {
  }

  lemma Ratio(m: nat, n: nat)
    requires m <= n && n > 0
    ensures 0.0 <= m as real / n as real <= 1.0
    ensures m as real / n as real == 0.0 <==> m == 0
  {
  }

  // ---------------------------------------------------------------- diffusion

  function WeightOf(edgeCount: nat, nodeCount: nat): real
    requires nodeCount > 0
  {
    edgeCount as real / nodeCount as real
  }

  function Weight(net: Net, i: Key, j: Key): real
    requires i in net.nodes && j in net.nodes[i].neighbors && net.nodes[i].count > 0
  {
    WeightOf(net.nodes[i].neighbors[j], net.nodes[i].count)
  }

  ghost function Weights(net: Net, i: Key): map<Key, real>
    requires i in net.nodes && net.nodes[i].count > 0
  {
    map j | j in net.nodes[i].neighbors :: Weight(net, i, j)
  }

  ghost function EdgeCounts(net: Net, i: Key): map<Key, real>
    requires i in net.nodes
  {
    map j | j in net.nodes[i].neighbors :: net.nodes[i].neighbors[j] as real
  }

  /** What a node sends along one edge, when it spreads `amount` and its weights sum up to `weights`. */
  function Portion(weight: real, weights: real, amount: real): real {
    if weights == 0.0 then 0.0 else (weight / weights) * amount
  }

  /** What the node `i` delivers to `j` when it has `amount` to spread. */
  ghost function Delivery(net: Net, i: Key, amount: real, j: Key): real
    requires Countable(net)
  {
    if i in net.nodes && j in net.nodes[i].neighbors then Portion(Weight(net, i, j), Sum(Weights(net, i)), amount)
        else 0.0
  }

  lemma Quotient(n: real, c: real)
    requires c != 0.0
    ensures Prod(c, n / c) == n
  {
  }

  lemma WeightsAddUp(net: Net, i: Key)
    requires i in net.nodes && net.nodes[i].count > 0
    ensures Prod(1.0, Sum(EdgeCounts(net, i))) == Prod(net.nodes[i].count as real, Sum(Weights(net, i)))
  {
    var c := net.nodes[i].count as real;
    forall j | j in net.nodes[i].neighbors
      ensures Prod(1.0, EdgeCounts(net, i)[j]) == Prod(c, Weight(net, i, j))
    {
      Quotient(net.nodes[i].neighbors[j] as real, c);
    }
    assert Mapped(EdgeCounts(net, i), By(1.0)) == Mapped(Weights(net, i), By(c));
    ScaledAlike(EdgeCounts(net, i), 1.0, Weights(net, i), c);
  }

  lemma Cancels(n: real, s: real, c: real, amount: real, weight: real, weights: real)
    requires c > 0.0 && s > 0.0 && Prod(c, weight) == n && Prod(1.0, s) == Prod(c, weights)
    ensures weights > 0.0 && Prod(s, Portion(weight, weights, amount)) == Prod(amount, n)
  {
  }

  lemma EdgeCountsArePositive(net: Net, i: Key)
    requires i in net.nodes && NodeSound(net, i)
    ensures Sum(EdgeCounts(net, i)) >= 0.0
    ensures net.nodes[i].neighbors != map[] ==> Sum(EdgeCounts(net, i)) > 0.0
  {
    SumIsNonNegative(EdgeCounts(net, i));
    if j :| j in net.nodes[i].neighbors {
      assert EdgeCounts(net, i)[j] <= Sum(EdgeCounts(net, i));
    }
  }

  lemma WeightTimesCount(net: Net, i: Key, j: Key)
    requires i in net.nodes && j in net.nodes[i].neighbors && net.nodes[i].count > 0
    ensures Prod(net.nodes[i].count as real, Weight(net, i, j)) == net.nodes[i].neighbors[j] as real
  {
  }

  /** The source's own count cancels: what is delivered is in proportion to the edge counts alone. */
  lemma DeliveryIsByEdgeCounts(net: Net, i: Key, amount: real, j: Key)
    requires Countable(net) && i in net.nodes && NodeSound(net, i) && j in net.nodes[i].neighbors
    ensures Sum(EdgeCounts(net, i)) > 0.0
    ensures Prod(Sum(EdgeCounts(net, i)), Delivery(net, i, amount, j)) == Prod(amount,
            net.nodes[i].neighbors[j] as real)
  {
    EdgeCountsArePositive(net, i);
    WeightsAddUp(net, i);
    WeightTimesCount(net, i, j);
    Cancels(net.nodes[i].neighbors[j] as real, Sum(EdgeCounts(net, i)), net.nodes[i].count as real, amount,
        Weight(net, i, j),
            Sum(Weights(net, i)));
  }

  ghost function Deliveries(net: Net, i: Key, amount: real): map<Key, real>
    requires Countable(net)
  {
    map j | j in net.nodes :: Delivery(net, i, amount, j)
  }

  lemma DivideOut(x: real, amount: real, s: real)
    requires s > 0.0 && Prod(s, x) == Prod(amount, s)
    ensures x == amount
  {
  }

  ghost function Delivered(net: Net, i: Key, amount: real): map<Key, real>
    requires Countable(net) && i in net.nodes
  {
    map j | j in net.nodes[i].neighbors :: Delivery(net, i, amount, j)
  }

  lemma DeliveredIsScaled(net: Net, i: Key, amount: real)
    requires Countable(net) && i in net.nodes && NodeSound(net, i) && net.nodes[i].neighbors != map[]
    ensures Mapped(Delivered(net, i, amount), By(Sum(EdgeCounts(net, i)))) == Mapped(EdgeCounts(net, i), By(amount))
  {
    forall j | j in net.nodes[i].neighbors
      ensures Prod(Sum(EdgeCounts(net, i)), Delivered(net, i, amount)[j]) == Prod(amount, EdgeCounts(net, i)[j])
    {
      DeliveryIsByEdgeCounts(net, i, amount, j);
    }
  }

  /** A node delivers all it spreads, unless it is isolated: then it delivers nothing. */
  lemma DeliversAll(net: Net, i: Key, amount: real)
    requires Countable(net) && i in net.nodes && NodeSound(net, i)
    ensures Sum(Deliveries(net, i, amount)) == if net.nodes[i].neighbors == map[] then 0.0 else amount
  {
    if net.nodes[i].neighbors == map[] {
      SumOfZeros(Deliveries(net, i, amount));
    } else {
      EdgeCountsArePositive(net, i);
      SumOverPart(Deliveries(net, i, amount), Delivered(net, i, amount));
      DeliveredIsScaled(net, i, amount);
      ScaledAlike(Delivered(net, i, amount), Sum(EdgeCounts(net, i)), EdgeCounts(net, i), amount);
      DivideOut(Sum(Delivered(net, i, amount)), amount, Sum(EdgeCounts(net, i)));
    }
  }

  // ---------------------------------------------------------------- the whole request

  ghost function Sent(net: Net, req: Stimuli): (Key, Key) -> real
    requires Countable(net) && (net.nodes != map[] ==> net.largestArity > 0)
  {
    (i, j) => if i in net.nodes then Delivery(net, i, ToSpread(net, req, i), j) else 0.0
  }

  /** What each node has left once it has set aside what it spreads. */
  ghost function Kept(net: Net, req: Stimuli): map<Key, real>
    requires net.nodes != map[] ==> net.largestArity > 0
  {
    map h | h in net.nodes :: Updated(net, req, h) - ToSpread(net, req, h)
  }

  ghost function Spreads(net: Net, req: Stimuli): map<Key, real>
    requires net.nodes != map[] ==> net.largestArity > 0
  {
    map h | h in net.nodes :: ToSpread(net, req, h)
  }

  /** The simultaneous formula: what is kept, plus what every node sends. */
  ghost function Final(net: Net, req: Stimuli, j: Key): real
    requires Countable(net) && j in net.nodes && net.largestArity > 0
  {
    Updated(net, req, j) - ToSpread(net, req, j) + Sum(Column(Sent(net, req), net.nodes.Keys, j))
  }

  ghost function Spread(net: Net, req: Stimuli): Net
    requires Countable(net) && (Rejected(req) || Divides(net, req))
  {
    if Rejected(req) then net.(tokens := 0.0)
    else
      Net(map h | h in net.nodes :: net.nodes[h].(importance := Final(net, req, h), toSpread := 0.0),
          net.largestArity, 0.0)
  }

  /** Only importances and tokens differ. */
  ghost predicate SameGraph(m: Net, n: Net) {
    && m.nodes.Keys == n.nodes.Keys && m.largestArity == n.largestArity
    && forall h | h in m.nodes ::
         n.nodes[h] == m.nodes[h].(importance := n.nodes[h].importance, toSpread := n.nodes[h].toSpread)
  }

  lemma SpreadKeepsGraph(net: Net, req: Stimuli)
    requires Countable(net) && (Rejected(req) || Divides(net, req))
    ensures SameGraph(net, Spread(net, req))
  {
  }

  // ---------------------------------------------------------------- how much a node sets aside

  lemma RateTimesArity(updated: real, arity: real, largest: real, rate: real, range: real)
    requires largest > 0.0 && rate == SPREADING_RATE_LOWERBOUND + range * (arity / largest)
    ensures largest * (Prod(updated, rate) - updated * SPREADING_RATE_LOWERBOUND) == range * arity * updated
  {
    var q := arity / largest;
    assert largest * q == arity;
    assert Prod(updated, rate) - updated * SPREADING_RATE_LOWERBOUND == range * q * updated;
    assert largest * (range * q * updated) == range * (largest * q) * updated;
  }

  /**
   * Above the lower bound of its updated importance, a node sets aside the rest of the range in proportion
   * to its arity; so a node of the largest arity sets aside the upper bound of it, and no node more.
   */
  lemma SetAsideByArity(net: Net, req: Stimuli, h: Key)
    requires h in net.nodes && net.largestArity > 0
    ensures net.largestArity as real * (ToSpread(net, req, h) - Updated(net, req, h) * SPREADING_RATE_LOWERBOUND) ==
            (SPREADING_RATE_UPPERBOUND - SPREADING_RATE_LOWERBOUND) * net.nodes[h].arity as real * Updated(net, req, h)
    ensures net.nodes[h].arity == net.largestArity ==>
              ToSpread(net, req, h) == Updated(net, req, h) * SPREADING_RATE_UPPERBOUND
  {
    RateTimesArity(Updated(net, req, h), net.nodes[h].arity as real, net.largestArity as real, Rate(net, h),
        SPREADING_RATE_UPPERBOUND - SPREADING_RATE_LOWERBOUND);
    if net.nodes[h].arity == net.largestArity {
      HighestRate(Updated(net, req, h), net.largestArity, Rate(net, h));
    }
  }

  lemma HighestRate(updated: real, arity: nat, rate: real)
    requires arity > 0 && rate == RateOf(arity, arity)
    ensures Prod(updated, rate) == updated * SPREADING_RATE_UPPERBOUND
  {
    assert arity as real / arity as real == 1.0;
  }

  // ---------------------------------------------------------------- the accounting

  ghost function Importances(net: Net): map<Key, real> {
    map h | h in net.nodes :: net.nodes[h].importance
  }

  /** All tokens there are. */
  ghost function Total(net: Net): real {
    Sum(Importances(net)) + net.tokens
  }

  /** The counts of the request whose handles are nodes. */
  ghost function Known(net: Net, req: Stimuli): map<Key, real> {
    map h | h in net.nodes :: Stimulus(req, h) as real
  }

  ghost function Wages(net: Net, req: Stimuli): map<Key, real> {
    map h | h in net.nodes :: Wage(Pool(net), req, h)
  }

  ghost function Updates(net: Net, req: Stimuli): map<Key, real> {
    map h | h in net.nodes :: Updated(net, req, h)
  }

  predicate Isolated(net: Net, h: Key) {
    h in net.nodes && net.nodes[h].neighbors == map[]
  }

  /** What the isolated nodes set aside and never deliver. */
  ghost function Losses(net: Net, req: Stimuli): map<Key, real> {
    map h | h in net.nodes :: if Isolated(net, h) then Lost(Updated(net, req, h)) else 0.0
  }

  function Lost(updated: real): real {
    updated * SPREADING_RATE_LOWERBOUND
  }

  lemma WageTimesSum(pool: real, req: Stimuli, h: Key)
    requires SUM_KEY in req && req[SUM_KEY] > 0
    ensures Prod(req[SUM_KEY] as real, Wage(pool, req, h)) == Prod(pool, Stimulus(req, h) as real)
  {
  }

  lemma WagesAreScaled(net: Net, req: Stimuli)
    requires SUM_KEY in req && req[SUM_KEY] > 0
    ensures Mapped(Wages(net, req), By(req[SUM_KEY] as real)) == Mapped(Known(net, req), By(Pool(net)))
  {
    forall h | h in net.nodes
      ensures Prod(req[SUM_KEY] as real, Wages(net, req)[h]) == Prod(Pool(net), Known(net, req)[h])
    {
      WageTimesSum(Pool(net), req, h);
    }
  }

  /** Wages pay out the pool in proportion to the counts of known handles. */
  lemma WagesAddUp(net: Net, req: Stimuli)
    requires SUM_KEY in req && req[SUM_KEY] > 0
    ensures Prod(req[SUM_KEY] as real, Sum(Wages(net, req))) == Prod(Pool(net), Sum(Known(net, req)))
  {
    WagesAreScaled(net, req);
    ScaledAlike(Wages(net, req), req[SUM_KEY] as real, Known(net, req), Pool(net));
  }

  lemma UpdatesAddUp(net: Net, req: Stimuli)
    ensures Sum(Updates(net, req)) == Sum(Importances(net)) - TotalRent(net) + Sum(Wages(net, req))
  {
    var left := map h | h in net.nodes :: net.nodes[h].importance - Rent(net, h);
    SumAdds(left, Rents(net), Importances(net));
    SumAdds(left, Wages(net, req), Updates(net, req));
  }

  lemma KeptAndSpread(net: Net, req: Stimuli)
    requires net.nodes != map[] ==> net.largestArity > 0
    ensures Sum(Updates(net, req)) == Sum(Kept(net, req)) + Sum(Spreads(net, req))
  {
    SumAdds(Kept(net, req), Spreads(net, req), Updates(net, req));
  }

  lemma SpreadIsSentOrLost(net: Net, req: Stimuli)
    requires GraphSound(net) && Countable(net) && (net.nodes != map[] ==> net.largestArity > 0)
    ensures Sum(Spreads(net, req)) == Sum(RowSums(Sent(net, req), net.nodes.Keys, net.nodes.Keys)) + Sum(Losses(net,
            req))
  {
    var f, hs := Sent(net, req), net.nodes.Keys;
    forall i | i in net.nodes
      ensures Spreads(net, req)[i] == RowSums(f, hs, hs)[i] + Losses(net, req)[i]
    {
      RowOrLoss(net, req, i);
    }
    SumAdds(RowSums(f, hs, hs), Losses(net, req), Spreads(net, req));
  }

  lemma FinalAddsUp(net: Net, req: Stimuli)
    requires Countable(net) && Divides(net, req)
    ensures Sum(Importances(Spread(net, req))) ==
            Sum(Kept(net, req)) + Sum(ColumnSums(Sent(net, req), net.nodes.Keys, net.nodes.Keys))
  {
    SumAdds(Kept(net, req), ColumnSums(Sent(net, req), net.nodes.Keys, net.nodes.Keys), Importances(Spread(net, req)));
  }

  lemma SpreadAddsUp(net: Net, req: Stimuli)
    requires GraphSound(net) && Divides(net, req)
    ensures Countable(net)
    ensures Sum(Importances(Spread(net, req))) == Sum(Updates(net, req)) - Sum(Losses(net, req))
  {
    CountableWhenSound(net);
    KeptAndSpread(net, req);
    SpreadIsSentOrLost(net, req);
    FinalAddsUp(net, req);
    RowsMeetColumns(Sent(net, req), net.nodes.Keys, net.nodes.Keys);
  }

  lemma CountableWhenSound(net: Net)
    requires GraphSound(net)
    ensures Countable(net)
  {
    forall h | h in net.nodes
      ensures net.nodes[h].count > 0
    {
      assert NodeSound(net, h);
    }
  }

  lemma LowestRate(updated: real, rate: real, toSpread: real)
    requires rate == SPREADING_RATE_LOWERBOUND && toSpread == Prod(updated, rate)
    ensures toSpread == Lost(updated)
  {
  }

  lemma LossIsTheRest(net: Net, req: Stimuli, i: Key)
    requires GraphSound(net) && i in net.nodes && net.largestArity > 0
    ensures Losses(net, req)[i] == if net.nodes[i].neighbors == map[] then ToSpread(net, req, i) else 0.0
  {
    assert NodeSound(net, i);
    RateIsBounded(net, i);
    if Isolated(net, i) {
      LowestRate(Updated(net, req, i), Rate(net, i), ToSpread(net, req, i));
    }
  }

  lemma RowOrLoss(net: Net, req: Stimuli, i: Key)
    requires GraphSound(net) && Countable(net) && i in net.nodes && net.largestArity > 0
    ensures ToSpread(net, req, i) == Sum(Row(Sent(net, req), i, net.nodes.Keys)) + Losses(net, req)[i]
  {
    assert NodeSound(net, i);
    RowIsDeliveries(net, req, i);
    DeliversAll(net, i, ToSpread(net, req, i));
    LossIsTheRest(net, req, i);
  }

  lemma RowIsDeliveries(net: Net, req: Stimuli, i: Key)
    requires Countable(net) && i in net.nodes && net.largestArity > 0
    ensures Row(Sent(net, req), i, net.nodes.Keys) == Deliveries(net, i, ToSpread(net, req, i))
  {
  }
}
