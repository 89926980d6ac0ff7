/** Where tokens go in a stimulate request, and exactly when none is lost. */
module Accounting {
  import opened Keys
  import opened Sums
  import opened Hebbian
  import opened Spreading

  /** The part of the pool that no node is paid. */
  ghost function Unpaid(net: Net, req: Stimuli): real {
    Pool(net) - Sum(Wages(net, req))
  }

  /**
   * Exact accounting: a request takes from the tokens of the network what wages leave unpaid and what
   * isolated nodes set aside; the unpaid part is the pool's share of the counts of unknown handles.
   */
  lemma TokensAreAccounted(net: Net, req: Stimuli)
    requires GraphSound(net) && Divides(net, req)
    ensures Countable(net)
    ensures Total(Spread(net, req)) == Total(net) - Unpaid(net, req) - Sum(Losses(net, req))
    ensures Prod(req[SUM_KEY] as real, Sum(Wages(net, req))) == Prod(Pool(net), Sum(Known(net, req)))
  {
    CountableWhenSound(net);
    WagesInProportion(net, req);
    TotalsFollow(net, req);
  }

  lemma WagesInProportion(net: Net, req: Stimuli)
    requires Divides(net, req)
    ensures Prod(req[SUM_KEY] as real, Sum(Wages(net, req))) == Prod(Pool(net), Sum(Known(net, req)))
  {
    if req[SUM_KEY] > 0 {
      WagesAddUp(net, req);
    } else {
      SumOfZeros(Known(net, req));
    }
  }

  lemma TotalsFollow(net: Net, req: Stimuli)
    requires GraphSound(net) && Divides(net, req) && Countable(net)
    ensures Total(Spread(net, req)) == Total(net) - Unpaid(net, req) - Sum(Losses(net, req))
  {
    UpdatesAddUp(net, req);
    SpreadAddsUp(net, req);
  }

  // ---------------------------------------------------------------- signs

  ghost predicate NonNegative(net: Net) {
    net.tokens >= 0.0 && forall h | h in net.nodes :: net.nodes[h].importance >= 0.0
  }

  lemma PoolIsNonNegative(net: Net)
    requires NonNegative(net)
    ensures Pool(net) >= 0.0 && Total(net) >= 0.0
  {
    SumIsNonNegative(Rents(net));
    SumIsNonNegative(Importances(net));
  }

  lemma WageSign(pool: real, req: Stimuli, h: Key)
    requires pool >= 0.0
    ensures Wage(pool, req, h) >= 0.0
    ensures Wage(pool, req, h) == 0.0 <==> pool == 0.0 || Stimulus(req, h) == 0 || SUM_KEY !in req || req[SUM_KEY] == 0
  {
  }

  lemma QuotientSign(n: real, pool: real, s: real)
    requires n >= 0.0 && pool >= 0.0 && s > 0.0
    ensures (n * pool) / s >= 0.0
    ensures (n * pool) / s == 0.0 <==> n == 0.0 || pool == 0.0
  {
  }

  lemma UpdatedSign(net: Net, req: Stimuli, h: Key)
    requires NonNegative(net) && h in net.nodes
    ensures Updated(net, req, h) >= 0.0
    ensures Updated(net, req, h) == 0.0 <==> net.nodes[h].importance == 0.0 && Wage(Pool(net), req, h) == 0.0
  {
    PoolIsNonNegative(net);
    WageSign(Pool(net), req, h);
  }

  lemma KeepsAndSpreads(updated: real, rate: real)
    requires updated >= 0.0 && 0.0 <= rate <= 1.0
    ensures 0.0 <= Prod(updated, rate) <= updated
  {
  }

  lemma PortionSign(weight: real, weights: real, amount: real)
    requires weight >= 0.0 && weights >= 0.0 && amount >= 0.0
    ensures Portion(weight, weights, amount) >= 0.0
  {
  }

  lemma ToSpreadSign(net: Net, req: Stimuli, h: Key)
    requires NonNegative(net) && GraphSound(net) && h in net.nodes && net.largestArity > 0
    ensures 0.0 <= ToSpread(net, req, h) <= Updated(net, req, h)
  {
    assert NodeSound(net, h);
    UpdatedSign(net, req, h);
    RateIsBounded(net, h);
    KeepsAndSpreads(Updated(net, req, h), Rate(net, h));
  }

  lemma DeliverySign(net: Net, i: Key, amount: real, j: Key)
    requires Countable(net) && amount >= 0.0
    ensures Delivery(net, i, amount, j) >= 0.0
  {
    if i in net.nodes && j in net.nodes[i].neighbors {
      forall k | k in net.nodes[i].neighbors
        ensures Weights(net, i)[k] >= 0.0
      {
        QuotientSign(net.nodes[i].neighbors[k] as real, 1.0, net.nodes[i].count as real);
      }
      SumIsNonNegative(Weights(net, i));
      PortionSign(Weight(net, i, j), Sum(Weights(net, i)), amount);
    }
  }

  lemma FinalSign(net: Net, req: Stimuli, j: Key)
    requires NonNegative(net) && GraphSound(net) && Divides(net, req) && j in net.nodes && Countable(net)
    ensures Final(net, req, j) >= 0.0
  {
    ToSpreadSign(net, req, j);
    forall i | i in net.nodes
      ensures Column(Sent(net, req), net.nodes.Keys, j)[i] >= 0.0
    {
      ToSpreadSign(net, req, i);
      DeliverySign(net, i, ToSpread(net, req, i), j);
    }
    SumIsNonNegative(Column(Sent(net, req), net.nodes.Keys, j));
  }

  /** No importance becomes negative. */
  lemma SpreadIsNonNegative(net: Net, req: Stimuli)
    requires NonNegative(net) && GraphSound(net) && (Rejected(req) || Divides(net, req))
    ensures Countable(net) && NonNegative(Spread(net, req))
  {
    CountableWhenSound(net);
    if !Rejected(req) {
      forall h | h in net.nodes
        ensures Final(net, req, h) >= 0.0
      {
        FinalSign(net, req, h);
      }
    }
  }

  // ---------------------------------------------------------------- well-formed requests

  ghost function Counts(req: Stimuli): map<Key, real> {
    map h | h in req && h != SUM_KEY :: req[h] as real
  }

  /** "SUM" is the sum of the other counts. */
  ghost predicate SumIsExact(req: Stimuli) {
    SUM_KEY in req && req[SUM_KEY] as real == Sum(Counts(req))
  }

  /** Every handle the request boosts is a node. */
  predicate AllKnown(net: Net, req: Stimuli) {
    forall h | h in req && h != SUM_KEY && req[h] > 0 :: h in net.nodes
  }

  lemma KnownIsPart(net: Net, req: Stimuli)
    ensures Sum(Known(net, req)) <= Sum(Counts(req))
    ensures Sum(Known(net, req)) == Sum(Counts(req)) <==> AllKnown(net, req)
  {
    var common := map h | h in net.nodes && h in req && h != SUM_KEY :: req[h] as real;
    var inside := map h | h in req && h != SUM_KEY :: if h in net.nodes then req[h] as real else 0.0;
    var outside := map h | h in req && h != SUM_KEY :: if h in net.nodes then 0.0 else req[h] as real;
    SumOverPart(Known(net, req), common);
    SumOverPart(inside, common);
    SumAdds(inside, outside, Counts(req));
    ZeroSum(outside);
    if !AllKnown(net, req) {
      var h :| h in req && h != SUM_KEY && req[h] > 0 && h !in net.nodes;
      assert outside[h] != 0.0;
    }
  }

  lemma ZeroSum(m: map<Key, real>)
    requires forall k | k in m :: m[k] >= 0.0
    ensures Sum(m) >= 0.0 && (Sum(m) == 0.0 <==> forall k | k in m :: m[k] == 0.0)
  {
    SumIsNonNegative(m);
    if forall k | k in m :: m[k] == 0.0 { SumOfZeros(m); }
  }

  /** The pool is paid out, at most in full; in full exactly when every boosted handle is a node. */
  lemma WagesAreCovered(net: Net, req: Stimuli)
    requires NonNegative(net) && Divides(net, req) && SumIsExact(req)
    ensures Unpaid(net, req) >= 0.0
    ensures Unpaid(net, req) == 0.0 <==> Pool(net) == 0.0 || (req[SUM_KEY] > 0 && AllKnown(net, req))
  {
    PoolIsNonNegative(net);
    KnownIsPart(net, req);
    if req[SUM_KEY] > 0 {
      WagesAddUp(net, req);
      Covers(req[SUM_KEY] as real, Sum(Wages(net, req)), Pool(net), Sum(Known(net, req)));
    } else {
      SumOfZeros(Wages(net, req));
    }
  }

  lemma Covers(s: real, wages: real, pool: real, known: real)
    requires s > 0.0 && pool >= 0.0 && known <= s && Prod(s, wages) == Prod(pool, known)
    ensures wages <= pool
    ensures wages == pool <==> pool == 0.0 || known == s
  {
  }

  /** No isolated node has anything to set aside. */
  ghost predicate IsolatedAreIdle(net: Net, req: Stimuli) {
    forall h | Isolated(net, h) ::
      net.nodes[h].importance == 0.0 && (Pool(net) == 0.0 || Stimulus(req, h) == 0)
  }

  lemma LossSign(net: Net, req: Stimuli)
    requires NonNegative(net) && Divides(net, req)
    ensures Sum(Losses(net, req)) >= 0.0
    ensures Sum(Losses(net, req)) == 0.0 <==> IsolatedAreIdle(net, req)
  {
    PoolIsNonNegative(net);
    forall h | h in net.nodes
      ensures Losses(net, req)[h] >= 0.0
      ensures Losses(net, req)[h] == 0.0 <==>
              (Isolated(net, h) ==> net.nodes[h].importance == 0.0 && (Pool(net) == 0.0 || Stimulus(req, h) == 0))
    {
      UpdatedSign(net, req, h);
      WageSign(Pool(net), req, h);
      if Stimulus(req, h) != 0 { assert req[SUM_KEY] > 0; }
    }
    ZeroSum(Losses(net, req));
  }

  /**
   * Tokens stay fixed, as the spreader promises, exactly when the pool is paid out in full and no isolated
   * node sets anything aside. They never grow.
   */
  lemma ConservedExactlyWhen(net: Net, req: Stimuli)
    requires GraphSound(net) && NonNegative(net) && Divides(net, req) && SumIsExact(req)
    ensures Countable(net)
    ensures Total(Spread(net, req)) <= Total(net)
    ensures Total(Spread(net, req)) == Total(net) <==>
            (Pool(net) == 0.0 || (req[SUM_KEY] > 0 && AllKnown(net, req))) && IsolatedAreIdle(net, req)
  {
    TokensAreAccounted(net, req);
    WagesAreCovered(net, req);
    LossSign(net, req);
  }
}
