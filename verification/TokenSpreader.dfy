/** Stimulate requests, served in place on the network's objects: rent, wages, and one diffusion cycle. */
module TokenSpreaders {
  import opened Prelude
  import opened Keys
  import opened Sums
  import H = Hebbian
  import S = Spreading
  import opened HebbianNetworks

  class ImportanceChanges {
    var rent: real
    var wages: real

    constructor (r: real, w: real)
      ensures rent == r && wages == w
    {
      rent, wages := r, w;
    }

    ghost function View(): Changes
      reads this`rent, this`wages
    {
      Changes(rent, wages)
    }

    method Merge(other: ImportanceChanges)
      modifies this
      ensures rent == old(rent) + old(other.rent) && wages == old(wages) + old(other.wages)
    {
      rent := rent + other.rent;
      wages := wages + other.wages;
    }
  }

  datatype Changes = Changes(rent: real, wages: real)

  /** An insert of changes: they add up under a known handle. */
  ghost function Plus(m: map<Key, Changes>, h: Key, rent: real, wages: real): map<Key, Changes> {
    m[h := if h in m then Changes(m[h].rent + rent, m[h].wages + wages) else Changes(rent, wages)]
  }

  /** What the visit functions of one request share. */
  class StimuliData {
    const rentRate := S.RENT_RATE
    const spreadingRateLowerbound := S.SPREADING_RATE_LOWERBOUND
    const spreadingRateRangeSize := S.SPREADING_RATE_UPPERBOUND - S.SPREADING_RATE_LOWERBOUND
    const largestArity: nat
    var totalRent: real
    var importanceChanges: map<Key, ImportanceChanges>
    var toSpread: real
    var sumWeights: real

    constructor (largestArity: nat)
      ensures this.largestArity == largestArity && totalRent == 0.0 && importanceChanges == map[]
    {
      this.largestArity, totalRent, importanceChanges := largestArity, 0.0, map[];
    }

    /** Each handle has a changes object of its own. */
    ghost predicate Valid()
      reads this`importanceChanges
    {
      forall h, k | h in importanceChanges && k in importanceChanges && h != k ::
             importanceChanges[h] != importanceChanges[k]
    }

    ghost function View(): map<Key, Changes>
      reads this`importanceChanges, importanceChanges.Values`rent, importanceChanges.Values`wages
    {
      map h | h in importanceChanges :: importanceChanges[h].View()
    }

    /** Rent and wages of one handle add up over its inserts; the others stay as they are. */
    method InsertChanges(handle: Key, rent: real, wages: real)
      requires Valid()
      modifies this`importanceChanges, importanceChanges.Values
      ensures Valid() && View() == Plus(old(View()), handle, rent, wages)
      ensures forall c | c in importanceChanges.Values :: c in old(importanceChanges.Values) || fresh(c)
    {
      var c := new ImportanceChanges(rent, wages);
      if handle in importanceChanges {
        importanceChanges[handle].Merge(c);
      } else {
        importanceChanges := importanceChanges[handle := c];
      }
    }
  }

  ghost function RentsOf(nodes: map<Key, Node>): map<Key, real>
    reads nodes.Values`importance
  {
    map h | h in nodes :: S.RENT_RATE * nodes[h].importance
  }

  ghost function ImportancesOf(nodes: map<Key, Node>): map<Key, real>
    reads nodes.Values`importance
  {
    map h | h in nodes :: nodes[h].importance
  }

  ghost function Collected(rents: map<Key, real>): map<Key, Changes> {
    map h | h in rents :: Changes(rents[h], 0.0)
  }

  lemma CollectedGrows(rents: map<Key, real>, todo: set<Key>, h: Key)
    requires h in rents && h in todo
    ensures Plus(Collected(rents - todo), h, rents[h], 0.0) == Collected(rents - (todo - {h}))
    ensures Sum(rents - (todo - {h})) == Sum(rents - todo) + rents[h]
  {
    assert rents - (todo - {h}) == (rents - todo)[h := rents[h]];
    SumPuts(rents - todo, h, rents[h]);
  }

  class TokenSpreader {
    constructor () {}

    method CollectRent(node: Node, suffix: Key, data: StimuliData, ghost due: real)
      requires data.Valid() && due == S.RENT_RATE * node.importance
      modifies data`totalRent, data`importanceChanges, data.importanceChanges.Values
      ensures data.Valid() && data.totalRent == old(data.totalRent) + due
      ensures data.View() == Plus(old(data.View()), suffix, due, 0.0)
      ensures forall c | c in data.importanceChanges.Values :: c in old(data.importanceChanges.Values) || fresh(c)
    {
      var rent := data.rentRate * node.importance;
      data.totalRent := data.totalRent + rent;
      data.InsertChanges(suffix, rent, 0.0);
    }

    /** The first traversal, in whatever order the nodes come. */
    method CollectRents(nodes: map<Key, Node>, data: StimuliData)
      requires data.Valid() && data.importanceChanges == map[] && data.totalRent == 0.0
      modifies data`totalRent, data`importanceChanges
      ensures data.Valid() && forall c | c in data.importanceChanges.Values :: fresh(c)
      ensures data.View() == Collected(RentsOf(nodes)) && data.totalRent == Sum(RentsOf(nodes))
    {
      ghost var rents := RentsOf(nodes);
      var todo := nodes.Keys;
      while todo != {}
        invariant data.Valid() && forall c | c in data.importanceChanges.Values :: fresh(c)
        invariant todo <= nodes.Keys
        invariant data.View() == Collected(rents - todo) && data.totalRent == Sum(rents - todo)
      {
        var h :| h in todo;
        CollectedGrows(rents, todo, h);
        assert RentsOf(nodes) == rents;
        CollectRent(nodes[h], h, data, rents[h]);
        todo := todo - {h};
      }
      assert rents - todo == rents;
    }

    /**
     * Each count of the request becomes its part of the total. A missing "SUM", and a key that is no
     * handle, are errors.
     */
    method DistributeWages(req: S.Stimuli, total: real, data: StimuliData) returns (ok: bool)
      requires data.Valid() && (S.SUM_KEY in req && req.Keys != {S.SUM_KEY} ==> req[S.SUM_KEY] > 0)
      modifies data`importanceChanges, data.importanceChanges.Values
      ensures data.Valid() && (ok <==> !S.Rejected(req))
      ensures ok ==> data.View() == Waged(old(data.View()), req, total, req.Keys)
    {
      if S.SUM_KEY !in req {
        return false;
      }
      var totalWages := req[S.SUM_KEY];
      var todo := req.Keys;
      ghost var changes, owned := data.View(), data.importanceChanges.Values;
      assert Waged(changes, req, total, req.Keys - todo) == changes;
      while todo != {}
        invariant data.Valid() && forall c | c in data.importanceChanges.Values :: c in owned || fresh(c)
        invariant todo <= req.Keys && forall h | h in req && h !in todo :: h == S.SUM_KEY || |h| == H.HANDLE_SIZE
        invariant data.View() == Waged(changes, req, total, req.Keys - todo)
      {
        var h :| h in todo;
        WagedGrows(changes, req, total, todo, h);
        if h != S.SUM_KEY {
          var normalizedAmount := ((req[h] as real) * total) / totalWages as real;
          if |h| != H.HANDLE_SIZE {
            return false;
          }
          data.InsertChanges(h, 0.0, normalizedAmount);
        }
        todo := todo - {h};
      }
      assert req.Keys - todo == req.Keys;
      ok := true;
    }

    // ---------------------------------------------------------------- consolidation

    method ConsolidateRentAndWages(node: Node, suffix: Key, data: StimuliData, ghost c: Changes)
      requires suffix in data.importanceChanges && data.importanceChanges[suffix].View() == c && data.largestArity > 0
      modifies node`importance, node`stimuliToSpread
      ensures node.stimuliToSpread == Prod(Consolidated(old(node.importance), c),
              S.RateOf(node.arity, data.largestArity))
      ensures node.importance == Consolidated(old(node.importance), c) - node.stimuliToSpread
    {
      var changes := data.importanceChanges[suffix];
      node.importance := node.importance - changes.rent;
      node.importance := node.importance + changes.wages;
      var arityRatio := node.arity as real / data.largestArity as real;
      var spreadingRate := data.spreadingRateLowerbound + data.spreadingRateRangeSize * arityRatio;
      var toSpread := Prod(node.importance, spreadingRate);
      node.importance := node.importance - toSpread;
      node.stimuliToSpread := toSpread;
    }

    /** One node comes to what is planned for it. */
    method ConsolidateOne(nodes: map<Key, Node>, node: Node, h: Key, data: StimuliData, ghost plan: Plan,
                          ghost amounts: map<Key, real>, ghost spreads: map<Key, real>)
      requires OneEach(nodes) && h in nodes && node == nodes[h] && amounts == ImportancesOf(nodes)
               && spreads == ToSpreadOf(nodes)
      requires plan.For(h) && plan.largestArity == data.largestArity && amounts[h] == plan.amounts[h]
      requires node.arity == plan.arities[h] && h in data.importanceChanges && data.View()[h] == plan.changes[h]
      modifies node`importance, node`stimuliToSpread
      ensures ImportancesOf(nodes) == amounts[h := plan.left[h]] && ToSpreadOf(nodes) == spreads[h := plan.aside[h]]
      ensures data.View() == old(data.View()) && ArityOf(nodes) == old(ArityOf(nodes))
    {
      ConsolidateRentAndWages(node, h, data, plan.changes[h]);
      OneValue(amounts, ImportancesOf(nodes), h, plan.left[h]);
      OneValue(spreads, ToSpreadOf(nodes), h, plan.aside[h]);
    }

    /** The second traversal. */
    method ConsolidateNetwork(nodes: map<Key, Node>, data: StimuliData, ghost plan: Plan)
      requires plan.changes == data.View() && plan.largestArity == data.largestArity
      requires OneEach(nodes) && plan.amounts == ImportancesOf(nodes) && plan.arities == ArityOf(nodes)
      requires forall h {:trigger plan.For(h)} | h in nodes :: plan.For(h)
      requires nodes.Keys == plan.aside.Keys == plan.left.Keys
      modifies nodes.Values`importance, nodes.Values`stimuliToSpread
      ensures ToSpreadOf(nodes) == plan.aside && ImportancesOf(nodes) == plan.left
    {
      var todo := nodes.Keys;
      ghost var before := ToSpreadOf(nodes);
      NothingMixed(plan.amounts, plan.left);
      NothingMixed(before, plan.aside);
      while todo != {}
        invariant todo <= nodes.Keys && data.View() == plan.changes && ArityOf(nodes) == plan.arities
        invariant ImportancesOf(nodes) == Mixed(plan.amounts, plan.left, todo)
        invariant ToSpreadOf(nodes) == Mixed(before, plan.aside, todo)
      {
        var h :| h in todo;
        assert plan.For(h) && nodes[h].arity == ArityOf(nodes)[h] && h in data.View();
        MixedShrinks(plan.amounts, plan.left, todo, h);
        MixedShrinks(before, plan.aside, todo, h);
        ConsolidateOne(nodes, nodes[h], h, data, plan, ImportancesOf(nodes), ToSpreadOf(nodes));
        todo := todo - {h};
      }
      NothingLeftMixed(plan.amounts, plan.left);
      NothingLeftMixed(before, plan.aside);
    }

    // ---------------------------------------------------------------- diffusion

    method SumWeights(edge: Edge, data: StimuliData)
      requires edge.node1.Some? && edge.node1.value.count > 0
      modifies data`sumWeights
      ensures data.sumWeights == old(data.sumWeights) + S.WeightOf(edge.count, edge.node1.value.count)
    {
      var w := edge.count as real / edge.node1.value.count as real;
      data.sumWeights := data.sumWeights + w;
    }

    /** The traversal of a node's neighbours that sums their weights. */
    method SumAllWeights(ghost nodes: map<Key, Node>, node: Node, data: StimuliData, ghost weights: map<Key, real>)
      requires node.count > 0 && Attached(nodes, node) && weights == WeightsOf(node)
      modifies data`sumWeights
      ensures data.sumWeights == old(data.sumWeights) + Sum(weights)
    {
      var todo := node.neighbors.Keys;
      assert weights - todo == map[];
      while todo != {}
        invariant todo <= node.neighbors.Keys && data.sumWeights == old(data.sumWeights) + Sum(weights - todo)
      {
        var b :| b in todo;
        CollectedGrows(weights, todo, b);
        SumWeights(node.neighbors[b], data);
        todo := todo - {b};
      }
      assert weights - todo == weights;
    }

    method DeliverStimulus(edge: Edge, data: StimuliData)
      requires edge.node1.Some? && edge.node1.value.count > 0 && edge.node2.Some? && data.sumWeights > 0.0
      modifies edge.node2.value`importance
      ensures edge.node2.value.importance == old(edge.node2.value.importance) +
              S.Portion(S.WeightOf(edge.count, edge.node1.value.count), data.sumWeights, data.toSpread)
    {
      var w := edge.count as real / edge.node1.value.count as real;
      var stimulus := (w / data.sumWeights) * data.toSpread;
      edge.node2.value.importance := edge.node2.value.importance + stimulus;
    }

    /** One neighbour gets its portion. */
    method DeliverOne(nodes: map<Key, Node>, node: Node, b: Key, data: StimuliData,
                      ghost amounts: map<Key, real>, ghost portions: map<Key, real>, ghost after: real)
      requires OneEach(nodes) && node.count > 0 && Attached(nodes, node) && b in node.neighbors && data.sumWeights > 0.0
      requires amounts == ImportancesOf(nodes) && portions == Portions(nodes.Keys, node, data.sumWeights, data.toSpread)
      requires b in amounts && after == amounts[b] + portions[b]
      modifies nodes.Values`importance
      ensures ImportancesOf(nodes) == amounts[b := after]
      ensures Attached(nodes, node) && portions == Portions(nodes.Keys, node, data.sumWeights, data.toSpread)
    {
      DeliverStimulus(node.neighbors[b], data);
      OneValue(amounts, ImportancesOf(nodes), b, after);
    }

    /** The traversal of a node's neighbours that delivers to each its portion. */
    method DeliverAll(nodes: map<Key, Node>, node: Node, data: StimuliData,
                      ghost amounts: map<Key, real>, ghost portions: map<Key, real>)
      requires OneEach(nodes) && node.count > 0 && (node.neighbors != map[] ==> data.sumWeights > 0.0)
      requires Attached(nodes, node) && amounts == ImportancesOf(nodes)
      requires portions == Portions(nodes.Keys, node, data.sumWeights, data.toSpread)
      modifies nodes.Values`importance
      ensures ImportancesOf(nodes) == Added(amounts, portions)
    {
      var todo := node.neighbors.Keys;
      ghost var added := Added(amounts, portions);
      OthersGetNothing(amounts, portions, todo);
      while todo != {}
        invariant todo <= node.neighbors.Keys && Attached(nodes, node)
        invariant portions == Portions(nodes.Keys, node, data.sumWeights, data.toSpread)
        invariant ImportancesOf(nodes) == Mixed(amounts, added, todo)
      {
        var b :| b in todo;
        MixedShrinks(amounts, added, todo, b);
        DeliverOne(nodes, node, b, data, ImportancesOf(nodes), portions, added[b]);
        todo := todo - {b};
      }
      NothingLeftMixed(amounts, added);
    }

    lemma OthersGetNothing(amounts: map<Key, real>, portions: map<Key, real>, todo: set<Key>)
      requires amounts.Keys == portions.Keys && forall h | h in portions && h !in todo :: portions[h] == 0.0
      ensures Mixed(amounts, Added(amounts, portions), todo) == amounts
    {
    }

    /** The amount to spread, and the weights summed up from zero. */
    method Prepare(ghost nodes: map<Key, Node>, node: Node, data: StimuliData, ghost weights: map<Key, real>)
      requires node.count > 0 && Attached(nodes, node) && weights == WeightsOf(node)
      modifies data`toSpread, data`sumWeights
      ensures data.toSpread == node.stimuliToSpread && data.sumWeights == Sum(weights)
    {
      data.toSpread := node.stimuliToSpread;
      data.sumWeights := 0.0;
      SumAllWeights(nodes, node, data, weights);
    }

    /** One node spreads: its weights are summed, its neighbours get their portions, and it has nothing left. */
    method ConsolidateStimulus(nodes: map<Key, Node>, node: Node, data: StimuliData, ghost amounts: map<Key, real>,
                               ghost weights: map<Key, real>, ghost portions: map<Key, real>)
      requires OneEach(nodes) && node.count > 0 && Attached(nodes, node)
               && (node.neighbors != map[] ==> Sum(weights) > 0.0)
      requires amounts == ImportancesOf(nodes) && weights == WeightsOf(node)
      requires portions == Portions(nodes.Keys, node, Sum(weights), node.stimuliToSpread)
      modifies data`toSpread, data`sumWeights, nodes.Values`importance, node`stimuliToSpread
      ensures node.stimuliToSpread == 0.0
      ensures ImportancesOf(nodes) == Added(amounts, portions)
    {
      Prepare(nodes, node, data, weights);
      assert amounts == ImportancesOf(nodes);
      assert Attached(nodes, node);
      assert portions == Portions(nodes.Keys, node, data.sumWeights, data.toSpread);
      DeliverAll(nodes, node, data, amounts, portions);
      node.stimuliToSpread := 0.0;
    }

    /** What one node spreads, in the terms of the network's value. */
    method SpreadOne(nodes: map<Key, Node>, node: Node, data: StimuliData, ghost edges: set<Edge>, ghost net: H.Net,
                     ghost i: Key,
                     ghost amounts: map<Key, real>)
      requires Mirrors(nodes, edges, net) && S.Countable(net) && i in nodes && node == nodes[i]
               && amounts == ImportancesOf(nodes)
      modifies data`toSpread, data`sumWeights, nodes.Values`importance, node`stimuliToSpread
      ensures node.stimuliToSpread == 0.0
      ensures ImportancesOf(nodes) == Added(amounts, DeliveredBy(net, i, old(node.stimuliToSpread), nodes.Keys))
    {
      SameWeights(nodes, edges, net, i);
      ghost var portions := DeliveredBy(net, i, node.stimuliToSpread, nodes.Keys);
      assert portions == Portions(nodes.Keys, node, Sum(S.Weights(net, i)), node.stimuliToSpread);
      ConsolidateStimulus(nodes, node, data, amounts, S.Weights(net, i), portions);
    }

    /** It leaves the graph as it is, and the other nodes with what they have to spread. */
    method SpreadFrom(nodes: map<Key, Node>, node: Node, data: StimuliData, ghost edges: set<Edge>, ghost net: H.Net,
                      ghost i: Key,
                      ghost amounts: map<Key, real>)
      requires Mirrors(nodes, edges, net) && S.Countable(net) && i in nodes && node == nodes[i]
               && amounts == ImportancesOf(nodes)
      modifies data`toSpread, data`sumWeights, nodes.Values`importance, node`stimuliToSpread
      ensures Mirrors(nodes, edges, net) && ToSpreadOf(nodes) == old(ToSpreadOf(nodes))[i := 0.0]
      ensures ImportancesOf(nodes) == Added(amounts, DeliveredBy(net, i, old(node.stimuliToSpread), nodes.Keys))
    {
      ghost var spreads := ToSpreadOf(nodes);
      SpreadOne(nodes, node, data, edges, net, i, amounts);
      OneValue(spreads, ToSpreadOf(nodes), i, 0.0);
    }

    /** The third traversal: in place and in whatever order, every node spreads once. */
    method DiffuseAll(nodes: map<Key, Node>, data: StimuliData, ghost edges: set<Edge>, ghost net: H.Net,
                      ghost amounts: map<Key, real>,
                      ghost spreads: map<Key, real>)
      requires Mirrors(nodes, edges, net) && S.Countable(net)
      requires amounts == ImportancesOf(nodes) && spreads == ToSpreadOf(nodes)
      modifies data`toSpread, data`sumWeights, nodes.Values`importance, nodes.Values`stimuliToSpread
      ensures Mirrors(nodes, edges, net)
      ensures ImportancesOf(nodes) == Received(net, amounts, spreads, nodes.Keys)
      ensures ToSpreadOf(nodes) == Left(spreads, {})
    {
      var todo := nodes.Keys;
      NothingReceived(net, amounts, spreads);
      assert Left(spreads, todo) == spreads;
      while todo != {}
        invariant todo <= nodes.Keys && Mirrors(nodes, edges, net)
        invariant ImportancesOf(nodes) == Received(net, amounts, spreads, nodes.Keys - todo)
        invariant ToSpreadOf(nodes) == Left(spreads, todo)
      {
        var i :| i in todo;
        ReceivedGrows(net, amounts, spreads, nodes.Keys, todo, i);
        assert nodes[i].stimuliToSpread == ToSpreadOf(nodes)[i] == spreads[i];
        SpreadFrom(nodes, nodes[i], data, edges, net, i, ImportancesOf(nodes));
        LeftShrinks(spreads, todo, i);
        todo := todo - {i};
      }
      assert nodes.Keys - todo == nodes.Keys;
    }

    // ---------------------------------------------------------------- the request

    /** Rents are collected, the network's tokens are taken, and wages are paid from both. */
    method ChargeAndPay(network: HebbianNetwork, req: S.Stimuli, data: StimuliData, ghost rents: map<Key, real>,
                        ghost pool: real)
      returns (ok: bool)
      requires rents == RentsOf(network.nodes) && pool == network.tokensToDistribute + Sum(rents)
      requires S.SUM_KEY in req && req.Keys != {S.SUM_KEY} ==> req[S.SUM_KEY] > 0
      requires data.Valid() && data.importanceChanges == map[] && data.totalRent == 0.0
      modifies network`tokensToDistribute, data`totalRent, data`importanceChanges
      ensures data.Valid() && (ok <==> !S.Rejected(req)) && network.tokensToDistribute == 0.0
      ensures ok ==> data.View() == Waged(Collected(rents), req, pool, req.Keys)
    {
      CollectRents(network.nodes, data);
      var totalToSpread := network.AlienateTokens();
      totalToSpread := totalToSpread + data.totalRent;
      assert totalToSpread == pool && data.View() == Collected(rents);
      SamePool(Collected(rents), req, totalToSpread, pool);
      ok := DistributeWages(req, totalToSpread, data);
    }

    /** This changes no node. */
    method ChargeKeepingNodes(network: HebbianNetwork, req: S.Stimuli, data: StimuliData, ghost rents: map<Key, real>,
                              ghost pool: real, ghost amounts: map<Key, real>, ghost spreads: map<Key, real>)
      returns (ok: bool)
      requires amounts == ImportancesOf(network.nodes) && spreads == ToSpreadOf(network.nodes)
      requires rents == RentsOf(network.nodes) && pool == network.tokensToDistribute + Sum(rents)
      requires S.SUM_KEY in req && req.Keys != {S.SUM_KEY} ==> req[S.SUM_KEY] > 0
      requires data.Valid() && data.importanceChanges == map[] && data.totalRent == 0.0
      modifies network`tokensToDistribute, data`totalRent, data`importanceChanges
      ensures data.Valid() && (ok <==> !S.Rejected(req)) && network.tokensToDistribute == 0.0
      ensures ok ==> data.View() == Waged(Collected(rents), req, pool, req.Keys)
      ensures ImportancesOf(network.nodes) == amounts && ToSpreadOf(network.nodes) == spreads
    {
      ok := ChargeAndPay(network, req, data, rents, pool);
    }

    lemma RentsMatch(nodes: map<Key, Node>, net: H.Net)
      requires ImportancesOf(nodes) == S.Importances(net)
      ensures RentsOf(nodes) == S.Rents(net)
    {
    }

    /** Where the simultaneous formula wants each node to come. */
    ghost function PlanOf(net: H.Net, req: S.Stimuli): Plan
      requires net.nodes != map[] ==> net.largestArity > 0
    {
      Plan(S.Importances(net), Waged(Collected(S.Rents(net)), req, S.Pool(net), req.Keys),
           ArityMap(net), net.largestArity, S.Spreads(net, req), S.Kept(net, req))
    }

    lemma PlanIsFor(net: H.Net, req: S.Stimuli, h: Key)
      requires h in net.nodes && net.largestArity > 0 && S.SUM_KEY in req
      ensures PlanOf(net, req).For(h)
    {
      var plan := PlanOf(net, req);
      assert Consolidated(plan.amounts[h], plan.changes[h]) == S.Updated(net, req, h);
    }

    /** Consolidation and diffusion turn the importances into those of the simultaneous formula. */
    method Redistribute(nodes: map<Key, Node>, data: StimuliData, ghost edges: set<Edge>, ghost net: H.Net,
                        ghost req: S.Stimuli)
      requires Mirrors(nodes, edges, net) && S.Countable(net) && data.largestArity == net.largestArity
      requires S.SUM_KEY in req && (net.nodes != map[] ==> net.largestArity > 0)
      requires ImportancesOf(nodes) == S.Importances(net)
      requires data.View() == Waged(Collected(S.Rents(net)), req, S.Pool(net), req.Keys)
      modifies data`toSpread, data`sumWeights, nodes.Values`importance, nodes.Values`stimuliToSpread
      ensures Mirrors(nodes, edges, net)
      ensures ImportancesOf(nodes) == Received(net, S.Kept(net, req), S.Spreads(net, req), nodes.Keys)
      ensures ToSpreadOf(nodes) == Left(S.Spreads(net, req), {})
    {
      AritiesMatch(nodes, edges, net);
      forall h | h in nodes
        ensures PlanOf(net, req).For(h)
      {
        PlanIsFor(net, req, h);
      }
      ConsolidateNetwork(nodes, data, PlanOf(net, req));
      assert Mirrors(nodes, edges, net);
      DiffuseAll(nodes, data, edges, net, S.Kept(net, req), S.Spreads(net, req));
    }

    lemma NothingLeft(net: H.Net, req: S.Stimuli)
      requires S.Countable(net) && S.Divides(net, req)
      ensures Left(S.Spreads(net, req), {}) == ToSpreads(S.Spread(net, req))
    {
      SameMap(Left(S.Spreads(net, req), {}), ToSpreads(S.Spread(net, req)));
    }

    method RedistributeAll(nodes: map<Key, Node>, data: StimuliData, ghost edges: set<Edge>, ghost net: H.Net,
                           ghost req: S.Stimuli)
      requires Mirrors(nodes, edges, net) && S.Countable(net) && data.largestArity == net.largestArity
               && S.Divides(net, req)
      requires ImportancesOf(nodes) == S.Importances(net)
      requires data.View() == Waged(Collected(S.Rents(net)), req, S.Pool(net), req.Keys)
      modifies data`toSpread, data`sumWeights, nodes.Values`importance, nodes.Values`stimuliToSpread
      ensures Mirrors(nodes, edges, net)
      ensures ImportancesOf(nodes) == S.Importances(S.Spread(net, req))
              && ToSpreadOf(nodes) == ToSpreads(S.Spread(net, req))
    {
      Redistribute(nodes, data, edges, net, req);
      SpreadIsReached(net, req);
      NothingLeft(net, req);
    }

    method SpreadOn(hn: HebbianNetwork, req: S.Stimuli, ghost edges: set<Edge>, ghost net: H.Net) returns (ok: bool)
      requires Mirrors(hn.nodes, edges, net) && S.Countable(net) && (S.Rejected(req) || S.Divides(net, req))
      requires ImportancesOf(hn.nodes) == S.Importances(net) && ToSpreadOf(hn.nodes) == ToSpreads(net)
      requires hn.largestArity == net.largestArity && hn.tokensToDistribute == net.tokens
      requires S.SUM_KEY in req && req.Keys != {S.SUM_KEY} ==> req[S.SUM_KEY] > 0
      modifies hn`tokensToDistribute, hn.nodes.Values`importance, hn.nodes.Values`stimuliToSpread
      ensures Mirrors(hn.nodes, edges, net) && (ok <==> !S.Rejected(req)) && hn.tokensToDistribute == 0.0
      ensures ImportancesOf(hn.nodes) == S.Importances(S.Spread(net, req))
              && ToSpreadOf(hn.nodes) == ToSpreads(S.Spread(net, req))
    {
      var data := new StimuliData(hn.largestArity);
      RentsMatch(hn.nodes, net);
      ok := ChargeKeepingNodes(hn, req, data, S.Rents(net), S.Pool(net), S.Importances(net), ToSpreads(net));
      assert Mirrors(hn.nodes, edges, net);
      if !ok {
        RejectedKeeps(net, req);
        return;
      }
      RedistributeAll(hn.nodes, data, edges, net, req);
    }

    lemma RejectedKeeps(net: H.Net, req: S.Stimuli)
      requires S.Countable(net) && S.Rejected(req)
      ensures S.Importances(S.Spread(net, req)) == S.Importances(net) && ToSpreads(S.Spread(net, req)) == ToSpreads(net)
    {
    }

    /** A stimulate request. Its errors come after the network's tokens have been taken. */
    method SpreadStimuli(network: Option<HebbianNetwork>, req: S.Stimuli) returns (ok: bool)
      requires network.Some? ==> network.value.Valid() && S.Countable(network.value.View())
      requires network.Some? ==> forall h | h in req :: network.value.Takes(h)
      requires network.Some? && S.SUM_KEY in req && req.Keys != {S.SUM_KEY} ==> req[S.SUM_KEY] > 0
      requires network.Some? && network.value.nodes != map[] ==> network.value.largestArity > 0
      modifies if network.Some? then {network.value} else {}, if network.Some? then network.value.nodes.Values else {}
      ensures network.None? ==> ok
      ensures network.Some? ==>
                && network.value.Valid()
                && (ok <==> S.SUM_KEY in req && forall h | h in req :: h == S.SUM_KEY || |h| == 32)
      ensures network.Some? ==> network.value.View() == S.Spread(old(network.value.View()), req)
      ensures !ok ==> network.Some? && network.value.View() == old(network.value.View()).(tokens := 0.0)
    {
      if network == None {
        return true;
      }
      var hn := network.value;
      ghost var net, edges := hn.View(), hn.EdgeObjects();
      ValidMirrors(hn);
      ok := SpreadOn(hn, req, edges, net);
      S.SpreadKeepsGraph(net, req);
      MirrorsValid(hn, edges, net, S.Spread(net, req));
    }

    lemma AritiesMatch(nodes: map<Key, Node>, edges: set<Edge>, net: H.Net)
      requires Mirrors(nodes, edges, net)
      ensures ArityOf(nodes) == ArityMap(net)
    {
      forall h | h in nodes
        ensures nodes[h].arity == net.nodes[h].arity
      {
        assert MirrorsAt(nodes, edges, net, h);
      }
    }

    lemma SpreadIsReached(net: H.Net, req: S.Stimuli)
      requires S.Countable(net) && S.Divides(net, req)
      ensures Received(net, S.Kept(net, req), S.Spreads(net, req), net.nodes.Keys) == S.Importances(S.Spread(net, req))
    {
      forall h | h in net.nodes
        ensures Received(net, S.Kept(net, req), S.Spreads(net, req), net.nodes.Keys)[h] == S.Final(net, req, h)
      {
        assert Column(Table(net, S.Spreads(net, req)), net.nodes.Keys, h) == Column(S.Sent(net, req), net.nodes.Keys,
               h);
      }
      SameMap(Received(net, S.Kept(net, req), S.Spreads(net, req), net.nodes.Keys), S.Importances(S.Spread(net, req)));
    }

    lemma ValidMirrors(hn: HebbianNetwork)
      requires hn.Valid() && S.Countable(hn.View())
      ensures Mirrors(hn.nodes, hn.EdgeObjects(), hn.View()) && ImportancesOf(hn.nodes) == S.Importances(hn.View())
      ensures ToSpreadOf(hn.nodes) == ToSpreads(hn.View())
    {
      hn.NodesApart();
      forall i | i in hn.nodes
        ensures MirrorsAt(hn.nodes, hn.EdgeObjects(), hn.View(), i)
      {
        forall b | b in hn.nodes[i].neighbors
          ensures hn.nodes[i].neighbors[b].count > 0 && b in hn.nodes
          ensures hn.nodes[i].neighbors[b].node1 == Some(hn.nodes[i])
                  && hn.nodes[i].neighbors[b].node2 == Some(hn.nodes[b])
        {
          assert Tied(hn.Cells(), i, b);
        }
      }
    }

    lemma SameNeighbors(hn: HebbianNetwork, edges: set<Edge>, net: H.Net, h: Key)
      requires Mirrors(hn.nodes, edges, net) && h in hn.nodes
      ensures NodeOf(hn.nodes[h].View()).neighbors == net.nodes[h].neighbors
    {
      assert MirrorsAt(hn.nodes, edges, net, h);
    }

    lemma MirrorsValid(hn: HebbianNetwork, edges: set<Edge>, net: H.Net, net': H.Net)
      requires Mirrors(hn.nodes, edges, net) && S.SameGraph(net, net')
      requires ImportancesOf(hn.nodes) == S.Importances(net') && ToSpreadOf(hn.nodes) == ToSpreads(net')
      requires hn.largestArity == net'.largestArity && hn.tokensToDistribute == net'.tokens
      ensures hn.Valid() && hn.View() == net'
    {
      forall a, b | a in hn.Cells() && b in hn.Cells()[a].links
        ensures Tied(hn.Cells(), a, b)
      {
        assert MirrorsAt(hn.nodes, edges, net, a);
      }
      forall h | h in hn.nodes
        ensures NodeOf(hn.nodes[h].View()) == net'.nodes[h]
      {
        assert MirrorsAt(hn.nodes, edges, net, h);
        assert hn.nodes[h].importance == ImportancesOf(hn.nodes)[h]
               && hn.nodes[h].stimuliToSpread == ToSpreadOf(hn.nodes)[h];
        SameNeighbors(hn, edges, net, h);
      }
    }

    lemma SameWeights(nodes: map<Key, Node>, edges: set<Edge>, net: H.Net, i: Key)
      requires Mirrors(nodes, edges, net) && S.Countable(net) && i in nodes
      ensures MirrorsAt(nodes, edges, net, i) && WeightsOf(nodes[i]) == S.Weights(net, i)
      ensures nodes[i].neighbors != map[] ==> Sum(S.Weights(net, i)) > 0.0
      ensures forall amount: real, h :: PortionOf(nodes[i], h, Sum(S.Weights(net, i)), amount) == S.Delivery(net, i,
              amount, h)
    {
      assert MirrorsAt(nodes, edges, net, i);
      forall b | b in nodes[i].neighbors
        ensures S.Weights(net, i)[b] > 0.0
      {
        PositiveWeight(nodes[i].neighbors[b].count, nodes[i].count);
      }
      SumIsNonNegative(S.Weights(net, i));
    }

    lemma PositiveWeight(edgeCount: nat, nodeCount: nat)
      requires edgeCount > 0 && nodeCount > 0
      ensures S.WeightOf(edgeCount, nodeCount) > 0.0
    {
    }
  }

  ghost function ToSpreads(net: H.Net): map<Key, real> {
    map h | h in net.nodes :: net.nodes[h].toSpread
  }

  ghost function ArityOf(nodes: map<Key, Node>): map<Key, nat>
    reads nodes.Values`arity
  {
    map h | h in nodes :: nodes[h].arity
  }

  ghost function ToSpreadOf(nodes: map<Key, Node>): map<Key, real>
    reads nodes.Values`stimuliToSpread
  {
    map h | h in nodes :: nodes[h].stimuliToSpread
  }

  /** Only the nodes in `todo` have not spread yet. */
  ghost function Left(spreads: map<Key, real>, todo: set<Key>): map<Key, real> {
    map h | h in spreads :: if h in todo then spreads[h] else 0.0
  }

  lemma LeftShrinks(spreads: map<Key, real>, todo: set<Key>, i: Key)
    requires i in spreads
    ensures Left(spreads, todo)[i := 0.0] == Left(spreads, todo - {i})
  {
  }

  lemma OneValue(m: map<Key, real>, m': map<Key, real>, i: Key, x: real)
    requires i in m && m'.Keys == m.Keys && m'[i] == x && forall h | h in m && h != i :: m'[h] == m[h]
    ensures m' == m[i := x]
  {
  }

  /** The values of `m` for the keys in `todo`, and those of `m'` for the others. */
  ghost function Mixed(m: map<Key, real>, m': map<Key, real>, todo: set<Key>): map<Key, real>
    requires m.Keys == m'.Keys
  {
    map h | h in m :: if h in todo then m[h] else m'[h]
  }

  lemma NothingMixed(m: map<Key, real>, m': map<Key, real>)
    requires m.Keys == m'.Keys
    ensures Mixed(m, m', m.Keys) == m
  {
  }

  lemma NothingLeftMixed(m: map<Key, real>, m': map<Key, real>)
    requires m.Keys == m'.Keys
    ensures Mixed(m, m', {}) == m'
  {
  }

  lemma MixedShrinks(m: map<Key, real>, m': map<Key, real>, todo: set<Key>, h: Key)
    requires m.Keys == m'.Keys && h in m && h in todo
    ensures Mixed(m, m', todo)[h] == m[h] && Mixed(m, m', todo)[h := m'[h]] == Mixed(m, m', todo - {h})
  {
  }

  ghost function DeliveredBy(net: H.Net, i: Key, amount: real, hs: set<Key>): map<Key, real>
    requires S.Countable(net)
  {
    map h | h in hs :: S.Delivery(net, i, amount, h)
  }

  /** What each node sends each other when they spread these amounts. */
  ghost function Table(net: H.Net, spreads: map<Key, real>): (Key, Key) -> real
    requires S.Countable(net)
  {
    (i, j) => if i in spreads then S.Delivery(net, i, spreads[i], j) else 0.0
  }

  /** The amounts, once the nodes in `done` have spread. */
  ghost function Received(net: H.Net, amounts: map<Key, real>, spreads: map<Key, real>, done: set<Key>): map<Key, real>
    requires S.Countable(net)
  {
    map h | h in amounts :: amounts[h] + Sum(Column(Table(net, spreads), done, h))
  }

  lemma NothingReceived(net: H.Net, amounts: map<Key, real>, spreads: map<Key, real>)
    requires S.Countable(net)
    ensures Received(net, amounts, spreads, {}) == amounts
  {
  }

  ghost function Added(a: map<Key, real>, b: map<Key, real>): map<Key, real>
    requires a.Keys == b.Keys
  {
    map h | h in a :: a[h] + b[h]
  }

  lemma OneMoreSends(net: H.Net, spreads: map<Key, real>, hs: set<Key>, todo: set<Key>, i: Key, h: Key)
    requires S.Countable(net) && spreads.Keys == hs && i in todo && todo <= hs
    ensures Sum(Column(Table(net, spreads), hs - (todo - {i}), h)) ==
            Sum(Column(Table(net, spreads), hs - todo, h)) + S.Delivery(net, i, spreads[i], h)
  {
    var f := Table(net, spreads);
    SumPuts(Column(f, hs - todo, h), i, f(i, h));
    assert Column(f, hs - (todo - {i}), h) == Column(f, hs - todo, h)[i := f(i, h)];
  }

  lemma ReceivedGrows(net: H.Net, amounts: map<Key, real>, spreads: map<Key, real>, hs: set<Key>, todo: set<Key>,
                      i: Key)
    requires S.Countable(net) && amounts.Keys == spreads.Keys == hs && i in todo && todo <= hs
    ensures Received(net, amounts, spreads, hs - (todo - {i})) ==
            Added(Received(net, amounts, spreads, hs - todo), DeliveredBy(net, i, spreads[i], hs))
  {
    var before, after := Received(net, amounts, spreads, hs - todo), Received(net, amounts, spreads, hs - (todo - {i}));
    var sent := DeliveredBy(net, i, spreads[i], hs);
    forall h | h in amounts
      ensures after[h] == before[h] + sent[h]
    {
      OneMoreSends(net, spreads, hs, todo, i, h);
    }
    AddedIs(before, sent, after);
  }

  lemma AddedIs(a: map<Key, real>, b: map<Key, real>, c: map<Key, real>)
    requires a.Keys == b.Keys == c.Keys && forall h | h in a :: c[h] == a[h] + b[h]
    ensures c == Added(a, b)
  {
  }

  /** The objects have the graph of `net`: all but importances and amounts to spread. */
  ghost predicate Mirrors(nodes: map<Key, Node>, edges: set<Edge>, net: H.Net)
    reads nodes.Values`arity, nodes.Values`count, nodes.Values`neighbors,
          edges`count, edges`node1, edges`node2
  {
    && OneEach(nodes) && nodes.Keys == net.nodes.Keys
    && forall i {:trigger MirrorsAt(nodes, edges, net, i)} | i in nodes :: MirrorsAt(nodes, edges, net, i)
  }

  ghost predicate MirrorsAt(nodes: map<Key, Node>, edges: set<Edge>, net: H.Net, i: Key)
    requires i in nodes && i in net.nodes
    reads nodes.Values`arity, nodes.Values`count, nodes.Values`neighbors,
          edges`count, edges`node1, edges`node2
  {
    var n, m := nodes[i], net.nodes[i];
    && n.arity == m.arity && n.count == m.count && n.neighbors.Keys == m.neighbors.Keys
    && forall b | b in n.neighbors ::
         && n.neighbors[b] in edges && n.neighbors[b].count == m.neighbors[b] > 0 && b in nodes
         && n.neighbors[b].node1 == Some(n) && n.neighbors[b].node2 == Some(nodes[b])
  }

  ghost predicate OneEach(nodes: map<Key, Node>) {
    forall h | h in nodes :: nodes[h].handle == h
  }

  /** What the second traversal starts from, and what each node is to set aside and to keep. */
  datatype Plan = Plan(amounts: map<Key, real>, changes: map<Key, Changes>, arities: map<Key, nat>, largestArity: nat,
                       aside: map<Key, real>, left: map<Key, real>) {
    ghost predicate For(h: Key) {
      && h in amounts && h in changes && h in arities && h in aside && h in left && largestArity > 0
      && aside[h] == Prod(Consolidated(amounts[h], changes[h]), S.RateOf(arities[h], largestArity))
      && left[h] == Consolidated(amounts[h], changes[h]) - aside[h]
    }
  }

  function Consolidated(importance: real, c: Changes): real {
    importance - c.rent + c.wages
  }

  ghost function ArityMap(net: H.Net): map<Key, nat> {
    map h | h in net.nodes :: net.nodes[h].arity
  }

  lemma SameMap(a: map<Key, real>, b: map<Key, real>)
    requires a.Keys == b.Keys && forall h | h in a :: a[h] == b[h]
    ensures a == b
  {
  }

  ghost function WeightsOf(node: Node): map<Key, real>
    requires node.count > 0
    reads node`count, node`neighbors, node.neighbors.Values`count
  {
    map b | b in node.neighbors :: S.WeightOf(node.neighbors[b].count, node.count)
  }

  /** Each edge of the node knows its two ends. */
  ghost predicate Attached(nodes: map<Key, Node>, node: Node)
    reads node`neighbors, node.neighbors.Values`node1, node.neighbors.Values`node2
  {
    forall b | b in node.neighbors ::
      b in nodes && node.neighbors[b].node1 == Some(node) && node.neighbors[b].node2 == Some(nodes[b])
  }

  ghost function Portions(hs: set<Key>, node: Node, weights: real, amount: real): map<Key, real>
    requires node.count > 0
    reads node`count, node`neighbors, node.neighbors.Values`count
  {
    map h | h in hs :: PortionOf(node, h, weights, amount)
  }

  ghost function PortionOf(node: Node, b: Key, weights: real, amount: real): real
    requires node.count > 0
    reads node`count, node`neighbors, node.neighbors.Values`count
  {
    if b in node.neighbors then S.Portion(S.WeightOf(node.neighbors[b].count, node.count), weights, amount) else 0.0
  }

  /** The wages of the handles in `done` are in. */
  ghost function Waged(changes: map<Key, Changes>, req: S.Stimuli, total: real, done: set<Key>): map<Key, Changes> {
    map h | h in changes.Keys + (done - {S.SUM_KEY}) ::
      var c := if h in changes then changes[h] else Changes(0.0, 0.0);
      if h in done then Changes(c.rent, c.wages + S.Wage(total, req, h)) else c
  }

  lemma SamePool(changes: map<Key, Changes>, req: S.Stimuli, total: real, pool: real)
    requires total == pool
    ensures Waged(changes, req, total, req.Keys) == Waged(changes, req, pool, req.Keys)
  {
  }

  lemma WagedGrows(changes: map<Key, Changes>, req: S.Stimuli, total: real, todo: set<Key>, h: Key)
    requires h in todo && todo <= req.Keys && S.SUM_KEY in req && (req.Keys != {S.SUM_KEY} ==> req[S.SUM_KEY] > 0)
    ensures var before := Waged(changes, req, total, req.Keys - todo);
            var after := Waged(changes, req, total, req.Keys - (todo - {h}));
            after == if h == S.SUM_KEY then before else Plus(before, h, 0.0, S.Wage(total, req, h))
  {
  }
}
