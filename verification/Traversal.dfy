/** The traversal stack: which keys each pending node still accounts for, and in what order they come. */
module Traversal {
  import opened Prelude
  import opened Keys
  import opened TrieHeap

  /** A node waiting on the stack, and the path it had when it was pushed. */
  datatype Spot<Id> = Spot(node: Id, zone: Key)

  /** A spot stays good while other threads insert: only leaves move, and only below their zone. */
  ghost predicate SpotOk<Id, V>(h: Heap<Id, V>, s: Spot<Id>) {
    && s.node in h
    && if h[s.node].Leaf() then s.zone <= h[s.node].suffix && |s.zone| <= h[s.node].suffixStart
       else h[s.node].path == s.zone
  }

  /** The traversal will still come to the key `k` through the spot `s`. */
  ghost predicate LeadsTo<Id, V>(h: Heap<Id, V>, s: Spot<Id>, k: Key) {
    s.node in h && s.zone <= k && (h[s.node].Leaf() ==> h[s.node].suffix == k)
  }

  ghost predicate Pending<Id, V>(h: Heap<Id, V>, stack: seq<Spot<Id>>, k: Key) {
    exists i | 0 <= i < |stack| :: LeadsTo(h, stack[i], k)
  }

  function Zones<Id>(stack: seq<Spot<Id>>): (zs: seq<Key>)
    ensures |zs| == |stack| && forall i | 0 <= i < |zs| :: zs[i] == stack[i].zone
  {
    seq(|stack|, i requires 0 <= i < |stack| => stack[i].zone)
  }

  /**
   * The traversal invariant, top of the stack first: what was visited and what is pending forms one
   * ascending list, and no key of `start` is lost.
   */
  ghost predicate Frontier<Id, V>(h: Heap<Id, V>, start: set<Key>, visited: seq<Key>, stack: seq<Spot<Id>>) {
    && Ascending(visited + Zones(stack))
    && (forall i | 0 <= i < |stack| :: SpotOk(h, stack[i]))
    && (forall i | 0 <= i < |visited| :: visited[i] in KeySet(h))
    && (forall k | k in start :: k in KeySet(h) && (k in visited || Pending(h, stack, k)))
  }

  /** The children of a node as spots, lowest slot on top. */
  function Expand<Id, V>(h: Heap<Id, V>, cs: seq<Option<Id>>, i: nat): seq<Spot<Id>>
    requires i <= |cs|
    requires forall c | 0 <= c < |cs| :: cs[c].Some? ==> cs[c].value in h
    decreases |cs| - i
  {
    if i == |cs| then []
    else if cs[i].None? then Expand(h, cs, i + 1)
    else [Spot(cs[i].value, h[cs[i].value].path)] + Expand(h, cs, i + 1)
  }

  ghost predicate Opens<Id, V>(h: Heap<Id, V>, x: Id, i: nat, s: Spot<Id>)
    requires x in h
  {
    && s.node in h && s.zone == h[s.node].path && |s.zone| == |h[x].path| + 1
    && h[x].path <= s.zone && i <= Slot(Last(s.zone))
    && SpotOk(h, s)
  }

  lemma ChildOpens<Id, V>(cfg: Config, h: Heap<Id, V>, root: Id, x: Id, c: nat)
    requires Wf(cfg, h, root) && x in h && !h[x].Leaf()
    requires c < ALPHABET_SIZE == |h[x].children| && h[x].children[c].Some?
    ensures var y := h[x].children[c].value;
            y in h && Opens(h, x, c, Spot(y, h[y].path)) && Slot(Last(h[y].path)) == c
  {
    assert NodeOk(cfg, h, root, x) && ChildOk(h, root, x, c);
    assert NodeOk(cfg, h, root, h[x].children[c].value);
  }

  lemma ChildrenInHeap<Id, V>(cfg: Config, h: Heap<Id, V>, root: Id, x: Id)
    requires Wf(cfg, h, root) && x in h
    ensures |h[x].children| == ALPHABET_SIZE
    ensures forall c | 0 <= c < ALPHABET_SIZE :: h[x].children[c].Some? ==> h[x].children[c].value in h
  {
    assert NodeOk(cfg, h, root, x);
    forall c | 0 <= c < ALPHABET_SIZE
      ensures h[x].children[c].Some? ==> h[x].children[c].value in h
    {
      assert ChildOk(h, root, x, c);
    }
  }

  lemma {:induction false} ExpandOpens<Id, V>(cfg: Config, h: Heap<Id, V>, root: Id, x: Id, i: nat, j: nat)
    requires Wf(cfg, h, root) && x in h && !h[x].Leaf() && i <= ALPHABET_SIZE == |h[x].children|
    requires forall c | 0 <= c < ALPHABET_SIZE :: h[x].children[c].Some? ==> h[x].children[c].value in h
    requires j < |Expand(h, h[x].children, i)|
    ensures Opens(h, x, i, Expand(h, h[x].children, i)[j])
    decreases ALPHABET_SIZE - i
  {
    if h[x].children[i].None? {
      ExpandOpens(cfg, h, root, x, i + 1, j);
    } else if j > 0 {
      ExpandOpens(cfg, h, root, x, i + 1, j - 1);
    } else {
      ChildOpens(cfg, h, root, x, i);
    }
  }

  lemma {:induction false} ExpandAscends<Id, V>(cfg: Config, h: Heap<Id, V>, root: Id, x: Id, i: nat, a: nat, b: nat)
    requires Wf(cfg, h, root) && x in h && !h[x].Leaf() && i <= ALPHABET_SIZE == |h[x].children|
    requires forall c | 0 <= c < ALPHABET_SIZE :: h[x].children[c].Some? ==> h[x].children[c].value in h
    requires a < b < |Expand(h, h[x].children, i)|
    ensures Precedes(Expand(h, h[x].children, i)[a].zone, Expand(h, h[x].children, i)[b].zone)
    decreases ALPHABET_SIZE - i
  {
    if h[x].children[i].None? {
      ExpandAscends(cfg, h, root, x, i + 1, a, b);
    } else if a > 0 {
      ExpandAscends(cfg, h, root, x, i + 1, a - 1, b - 1);
    } else {
      var e := Expand(h, h[x].children, i);
      ChildOpens(cfg, h, root, x, i);
      ExpandOpens(cfg, h, root, x, i + 1, b - 1);
      assert DiffAt(e[0].zone, e[b].zone, |h[x].path|);
    }
  }

  lemma ExpandOk<Id, V>(cfg: Config, h: Heap<Id, V>, root: Id, x: Id)
    requires Wf(cfg, h, root) && x in h && !h[x].Leaf() && |h[x].children| == ALPHABET_SIZE
    requires forall c | 0 <= c < ALPHABET_SIZE :: h[x].children[c].Some? ==> h[x].children[c].value in h
    ensures var e := Expand(h, h[x].children, 0);
            && (forall j | 0 <= j < |e| :: Opens(h, x, 0, e[j]))
            && Ascending(Zones(e))
  {
    var e := Expand(h, h[x].children, 0);
    forall j | 0 <= j < |e|
      ensures Opens(h, x, 0, e[j])
    {
      ExpandOpens(cfg, h, root, x, 0, j);
    }
    forall a, b | 0 <= a < b < |e|
      ensures Precedes(Zones(e)[a], Zones(e)[b])
    {
      ExpandAscends(cfg, h, root, x, 0, a, b);
    }
  }

  lemma {:induction false} ExpandHas<Id, V>(h: Heap<Id, V>, cs: seq<Option<Id>>, i: nat, c: nat) returns (j: nat)
    requires i <= c < |cs| && cs[c].Some?
    requires forall c | 0 <= c < |cs| :: cs[c].Some? ==> cs[c].value in h
    ensures j < |Expand(h, cs, i)| && Expand(h, cs, i)[j] == Spot(cs[c].value, h[cs[c].value].path)
    decreases |cs| - i
  {
    if i == c {
      j := 0;
    } else {
      j := ExpandHas(h, cs, i + 1, c);
      if cs[i].Some? { j := j + 1; }
    }
  }

  /** The key comes after all that has been visited. */
  ghost predicate BeyondLast(visited: seq<Key>, k: Key) {
    visited != [] && Precedes(visited[|visited| - 1], k)
  }

  /** What has been visited ascends, and what is still pending lies beyond it. */
  lemma FrontierIsBeyond<Id, V>(h: Heap<Id, V>, start: set<Key>, visited: seq<Key>, stack: seq<Spot<Id>>)
    requires Frontier(h, start, visited, stack)
    ensures Ascending(visited)
    ensures visited != [] ==> forall k | k in start :: k in visited || BeyondLast(visited, k)
  {
    var w, n := visited + Zones(stack), |visited|;
    assert forall i | 0 <= i < n :: w[i] == visited[i];
    forall k | k in start && k !in visited && visited != []
      ensures BeyondLast(visited, k)
    {
      var i :| 0 <= i < |stack| && LeadsTo(h, stack[i], k);
      assert w[n + i] == stack[i].zone;
      PrecedesExtends(w[n - 1], w[n + i], w[n - 1], k);
    }
  }

  // ---------------------------------------------------------------- the two things a traversal step does

  /** Visiting the leaf on top of the stack. */
  lemma VisitLeaf<Id, V>(h: Heap<Id, V>, start: set<Key>, visited: seq<Key>, stack: seq<Spot<Id>>)
    requires Frontier(h, start, visited, stack) && stack != [] && h[stack[0].node].Leaf()
    ensures Frontier(h, start, visited + [h[stack[0].node].suffix], stack[1..])
  {
    var k := h[stack[0].node].suffix;
    var w := visited + Zones(stack);
    assert SpotOk(h, stack[0]);
    RefineAscending(w, |visited|, [k]);
    assert w[..|visited|] + [k] + w[|visited| + 1..] == visited + [k] + Zones(stack[1..]);
    forall q | q in start
      ensures q in visited + [k] || Pending(h, stack[1..], q)
    {
      if q !in visited {
        var i :| 0 <= i < |stack| && LeadsTo(h, stack[i], q);
        if i > 0 { assert LeadsTo(h, stack[1..][i - 1], q); }
      }
    }
  }

  /** Replacing the internal node on top of the stack by its children. */
  lemma OpenInner<Id, V>(cfg: Config, h: Heap<Id, V>, root: Id, start: set<Key>, visited: seq<Key>,
                         stack: seq<Spot<Id>>)
    requires Wf(cfg, h, root) && Frontier(h, start, visited, stack) && stack != [] && !h[stack[0].node].Leaf()
    ensures |h[stack[0].node].children| == ALPHABET_SIZE
    ensures forall c | 0 <= c < ALPHABET_SIZE :: h[stack[0].node].children[c].Some? ==>
            h[stack[0].node].children[c].value in h
    ensures Frontier(h, start, visited, Expand(h, h[stack[0].node].children, 0) + stack[1..])
  {
    var x := stack[0].node;
    ChildrenInHeap(cfg, h, root, x);
    var e := Expand(h, h[x].children, 0);
    var w := visited + Zones(stack);
    assert SpotOk(h, stack[0]);
    ExpandOk(cfg, h, root, x);
    var zs := Zones(e);
    assert forall i | 0 <= i < |zs| :: zs[i] == e[i].zone && Opens(h, x, 0, e[i]);
    RefineAscending(w, |visited|, zs);
    assert w[..|visited|] + zs + w[|visited| + 1..] == visited + Zones(e + stack[1..]);
    forall q | q in start && q !in visited
      ensures Pending(h, e + stack[1..], q)
    {
      OpenKeeps(cfg, h, root, stack, q);
    }
  }

  /** A key that was pending before a node was opened is pending after. */
  lemma OpenKeeps<Id, V>(cfg: Config, h: Heap<Id, V>, root: Id, stack: seq<Spot<Id>>, q: Key)
    requires Wf(cfg, h, root) && stack != [] && SpotOk(h, stack[0]) && !h[stack[0].node].Leaf() && q in KeySet(h)
             && Pending(h, stack, q)
    requires |h[stack[0].node].children| == ALPHABET_SIZE
    requires forall c | 0 <= c < ALPHABET_SIZE :: h[stack[0].node].children[c].Some? ==>
             h[stack[0].node].children[c].value in h
    ensures Pending(h, Expand(h, h[stack[0].node].children, 0) + stack[1..], q)
  {
    var e := Expand(h, h[stack[0].node].children, 0);
    var i :| 0 <= i < |stack| && LeadsTo(h, stack[i], q);
    if i > 0 {
      assert LeadsTo(h, (e + stack[1..])[|e| + i - 1], q);
    } else {
      OpenReaches(cfg, h, root, stack[0].node, q);
    }
  }

  lemma OpenReaches<Id, V>(cfg: Config, h: Heap<Id, V>, root: Id, x: Id, q: Key)
    requires Wf(cfg, h, root) && x in h && !h[x].Leaf() && h[x].path <= q && q in KeySet(h)
    requires |h[x].children| == ALPHABET_SIZE
    requires forall c | 0 <= c < ALPHABET_SIZE :: h[x].children[c].Some? ==> h[x].children[c].value in h
    ensures forall rest: seq<Spot<Id>> :: Pending(h, Expand(h, h[x].children, 0) + rest, q)
  {
    var e := Expand(h, h[x].children, 0);
    var z := LeafOf(h, q);
    var y := InnerOnPath(cfg, h, root, x, z, q);
    var j := ExpandHas(h, h[x].children, 0, Slot(q[|h[x].path|]));
    forall rest: seq<Spot<Id>>
      ensures Pending(h, e + rest, q)
    {
      assert LeadsTo(h, (e + rest)[j], q);
    }
  }

  /** A traversal that has just been started. */
  lemma StartFrontier<Id, V>(cfg: Config, h: Heap<Id, V>, root: Id)
    requires Wf(cfg, h, root)
    ensures Frontier(h, KeySet(h), [], [Spot(root, [])])
  {
    assert NodeOk(cfg, h, root, root);
    forall k | k in KeySet(h)
      ensures Pending(h, [Spot(root, [])], k)
    {
      assert LeadsTo(h, [Spot(root, [])][0], k);
    }
  }

  /** Inserts made meanwhile, by anyone, leave the invariant in place. */
  lemma FrontierStable<Id, V>(h: Heap<Id, V>, h': Heap<Id, V>, start: set<Key>, visited: seq<Key>, stack: seq<Spot<Id>>)
    requires Frontier(h, start, visited, stack) && Evolves(h, h')
    ensures Frontier(h', start, visited, stack)
  {
  }

  lemma KeysGrow<Id, V>(h: Heap<Id, V>, h': Heap<Id, V>)
    requires Evolves(h, h')
    ensures KeySet(h) <= KeySet(h')
  {
  }

  // ---------------------------------------------------------------- how long a traversal can take

  /** How many visits a subtree of this height can still cost: more than one plus sixteen smaller ones. */
  function Weight(height: nat): (w: nat)
    ensures w > 0
  {
    if height == 0 then 1 else 17 * Weight(height - 1)
  }

  function Height(cfg: Config, depth: nat): nat {
    if depth <= cfg.keySize then cfg.keySize - depth else 0
  }

  function StackWeight<Id>(cfg: Config, stack: seq<Spot<Id>>): nat {
    if stack == [] then 0 else Weight(Height(cfg, |stack[0].zone|)) + StackWeight(cfg, stack[1..])
  }

  lemma {:induction false} StackWeightAppends<Id>(cfg: Config, a: seq<Spot<Id>>, b: seq<Spot<Id>>)
    ensures StackWeight(cfg, a + b) == StackWeight(cfg, a) + StackWeight(cfg, b)
  {
    if a == [] {
      assert a + b == b;
    } else {
      assert (a + b)[1..] == a[1..] + b;
      StackWeightAppends(cfg, a[1..], b);
    }
  }

  lemma OneLess(n: nat, w: nat)
    requires n > 0
    ensures n * w == (n - 1) * w + w
  {
  }

  /** Sixteen children weigh less than their parent. */
  lemma {:induction false} ExpandWeighs<Id, V>(cfg: Config, h: Heap<Id, V>, root: Id, x: Id, i: nat)
    requires Wf(cfg, h, root) && x in h && !h[x].Leaf() && i <= ALPHABET_SIZE == |h[x].children|
    requires forall c | 0 <= c < ALPHABET_SIZE :: h[x].children[c].Some? ==> h[x].children[c].value in h
    ensures StackWeight(cfg, Expand(h, h[x].children, i)) <= (ALPHABET_SIZE - i) * Weight(Height(cfg, |h[x].path| + 1))
    decreases ALPHABET_SIZE - i
  {
    if i < ALPHABET_SIZE {
      ExpandWeighs(cfg, h, root, x, i + 1);
      OneLess(ALPHABET_SIZE - i, Weight(Height(cfg, |h[x].path| + 1)));
      if h[x].children[i].Some? {
        ChildOpens(cfg, h, root, x, i);
        assert Expand(h, h[x].children, i)[1..] == Expand(h, h[x].children, i + 1);
      }
    }
  }

  lemma OpeningSinks<Id, V>(cfg: Config, h: Heap<Id, V>, root: Id, stack: seq<Spot<Id>>)
    requires Wf(cfg, h, root) && stack != [] && SpotOk(h, stack[0]) && !h[stack[0].node].Leaf()
    requires |h[stack[0].node].children| == ALPHABET_SIZE
    requires forall c | 0 <= c < ALPHABET_SIZE :: h[stack[0].node].children[c].Some? ==>
             h[stack[0].node].children[c].value in h
    ensures StackWeight(cfg, Expand(h, h[stack[0].node].children, 0) + stack[1..]) < StackWeight(cfg, stack)
  {
    var x := stack[0].node;
    ChildrenWeighLess(cfg, h, root, x);
    StackWeightAppends(cfg, Expand(h, h[x].children, 0), stack[1..]);
  }

  lemma ChildrenWeighLess<Id, V>(cfg: Config, h: Heap<Id, V>, root: Id, x: Id)
    requires Wf(cfg, h, root) && x in h && !h[x].Leaf() && |h[x].children| == ALPHABET_SIZE
    requires forall c | 0 <= c < ALPHABET_SIZE :: h[x].children[c].Some? ==> h[x].children[c].value in h
    ensures StackWeight(cfg, Expand(h, h[x].children, 0)) < Weight(Height(cfg, |h[x].path|))
  {
    ExpandWeighs(cfg, h, root, x, 0);
    var w := Weight(Height(cfg, |h[x].path| + 1));
    assert (ALPHABET_SIZE - 0) * w == 16 * w;
    assert NodeOk(cfg, h, root, x);
    assert Height(cfg, |h[x].path|) == Height(cfg, |h[x].path| + 1) + 1;
  }
}
