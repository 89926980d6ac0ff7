/**
 * What every interleaving of inserts, lookups and traversals keeps: the trie is well formed, each
 * insert takes effect at one instant, each lookup answer was true at an instant of the call, no
 * traversal loses or repeats a key, and locks are held exactly where the code says.
 */
module TrieSafety {
  import opened Prelude
  import opened Keys
  import opened TrieHeap
  import opened TriePath
  import opened Traversal
  import opened TrieThreads

  ghost function Look(m: Contents, key: Key): Option<seq<Item>> {
    if key in m then Some(m[key]) else None
  }

  /** The map after inserting `v` under `key`: merge if present, add if not. */
  ghost function Put(m: Contents, key: Key, v: Item): Contents {
    m[key := if key in m then m[key] + [v] else [v]]
  }

  /** The locks a thread at `p` holds. */
  function Held(p: Point): set<Node> {
    match p
    case InsertAt(_, _, parent, cursor, _) => {parent, cursor}
    case InsertWait(_, _, parent, _, _) => {parent}
    case LookupAt(_, node, _) => {node}
    case TraverseWait(keep, _, _, stack) => if keep && (stack == [] || stack[0].node != ROOT) then {ROOT} else {}
    case TraverseAt(keep, _, _, stack) =>
      if stack == [] then {} else if keep then {stack[0].node, ROOT} else {stack[0].node}
    case _ => {}
  }

  /** The nodes a step of a thread at `p` may write. */
  function Touches(p: Point): set<Node> {
    Held(p) + (var w := Awaited(p); if w.Some? then {w.value} else {})
  }

  // ---------------------------------------------------------------- invariants

  ghost predicate AtSome(hist: seq<Contents>, since: nat, key: Key, r: Option<seq<Item>>) {
    exists m | since <= m < |hist| :: Look(hist[m], key) == r
  }

  /** The insert of `v` under `key` was exactly the change made at instant `m`. */
  ghost predicate TookEffectAt(hist: seq<Contents>, m: nat, key: Key, v: Item) {
    0 < m < |hist| && hist[m] == Put(hist[m - 1], key, v)
  }

  ghost predicate TookEffect(hist: seq<Contents>, since: nat, key: Key, v: Item) {
    exists m :: since < m && TookEffectAt(hist, m, key, v)
  }

  /** A search of `key` that has come to `x` after `at` characters. */
  ghost predicate SearchOk(trie: Trie, hist: seq<Contents>, since: nat, key: Key, x: Node, at: nat) {
    && x in trie && at <= |key|
    && if trie[x].Leaf() then
         && key[..at] <= trie[x].suffix && at <= trie[x].suffixStart
         && (trie[x].suffix != key ==> AtSome(hist, since, key, None))
       else trie[x].path == key[..at]
  }

  ghost predicate PointOk(cfg: Config, trie: Trie, hist: seq<Contents>, since: nat, p: Point)
    requires since < |hist|
  {
    match p
    case InsertBegin(key, _) => cfg.Canonical(key)
    case InsertAt(key, _, parent, cursor, at) => InsertAtOk(cfg, trie, key, parent, cursor, at)
    case InsertWait(key, _, parent, next, at) => InsertWaitOk(cfg, trie, key, parent, next, at)
    case Inserted(key, v) => TookEffect(hist, since, key, v)
    case LookupWait(key, node, at) => cfg.Canonical(key) && SearchOk(trie, hist, since, key, node, at)
    case LookupAt(key, node, at) => cfg.Canonical(key) && SearchOk(trie, hist, since, key, node, at)
    case Found(key, r) => AtSome(hist, since, key, r)
    case TraverseWait(_, start, visited, stack) => hist[since].Keys == start && Frontier(trie, start, visited, stack)
    case TraverseAt(_, start, visited, stack) =>
      hist[since].Keys == start && Frontier(trie, start, visited, stack) && stack != []
    case Traversed(start, visited, stopped) =>
      && hist[since].Keys == start
      && Ascending(visited) && (forall i | 0 <= i < |visited| :: visited[i] in KeySet(trie))
      && (forall k | k in start :: k in visited || (stopped && BeyondLast(visited, k)))
    case Rejected => true
    case Wild => false
  }

  ghost predicate CallOk(cfg: Config, trie: Trie, hist: seq<Contents>, c: Call) {
    c.since < |hist| && PointOk(cfg, trie, hist, c.since, c.point)
  }

  /** A lock is taken exactly when the thread recorded for it is at a point that holds it. */
  ghost predicate LocksOk(s: State) {
    && (forall x | x in s.locks :: s.locks[x] in s.calls && x in Held(s.calls[s.locks[x]].point))
    && (forall t, x | t in s.calls && x in Held(s.calls[t].point) :: x in s.locks && s.locks[x] == t)
  }

  ghost predicate Inv(cfg: Config, s: State) {
    && Wf(cfg, s.trie, ROOT)
    && (forall x | x in s.trie :: x < s.next)
    && s.history != [] && s.history[|s.history| - 1] == Abs(s.trie)
    && LocksOk(s)
    && forall t | t in s.calls :: CallOk(cfg, s.trie, s.history, s.calls[t])
  }

  // ---------------------------------------------------------------- what one step does

  /**
   * The part of a step of `t` that is about shared memory and about `t` itself. `w` holds every node
   * that existed before and was written.
   */
  ghost predicate StepOk(cfg: Config, s: State, t: Tid, w: set<Node>, s': State)
    requires t in s.calls
  {
    && HeapStep(cfg, s.trie, s'.trie, s'.next, w)
    && s'.history == s.history + [Abs(s'.trie)]
    && t in s'.calls && s'.calls == s.calls[t := s'.calls[t]]
    && s'.calls[t].since == s.calls[t].since
    && CallOk(cfg, s'.trie, s'.history, s'.calls[t])
    && EffectOk(Abs(s.trie), Abs(s'.trie), s'.calls[t].point)
    && Relocked(s.locks, t, Held(s'.calls[t].point), s'.locks)
  }

  /** A step of `t` that writes only what `t` may write. */
  ghost predicate GoodStep(cfg: Config, s: State, t: Tid, s': State)
    requires t in s.calls
  {
    exists w :: w <= Touches(s.calls[t].point) && StepOk(cfg, s, t, w, s')
  }

  /** The trie stays well formed and grows, and only cells in `w` and fresh ones are written. */
  ghost predicate HeapStep(cfg: Config, h: Trie, h': Trie, next': Node, w: set<Node>) {
    && Wf(cfg, h', ROOT) && (forall x | x in h' :: x < next')
    && Evolves(h, h') && WritesOnly(h, h', w)
  }

  /** The lock bookkeeping of a step: `locks'` gives `t` exactly `held`, and others keep theirs. */
  ghost predicate Relocked(locks: map<Node, Tid>, t: Tid, held: set<Node>, locks': map<Node, Tid>) {
    && (forall x :: x in held <==> x in locks' && locks'[x] == t)
    && (forall x | x in locks && locks[x] != t :: x in locks' && locks'[x] == locks[x])
    && (forall x | x in locks' && locks'[x] != t :: x in locks && locks[x] == locks'[x])
  }

  /** Only the step that ends an insert changes the map, and it changes it by that insert. */
  ghost predicate EffectOk(m: Contents, m': Contents, p': Point) {
    match p'
    case Inserted(key, v) => m' == Put(m, key, v)
    case _ => m' == m
  }

  lemma AtSomeGrows(hist: seq<Contents>, m: Contents, since: nat, key: Key, r: Option<seq<Item>>)
    requires AtSome(hist, since, key, r)
    ensures AtSome(hist + [m], since, key, r)
  {
    var i :| since <= i < |hist| && Look(hist[i], key) == r;
    assert Look((hist + [m])[i], key) == r;
  }

  /** The point of a thread that did not step stays good. */
  lemma PointStable(cfg: Config, h: Trie, h': Trie, hist: seq<Contents>, m: Contents, since: nat, p: Point)
    requires since < |hist| && PointOk(cfg, h, hist, since, p) && Evolves(h, h') && Wf(cfg, h, ROOT)
    requires forall x | x in Held(p) :: x in h ==> x in h' && h'[x] == h[x]
    ensures PointOk(cfg, h', hist + [m], since, p)
  {
    var hist' := hist + [m];
    match p {
      case Inserted(key, v) =>
        var i :| since < i && TookEffectAt(hist, i, key, v);
        assert TookEffectAt(hist', i, key, v);
      case LookupWait(key, node, at) => SearchStable(h, h', hist, m, since, key, node, at);
      case LookupAt(key, node, at) => SearchStable(h, h', hist, m, since, key, node, at);
      case Found(key, r) => AtSomeGrows(hist, m, since, key, r);
      case TraverseWait(_, start, visited, stack) => FrontierStable(h, h', start, visited, stack);
      case TraverseAt(_, start, visited, stack) => FrontierStable(h, h', start, visited, stack);
      case Traversed(start, visited, _) => KeysGrow(h, h');
      case _ =>
    }
  }

  lemma SearchStable(h: Trie, h': Trie, hist: seq<Contents>, m: Contents, since: nat, key: Key, x: Node, at: nat)
    requires SearchOk(h, hist, since, key, x, at) && Evolves(h, h')
    ensures SearchOk(h', hist + [m], since, key, x, at)
  {
    if h[x].Leaf() && h[x].suffix != key {
      AtSomeGrows(hist, m, since, key, None);
    }
  }

  /** What one thread may write, no other thread holds. */
  lemma TouchesApart(s: State, t: Tid, u: Tid)
    requires LocksOk(s) && Enabled(s, t) && u in s.calls && u != t
    ensures Held(s.calls[u].point) !! Touches(s.calls[t].point)
  {
    forall x | x in Held(s.calls[u].point)
      ensures x !in Touches(s.calls[t].point)
    {
      assert x in s.locks && s.locks[x] == u;
    }
  }

  lemma CallStable(cfg: Config, h: Trie, h': Trie, hist: seq<Contents>, m: Contents, c: Call, w: set<Node>)
    requires CallOk(cfg, h, hist, c) && Evolves(h, h') && Wf(cfg, h, ROOT)
    requires WritesOnly(h, h', w) && Held(c.point) !! w
    ensures CallOk(cfg, h', hist + [m], c)
  {
    PointStable(cfg, h, h', hist, m, c.since, c.point);
  }

  lemma StepKeepsLocks(s: State, t: Tid, s': State)
    requires LocksOk(s) && t in s.calls && s'.calls.Keys == s.calls.Keys
    requires forall u | u in s.calls && u != t :: s'.calls[u] == s.calls[u]
    requires Relocked(s.locks, t, Held(s'.calls[t].point), s'.locks)
    ensures LocksOk(s')
  {
  }

  /** From the stepping thread to all threads. */
  lemma StepKeepsInv(cfg: Config, s: State, t: Tid, s': State)
    requires Inv(cfg, s) && Enabled(s, t) && GoodStep(cfg, s, t, s')
    ensures Inv(cfg, s')
  {
    var w :| w <= Touches(s.calls[t].point) && StepOk(cfg, s, t, w, s');
    StepKeepsLocks(s, t, s');
    forall u | u in s'.calls
      ensures CallOk(cfg, s'.trie, s'.history, s'.calls[u])
    {
      assert CallOk(cfg, s.trie, s.history, s.calls[u]);
      if u != t {
        TouchesApart(s, t, u);
        CallStable(cfg, s.trie, s'.trie, s.history, Abs(s'.trie), s.calls[u], w);
      }
    }
  }

  // ---------------------------------------------------------------- one lemma per kind of step

  lemma OwnLocks(s: State, t: Tid)
    requires LocksOk(s) && t in s.calls
    ensures Relocked(s.locks, t, Held(s.calls[t].point), s.locks)
  {
  }

  lemma Release(locks: map<Node, Tid>, t: Tid, held: set<Node>, drop: set<Node>)
    requires Relocked(locks, t, held, locks) && drop <= held
    ensures Relocked(locks, t, held - drop, locks - drop)
  {
  }

  lemma Take(locks: map<Node, Tid>, t: Tid, held: set<Node>, locks': map<Node, Tid>, x: Node)
    requires Relocked(locks, t, held, locks') && x !in locks
    ensures Relocked(locks, t, held + {x}, locks'[x := t])
  {
  }

  /** What a step that leaves the trie alone still has to show. */
  lemma MoveOk(cfg: Config, s: State, t: Tid, locks: map<Node, Tid>, p: Point)
    requires Inv(cfg, s) && t in s.calls
    requires s.calls[t].since < |s.history|
    requires PointOk(cfg, s.trie, s.history + [Abs(s.trie)], s.calls[t].since, p) && !p.Inserted?
    requires Relocked(s.locks, t, Held(p), locks)
    ensures GoodStep(cfg, s, t, Move(s, t, locks, p))
  {
    assert StepOk(cfg, s, t, {}, Move(s, t, locks, p));
  }

  /** What a step that ends an insert has to show. */
  lemma InsertedOk(cfg: Config, s: State, t: Tid, w: set<Node>, trie: Trie, next: Node, locks: map<Node, Tid>,
                   key: Key, v: Item)
    requires t in s.calls && s.calls[t].since < |s.history| && s.history[|s.history| - 1] == Abs(s.trie)
    requires HeapStep(cfg, s.trie, trie, next, w) && w <= Touches(s.calls[t].point)
    requires Abs(trie) == Put(Abs(s.trie), key, v)
    requires Relocked(s.locks, t, {}, locks)
    ensures GoodStep(cfg, s, t, Close(s, t, trie, next, locks, Inserted(key, v)))
  {
    InsertedCall(cfg, trie, s.history, Abs(s.trie), s.calls[t].since, key, v);
    assert StepOk(cfg, s, t, w, Close(s, t, trie, next, locks, Inserted(key, v)));
  }

  lemma InsertedCall(cfg: Config, trie: Trie, hist: seq<Contents>, m: Contents, since: nat, key: Key, v: Item)
    requires since < |hist| && hist[|hist| - 1] == m && Abs(trie) == Put(m, key, v)
    ensures CallOk(cfg, trie, hist + [Abs(trie)], Call(since, Inserted(key, v)))
  {
    assert TookEffectAt(hist + [Abs(trie)], |hist|, key, v);
  }

  lemma InsertBeginOk(cfg: Config, s: State, t: Tid, stop: bool)
    requires Inv(cfg, s) && Enabled(s, t) && s.calls[t].point.InsertBegin?
    ensures GoodStep(cfg, s, t, Exec(s, t, stop))
  {
    var p := s.calls[t].point;
    assert CallOk(cfg, s.trie, s.history, s.calls[t]);
    OwnLocks(s, t);
    Take(s.locks, t, {}, s.locks, ROOT);
    assert NodeOk(cfg, s.trie, ROOT, ROOT);
    assert Held(InsertAt(p.key, p.value, ROOT, ROOT, 0)) == {} + {ROOT};
    MoveOk(cfg, s, t, s.locks[ROOT := t], InsertAt(p.key, p.value, ROOT, ROOT, 0));
  }

  // ---------------------------------------------------------------- insert

  /** A new leaf, or a split, is an insert of an absent key. */
  lemma InsertAddsHeap(cfg: Config, h: Trie, next: Node, key: Key, v: Item, parent: Node, cursor: Node, at: nat)
    requires Wf(cfg, h, ROOT) && (forall x | x in h :: x < next) && InsertAtOk(cfg, h, key, parent, cursor, at)
    requires |h[cursor].children| == ALPHABET_SIZE && h[cursor].children[Slot(key[at])].None? && !h[cursor].Leaf()
    ensures var h' := AddLeaf(h, cursor, next, key, at, [v]);
            HeapStep(cfg, h, h', next + 1, {parent, cursor}) && Abs(h') == Put(Abs(h), key, v)
  {
    AddLeafOk(cfg, h, ROOT, cursor, next, key, at, [v]);
  }

  lemma InsertSplitsHeap(cfg: Config, h: Trie, next: Node, key: Key, v: Item, parent: Node, cursor: Node, at: nat)
    requires Wf(cfg, h, ROOT) && (forall x | x in h :: x < next) && InsertAtOk(cfg, h, key, parent, cursor, at)
    requires h[cursor].Leaf() && at < |h[cursor].suffix| && key[at] != h[cursor].suffix[at]
    ensures |h[parent].children| == ALPHABET_SIZE && 0 < at && h[cursor].suffixStart < |h[cursor].suffix|
    ensures var h' := Split(h, parent, cursor, next, next + 1, key, at, [v]);
            HeapStep(cfg, h, h', next + 2, {parent, cursor}) && Abs(h') == Put(Abs(h), key, v)
  {
    LeafUnderDepth(cfg, h, ROOT, parent, cursor, key, at);
    SplitOk(cfg, h, ROOT, parent, cursor, next, next + 1, key, at, [v]);
  }

  /** A push-down leaves the map alone and the loop one level deeper. */
  lemma InsertPushesHeap(cfg: Config, h: Trie, next: Node, key: Key, parent: Node, cursor: Node, at: nat)
    requires Wf(cfg, h, ROOT) && (forall x | x in h :: x < next) && InsertAtOk(cfg, h, key, parent, cursor, at)
    requires h[cursor].Leaf() && at < |h[cursor].suffix| && key[at] == h[cursor].suffix[at]
    ensures |h[parent].children| == ALPHABET_SIZE && 0 < at && h[cursor].suffixStart < |h[cursor].suffix|
    ensures var h' := PushDown(h, parent, cursor, next, key, at);
            && HeapStep(cfg, h, h', next + 1, {parent, cursor}) && Abs(h') == Abs(h)
            && InsertAtOk(cfg, h', key, next, cursor, at + 1)
  {
    LeafUnderDepth(cfg, h, ROOT, parent, cursor, key, at);
    PushDownOk(cfg, h, ROOT, parent, cursor, next, key, at);
    LeafDiffersLater(key, h[cursor].suffix, at);
  }

  lemma InsertDescends(cfg: Config, s: State, t: Tid, key: Key, v: Item, parent: Node, cursor: Node, at: nat)
    requires Inv(cfg, s) && t in s.calls && s.calls[t].since < |s.history|
    requires InsertAtOk(cfg, s.trie, key, parent, cursor, at)
    requires |s.trie[parent].children| == |s.trie[cursor].children| == ALPHABET_SIZE
             && s.trie[cursor].children[Slot(key[at])].Some?
    requires !s.trie[cursor].Leaf() && Relocked(s.locks, t, {parent, cursor}, s.locks)
    ensures GoodStep(cfg, s, t, InsertTurn(s, t, key, v, parent, cursor, at))
  {
    var p := InsertWait(key, v, cursor, s.trie[cursor].children[Slot(key[at])].value, at);
    var drop := if cursor != parent then {parent} else {};
    Release(s.locks, t, {parent, cursor}, drop);
    assert {parent, cursor} - drop == {cursor} && s.locks - {} == s.locks;
    MoveOk(cfg, s, t, s.locks - drop, p);
  }

  lemma InsertAdds(cfg: Config, s: State, t: Tid, key: Key, v: Item, parent: Node, cursor: Node, at: nat)
    requires Inv(cfg, s) && t in s.calls && s.calls[t].since < |s.history|
    requires InsertAtOk(cfg, s.trie, key, parent, cursor, at) && {parent, cursor} <= Touches(s.calls[t].point)
    requires |s.trie[parent].children| == |s.trie[cursor].children| == ALPHABET_SIZE
             && s.trie[cursor].children[Slot(key[at])].None?
    requires !s.trie[cursor].Leaf() && Relocked(s.locks, t, {parent, cursor}, s.locks)
    ensures GoodStep(cfg, s, t, InsertTurn(s, t, key, v, parent, cursor, at))
  {
    var w := {parent, cursor};
    InsertAddsHeap(cfg, s.trie, s.next, key, v, parent, cursor, at);
    Release(s.locks, t, w, w);
    assert w - w == {};
    InsertedOk(cfg, s, t, w, AddLeaf(s.trie, cursor, s.next, key, at, [v]), s.next + 1, s.locks - w, key, v);
  }

  lemma InsertSplits(cfg: Config, s: State, t: Tid, key: Key, v: Item, parent: Node, cursor: Node, at: nat)
    requires Inv(cfg, s) && t in s.calls && s.calls[t].since < |s.history|
    requires InsertAtOk(cfg, s.trie, key, parent, cursor, at) && {parent, cursor} <= Touches(s.calls[t].point)
    requires |s.trie[parent].children| == |s.trie[cursor].children| == ALPHABET_SIZE
             && s.trie[cursor].children[Slot(key[at])].None?
    requires s.trie[cursor].Leaf() && at < |s.trie[cursor].suffix| && key[at] != s.trie[cursor].suffix[at]
    requires Relocked(s.locks, t, {parent, cursor}, s.locks)
    ensures GoodStep(cfg, s, t, InsertTurn(s, t, key, v, parent, cursor, at))
  {
    var w := {parent, cursor};
    InsertSplitsHeap(cfg, s.trie, s.next, key, v, parent, cursor, at);
    Release(s.locks, t, w, w);
    assert w - w == {};
    InsertedOk(cfg, s, t, w, Split(s.trie, parent, cursor, s.next, s.next + 1, key, at, [v]), s.next + 2,
        s.locks - w, key, v);
    SplitTurn(s, t, key, v, parent, cursor, at);
  }

  lemma SplitTurn(s: State, t: Tid, key: Key, v: Item, parent: Node, cursor: Node, at: nat)
    requires t in s.calls && parent in s.trie && cursor in s.trie && 0 < at < |key|
    requires |s.trie[parent].children| == |s.trie[cursor].children| == ALPHABET_SIZE
             && s.trie[cursor].children[Slot(key[at])].None?
    requires s.trie[cursor].Leaf() && at < |s.trie[cursor].suffix|
             && s.trie[cursor].suffixStart < |s.trie[cursor].suffix|
    requires key[at] != s.trie[cursor].suffix[at]
    ensures InsertTurn(s, t, key, v, parent, cursor, at)
         == Close(s, t, Split(s.trie, parent, cursor, s.next, s.next + 1, key, at, [v]), s.next + 2,
             s.locks - {parent, cursor}, Inserted(key, v))
  {
  }

  lemma InsertPushes(cfg: Config, s: State, t: Tid, key: Key, v: Item, parent: Node, cursor: Node, at: nat)
    requires Inv(cfg, s) && t in s.calls && s.calls[t].since < |s.history|
    requires InsertAtOk(cfg, s.trie, key, parent, cursor, at) && {parent, cursor} <= Touches(s.calls[t].point)
    requires |s.trie[parent].children| == |s.trie[cursor].children| == ALPHABET_SIZE
             && s.trie[cursor].children[Slot(key[at])].None?
    requires s.trie[cursor].Leaf() && at < |s.trie[cursor].suffix| && key[at] == s.trie[cursor].suffix[at]
    requires Relocked(s.locks, t, {parent, cursor}, s.locks)
    ensures GoodStep(cfg, s, t, InsertTurn(s, t, key, v, parent, cursor, at))
  {
    var w := {parent, cursor};
    InsertPushesHeap(cfg, s.trie, s.next, key, parent, cursor, at);
    FreshUnlocked(cfg, s, s.next);
    Release(s.locks, t, w, {parent});
    Take(s.locks, t, w - {parent}, s.locks - {parent}, s.next);
    assert w - {parent} + {s.next} == {s.next, cursor} by { assert NodeOk(cfg, s.trie, ROOT, cursor); }
    PushedOk(cfg, s, t, w, PushDown(s.trie, parent, cursor, s.next, key, at), s.next + 1,
             (s.locks - {parent})[s.next := t], InsertAt(key, v, s.next, cursor, at + 1));
    PushTurn(s, t, key, v, parent, cursor, at);
  }

  /** What a step that rebuilds the trie without changing the map has to show. */
  lemma PushedOk(cfg: Config, s: State, t: Tid, w: set<Node>, trie: Trie, next: Node, locks: map<Node, Tid>, p: Point)
    requires t in s.calls && s.calls[t].since < |s.history|
    requires HeapStep(cfg, s.trie, trie, next, w) && w <= Touches(s.calls[t].point)
    requires Abs(trie) == Abs(s.trie)
    requires p.InsertAt? && InsertAtOk(cfg, trie, p.key, p.parent, p.cursor, p.at)
    requires Relocked(s.locks, t, Held(p), locks)
    ensures GoodStep(cfg, s, t, Close(s, t, trie, next, locks, p))
  {
  }

  lemma PushTurn(s: State, t: Tid, key: Key, v: Item, parent: Node, cursor: Node, at: nat)
    requires t in s.calls && parent in s.trie && cursor in s.trie && 0 < at < |key|
    requires |s.trie[parent].children| == |s.trie[cursor].children| == ALPHABET_SIZE
             && s.trie[cursor].children[Slot(key[at])].None?
    requires s.trie[cursor].Leaf() && at < |s.trie[cursor].suffix|
             && s.trie[cursor].suffixStart < |s.trie[cursor].suffix|
    requires key[at] == s.trie[cursor].suffix[at]
    ensures InsertTurn(s, t, key, v, parent, cursor, at)
         == Close(s, t, PushDown(s.trie, parent, cursor, s.next, key, at), s.next + 1,
             (s.locks - {parent})[s.next := t],
                  InsertAt(key, v, s.next, cursor, at + 1))
  {
  }

  lemma InsertTurnOk(cfg: Config, s: State, t: Tid, stop: bool)
    requires Inv(cfg, s) && Enabled(s, t) && s.calls[t].point.InsertAt?
    ensures GoodStep(cfg, s, t, Exec(s, t, stop))
  {
    assert CallOk(cfg, s.trie, s.history, s.calls[t]);
    var InsertAt(key, v, parent, cursor, at) := s.calls[t].point;
    InsertInRange(cfg, s.trie, ROOT, key, parent, cursor, at);
    OwnLocks(s, t);
    var n := s.trie[cursor];
    if n.children[Slot(key[at])].Some? {
      InsertDescends(cfg, s, t, key, v, parent, cursor, at);
    } else if !n.Leaf() {
      InsertAdds(cfg, s, t, key, v, parent, cursor, at);
    } else if key[at] == n.suffix[at] {
      InsertPushes(cfg, s, t, key, v, parent, cursor, at);
    } else {
      InsertSplits(cfg, s, t, key, v, parent, cursor, at);
    }
  }

  /** Nobody holds a node that does not exist yet. */
  lemma FreshUnlocked(cfg: Config, s: State, n: Node)
    requires Inv(cfg, s) && n !in s.trie
    ensures n !in s.locks
  {
    if n in s.locks {
      assert CallOk(cfg, s.trie, s.history, s.calls[s.locks[n]]);
      HeldExist(cfg, s.trie, s.history, s.calls[s.locks[n]]);
      assert false;
    }
  }

  lemma HeldExist(cfg: Config, h: Trie, hist: seq<Contents>, c: Call)
    requires CallOk(cfg, h, hist, c) && ROOT in h
    ensures forall x | x in Held(c.point) :: x in h
  {
  }

  /** After the lock on the child: a matching leaf is merged into, anything else is the next turn's cursor. */
  lemma InsertMerges(cfg: Config, s: State, t: Tid, key: Key, v: Item, parent: Node, next: Node, at: nat)
    requires Inv(cfg, s) && t in s.calls && s.calls[t].since < |s.history|
             && s.calls[t].point == InsertWait(key, v, parent, next, at)
    requires next in s.trie && s.trie[next].Leaf() && s.trie[next].suffix == key && s.trie[next].value.Some?
    requires next !in s.locks && cfg.Canonical(key)
    ensures var h := SetValue(s.trie, next, s.trie[next].value.value + [v]);
            GoodStep(cfg, s, t, Close(s, t, h, s.next, s.locks - {parent}, Inserted(key, v)))
  {
    OwnLocks(s, t);
    SetValueOk(cfg, s.trie, ROOT, next, s.trie[next].value.value + [v]);
    AbsOfLeaf(cfg, s.trie, ROOT, next);
    Release(s.locks, t, {parent}, {parent});
    assert {parent} - {parent} == {};
    InsertedOk(cfg, s, t, {next}, SetValue(s.trie, next, s.trie[next].value.value + [v]), s.next, s.locks - {parent},
        key, v);
  }

  lemma InsertArriveOk(cfg: Config, s: State, t: Tid, stop: bool)
    requires Inv(cfg, s) && Enabled(s, t) && s.calls[t].point.InsertWait?
    ensures GoodStep(cfg, s, t, Exec(s, t, stop))
  {
    assert CallOk(cfg, s.trie, s.history, s.calls[t]);
    var InsertWait(key, v, parent, next, at) := s.calls[t].point;
    ArriveAt(cfg, s.trie, ROOT, key, parent, next, at);
    if s.trie[next].Leaf() && Matches(key, s.trie[next].suffix, at) {
      InsertMerges(cfg, s, t, key, v, parent, next, at);
    } else {
      OwnLocks(s, t);
      Take(s.locks, t, {parent}, s.locks, next);
      assert {parent} + {next} == {parent, next};
      MoveOk(cfg, s, t, s.locks[next := t], InsertAt(key, v, parent, next, at + 1));
    }
  }

  // ---------------------------------------------------------------- lookup

  lemma LookupLocksOk(cfg: Config, s: State, t: Tid, stop: bool)
    requires Inv(cfg, s) && Enabled(s, t) && s.calls[t].point.LookupWait?
    ensures GoodStep(cfg, s, t, Exec(s, t, stop))
  {
    assert CallOk(cfg, s.trie, s.history, s.calls[t]);
    var LookupWait(key, node, at) := s.calls[t].point;
    OwnLocks(s, t);
    Take(s.locks, t, {}, s.locks, node);
    assert {} + {node} == {node};
    SearchStable(s.trie, s.trie, s.history, Abs(s.trie), s.calls[t].since, key, node, at);
    MoveOk(cfg, s, t, s.locks[node := t], LookupAt(key, node, at));
  }

  lemma SuffixDecides(key: Key, suffix: Key, at: nat)
    requires at <= |key| == |suffix| && key[..at] == suffix[..at]
    ensures Matches(key, suffix, at) <==> suffix == key
  {
    assert key == key[..at] + key[at..] && suffix == suffix[..at] + suffix[at..];
  }

  lemma LeafHit(cfg: Config, h: Trie, hist: seq<Contents>, since: nat, key: Key, x: Node)
    requires Wf(cfg, h, ROOT) && x in h && h[x].Leaf() && h[x].suffix == key && since <= |hist|
    ensures AtSome(hist + [Abs(h)], since, key, h[x].value)
  {
    AbsOfLeaf(cfg, h, ROOT, x);
    assert Look((hist + [Abs(h)])[|hist|], key) == h[x].value;
  }

  /** A leaf answers truthfully, for now or for an instant since the call began. */
  lemma LeafAnswers(cfg: Config, h: Trie, hist: seq<Contents>, since: nat, key: Key, x: Node, at: nat)
    requires Wf(cfg, h, ROOT) && cfg.Canonical(key) && SearchOk(h, hist, since, key, x, at) && h[x].Leaf()
    requires since < |hist|
    ensures AtSome(hist + [Abs(h)], since, key, if Matches(key, h[x].suffix, at) then h[x].value else None)
  {
    var n := h[x];
    assert NodeOk(cfg, h, ROOT, x);
    SuffixDecides(key, n.suffix, at);
    if n.suffix == key {
      LeafHit(cfg, h, hist, since, key, x);
    } else {
      AtSomeGrows(hist, Abs(h), since, key, None);
    }
  }

  lemma AbsentNow(h: Trie, hist: seq<Contents>, since: nat, key: Key)
    requires key !in Abs(h) && since <= |hist|
    ensures AtSome(hist + [Abs(h)], since, key, None)
  {
    assert Look((hist + [Abs(h)])[|hist|], key) == None;
  }

  lemma DeadEnd(cfg: Config, h: Trie, key: Key, x: Node)
    requires Wf(cfg, h, ROOT) && cfg.Canonical(key) && x in h && !h[x].Leaf() && h[x].path <= key && |h[x].path| < |key|
    requires |h[x].children| == ALPHABET_SIZE && h[x].children[Slot(key[|h[x].path|])].None?
    ensures key !in Abs(h)
  {
    if key in Abs(h) {
      var z := AbsHasLeaf(h, key);
      var y := InnerOnPath(cfg, h, ROOT, x, z, key);
    }
  }

  lemma WrongLeaf(cfg: Config, h: Trie, key: Key, y: Node)
    requires Wf(cfg, h, ROOT) && cfg.Canonical(key) && y in h && h[y].Leaf() && h[y].path <= key && h[y].suffix != key
    ensures key !in Abs(h)
  {
    if key in Abs(h) {
      var z := AbsHasLeaf(h, key);
      LeafOnPath(cfg, h, ROOT, y, z, key);
    }
  }

  /** An internal node sends the search on, or shows that the key is absent right now. */
  lemma InnerAnswers(cfg: Config, h: Trie, hist: seq<Contents>, since: nat, key: Key, x: Node, at: nat)
    requires Wf(cfg, h, ROOT) && cfg.Canonical(key) && SearchOk(h, hist, since, key, x, at) && !h[x].Leaf()
    requires since < |hist|
    ensures at < |key| && |h[x].children| == ALPHABET_SIZE
    ensures var child := h[x].children[Slot(key[at])];
            if child.Some? then SearchOk(h, hist + [Abs(h)], since, key, child.value, at + 1)
            else AtSome(hist + [Abs(h)], since, key, None)
  {
    assert NodeOk(cfg, h, ROOT, x);
    var child := h[x].children[Slot(key[at])];
    if child.None? {
      DeadEnd(cfg, h, key, x);
      AbsentNow(h, hist, since, key);
    } else {
      var y := child.value;
      ChildOnPath(cfg, h, ROOT, key, x, at);
      assert NodeOk(cfg, h, ROOT, y);
      if h[y].Leaf() && h[y].suffix != key {
        WrongLeaf(cfg, h, key, y);
        AbsentNow(h, hist, since, key);
      }
    }
  }

  lemma LookupTurnOk(cfg: Config, s: State, t: Tid, stop: bool)
    requires Inv(cfg, s) && Enabled(s, t) && s.calls[t].point.LookupAt?
    ensures GoodStep(cfg, s, t, Exec(s, t, stop))
  {
    assert CallOk(cfg, s.trie, s.history, s.calls[t]);
    var LookupAt(key, node, at) := s.calls[t].point;
    var since := s.calls[t].since;
    OwnLocks(s, t);
    Release(s.locks, t, {node}, {node});
    assert {node} - {node} == {};
    var n := s.trie[node];
    if n.Leaf() {
      LeafAnswers(cfg, s.trie, s.history, since, key, node, at);
      MoveOk(cfg, s, t, s.locks - {node}, Found(key, if Matches(key, n.suffix, at) then n.value else None));
    } else {
      InnerAnswers(cfg, s.trie, s.history, since, key, node, at);
      var child := n.children[Slot(key[at])];
      MoveOk(cfg, s, t, s.locks - {node}, if child.Some? then LookupWait(key, child.value, at + 1)
          else Found(key, None));
    }
  }

  // ---------------------------------------------------------------- traverse

  /** The root is only ever the first spot of a traversal. */
  lemma RootIsFirst(cfg: Config, h: Trie, start: set<Key>, visited: seq<Key>, stack: seq<Spot<Node>>)
    requires Wf(cfg, h, ROOT) && Frontier(h, start, visited, stack) && stack != []
    ensures stack[0].node == ROOT ==> visited == [] && |stack| == 1
    ensures |stack| > 1 ==> stack[1].node != ROOT
    ensures visited != [] ==> stack[0].node != ROOT
  {
    assert NodeOk(cfg, h, ROOT, ROOT);
    var w := visited + Zones(stack);
    assert SpotOk(h, stack[0]) && w[|visited|] == stack[0].zone;
    if visited != [] { assert Precedes(w[0], w[|visited|]); }
    if |stack| > 1 {
      assert SpotOk(h, stack[1]) && w[|visited| + 1] == stack[1].zone;
      assert Precedes(w[|visited|], w[|visited| + 1]);
    }
  }

  lemma TraverseLocksOk(cfg: Config, s: State, t: Tid, stop: bool)
    requires Inv(cfg, s) && Enabled(s, t) && s.calls[t].point.TraverseWait?
    ensures GoodStep(cfg, s, t, Exec(s, t, stop))
  {
    assert CallOk(cfg, s.trie, s.history, s.calls[t]);
    var TraverseWait(keep, start, visited, stack) := s.calls[t].point;
    var hist := s.history + [Abs(s.trie)];
    assert hist[s.calls[t].since] == s.history[s.calls[t].since];
    OwnLocks(s, t);
    var held := Held(s.calls[t].point);
    if stack == [] {
      Release(s.locks, t, held, held);
      assert held - held == {} && s.locks - {} == s.locks;
      assert visited + Zones(stack) == visited;
      MoveOk(cfg, s, t, s.locks - held, Traversed(start, visited, false));
    } else {
      var x := stack[0].node;
      Take(s.locks, t, held, s.locks, x);
      assert held + {x} == Held(TraverseAt(keep, start, visited, stack));
      MoveOk(cfg, s, t, s.locks[x := t], TraverseAt(keep, start, visited, stack));
    }
  }

  /** What a traversal that visits a leaf, and is told to stop there or not, has to show of itself. */
  lemma VisitedPoint(cfg: Config, h: Trie, hist: seq<Contents>, since: nat, keep: bool, start: set<Key>,
                     visited: seq<Key>, stack: seq<Spot<Node>>)
    requires since < |hist| && PointOk(cfg, h, hist, since, TraverseAt(keep, start, visited, stack))
             && h[stack[0].node].Leaf()
    ensures var k := h[stack[0].node].suffix;
            && PointOk(cfg, h, hist + [Abs(h)], since, Traversed(start, visited + [k], true))
            && PointOk(cfg, h, hist + [Abs(h)], since, TraverseWait(keep, start, visited + [k], stack[1..]))
  {
    var k := h[stack[0].node].suffix;
    VisitLeaf(h, start, visited, stack);
    FrontierIsBeyond(h, start, visited + [k], stack[1..]);
    assert (hist + [Abs(h)])[since] == hist[since];
  }

  lemma TraverseLeafOk(cfg: Config, s: State, t: Tid, stop: bool)
    requires Inv(cfg, s) && Enabled(s, t) && s.calls[t].point.TraverseAt?
    requires var stack := s.calls[t].point.stack;
             stack != [] && stack[0].node in s.trie && s.trie[stack[0].node].Leaf()
    ensures GoodStep(cfg, s, t, Exec(s, t, stop))
  {
    assert CallOk(cfg, s.trie, s.history, s.calls[t]);
    var TraverseAt(keep, start, visited, stack) := s.calls[t].point;
    OwnLocks(s, t);
    var held, x, k := Held(s.calls[t].point), stack[0].node, s.trie[stack[0].node].suffix;
    VisitedPoint(cfg, s.trie, s.history, s.calls[t].since, keep, start, visited, stack);
    if stop {
      Release(s.locks, t, held, held);
      assert held - held == {};
      MoveOk(cfg, s, t, s.locks - held, Traversed(start, visited + [k], true));
    } else {
      if |stack| > 1 { VisitedNotRoot(cfg, s.trie, start, visited, stack); }
      Release(s.locks, t, held, {x});
      assert held - {x} == Held(TraverseWait(keep, start, visited + [k], stack[1..]));
      MoveOk(cfg, s, t, s.locks - {x}, TraverseWait(keep, start, visited + [k], stack[1..]));
    }
  }

  lemma VisitedNotRoot(cfg: Config, h: Trie, start: set<Key>, visited: seq<Key>, stack: seq<Spot<Node>>)
    requires Wf(cfg, h, ROOT) && Frontier(h, start, visited, stack) && |stack| > 1 && h[stack[0].node].Leaf()
    ensures stack[1].node != ROOT
  {
    VisitLeaf(h, start, visited, stack);
    RootIsFirst(cfg, h, start, visited + [h[stack[0].node].suffix], stack[1..]);
  }

  lemma TraverseInnerOk(cfg: Config, s: State, t: Tid, stop: bool)
    requires Inv(cfg, s) && Enabled(s, t) && s.calls[t].point.TraverseAt?
    requires s.calls[t].point.stack != [] && s.calls[t].point.stack[0].node in s.trie
             && !s.trie[s.calls[t].point.stack[0].node].Leaf()
    ensures GoodStep(cfg, s, t, Exec(s, t, stop))
  {
    assert CallOk(cfg, s.trie, s.history, s.calls[t]);
    var TraverseAt(keep, start, visited, stack) := s.calls[t].point;
    var hist := s.history + [Abs(s.trie)];
    assert hist[s.calls[t].since] == s.history[s.calls[t].since];
    OwnLocks(s, t);
    var held := Held(s.calls[t].point);
    var x := stack[0].node;
    OpenInner(cfg, s.trie, ROOT, start, visited, stack);
    var stack' := Expand(s.trie, s.trie[x].children, 0) + stack[1..];
    OpenedNotRoot(cfg, s.trie, start, visited, stack);
    var drop := if keep && x == ROOT then {} else {x};
    Release(s.locks, t, held, drop);
    assert held - drop == Held(TraverseWait(keep, start, visited, stack')) && s.locks - {} == s.locks;
    MoveOk(cfg, s, t, s.locks - drop, TraverseWait(keep, start, visited, stack'));
  }

  /** After an internal node has been opened the root is not on the stack. */
  lemma OpenedNotRoot(cfg: Config, h: Trie, start: set<Key>, visited: seq<Key>, stack: seq<Spot<Node>>)
    requires Wf(cfg, h, ROOT) && Frontier(h, start, visited, stack) && stack != [] && !h[stack[0].node].Leaf()
    requires |h[stack[0].node].children| == ALPHABET_SIZE
    requires forall c | 0 <= c < ALPHABET_SIZE :: h[stack[0].node].children[c].Some? ==>
             h[stack[0].node].children[c].value in h
    ensures var stack' := Expand(h, h[stack[0].node].children, 0) + stack[1..];
            stack' == [] || stack'[0].node != ROOT
  {
    var x := stack[0].node;
    var e := Expand(h, h[x].children, 0);
    assert NodeOk(cfg, h, ROOT, ROOT);
    if e != [] {
      ExpandOpens(cfg, h, ROOT, x, 0, 0);
    } else {
      RootIsFirst(cfg, h, start, visited, stack);
    }
  }

  // ---------------------------------------------------------------- whole runs

  lemma ExecKeepsInv(cfg: Config, s: State, t: Tid, stop: bool)
    requires Inv(cfg, s) && Enabled(s, t)
    ensures GoodStep(cfg, s, t, Exec(s, t, stop)) && Inv(cfg, Exec(s, t, stop))
  {
    match s.calls[t].point {
      case InsertBegin(_, _) => InsertBeginOk(cfg, s, t, stop);
      case InsertAt(_, _, _, _, _) => InsertTurnOk(cfg, s, t, stop);
      case InsertWait(_, _, _, _, _) => InsertArriveOk(cfg, s, t, stop);
      case LookupWait(_, _, _) => LookupLocksOk(cfg, s, t, stop);
      case LookupAt(_, _, _) => LookupTurnOk(cfg, s, t, stop);
      case TraverseWait(_, _, _, _) => TraverseLocksOk(cfg, s, t, stop);
      case TraverseAt(_, _, _, stack) =>
        assert CallOk(cfg, s.trie, s.history, s.calls[t]);
        assert SpotOk(s.trie, stack[0]);
        if s.trie[stack[0].node].Leaf() { TraverseLeafOk(cfg, s, t, stop); } else { TraverseInnerOk(cfg, s, t, stop); }
    }
    StepKeepsInv(cfg, s, t, Exec(s, t, stop));
  }
}
