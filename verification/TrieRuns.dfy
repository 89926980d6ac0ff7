/** Whole runs of the threaded trie, from an empty trie: what any interleaving guarantees to callers. */
module TrieRuns {
  import opened Prelude
  import opened Keys
  import opened TrieHeap
  import opened TriePath
  import opened Traversal
  import opened TrieThreads
  import opened TrieSafety

  function Init(): State {
    State(map[ROOT := Cell(NoChildren(), None, [], 0, [], ROOT)], ROOT + 1, map[], map[], [map[]])
  }

  ghost predicate LegalRun(cfg: Config, es: seq<Event>)
    decreases |es|, 0
  {
    es == [] || (LegalRun(cfg, es[..|es| - 1]) && Legal(After(cfg, es[..|es| - 1]), es[|es| - 1]))
  }

  /** The state after the events `es`. */
  ghost function After(cfg: Config, es: seq<Event>): State
    requires LegalRun(cfg, es)
    decreases |es|, 1
  {
    if es == [] then Init() else Apply(cfg, After(cfg, es[..|es| - 1]), es[|es| - 1])
  }

  ghost predicate OpOk(cfg: Config, op: Op) {
    match op
    case Insert(key, _) => |key| == cfg.keySize ==> cfg.Canonical(key)
    case Lookup(key) => |key| == cfg.keySize ==> cfg.Canonical(key)
    case Traverse(_) => true
  }

  /** Callers write keys in the alphabet. A key of the wrong length is allowed: it is refused. */
  ghost predicate CallersOk(cfg: Config, es: seq<Event>) {
    forall i | 0 <= i < |es| :: es[i].Start? ==> OpOk(cfg, es[i].op)
  }

  ghost predicate Run(cfg: Config, es: seq<Event>) {
    cfg.Ok() && LegalRun(cfg, es) && CallersOk(cfg, es)
  }

  // ---------------------------------------------------------------- the invariant holds throughout

  lemma InitInv(cfg: Config)
    requires cfg.Ok()
    ensures Inv(cfg, Init())
  {
  }

  lemma FirstPointOk(cfg: Config, h: Trie, hist: seq<Contents>, op: Op)
    requires Wf(cfg, h, ROOT) && OpOk(cfg, op)
    ensures CallOk(cfg, h, hist + [Abs(h)], Call(|hist|, FirstPoint(cfg, h, op))) && Held(FirstPoint(cfg, h, op)) == {}
  {
    assert NodeOk(cfg, h, ROOT, ROOT);
    StartFrontier(cfg, h, ROOT);
    AbsKeys(cfg, h);
  }

  lemma StartKeepsInv(cfg: Config, s: State, t: Tid, op: Op)
    requires Inv(cfg, s) && t !in s.calls && OpOk(cfg, op)
    ensures Inv(cfg, Apply(cfg, s, Start(t, op)))
  {
    var p := FirstPoint(cfg, s.trie, op);
    var calls' := s.calls[t := Call(|s.history|, p)];
    var hist' := s.history + [Abs(s.trie)];
    FirstPointOk(cfg, s.trie, s.history, op);
    forall u | u in calls'
      ensures CallOk(cfg, s.trie, hist', calls'[u])
    {
      if u != t {
        assert CallOk(cfg, s.trie, s.history, s.calls[u]);
        CallStable(cfg, s.trie, s.trie, s.history, Abs(s.trie), s.calls[u], {});
      }
    }
    StartKeepsLocks(s, t, calls', hist');
  }

  lemma StartKeepsLocks(s: State, t: Tid, calls': map<Tid, Call>, hist': seq<Contents>)
    requires LocksOk(s) && t !in s.calls && t in calls' && calls' == s.calls[t := calls'[t]]
             && Held(calls'[t].point) == {}
    ensures LocksOk(s.(calls := calls', history := hist'))
  {
  }

  lemma AbsKeys(cfg: Config, trie: Trie)
    requires Wf(cfg, trie, ROOT)
    ensures Abs(trie).Keys == KeySet(trie)
  {
    forall k | k in KeySet(trie)
      ensures k in Abs(trie)
    {
      AbsOfLeaf(cfg, trie, ROOT, LeafOf(trie, k));
    }
  }

  lemma {:induction false} RunKeepsInv(cfg: Config, es: seq<Event>)
    requires Run(cfg, es)
    ensures Inv(cfg, After(cfg, es))
  {
    if es == [] {
      InitInv(cfg);
    } else {
      var front, e := es[..|es| - 1], es[|es| - 1];
      RunKeepsInv(cfg, front);
      match e {
        case Start(t, op) => StartKeepsInv(cfg, After(cfg, front), t, op);
        case Turn(t, stop) => ExecKeepsInv(cfg, After(cfg, front), t, stop);
      }
    }
  }

  /** The history is the list of the maps the trie stood for after each event. */
  lemma {:induction false} HistoryIsTheRun(cfg: Config, es: seq<Event>, m: nat)
    requires Run(cfg, es) && m <= |es|
    ensures Run(cfg, es[..m])
    ensures |After(cfg, es).history| == |es| + 1
    ensures After(cfg, es).history[m] == Abs(After(cfg, es[..m]).trie)
  {
    HistoryGrows(cfg, es);
    if m == |es| {
      assert es[..m] == es;
      RunKeepsInv(cfg, es);
    } else {
      var front := es[..|es| - 1];
      assert Run(cfg, front);
      HistoryIsTheRun(cfg, front, m);
      assert front[..m] == es[..m];
    }
  }

  lemma {:induction false} HistoryGrows(cfg: Config, es: seq<Event>)
    requires Run(cfg, es)
    ensures |After(cfg, es).history| == |es| + 1
    ensures es != [] ==> After(cfg, es).history == After(cfg, es[..|es| - 1]).history + [Abs(After(cfg, es).trie)]
  {
    if es != [] {
      var front, e := es[..|es| - 1], es[|es| - 1];
      HistoryGrows(cfg, front);
      if e.Turn? {
        RunKeepsInv(cfg, front);
        ExecKeepsInv(cfg, After(cfg, front), e.t, e.stop);
      }
    }
  }

  /** The operation a point belongs to. Only a key of the wrong length is refused. */
  ghost predicate Serves(cfg: Config, p: Point, op: Op) {
    match p
    case InsertBegin(key, v) => op == Insert(key, v)
    case InsertAt(key, v, _, _, _) => op == Insert(key, v)
    case InsertWait(key, v, _, _, _) => op == Insert(key, v)
    case Inserted(key, v) => op == Insert(key, v)
    case LookupWait(key, _, _) => op == Lookup(key)
    case LookupAt(key, _, _) => op == Lookup(key)
    case Found(key, _) => op == Lookup(key)
    case TraverseWait(keep, _, _, _) => op == Traverse(keep)
    case TraverseAt(keep, _, _, _) => op == Traverse(keep)
    case Traversed(_, _, _) => op.Traverse?
    case Rejected => !op.Traverse? && |op.key| != cfg.keySize
    case Wild => true
  }

  ghost predicate StartedAt(cfg: Config, es: seq<Event>, t: Tid, c: Call) {
    && 0 < c.since <= |es|
    && es[c.since - 1].Start? && es[c.since - 1].t == t && Serves(cfg, c.point, es[c.since - 1].op)
  }

  /** Every call belongs to the event that started it. */
  lemma {:induction false} CallsAreStarted(cfg: Config, es: seq<Event>, t: Tid, c: Call)
    requires Run(cfg, es) && t in After(cfg, es).calls && After(cfg, es).calls[t] == c
    ensures StartedAt(cfg, es, t, c)
    decreases |es|
  {
    assert es != [];
    var front, e := es[..|es| - 1], es[|es| - 1];
    if e.Start? && e.t == t {
      StartedNow(cfg, es, t, c);
    } else {
      KeptSince(cfg, es, t);
      var c0 := After(cfg, front).calls[t];
      CallsAreStarted(cfg, front, t, c0);
      assert es[c0.since - 1] == front[c0.since - 1];
    }
  }

  lemma StartedNow(cfg: Config, es: seq<Event>, t: Tid, c: Call)
    requires Run(cfg, es) && es != [] && es[|es| - 1].Start? && es[|es| - 1].t == t
    requires After(cfg, es).calls[t] == c
    ensures StartedAt(cfg, es, t, c)
  {
    HistoryGrows(cfg, es[..|es| - 1]);
    FirstServes(cfg, After(cfg, es[..|es| - 1]).trie, es[|es| - 1].op);
  }

  lemma FirstServes(cfg: Config, h: Trie, op: Op)
    ensures Serves(cfg, FirstPoint(cfg, h, op), op)
  {
  }

  lemma KeptSince(cfg: Config, es: seq<Event>, t: Tid)
    requires Run(cfg, es) && es != [] && t in After(cfg, es).calls && !(es[|es| - 1].Start? && es[|es| - 1].t == t)
    ensures t in After(cfg, es[..|es| - 1]).calls
    ensures var c, c' := After(cfg, es[..|es| - 1]).calls[t], After(cfg, es).calls[t];
            && c'.since == c.since
            && Continues(cfg, c.point, c'.point)
  {
    var front, e := es[..|es| - 1], es[|es| - 1];
    if e.Turn? {
      RunKeepsInv(cfg, front);
      ExecKeepsInv(cfg, After(cfg, front), e.t, e.stop);
      if e.t == t { ExecServes(cfg, After(cfg, front), t, e.stop); }
    }
  }

  /** Whatever operation the point `p` belongs to, `p'` belongs to it as well. */
  ghost predicate Continues(cfg: Config, p: Point, p': Point) {
    forall op :: Serves(cfg, p, op) ==> Serves(cfg, p', op)
  }

  /** A step stays within its operation. */
  lemma ExecServes(cfg: Config, s: State, t: Tid, stop: bool)
    requires Enabled(s, t)
    ensures t in Exec(s, t, stop).calls
    ensures Continues(cfg, s.calls[t].point, Exec(s, t, stop).calls[t].point)
  {
    match s.calls[t].point {
      case InsertAt(key, v, parent, cursor, at) => InsertTurnServes(cfg, s, t, key, v, parent, cursor, at);
      case InsertWait(key, v, parent, next, at) => InsertTurnServes(cfg, s, t, key, v, parent, next, at);
      case LookupAt(key, node, at) => LookupTurnServes(cfg, s, t, key, node, at);
      case TraverseAt(keep, start, visited, stack) => TraverseTurnServes(cfg, s, t, keep, start, visited, stack, stop);
      case _ => LockServes(cfg, s, t, stop);
    }
  }

  lemma LockServes(cfg: Config, s: State, t: Tid, stop: bool)
    requires Enabled(s, t) && (s.calls[t].point.InsertBegin? || s.calls[t].point.LookupWait? ||
             s.calls[t].point.TraverseWait?)
    ensures t in Exec(s, t, stop).calls
    ensures Continues(cfg, s.calls[t].point, Exec(s, t, stop).calls[t].point)
  {
  }

  /** The point is of an insert of `v` under `key`; likewise below for the other operations. */
  predicate OfInsert(p: Point, key: Key, v: Item) {
    p.Wild? || ((p.InsertAt? || p.InsertWait? || p.Inserted?) && p.key == key && p.value == v)
  }

  predicate OfLookup(p: Point, key: Key) {
    p.Wild? || ((p.LookupAt? || p.LookupWait? || p.Found?) && p.key == key)
  }

  predicate OfTraverse(p: Point, keep: bool) {
    p.Wild? || p.Traversed? || ((p.TraverseAt? || p.TraverseWait?) && p.keep == keep)
  }

  lemma OfSameContinues(cfg: Config, p: Point, p': Point)
    requires !p.Wild? && !p.Traversed?
    requires || (exists key, v :: OfInsert(p, key, v) && OfInsert(p', key, v))
             || (exists key :: OfLookup(p, key) && OfLookup(p', key))
             || (exists keep :: OfTraverse(p, keep) && OfTraverse(p', keep))
    ensures Continues(cfg, p, p')
  {
  }

  lemma InsertTurnPoint(s: State, t: Tid, key: Key, v: Item, parent: Node, cursor: Node, at: nat)
    requires t in s.calls
    ensures OfInsert(InsertTurn(s, t, key, v, parent, cursor, at).calls[t].point, key, v)
    ensures OfInsert(InsertArrive(s, t, key, v, parent, cursor, at).calls[t].point, key, v)
  {
  }

  lemma LookupTurnPoint(s: State, t: Tid, key: Key, node: Node, at: nat)
    requires t in s.calls
    ensures OfLookup(LookupTurn(s, t, key, node, at).calls[t].point, key)
  {
  }

  lemma TraverseTurnPoint(s: State, t: Tid, keep: bool, start: set<Key>, visited: seq<Key>, stack: seq<Spot<Node>>,
                          stop: bool)
    requires t in s.calls
    ensures OfTraverse(TraverseTurn(s, t, keep, start, visited, stack, stop).calls[t].point, keep)
  {
  }

  lemma InsertTurnServes(cfg: Config, s: State, t: Tid, key: Key, v: Item, parent: Node, cursor: Node, at: nat)
    requires t in s.calls
    ensures Continues(cfg, InsertAt(key, v, parent, cursor, at),
            InsertTurn(s, t, key, v, parent, cursor, at).calls[t].point)
    ensures Continues(cfg, InsertWait(key, v, parent, cursor, at),
            InsertArrive(s, t, key, v, parent, cursor, at).calls[t].point)
  {
    InsertTurnPoint(s, t, key, v, parent, cursor, at);
    OfSameContinues(cfg, InsertAt(key, v, parent, cursor, at),
        InsertTurn(s, t, key, v, parent, cursor, at).calls[t].point);
    OfSameContinues(cfg, InsertWait(key, v, parent, cursor, at),
        InsertArrive(s, t, key, v, parent, cursor, at).calls[t].point);
  }

  lemma LookupTurnServes(cfg: Config, s: State, t: Tid, key: Key, node: Node, at: nat)
    requires t in s.calls
    ensures Continues(cfg, LookupAt(key, node, at), LookupTurn(s, t, key, node, at).calls[t].point)
  {
    LookupTurnPoint(s, t, key, node, at);
    OfSameContinues(cfg, LookupAt(key, node, at), LookupTurn(s, t, key, node, at).calls[t].point);
  }

  lemma TraverseTurnServes(cfg: Config, s: State, t: Tid, keep: bool, start: set<Key>, visited: seq<Key>,
                           stack: seq<Spot<Node>>, stop: bool)
    requires t in s.calls
    ensures Continues(cfg, TraverseAt(keep, start, visited, stack),
                      TraverseTurn(s, t, keep, start, visited, stack, stop).calls[t].point)
  {
    TraverseTurnPoint(s, t, keep, start, visited, stack, stop);
    OfSameContinues(cfg, TraverseAt(keep, start, visited, stack),
                    TraverseTurn(s, t, keep, start, visited, stack, stop).calls[t].point);
  }
}
