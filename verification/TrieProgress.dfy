/** Every call of the threaded trie is over after a bounded number of its own steps. */
module TrieProgress {
  import opened Prelude
  import opened Keys
  import opened TrieHeap
  import opened TriePath
  import opened Traversal
  import opened TrieThreads
  import opened TrieSafety
  import opened TrieRuns

  /** An upper bound on the steps left. */
  function Rank(cfg: Config, p: Point): nat {
    match p
    case InsertBegin(_, _) => 2 * cfg.keySize + 3
    case InsertAt(_, _, _, _, at) => 2 * Height(cfg, at) + 2
    case InsertWait(_, _, _, _, at) => 2 * Height(cfg, at) + 1
    case LookupWait(_, _, at) => 2 * Height(cfg, at) + 2
    case LookupAt(_, _, at) => 2 * Height(cfg, at) + 1
    case TraverseWait(_, _, _, stack) => 2 * StackWeight(cfg, stack) + 2
    case TraverseAt(_, _, _, stack) => 2 * StackWeight(cfg, stack) + 1
    case _ => 0
  }

  lemma TraverseStepSinks(cfg: Config, s: State, t: Tid, stop: bool)
    requires Inv(cfg, s) && Enabled(s, t) && s.calls[t].point.TraverseAt?
    ensures t in Exec(s, t, stop).calls
    ensures Rank(cfg, Exec(s, t, stop).calls[t].point) < Rank(cfg, s.calls[t].point)
  {
    var TraverseAt(keep, start, visited, stack) := s.calls[t].point;
    assert CallOk(cfg, s.trie, s.history, s.calls[t]);
    assert SpotOk(s.trie, stack[0]);
    var x := stack[0].node;
    if !s.trie[x].Leaf() {
      ChildrenInHeap(cfg, s.trie, ROOT, x);
      OpeningSinks(cfg, s.trie, ROOT, stack);
    }
  }

  lemma InsertStepSinks(cfg: Config, s: State, t: Tid, stop: bool)
    requires Inv(cfg, s) && Enabled(s, t) && s.calls[t].point.InsertAt?
    ensures t in Exec(s, t, stop).calls
    ensures Rank(cfg, Exec(s, t, stop).calls[t].point) < Rank(cfg, s.calls[t].point)
  {
    assert CallOk(cfg, s.trie, s.history, s.calls[t]);
    var InsertAt(key, v, parent, cursor, at) := s.calls[t].point;
    InsertInRange(cfg, s.trie, ROOT, key, parent, cursor, at);
  }

  lemma LookupStepSinks(cfg: Config, s: State, t: Tid, stop: bool)
    requires Inv(cfg, s) && Enabled(s, t) && s.calls[t].point.LookupAt?
    ensures t in Exec(s, t, stop).calls
    ensures Rank(cfg, Exec(s, t, stop).calls[t].point) < Rank(cfg, s.calls[t].point)
  {
    assert CallOk(cfg, s.trie, s.history, s.calls[t]);
    var LookupAt(key, node, at) := s.calls[t].point;
    if !s.trie[node].Leaf() { InnerAnswers(cfg, s.trie, s.history, s.calls[t].since, key, node, at); }
  }

  lemma InsertArriveSinks(cfg: Config, s: State, t: Tid, stop: bool)
    requires Inv(cfg, s) && Enabled(s, t) && s.calls[t].point.InsertWait?
    ensures t in Exec(s, t, stop).calls
    ensures Rank(cfg, Exec(s, t, stop).calls[t].point) < Rank(cfg, s.calls[t].point)
  {
    assert CallOk(cfg, s.trie, s.history, s.calls[t]);
  }

  lemma LockSinks(cfg: Config, s: State, t: Tid, stop: bool)
    requires Inv(cfg, s) && Enabled(s, t)
    requires s.calls[t].point.InsertBegin? || s.calls[t].point.LookupWait? || s.calls[t].point.TraverseWait?
    ensures t in Exec(s, t, stop).calls
    ensures Rank(cfg, Exec(s, t, stop).calls[t].point) < Rank(cfg, s.calls[t].point)
  {
    assert CallOk(cfg, s.trie, s.history, s.calls[t]);
  }

  lemma StepSinks(cfg: Config, s: State, t: Tid, stop: bool)
    requires Inv(cfg, s) && Enabled(s, t)
    ensures t in Exec(s, t, stop).calls
    ensures Rank(cfg, Exec(s, t, stop).calls[t].point) < Rank(cfg, s.calls[t].point)
  {
    match s.calls[t].point {
      case InsertAt(_, _, _, _, _) => InsertStepSinks(cfg, s, t, stop);
      case InsertWait(_, _, _, _, _) => InsertArriveSinks(cfg, s, t, stop);
      case LookupAt(_, _, _) => LookupStepSinks(cfg, s, t, stop);
      case TraverseAt(_, _, _, _) => TraverseStepSinks(cfg, s, t, stop);
      case _ => LockSinks(cfg, s, t, stop);
    }
  }

  /** The steps taken by `t` in a run. */
  function Turns(es: seq<Event>, t: Tid): nat {
    if es == [] then 0
    else Turns(es[..|es| - 1], t) + (if es[|es| - 1] == Turn(t, false) || es[|es| - 1] == Turn(t, true) then 1 else 0)
  }

  /** A step bound known when the call is made: linear in the key size, except for a traversal. */
  function FirstRank(cfg: Config, op: Op): nat {
    match op
    case Insert(_, _) => 2 * cfg.keySize + 3
    case Lookup(_) => 2 * cfg.keySize + 2
    case Traverse(_) => 2 * Weight(cfg.keySize) + 2
  }

  /** However threads are scheduled, a call takes at most `FirstRank` steps of its own. */
  lemma {:induction false} CallsAreBounded(cfg: Config, es: seq<Event>, t: Tid)
    requires Run(cfg, es)
    ensures t !in After(cfg, es).calls ==> Turns(es, t) == 0
    ensures t in After(cfg, es).calls ==>
              exists i :: 0 <= i < |es| && es[i].Start? && es[i].t == t
                && Turns(es, t) + Rank(cfg, After(cfg, es).calls[t].point) <= FirstRank(cfg, es[i].op)
    decreases |es|
  {
    if es != [] {
      var front, e := es[..|es| - 1], es[|es| - 1];
      assert Run(cfg, front);
      CallsAreBounded(cfg, front, t);
      RunKeepsInv(cfg, front);
      if e.Start? {
        if e.t == t {
          FirstRankBounds(cfg, After(cfg, front).trie, e.op);
          assert es[|front|].Start?;
        }
      } else {
        ExecKeepsInv(cfg, After(cfg, front), e.t, e.stop);
        StepSinks(cfg, After(cfg, front), e.t, e.stop);
      }
      if t in After(cfg, front).calls {
        var i :| 0 <= i < |front| && front[i].Start? && front[i].t == t
          && Turns(front, t) + Rank(cfg, After(cfg, front).calls[t].point) <= FirstRank(cfg, front[i].op);
        assert es[i] == front[i];
      }
    }
  }

  lemma FirstRankBounds(cfg: Config, h: Trie, op: Op)
    ensures Rank(cfg, FirstPoint(cfg, h, op)) <= FirstRank(cfg, op)
  {
    if op.Traverse? {
      assert StackWeight(cfg, [Spot(ROOT, [])]) == Weight(Height(cfg, 0)) + StackWeight<Node>(cfg, []);
    }
  }
}
