/** Traversals over whole runs: what stops one, and what it keeps out when it keeps the root locked. */
module TrieVisits {
  import opened Prelude
  import opened Keys
  import opened TrieHeap
  import opened Traversal
  import opened TrieThreads
  import opened TrieSafety
  import opened TrieRuns
  import opened TrieTheorems

  // ---------------------------------------------------------------- the visit function's answers

  function Visited(p: Point): seq<Key> {
    match p
    case TraverseWait(_, _, visited, _) => visited
    case TraverseAt(_, _, visited, _) => visited
    case Traversed(_, visited, _) => visited
    case _ => []
  }

  ghost function VisitedBy(s: State, t: Tid): seq<Key> {
    if t in s.calls then Visited(s.calls[t].point) else []
  }

  /** What the visit function answered to the thread `t`: the answer in each turn that visited a key. */
  ghost function Answers(cfg: Config, es: seq<Event>, t: Tid): seq<bool>
    requires Run(cfg, es)
    decreases |es|
  {
    if es == [] then []
    else
      var front, e := es[..|es| - 1], es[|es| - 1];
      assert Run(cfg, front);
      if e.Turn? && e.t == t && VisitedBy(After(cfg, es), t) != VisitedBy(After(cfg, front), t)
      then Answers(cfg, front, t) + [e.stop] else Answers(cfg, front, t)
  }

  /** All answers were to go on. */
  ghost predicate GoOn(answers: seq<bool>) {
    forall i | 0 <= i < |answers| :: !answers[i]
  }

  /** One answer per key; none was to stop, unless it was the last one, and that ended the traversal. */
  ghost predicate Obeyed(p: Point, answers: seq<bool>) {
    && |answers| == |Visited(p)|
    && if p.Traversed? && p.stopped then answers != [] && answers[|answers| - 1] && GoOn(answers[..|answers| - 1])
       else GoOn(answers)
  }

  /** What a turn of a traversal does to the keys visited. */
  ghost predicate VisitStep(p: Point, stop: bool, p': Point) {
    if Visited(p') == Visited(p) then !(p'.Traversed? && p'.stopped)
    else
      && |Visited(p')| == |Visited(p)| + 1 && Visited(p')[..|Visited(p)|] == Visited(p)
      && (stop <==> p'.Traversed? && p'.stopped)
  }

  lemma LockVisits(cfg: Config, s: State, t: Tid, stop: bool)
    requires Inv(cfg, s) && Enabled(s, t) && !s.calls[t].point.TraverseAt?
    ensures t in Exec(s, t, stop).calls && VisitStep(s.calls[t].point, stop, Exec(s, t, stop).calls[t].point)
  {
    var p := s.calls[t].point;
    if !p.TraverseWait? {
      ExecServes(cfg, s, t, stop);
      NoVisits(cfg, s, t, stop);
    }
  }

  lemma NoVisits(cfg: Config, s: State, t: Tid, stop: bool)
    requires Inv(cfg, s) && Enabled(s, t) && !s.calls[t].point.TraverseAt? && !s.calls[t].point.TraverseWait?
    requires t in Exec(s, t, stop).calls
    ensures Visited(Exec(s, t, stop).calls[t].point) == [] && !Exec(s, t, stop).calls[t].point.Traversed?
  {
    match s.calls[t].point
    case InsertAt(key, v, parent, cursor, at) => InsertTurnPoint(s, t, key, v, parent, cursor, at);
    case InsertWait(key, v, parent, next, at) => InsertTurnPoint(s, t, key, v, parent, next, at);
    case LookupAt(key, node, at) => LookupTurnPoint(s, t, key, node, at);
    case _ =>
  }

  lemma TraverseVisits(s: State, t: Tid, keep: bool, start: set<Key>, visited: seq<Key>, stack: seq<Spot<Node>>,
                       stop: bool)
    requires t in s.calls
    ensures var p' := TraverseTurn(s, t, keep, start, visited, stack, stop).calls[t].point;
            p'.Wild? || VisitStep(TraverseAt(keep, start, visited, stack), stop, p')
  {
  }

  lemma NotWild(cfg: Config, s: State, t: Tid, stop: bool)
    requires Inv(cfg, s) && Enabled(s, t)
    ensures t in Exec(s, t, stop).calls && !Exec(s, t, stop).calls[t].point.Wild?
  {
    ExecKeepsInv(cfg, s, t, stop);
    var s' := Exec(s, t, stop);
    assert CallOk(cfg, s'.trie, s'.history, s'.calls[t]);
  }

  lemma TurnVisits(cfg: Config, s: State, t: Tid, stop: bool)
    requires Inv(cfg, s) && Enabled(s, t)
    ensures t in Exec(s, t, stop).calls && VisitStep(s.calls[t].point, stop, Exec(s, t, stop).calls[t].point)
  {
    match s.calls[t].point
    case TraverseAt(keep, start, visited, stack) =>
      NotWild(cfg, s, t, stop);
      TraverseVisits(s, t, keep, start, visited, stack, stop);
    case _ => LockVisits(cfg, s, t, stop);
  }

  lemma ObeysStep(p: Point, stop: bool, p': Point, answers: seq<bool>)
    requires Obeyed(p, answers) && VisitStep(p, stop, p') && !p.Traversed?
    ensures Obeyed(p', if Visited(p') != Visited(p) then answers + [stop] else answers)
  {
    assert (answers + [stop])[..|answers|] == answers;
  }

  /**
   * A traversal asks once for each key it visits, goes on as long as it is told to, and stops at once when
   * it is told to stop: it ends as stopped exactly if the last answer was to stop, and no earlier one was.
   */
  lemma {:induction false} StopsWhenTold(cfg: Config, es: seq<Event>, t: Tid)
    requires Run(cfg, es)
    ensures if t in After(cfg, es).calls then Obeyed(After(cfg, es).calls[t].point, Answers(cfg, es, t))
            else Answers(cfg, es, t) == []
    decreases |es|
  {
    if es != [] {
      var front, e := es[..|es| - 1], es[|es| - 1];
      assert Run(cfg, front);
      StopsWhenTold(cfg, front, t);
      var s := After(cfg, front);
      if e.Turn? {
        RunKeepsInv(cfg, front);
        ExecKeepsInv(cfg, s, e.t, e.stop);
        if e.t == t {
          TurnVisits(cfg, s, t, e.stop);
          ObeysStep(s.calls[t].point, e.stop, After(cfg, es).calls[t].point, Answers(cfg, front, t));
        }
      }
    }
  }

  lemma {:induction false} AnswersAreEvents(cfg: Config, es: seq<Event>, t: Tid, i: nat)
    requires Run(cfg, es) && i < |Answers(cfg, es, t)| && Answers(cfg, es, t)[i]
    ensures Turn(t, true) in es
    decreases |es|
  {
    if es != [] {
      var front, e := es[..|es| - 1], es[|es| - 1];
      assert Run(cfg, front);
      if i < |Answers(cfg, front, t)| {
        AnswersAreEvents(cfg, front, t, i);
      } else {
        assert e == Turn(t, true);
      }
    }
  }

  /** If the visit function never answers to stop, every key that was there at the call is visited. */
  lemma UnstoppedVisitsAll(cfg: Config, es: seq<Event>, t: Tid, c: Call)
    requires Run(cfg, es) && t in After(cfg, es).calls && After(cfg, es).calls[t] == c && c.point.Traversed?
    requires Turn(t, true) !in es
    ensures 0 < c.since <= |es| && forall k | k in MapAt(cfg, es, c.since) :: k in c.point.visited
  {
    TraverseIsComplete(cfg, es, t, c);
    StopsWhenTold(cfg, es, t);
    if c.point.stopped { AnswersAreEvents(cfg, es, t, |Answers(cfg, es, t)| - 1); }
  }

  // ---------------------------------------------------------------- the root, kept locked

  ghost predicate Stepped(es: seq<Event>, t: Tid) {
    exists i | 0 <= i < |es| :: es[i].Turn? && es[i].t == t
  }

  /** The traversal has locked the root. */
  ghost predicate PastRoot(p: Point) {
    p.TraverseAt? || (p.TraverseWait? && (p.stack == [] || p.stack[0].node != ROOT))
  }

  lemma OpeningPasses(cfg: Config, s: State, t: Tid, stop: bool)
    requires Inv(cfg, s) && Enabled(s, t) && s.calls[t].point.TraverseAt?
    ensures t in Exec(s, t, stop).calls && (PastRoot(Exec(s, t, stop).calls[t].point) ||
            Exec(s, t, stop).calls[t].point.Traversed?)
  {
    assert CallOk(cfg, s.trie, s.history, s.calls[t]);
    var TraverseAt(keep, start, visited, stack) := s.calls[t].point;
    assert SpotOk(s.trie, stack[0]);
    if s.trie[stack[0].node].Leaf() {
      if |stack| > 1 { VisitedNotRoot(cfg, s.trie, start, visited, stack); }
    } else {
      OpenInner(cfg, s.trie, ROOT, start, visited, stack);
      OpenedNotRoot(cfg, s.trie, start, visited, stack);
    }
  }

  lemma {:induction false} SteppedIsPast(cfg: Config, es: seq<Event>, t: Tid)
    requires Run(cfg, es) && Stepped(es, t)
    ensures t in After(cfg, es).calls
    ensures var p := After(cfg, es).calls[t].point; p.TraverseWait? || p.TraverseAt? ==> PastRoot(p)
    decreases |es|
  {
    var front, e := es[..|es| - 1], es[|es| - 1];
    assert Run(cfg, front);
    RunKeepsInv(cfg, front);
    var s := After(cfg, front);
    if e.Turn? && e.t == t {
      ExecServes(cfg, s, t, e.stop);
      if s.calls[t].point.TraverseAt? {
        OpeningPasses(cfg, s, t, e.stop);
      } else if !s.calls[t].point.TraverseWait? {
        NoVisits(cfg, s, t, e.stop);
        TraversalsStay(cfg, s, t, e.stop);
      }
    } else {
      var i :| 0 <= i < |es| && es[i].Turn? && es[i].t == t;
      assert front[i] == es[i];
      SteppedIsPast(cfg, front, t);
      if e.Turn? { ExecKeepsInv(cfg, s, e.t, e.stop); }
    }
  }

  lemma TraversalsStay(cfg: Config, s: State, t: Tid, stop: bool)
    requires Inv(cfg, s) && Enabled(s, t) && !s.calls[t].point.TraverseAt? && !s.calls[t].point.TraverseWait?
    requires t in Exec(s, t, stop).calls
    ensures var p := Exec(s, t, stop).calls[t].point; !p.TraverseAt? && !p.TraverseWait?
  {
    match s.calls[t].point
    case InsertAt(key, v, parent, cursor, at) => InsertTurnPoint(s, t, key, v, parent, cursor, at);
    case InsertWait(key, v, parent, next, at) => InsertTurnPoint(s, t, key, v, parent, next, at);
    case LookupAt(key, node, at) => LookupTurnPoint(s, t, key, node, at);
    case _ =>
  }

  /** A traversal that is to keep the root locked has not returned. */
  ghost predicate Keeping(cfg: Config, es: seq<Event>, t: Tid)
    requires Run(cfg, es)
  {
    && t in After(cfg, es).calls && !Finished(After(cfg, es).calls[t].point)
    && var since := After(cfg, es).calls[t].since; 0 < since <= |es| && es[since - 1] == Start(t, Traverse(true))
  }

  /** From its first turn to its last, such a traversal holds the root. */
  lemma RootStaysLocked(cfg: Config, es: seq<Event>, t: Tid)
    requires Run(cfg, es) && Keeping(cfg, es, t) && Stepped(es, t)
    ensures ROOT in After(cfg, es).locks && After(cfg, es).locks[ROOT] == t
  {
    var s := After(cfg, es);
    RunKeepsInv(cfg, es);
    CallsAreStarted(cfg, es, t, s.calls[t]);
    SteppedIsPast(cfg, es, t);
    assert CallOk(cfg, s.trie, s.history, s.calls[t]);
    assert ROOT in Held(s.calls[t].point);
  }

  /** The call has not got past the root: it waits to lock it, unless its key was refused. */
  ghost predicate Outside(p: Point) {
    p.Rejected? || Awaited(p) == Some(ROOT)
  }

  lemma KeepingBefore(cfg: Config, es: seq<Event>, t: Tid)
    requires Run(cfg, es) && es != [] && Run(cfg, es[..|es| - 1]) && Keeping(cfg, es, t) && Stepped(es[..|es| - 1], t)
    ensures Keeping(cfg, es[..|es| - 1], t)
  {
    var front, e := es[..|es| - 1], es[|es| - 1];
    SteppedIsPast(cfg, front, t);
    KeptSince(cfg, es, t);
    CallsAreStarted(cfg, front, t, After(cfg, front).calls[t]);
    if e.Turn? && e.t != t {
      RunKeepsInv(cfg, front);
      ExecKeepsInv(cfg, After(cfg, front), e.t, e.stop);
    }
  }

  /** While the root is locked, a call that waits for it stays where it is. */
  lemma OutsideStays(cfg: Config, es: seq<Event>, u: Tid)
    requires Run(cfg, es) && es != [] && Run(cfg, es[..|es| - 1])
    requires u in After(cfg, es[..|es| - 1]).calls && Outside(After(cfg, es[..|es| - 1]).calls[u].point)
    requires ROOT in After(cfg, es[..|es| - 1]).locks
    ensures u in After(cfg, es).calls && After(cfg, es).calls[u] == After(cfg, es[..|es| - 1]).calls[u]
  {
    var front, e := es[..|es| - 1], es[|es| - 1];
    if e.Turn? {
      RunKeepsInv(cfg, front);
      ExecKeepsInv(cfg, After(cfg, front), e.t, e.stop);
    }
  }

  lemma BeginsOutside(cfg: Config, es: seq<Event>, u: Tid)
    requires Run(cfg, es) && es != [] && es[|es| - 1].Start? && es[|es| - 1].t == u
    ensures u in After(cfg, es).calls && Outside(After(cfg, es).calls[u].point)
  {
  }

  /** Not begun by the last event, so begun before it, by the same event. */
  lemma BegunBefore(cfg: Config, es: seq<Event>, u: Tid, i: nat)
    requires Run(cfg, es) && es != [] && !(es[|es| - 1].Start? && es[|es| - 1].t == u)
    requires u in After(cfg, es).calls && i < After(cfg, es).calls[u].since
    ensures Run(cfg, es[..|es| - 1]) && i < |es|
    ensures u in After(cfg, es[..|es| - 1]).calls && i < After(cfg, es[..|es| - 1]).calls[u].since
  {
    KeptSince(cfg, es, u);
    CallsAreStarted(cfg, es, u, After(cfg, es).calls[u]);
  }

  /** No call made after its first turn gets past the root until it has returned. */
  lemma {:induction false} RootKeepsOut(cfg: Config, es: seq<Event>, i: nat, t: Tid, u: Tid)
    requires Run(cfg, es) && Keeping(cfg, es, t) && i <= |es| && Stepped(es[..i], t)
    requires u in After(cfg, es).calls && i < After(cfg, es).calls[u].since
    ensures Outside(After(cfg, es).calls[u].point)
    decreases |es|
  {
    if es[|es| - 1].Start? && es[|es| - 1].t == u {
      BeginsOutside(cfg, es, u);
    } else {
      BegunBefore(cfg, es, u, i);
      SteppedLater(es, i, t);
      KeepingBefore(cfg, es, t);
      RootKeepsOut(cfg, es[..|es| - 1], i, t, u);
      RootStaysLocked(cfg, es[..|es| - 1], t);
      OutsideStays(cfg, es, u);
    }
  }

  lemma SteppedLater(es: seq<Event>, i: nat, t: Tid)
    requires i < |es| && Stepped(es[..i], t)
    ensures es[..|es| - 1][..i] == es[..i] && Stepped(es[..|es| - 1], t)
  {
    var j :| 0 <= j < |es[..i]| && es[..i][j].Turn? && es[..i][j].t == t;
    assert es[..|es| - 1][j] == es[..i][j];
  }
}
