/** The guarantees of the threaded trie, each over every run. */
module TrieTheorems {
  import opened Prelude
  import opened Keys
  import opened TrieHeap
  import opened TriePath
  import opened Traversal
  import opened TrieThreads
  import opened TrieSafety
  import opened TrieRuns

  // ---------------------------------------------------------------- linearizability

  /** The map after the first `m` events. */
  ghost function MapAt(cfg: Config, es: seq<Event>, m: nat): Contents
    requires Run(cfg, es) && m <= |es|
  {
    HistoryIsTheRun(cfg, es, m);
    Abs(After(cfg, es[..m]).trie)
  }

  /** A lookup's answer was true of the map at an instant after the call was made. */
  lemma LookupLinearizes(cfg: Config, es: seq<Event>, t: Tid, key: Key, r: Option<seq<Item>>) returns (m: nat)
    requires Run(cfg, es) && t in After(cfg, es).calls && After(cfg, es).calls[t].point == Found(key, r)
    ensures var since := After(cfg, es).calls[t].since;
            0 < since <= m <= |es| && es[since - 1] == Start(t, Lookup(key)) && Look(MapAt(cfg, es, m), key) == r
  {
    RunKeepsInv(cfg, es);
    var s := After(cfg, es);
    var c := s.calls[t];
    assert CallOk(cfg, s.trie, s.history, c);
    CallsAreStarted(cfg, es, t, c);
    m :| c.since <= m < |s.history| && Look(s.history[m], key) == r;
    HistoryIsTheRun(cfg, es, |es|);
    HistoryIsTheRun(cfg, es, m);
  }

  /** An insert changes the map by exactly its own key and value at an instant after the call was made. */
  lemma InsertLinearizes(cfg: Config, es: seq<Event>, t: Tid, key: Key, v: Item) returns (m: nat)
    requires Run(cfg, es) && t in After(cfg, es).calls && After(cfg, es).calls[t].point == Inserted(key, v)
    ensures var since := After(cfg, es).calls[t].since;
            0 < since < m <= |es| && es[since - 1] == Start(t, Insert(key, v))
            && MapAt(cfg, es, m) == Put(MapAt(cfg, es, m - 1), key, v)
  {
    RunKeepsInv(cfg, es);
    var s := After(cfg, es);
    var c := s.calls[t];
    assert CallOk(cfg, s.trie, s.history, c);
    CallsAreStarted(cfg, es, t, c);
    m :| c.since < m && TookEffectAt(s.history, m, key, v);
    HistoryIsTheRun(cfg, es, |es|);
    HistoryIsTheRun(cfg, es, m);
    HistoryIsTheRun(cfg, es, m - 1);
  }

  // ---------------------------------------------------------------- the map is the log of inserts

  datatype Effect = Effect(t: Tid, key: Key, value: Item)

  /** The inserts that took effect, in the order in which they did. */
  ghost function Log(cfg: Config, es: seq<Event>): seq<Effect>
    requires Run(cfg, es)
    decreases |es|
  {
    if es == [] then []
    else
      var front, e := es[..|es| - 1], es[|es| - 1];
      assert Run(cfg, front);
      if e.Turn? then Log(cfg, front) + Ended(After(cfg, front), e.t, e.stop) else Log(cfg, front)
  }

  ghost function Ended(s: State, t: Tid, stop: bool): seq<Effect>
    requires Enabled(s, t)
  {
    var c := Exec(s, t, stop).calls;
    if t in c && c[t].point.Inserted? then [Effect(t, c[t].point.key, c[t].point.value)] else []
  }

  /** The values inserted under `key`, in order. */
  function Under(log: seq<Effect>, key: Key): seq<Item> {
    if log == [] then []
    else
      var e := log[|log| - 1];
      Under(log[..|log| - 1], key) + (if e.key == key then [e.value] else [])
  }

  /** The map `m` gives each key the values the log has under it. */
  ghost predicate Agrees(m: Contents, log: seq<Effect>, key: Key) {
    Look(m, key) == if Under(log, key) == [] then None else Some(Under(log, key))
  }

  /** Whatever the interleaving, a key maps to the merge, in order, of all values inserted under it. */
  lemma {:induction false} MapIsTheLog(cfg: Config, es: seq<Event>, key: Key)
    requires Run(cfg, es)
    ensures var vs := Under(Log(cfg, es), key);
            Look(Abs(After(cfg, es).trie), key) == if vs == [] then None else Some(vs)
    decreases |es|
  {
    if es == [] {
      InitInv(cfg);
    } else {
      var front, e := es[..|es| - 1], es[|es| - 1];
      assert Run(cfg, front);
      MapIsTheLog(cfg, front, key);
      if e.Turn? {
        RunKeepsInv(cfg, front);
        StepEffect(cfg, After(cfg, front), e.t, e.stop);
        AgreesStep(Abs(After(cfg, front).trie), Abs(After(cfg, es).trie), Log(cfg, front),
            Ended(After(cfg, front), e.t, e.stop), key);
      }
    }
  }

  lemma AgreesStep(m: Contents, m': Contents, log: seq<Effect>, d: seq<Effect>, key: Key)
    requires Agrees(m, log, key) && |d| <= 1
    requires m' == if d == [] then m else Put(m, d[0].key, d[0].value)
    ensures Agrees(m', log + d, key)
  {
    UnderAppends(log, d, key);
    var vs := Under(log, key);
    assert vs + [] == vs;
    if d != [] && vs == [] { assert vs + [d[0].value] == [d[0].value]; }
  }

  lemma UnderAppends(log: seq<Effect>, more: seq<Effect>, key: Key)
    requires |more| <= 1
    ensures Under(log + more, key) == Under(log, key) + (if |more| == 1
            && more[0].key == key then [more[0].value] else [])
  {
    if more == [] {
      assert log + more == log;
    } else {
      assert (log + more)[..|log|] == log;
    }
  }

  lemma StepEffect(cfg: Config, s: State, t: Tid, stop: bool)
    requires Inv(cfg, s) && Enabled(s, t)
    ensures var m, m' := Abs(s.trie), Abs(Exec(s, t, stop).trie);
            var d := Ended(s, t, stop);
            m' == if d == [] then m else Put(m, d[0].key, d[0].value)
  {
    ExecKeepsInv(cfg, s, t, stop);
  }

  ghost predicate Exact(log: seq<Effect>, calls: map<Tid, Call>) {
    && (forall i, j | 0 <= i < j < |log| :: log[i].t != log[j].t)
    && (forall i | 0 <= i < |log| :: log[i].t in calls && calls[log[i].t].point == Inserted(log[i].key, log[i].value))
    && (forall t | t in calls && calls[t].point.Inserted? :: Logged(log, t))
  }

  ghost predicate Logged(log: seq<Effect>, t: Tid) {
    exists i :: 0 <= i < |log| && log[i].t == t
  }

  lemma TurnIsExact(cfg: Config, s: State, t: Tid, stop: bool, log: seq<Effect>)
    requires Inv(cfg, s) && Enabled(s, t) && Exact(log, s.calls)
    ensures Exact(log + Ended(s, t, stop), Exec(s, t, stop).calls)
  {
    ExecKeepsInv(cfg, s, t, stop);
    ExactStep(log, Ended(s, t, stop), s.calls, Exec(s, t, stop).calls, t);
  }

  lemma StartIsExact(cfg: Config, s: State, t: Tid, op: Op, log: seq<Effect>)
    requires t !in s.calls && Exact(log, s.calls)
    ensures Exact(log, Apply(cfg, s, Start(t, op)).calls)
  {
    ExactStep(log, [], s.calls, Apply(cfg, s, Start(t, op)).calls, t);
    assert log + [] == log;
  }

  /** Every insert that returned is in the log exactly once, and nothing else is. */
  lemma {:induction false} LogIsExact(cfg: Config, es: seq<Event>)
    requires Run(cfg, es)
    ensures Exact(Log(cfg, es), After(cfg, es).calls)
    decreases |es|
  {
    if es != [] {
      var front, e := es[..|es| - 1], es[|es| - 1];
      assert Run(cfg, front);
      LogIsExact(cfg, front);
      match e
      case Turn(t, stop) =>
        RunKeepsInv(cfg, front);
        TurnIsExact(cfg, After(cfg, front), t, stop, Log(cfg, front));
      case Start(t, op) =>
        StartIsExact(cfg, After(cfg, front), t, op, Log(cfg, front));
    }
  }

  lemma ExactStep(log: seq<Effect>, d: seq<Effect>, calls: map<Tid, Call>, calls': map<Tid, Call>, t: Tid)
    requires Exact(log, calls)
    requires t in calls ==> !calls[t].point.Inserted?
    requires t in calls' && calls' == calls[t := calls'[t]]
    requires d == if calls'[t].point.Inserted? then [Effect(t, calls'[t].point.key, calls'[t].point.value)] else []
    ensures Exact(log + d, calls')
  {
    forall u | u in calls' && calls'[u].point.Inserted?
      ensures Logged(log + d, u)
    {
      if u != t {
        assert Logged(log, u);
        var i :| 0 <= i < |log| && log[i].t == u;
        assert (log + d)[i].t == u;
      } else {
        assert (log + d)[|log|].t == u;
      }
    }
  }

  // ---------------------------------------------------------------- traversal

  /**
   * Ascending, without repeats, nothing that is not there, and nothing of `start` missing, unless the
   * traversal was stopped and the key comes later than the last one visited.
   */
  ghost predicate VisitsAll(m: Contents, start: set<Key>, visited: seq<Key>, stopped: bool) {
    && Ascending(visited)
    && (forall i, j | 0 <= i < j < |visited| :: visited[i] != visited[j])
    && (forall i | 0 <= i < |visited| :: visited[i] in m)
    && (forall k | k in start :: k in visited || (stopped && BeyondLast(visited, k)))
  }

  lemma TraversedVisits(cfg: Config, trie: Trie, hist: seq<Contents>, c: Call)
    requires Wf(cfg, trie, ROOT) && CallOk(cfg, trie, hist, c) && c.point.Traversed?
    ensures hist[c.since].Keys == c.point.start && VisitsAll(Abs(trie), c.point.start, c.point.visited, c.point.stopped)
  {
    AscendingHasNoRepeats(c.point.visited);
    forall i | 0 <= i < |c.point.visited|
      ensures c.point.visited[i] in Abs(trie)
    {
      AbsOfLeaf(cfg, trie, ROOT, LeafOf(trie, c.point.visited[i]));
    }
  }

  ghost predicate IsTraverseOf(es: seq<Event>, t: Tid, c: Call) {
    0 < c.since <= |es| && es[c.since - 1].Start? && es[c.since - 1].t == t && es[c.since - 1].op.Traverse?
  }

  lemma TraversalStarted(cfg: Config, es: seq<Event>, t: Tid, c: Call)
    requires StartedAt(cfg, es, t, c) && c.point.Traversed?
    ensures IsTraverseOf(es, t, c)
  {
  }

  /**
   * A traversal visits keys in ascending slot order without repeats, visits only keys that were
   * inserted, and visits every key that was there when it was called; if it is stopped, every such key
   * up to the one it is stopped at.
   */
  lemma TraverseIsComplete(cfg: Config, es: seq<Event>, t: Tid, c: Call)
    requires Run(cfg, es) && t in After(cfg, es).calls && After(cfg, es).calls[t] == c && c.point.Traversed?
    ensures IsTraverseOf(es, t, c)
    ensures c.point.start == MapAt(cfg, es, c.since).Keys
    ensures VisitsAll(Abs(After(cfg, es).trie), c.point.start, c.point.visited, c.point.stopped)
  {
    CallsAreStarted(cfg, es, t, c);
    TraversalStarted(cfg, es, t, c);
    RunKeepsInv(cfg, es);
    var s := After(cfg, es);
    HistoryIsTheRun(cfg, es, c.since);
    TraversedVisits(cfg, s.trie, s.history, c);
  }

  // ---------------------------------------------------------------- locks

  /** A thread holds only nodes strictly above the one it waits for. */
  lemma WaitsBelow(cfg: Config, s: State, t: Tid, y: Node)
    requires Inv(cfg, s) && t in s.calls && Awaited(s.calls[t].point) == Some(y)
    ensures y in s.trie && |s.trie[y].path| <= cfg.keySize
    ensures forall x | x in Held(s.calls[t].point) :: x in s.trie && |s.trie[x].path| < |s.trie[y].path|
  {
    assert CallOk(cfg, s.trie, s.history, s.calls[t]);
    assert NodeOk(cfg, s.trie, ROOT, ROOT);
    match s.calls[t].point {
      case InsertWait(key, _, parent, next, at) => ArriveAt(cfg, s.trie, ROOT, key, parent, next, at);
      case TraverseWait(_, _, _, stack) => assert SpotOk(s.trie, stack[0]);
      case _ =>
    }
    assert NodeOk(cfg, s.trie, ROOT, y);
  }

  ghost predicate HasChild(trie: Trie, x: Node, y: Node) {
    x in trie && exists c | 0 <= c < |trie[x].children| :: trie[x].children[c] == Some(y)
  }

  /** What the thread `t`, which waits for `y` in the operation `op`, holds. */
  ghost predicate WaitsWith(s: State, t: Tid, y: Node, op: Op) {
    match op
    case Lookup(_) => forall x | x in s.locks :: s.locks[x] != t
    case Traverse(keep) => forall x | x in s.locks && s.locks[x] == t :: keep && x == ROOT
    case Insert(_, _) =>
      && (forall x | x in s.locks && s.locks[x] == t :: HasChild(s.trie, x, y))
      && (y != ROOT ==> exists x :: x in s.locks && s.locks[x] == t)
  }

  lemma WaitingPoint(cfg: Config, s: State, t: Tid, y: Node, op: Op)
    requires Inv(cfg, s) && t in s.calls && Awaited(s.calls[t].point) == Some(y) && Serves(cfg, s.calls[t].point, op)
    ensures WaitsWith(s, t, y, op)
  {
    OwnLocks(s, t);
    assert CallOk(cfg, s.trie, s.history, s.calls[t]);
    match s.calls[t].point
    case InsertWait(key, _, parent, next, at) =>
      assert s.trie[parent].children[Slot(key[at])] == Some(y);
      assert parent in Held(s.calls[t].point);
    case _ =>
  }

  /**
   * What a thread holds while it waits: an insert on its way down the parent of the node it waits for, a
   * traversal that keeps the root locked the root, once it has locked it, and nobody anything else.
   */
  lemma HeldWhileWaiting(cfg: Config, es: seq<Event>, t: Tid, y: Node)
    requires Run(cfg, es) && t in After(cfg, es).calls && Awaited(After(cfg, es).calls[t].point) == Some(y)
    ensures var s := After(cfg, es);
            var since := s.calls[t].since;
            0 < since <= |es| && es[since - 1].Start? && WaitsWith(s, t, y, es[since - 1].op)
  {
    RunKeepsInv(cfg, es);
    CallsAreStarted(cfg, es, t, After(cfg, es).calls[t]);
    WaitingPoint(cfg, After(cfg, es), t, y, es[After(cfg, es).calls[t].since - 1].op);
  }

  /** Following who waits for whom only ever leads deeper, so no cycle of waiting threads can form. */
  lemma WaitsForIsAcyclic(cfg: Config, es: seq<Event>, t: Tid, u: Tid, x: Node, y: Node)
    requires Run(cfg, es)
    requires var s := After(cfg, es);
             && t in s.calls && Awaited(s.calls[t].point) == Some(x) && x in s.locks && s.locks[x] == u
             && u in s.calls && Awaited(s.calls[u].point) == Some(y)
    ensures var s := After(cfg, es);
            x in s.trie && y in s.trie && |s.trie[x].path| < |s.trie[y].path|
  {
    RunKeepsInv(cfg, es);
    WaitsBelow(cfg, After(cfg, es), t, x);
    WaitsBelow(cfg, After(cfg, es), u, y);
  }

  lemma {:induction false} SomeoneCanRun(cfg: Config, s: State, t: Tid, depth: nat) returns (u: Tid)
    requires Inv(cfg, s) && t in s.calls && !Finished(s.calls[t].point)
    requires var w := Awaited(s.calls[t].point); w.Some? ==> w.value in s.trie && |s.trie[w.value].path| >= depth
    ensures Enabled(s, u)
    decreases cfg.keySize + 1 - depth
  {
    var w := Awaited(s.calls[t].point);
    if w.None? || w.value !in s.locks {
      u := t;
    } else {
      WaitsBelow(cfg, s, t, w.value);
      var v := s.locks[w.value];
      assert w.value in Held(s.calls[v].point);
      if Awaited(s.calls[v].point).Some? {
        WaitsBelow(cfg, s, v, Awaited(s.calls[v].point).value);
      }
      u := SomeoneCanRun(cfg, s, v, depth + 1);
    }
  }

  /** As long as some call has not returned, some thread can take a step. */
  lemma NoDeadlock(cfg: Config, es: seq<Event>, t: Tid)
    requires Run(cfg, es) && t in After(cfg, es).calls && !Finished(After(cfg, es).calls[t].point)
    ensures exists u :: Legal(After(cfg, es), Turn(u, false))
  {
    RunKeepsInv(cfg, es);
    var s := After(cfg, es);
    if Awaited(s.calls[t].point).Some? {
      WaitsBelow(cfg, s, t, Awaited(s.calls[t].point).value);
    }
    var u := SomeoneCanRun(cfg, s, t, 0);
    assert Legal(s, Turn(u, false));
  }

  /** A call that has returned holds no lock, whichever way it returned. */
  lemma ReturnedHoldsNothing(cfg: Config, es: seq<Event>, t: Tid, x: Node)
    requires Run(cfg, es) && t in After(cfg, es).calls && Finished(After(cfg, es).calls[t].point)
    ensures x in After(cfg, es).locks ==> After(cfg, es).locks[x] != t
  {
    RunKeepsInv(cfg, es);
    OwnLocks(After(cfg, es), t);
  }

  /** A step changes no existing node but those its thread holds, or locks in that step. */
  lemma WritesAreLocked(cfg: Config, es: seq<Event>, t: Tid, stop: bool, x: Node)
    requires Run(cfg, es) && Enabled(After(cfg, es), t) && x in After(cfg, es).trie
    ensures var s, s' := After(cfg, es), Exec(After(cfg, es), t, stop);
            x in s'.trie
            && (s'.trie[x] != s.trie[x] ==>
                  (x in s.locks && s.locks[x] == t) || (x !in s.locks && Awaited(s.calls[t].point) == Some(x)))
  {
    RunKeepsInv(cfg, es);
    var s := After(cfg, es);
    ExecKeepsInv(cfg, s, t, stop);
    OwnLocks(s, t);
  }

  /** No index and no pointer is ever out of range: in particular every cursor stays below the key size. */
  lemma NeverWild(cfg: Config, es: seq<Event>, t: Tid)
    requires Run(cfg, es) && t in After(cfg, es).calls
    ensures var p := After(cfg, es).calls[t].point;
            && !p.Wild?
            && (p.InsertAt? ==> p.at < |p.key| == cfg.keySize <= 255)
            && (p.InsertWait? ==> p.at < |p.key| == cfg.keySize <= 255)
  {
    RunKeepsInv(cfg, es);
    var s := After(cfg, es);
    assert CallOk(cfg, s.trie, s.history, s.calls[t]);
  }
}
