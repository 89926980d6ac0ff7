/** What inserts do when two characters of the alphabet share a slot: they run past the key, and they lose keys. */
module TrieClashes {
  import opened Prelude
  import opened Keys
  import opened TrieHeap
  import opened TriePath
  import opened Traversal
  import opened TrieThreads
  import opened TrieSafety
  import opened TrieRuns
  import opened TrieTheorems
  import opened TrieAlphabet

  /** Calls of any kind whose keys, where they have the right length, are written in the alphabet, clashes or not. */
  ghost predicate CalledRun(cfg: Config, es: seq<Event>) {
    LegalRun(cfg, es) && CallersOk(cfg, es)
  }

  // ---------------------------------------------------------------- out of range

  ghost predicate RunsWild(cfg: Config, es: seq<Event>, t: Tid) {
    CalledRun(cfg, es) && t in After(cfg, es).calls && After(cfg, es).calls[t].point == Wild
  }

  /** No call, in no run, takes an index or a pointer that is out of range. */
  ghost predicate StaysInRange(cfg: Config) {
    forall es: seq<Event>, t: Tid :: !RunsWild(cfg, es, t)
  }

  /** Thread 1 inserts `y` and stands, with all locks it needs, at the leaf of `x`, at depth `at`. */
  ghost predicate AtLeaf(s: State, x: Key, y: Key, at: nat) {
    && 1 in s.calls
    && s.calls[1].point.InsertAt? && s.calls[1].point == InsertAt(y, 1, s.calls[1].point.parent, 1, at)
    && var p := s.calls[1].point.parent;
       && p in s.trie && p != 1 && |s.trie[p].children| == ALPHABET_SIZE
       && 1 in s.trie && s.trie[1].children == NoChildren() && s.trie[1].suffix == x && s.trie[1].suffixStart == at > 0
       && forall n | n in s.trie :: n < s.next
  }

  lemma PushesOn(s: State, x: Key, y: Key, at: nat)
    requires AtLeaf(s, x, y, at) && at < |x| == |y| && x[at] == y[at]
    ensures Enabled(s, 1) && AtLeaf(Exec(s, 1, false), x, y, at + 1)
  {
    var p := s.calls[1].point.parent;
    PushTurn(s, 1, y, 1, p, 1, at);
  }

  lemma FallsOff(s: State, x: Key, y: Key)
    requires AtLeaf(s, x, y, |y|)
    ensures Enabled(s, 1) && 1 in Exec(s, 1, false).calls && Exec(s, 1, false).calls[1].point == Wild
  {
  }

  /** Past the last character of the two keys: the leaf is pushed down to the end of the key, and beyond. */
  lemma {:induction false} Falls(cfg: Config, es: seq<Event>, x: Key, y: Key, at: nat) returns (es': seq<Event>)
    requires CalledRun(cfg, es) && AtLeaf(After(cfg, es), x, y, at) && at <= |x| == |y| && x[at..] == y[at..]
    ensures RunsWild(cfg, es', 1)
    decreases |y| - at
  {
    var s := After(cfg, es);
    es' := es + [Turn(1, false)];
    if at == |y| {
      FallsOff(s, x, y);
      Extends(cfg, es, Turn(1, false), s);
    } else {
      assert x[at] == x[at..][0] == y[at] && x[at + 1..] == x[at..][1..] && y[at + 1..] == y[at..][1..];
      PushesOn(s, x, y, at);
      Extends(cfg, es, Turn(1, false), s);
      es' := Falls(cfg, es', x, y, at + 1);
    }
  }

  /** `x` is alone in the trie and nothing is locked. */
  ghost predicate Alone(s: State, x: Key) {
    x != [] && s.trie == AddLeaf(Init().trie, ROOT, 1, x, 0, [0]) && s.next == 2 && s.locks == map[]
        && s.calls.Keys == {0}
  }

  /** Thread 1, inserting `y`, has come to the leaf of `x`. */
  ghost predicate Met(s: State, x: Key, y: Key) {
    && x != [] && AtLeaf(s, x, y, 1) && s.calls[1].point == InsertAt(y, 1, ROOT, 1, 1)
    && s.trie == AddLeaf(Init().trie, ROOT, 1, x, 0, [0]) && s.next == 2
    && s.locks == map[ROOT := 1, 1 := 1] && s.calls.Keys == {0, 1}
  }

  /** With `x` alone in the trie, an insert of `y` whose first character has the same slot comes to the leaf of `x`. */
  lemma InsertMeets(cfg: Config, x: Key, y: Key, s3: State, s4: State, s5: State, s6: State, s7: State)
    requires 0 < |x| == |y| == cfg.keySize && Slot(x[0]) == Slot(y[0]) && x != y
    requires Alone(s3, x)
    requires s4 == Apply(cfg, s3, Start(1, Insert(y, 1)))
    requires Enabled(s4, 1) ==> s5 == Exec(s4, 1, false)
    requires Enabled(s5, 1) ==> s6 == Exec(s5, 1, false)
    requires Enabled(s6, 1) ==> s7 == Exec(s6, 1, false)
    ensures Enabled(s4, 1) && Enabled(s5, 1) && Enabled(s6, 1)
    ensures Met(s7, x, y)
  {
    assert s4.calls[1].point == InsertBegin(y, 1);
    assert s5.calls[1].point == InsertAt(y, 1, ROOT, ROOT, 0) && s5.trie == s3.trie;
    assert s6.calls[1].point == InsertWait(y, 1, ROOT, 1, 0) && s6.trie == s3.trie;
    assert !Matches(y, x, 0);
  }

  function FirstInsert(x: Key): seq<Event> {
    [Start(0, Insert(x, 0)), Turn(0, false), Turn(0, false)]
  }

  function ThenInsert(es: seq<Event>, y: Key): seq<Event> {
    es + [Start(1, Insert(y, 1))] + [Turn(1, false)] + [Turn(1, false)] + [Turn(1, false)]
  }

  lemma SecondInsert(cfg: Config, x: Key, y: Key, es: seq<Event>, s3: State)
    requires 0 < |x| == |y| == cfg.keySize && Slot(x[0]) == Slot(y[0]) && x != y
    requires LegalRun(cfg, es) && After(cfg, es) == s3 && Alone(s3, x)
    ensures LegalRun(cfg, ThenInsert(es, y)) && Met(After(cfg, ThenInsert(es, y)), x, y)
  {
    var e, turn := Start(1, Insert(y, 1)), Turn(1, false);
    var s4 := Next(cfg, s3, e);
    var s5 := Next(cfg, s4, turn);
    var s6 := Next(cfg, s5, turn);
    var s7 := Next(cfg, s6, turn);
    InsertMeets(cfg, x, y, s3, s4, s5, s6, s7);
    Extends(cfg, es, e, s3);
    Extends(cfg, es + [e], turn, s4);
    Extends(cfg, es + [e] + [turn], turn, s5);
    Extends(cfg, es + [e] + [turn] + [turn], turn, s6);
  }

  lemma FirstIsAlone(cfg: Config, x: Key, first: seq<Event>)
    requires 0 < |x| == cfg.keySize && first == FirstInsert(x)
    ensures LegalRun(cfg, first) && Alone(After(cfg, first), x)
  {
    InsertPhase(cfg, x, first);
  }

  lemma TwoCallers(cfg: Config, x: Key, y: Key)
    requires cfg.Canonical(x) && cfg.Canonical(y)
    ensures CallersOk(cfg, ThenInsert(FirstInsert(x), y))
  {
  }

  lemma TwoInserts(cfg: Config, x: Key, y: Key, first: seq<Event>, es: seq<Event>)
    requires 0 < cfg.keySize && cfg.Canonical(x) && cfg.Canonical(y) && Slot(x[0]) == Slot(y[0]) && x != y
    requires first == FirstInsert(x) && es == ThenInsert(first, y)
    ensures CalledRun(cfg, es) && Met(After(cfg, es), x, y)
  {
    FirstIsAlone(cfg, x, first);
    SecondInsert(cfg, x, y, first, After(cfg, first));
    TwoCallers(cfg, x, y);
  }

  /** The two clashing characters first in otherwise equal keys: the second insert runs past the end of its key. */
  lemma ClashRunsWild(cfg: Config, a: char, b: char) returns (es: seq<Event>)
    requires 0 < cfg.keySize && a in cfg.alphabet && b in cfg.alphabet && Clash(a, b)
    ensures RunsWild(cfg, es, 1)
  {
    var x := seq(cfg.keySize, _ => a);
    var y := x[0 := b];
    assert x[0] == a && y[0] == b && x[1..] == y[1..];
    es := ThenInsert(FirstInsert(x), y);
    TwoInserts(cfg, x, y, FirstInsert(x), es);
    es := Falls(cfg, es, x, y, 1);
  }

  /**
   * For every key size the constructor accepts, no run leaves the range exactly when no two characters share
   * a slot.
   */
  lemma RangeNeedsInjectiveTable(keySize: nat, alphabet: set<char>)
    requires 0 < keySize <= 255
    ensures StaysInRange(Config(keySize, alphabet)) <==> Injective(alphabet)
  {
    var cfg := Config(keySize, alphabet);
    if Injective(alphabet) {
      forall es: seq<Event>, t: Tid
        ensures !RunsWild(cfg, es, t)
      {
        if RunsWild(cfg, es, t) { NeverWild(cfg, es, t); }
      }
    } else {
      var a, b :| a in alphabet && b in alphabet && Clash(a, b);
      var es := ClashRunsWild(cfg, a, b);
    }
  }

  // ---------------------------------------------------------------- lost inserts

  /** An insert by `t` had returned after `m` events; a later lookup by `u` of its key does not find its value. */
  ghost predicate Lost(cfg: Config, es: seq<Event>, m: nat, t: Tid, u: Tid) {
    && CalledRun(cfg, es) && m <= |es| && LegalRun(cfg, es[..m])
    && var before, after := After(cfg, es[..m]).calls, After(cfg, es).calls;
       && t in before && before[t].point.Inserted? && u !in before
       && u in after && after[u].point.Found? && after[u].point.key == before[t].point.key
       && (after[u].point.result.Some? ==> before[t].point.value !in after[u].point.result.value)
  }

  ghost predicate NothingLost(cfg: Config) {
    forall es: seq<Event>, m: nat, t: Tid, u: Tid :: !Lost(cfg, es, m, t, u)
  }

  /** The path of `y` ends at the leaf of `x`. */
  ghost predicate Shadows(h: Trie, x: Key, y: Key) {
    && |x| >= 2 && |y| >= 2 && {ROOT, 1, 2} <= h.Keys
    && !h[ROOT].Leaf() && |h[ROOT].children| == ALPHABET_SIZE && h[ROOT].children[Slot(y[0])] == Some(2)
    && !h[2].Leaf() && |h[2].children| == ALPHABET_SIZE && h[2].children[Slot(y[1])] == Some(1)
    && h[1].Leaf() && h[1].suffix == x && h[1].value == Some([0])
  }

  /** The split's second write to the one slot takes the place of the new leaf. */
  lemma SplitLoses(s: State, x: Key, y: Key)
    requires Met(s, x, y) && |x| == |y| >= 2 && x[1] != y[1] && Slot(x[1]) == Slot(y[1]) && Slot(x[0]) == Slot(y[0])
    ensures Enabled(s, 1)
    ensures var s' := Exec(s, 1, false);
            && s'.calls.Keys == {0, 1} && s'.calls[1].point == Inserted(y, 1) && s'.locks == map[]
                && Shadows(s'.trie, x, y)
  {
    SplitTurn(s, 1, y, 1, ROOT, 1, 1);
  }

  /** A lookup locks an internal node, reads the child and lets go. */
  lemma GoesDown(s: State, s': State, s'': State, y: Key, x: Node, at: nat, child: Node)
    requires 2 in s.calls && s.calls[2].point == LookupWait(y, x, at) && s.locks == map[] && at < |y|
    requires x in s.trie && !s.trie[x].Leaf() && |s.trie[x].children| == ALPHABET_SIZE
    requires s.trie[x].children[Slot(y[at])] == Some(child)
    requires Enabled(s, 2) ==> s' == Exec(s, 2, false)
    requires Enabled(s', 2) ==> s'' == Exec(s', 2, false)
    ensures Enabled(s, 2) && Enabled(s', 2)
    ensures 2 in s''.calls && s''.calls[2].point == LookupWait(y, child, at + 1) && s''.trie == s.trie
            && s''.locks == map[]
  {
    assert s'.calls[2].point == LookupAt(y, x, at) && s'.trie == s.trie;
  }

  lemma LookupShadowed(cfg: Config, x: Key, y: Key, s0: State, s1: State, s2: State, s3: State, s4: State, s5: State,
                       s6: State, s7: State)
    requires |x| == |y| == cfg.keySize && Shadows(s0.trie, x, y) && x[2..] == y[2..] && s0.locks == map[]
             && 2 !in s0.calls
    requires s1 == Apply(cfg, s0, Start(2, Lookup(y)))
    requires Enabled(s1, 2) ==> s2 == Exec(s1, 2, false)
    requires Enabled(s2, 2) ==> s3 == Exec(s2, 2, false)
    requires Enabled(s3, 2) ==> s4 == Exec(s3, 2, false)
    requires Enabled(s4, 2) ==> s5 == Exec(s4, 2, false)
    requires Enabled(s5, 2) ==> s6 == Exec(s5, 2, false)
    requires Enabled(s6, 2) ==> s7 == Exec(s6, 2, false)
    ensures Enabled(s1, 2) && Enabled(s2, 2) && Enabled(s3, 2) && Enabled(s4, 2) && Enabled(s5, 2) && Enabled(s6, 2)
    ensures 2 in s7.calls && s7.calls[2].point == Found(y, Some([0]))
  {
    GoesDown(s1, s2, s3, y, ROOT, 0, 2);
    GoesDown(s3, s4, s5, y, 2, 1, 1);
    assert s6.calls[2].point == LookupAt(y, 1, 2) && s6.trie == s0.trie;
    assert Matches(y, x, 2);
  }

  function ThenLookUp(es: seq<Event>, y: Key): seq<Event> {
    es + [Start(2, Lookup(y))] + [Turn(2, false)] + [Turn(2, false)] + [Turn(2, false)] + [Turn(2, false)] + [Turn(2,
        false)]
       + [Turn(2, false)]
  }

  lemma ShadowedPhase(cfg: Config, x: Key, y: Key, es: seq<Event>, s0: State)
    requires |x| == |y| == cfg.keySize && Shadows(s0.trie, x, y) && x[2..] == y[2..] && s0.locks == map[]
             && 2 !in s0.calls
    requires LegalRun(cfg, es) && After(cfg, es) == s0
    ensures var es' := ThenLookUp(es, y);
            LegalRun(cfg, es') && 2 in After(cfg, es').calls && After(cfg, es').calls[2].point == Found(y, Some([0]))
  {
    var e, turn := Start(2, Lookup(y)), Turn(2, false);
    var s1 := Next(cfg, s0, e);
    var s2 := Next(cfg, s1, turn);
    var s3 := Next(cfg, s2, turn);
    var s4 := Next(cfg, s3, turn);
    var s5 := Next(cfg, s4, turn);
    var s6 := Next(cfg, s5, turn);
    var s7 := Next(cfg, s6, turn);
    LookupShadowed(cfg, x, y, s0, s1, s2, s3, s4, s5, s6, s7);
    Extends(cfg, es, e, s0);
    Extends(cfg, es + [e], turn, s1);
    Extends(cfg, es + [e] + [turn], turn, s2);
    Extends(cfg, es + [e] + [turn] + [turn], turn, s3);
    Extends(cfg, es + [e] + [turn] + [turn] + [turn], turn, s4);
    Extends(cfg, es + [e] + [turn] + [turn] + [turn] + [turn], turn, s5);
    Extends(cfg, es + [e] + [turn] + [turn] + [turn] + [turn] + [turn], turn, s6);
  }

  lemma LossCallers(cfg: Config, x: Key, y: Key)
    requires cfg.Canonical(x) && cfg.Canonical(y)
    ensures CallersOk(cfg, ThenLookUp(ThenInsert(FirstInsert(x), y) + [Turn(1, false)], y))
  {
  }

  lemma LossPhase(cfg: Config, x: Key, y: Key, two: seq<Event>, three: seq<Event>)
    requires |x| == |y| == cfg.keySize >= 2 && x[1] != y[1] && Slot(x[1]) == Slot(y[1]) && x[0] == y[0]
             && x[2..] == y[2..]
    requires LegalRun(cfg, two) && Met(After(cfg, two), x, y) && three == two + [Turn(1, false)]
    ensures LegalRun(cfg, three) && LegalRun(cfg, ThenLookUp(three, y))
    ensures After(cfg, three).calls.Keys == {0, 1} && After(cfg, three).calls[1].point == Inserted(y, 1)
    ensures var calls := After(cfg, ThenLookUp(three, y)).calls;
            2 in calls && calls[2].point == Found(y, Some([0]))
  {
    var s := After(cfg, two);
    SplitLoses(s, x, y);
    Extends(cfg, two, Turn(1, false), s);
    ShadowedPhase(cfg, x, y, three, Exec(s, 1, false));
  }

  /** The two clashing characters second in otherwise equal keys: the second insert returns, and its value is gone. */
  lemma ClashLosesInsert(cfg: Config, a: char, b: char) returns (es: seq<Event>, m: nat)
    requires 2 <= cfg.keySize && a in cfg.alphabet && b in cfg.alphabet && Clash(a, b)
    ensures Lost(cfg, es, m, 1, 2)
  {
    var x := seq(cfg.keySize, _ => a);
    var y := x[1 := b];
    assert x[1] == a && y[1] == b && x[0] == y[0] && x[2..] == y[2..];
    var two := ThenInsert(FirstInsert(x), y);
    TwoInserts(cfg, x, y, FirstInsert(x), two);
    var three := two + [Turn(1, false)];
    LossPhase(cfg, x, y, two, three);
    es, m := ThenLookUp(three, y), |three|;
    LossCallers(cfg, x, y);
    IsLost(cfg, es, three, y);
  }

  lemma IsLost(cfg: Config, es: seq<Event>, three: seq<Event>, y: Key)
    requires CalledRun(cfg, es) && three <= es && LegalRun(cfg, three)
    requires After(cfg, three).calls.Keys == {0, 1} && After(cfg, three).calls[1].point == Inserted(y, 1)
    requires 2 in After(cfg, es).calls && After(cfg, es).calls[2].point == Found(y, Some([0]))
    ensures Lost(cfg, es, |three|, 1, 2)
  {
    assert es[..|three|] == three;
  }

  /** A call stays, and one that has returned stays as it returned. */
  lemma {:induction false} CallsStay(cfg: Config, es: seq<Event>, m: nat, t: Tid)
    requires LegalRun(cfg, es) && m <= |es| && LegalRun(cfg, es[..m]) && t in After(cfg, es[..m]).calls
    ensures t in After(cfg, es).calls
    ensures Finished(After(cfg, es[..m]).calls[t].point) ==> After(cfg, es).calls[t] == After(cfg, es[..m]).calls[t]
    decreases |es|
  {
    if m == |es| {
      assert es[..m] == es;
    } else {
      var front := es[..|es| - 1];
      assert front[..m] == es[..m];
      CallsStay(cfg, front, m, t);
      StepKeepsCalls(cfg, After(cfg, front), es[|es| - 1], t);
    }
  }

  ghost predicate OthersStay(s: State, t: Tid, s': State) {
    s'.calls.Keys == s.calls.Keys && forall u | u in s.calls && u != t :: s'.calls[u] == s.calls[u]
  }

  lemma InsertOthersStay(s: State, t: Tid, key: Key, v: Item, parent: Node, cursor: Node, at: nat)
    requires t in s.calls
    ensures OthersStay(s, t, InsertTurn(s, t, key, v, parent, cursor, at))
    ensures OthersStay(s, t, InsertArrive(s, t, key, v, parent, cursor, at))
  {
  }

  lemma LookupOthersStay(s: State, t: Tid, key: Key, node: Node, at: nat)
    requires t in s.calls
    ensures OthersStay(s, t, LookupTurn(s, t, key, node, at))
  {
  }

  lemma TraverseOthersStay(s: State, t: Tid, keep: bool, start: set<Key>, visited: seq<Key>, stack: seq<Spot<Node>>,
                           stop: bool)
    requires t in s.calls
    ensures OthersStay(s, t, TraverseTurn(s, t, keep, start, visited, stack, stop))
  {
  }

  lemma ExecOthersStay(s: State, t: Tid, stop: bool)
    requires Enabled(s, t)
    ensures OthersStay(s, t, Exec(s, t, stop))
  {
    match s.calls[t].point
    case InsertAt(key, v, parent, cursor, at) => InsertOthersStay(s, t, key, v, parent, cursor, at);
    case InsertWait(key, v, parent, next, at) => InsertOthersStay(s, t, key, v, parent, next, at);
    case LookupAt(key, node, at) => LookupOthersStay(s, t, key, node, at);
    case TraverseAt(keep, start, visited, stack) => TraverseOthersStay(s, t, keep, start, visited, stack, stop);
    case _ =>
  }

  lemma StepKeepsCalls(cfg: Config, s: State, e: Event, t: Tid)
    requires Legal(s, e) && t in s.calls
    ensures t in Apply(cfg, s, e).calls && (Finished(s.calls[t].point) ==> Apply(cfg, s, e).calls[t] == s.calls[t])
  {
    if e.Turn? { ExecOthersStay(s, e.t, e.stop); }
  }

  lemma {:induction false} LoggedIsUnder(log: seq<Effect>, i: nat)
    requires i < |log|
    ensures log[i].value in Under(log, log[i].key)
  {
    if i < |log| - 1 {
      LoggedIsUnder(log[..|log| - 1], i);
      assert log[..|log| - 1][i] == log[i];
    }
  }

  /** An insert that has returned is in the map, with its value. */
  lemma InsertedIsThere(cfg: Config, es: seq<Event>, t: Tid, key: Key, v: Item)
    requires Run(cfg, es) && t in After(cfg, es).calls && After(cfg, es).calls[t].point == Inserted(key, v)
    ensures Look(Abs(After(cfg, es).trie), key) != None && v in Look(Abs(After(cfg, es).trie), key).value
  {
    LogIsExact(cfg, es);
    MapIsTheLog(cfg, es, key);
    var log := Log(cfg, es);
    assert Logged(log, t);
    var i :| 0 <= i < |log| && log[i].t == t;
    LoggedIsUnder(log, i);
  }

  lemma StartedIsThere(cfg: Config, es: seq<Event>, t: Tid, n: nat)
    requires Run(cfg, es) && n < |es| && es[n].Start? && es[n].t == t
    ensures Run(cfg, es[..n + 1]) && t in After(cfg, es[..n + 1]).calls
  {
    HistoryIsTheRun(cfg, es, n);
    HistoryIsTheRun(cfg, es, n + 1);
    assert es[..n + 1][..n] == es[..n];
  }

  lemma NotEarlier(cfg: Config, es: seq<Event>, m: nat, u: Tid, n: nat)
    requires Run(cfg, es) && m <= |es| && Run(cfg, es[..m]) && u !in After(cfg, es[..m]).calls
    requires n < |es| && es[n].Start? && es[n].t == u
    ensures m <= n
  {
    if n < m {
      StartedIsThere(cfg, es, u, n);
      assert es[..m][..n + 1] == es[..n + 1];
      CallsStay(cfg, es[..m], n + 1, u);
    }
  }

  /** A call made after the first `m` events began after them. */
  lemma BeganLater(cfg: Config, es: seq<Event>, m: nat, u: Tid, c: Call)
    requires Run(cfg, es) && m <= |es| && Run(cfg, es[..m])
    requires u in After(cfg, es).calls && After(cfg, es).calls[u] == c && u !in After(cfg, es[..m]).calls
    ensures m < c.since
  {
    CallsAreStarted(cfg, es, u, c);
    NotEarlier(cfg, es, m, u, c.since - 1);
  }

  lemma CleanLosesNothing(cfg: Config, es: seq<Event>, m: nat, t: Tid, u: Tid)
    requires cfg.Ok()
    ensures !Lost(cfg, es, m, t, u)
  {
    if Lost(cfg, es, m, t, u) {
      HistoryIsTheRun(cfg, es, m);
      BeganLater(cfg, es, m, u, After(cfg, es).calls[u]);
      var Inserted(key, v) := After(cfg, es[..m]).calls[t].point;
      var r := After(cfg, es).calls[u].point.result;
      var k := LookupLinearizes(cfg, es, u, key, r);
      HistoryIsTheRun(cfg, es, k);
      assert es[..k][..m] == es[..m];
      CallsStay(cfg, es[..k], m, t);
      InsertedIsThere(cfg, es[..k], t, key, v);
    }
  }

  /**
   * For every key size with room for two characters: what an insert has returned for is found by every later
   * lookup, in every run, exactly when no two characters share a slot.
   */
  lemma InsertsNeedInjectiveTable(keySize: nat, alphabet: set<char>)
    requires 2 <= keySize <= 255
    ensures NothingLost(Config(keySize, alphabet)) <==> Injective(alphabet)
  {
    var cfg := Config(keySize, alphabet);
    if Injective(alphabet) {
      forall es: seq<Event>, m: nat, t: Tid, u: Tid
        ensures !Lost(cfg, es, m, t, u)
      {
        CleanLosesNothing(cfg, es, m, t, u);
      }
    } else {
      var a, b :| a in alphabet && b in alphabet && Clash(a, b);
      var es, m := ClashLosesInsert(cfg, a, b);
    }
  }
}
