/** What the character table asks of the alphabet handles are written in, for every key size. */
module TrieAlphabet {
  import opened Prelude
  import opened Keys
  import opened TrieHeap
  import opened TriePath
  import opened Traversal
  import opened TrieThreads
  import opened TrieSafety
  import opened TrieRuns
  import opened TrieTheorems

  /** Threads that insert and look up keys over the alphabet, each key of the right length. */
  ghost predicate KeyRun(cfg: Config, es: seq<Event>) {
    && LegalRun(cfg, es)
    && forall i | 0 <= i < |es| :: es[i].Start? ==> !es[i].op.Traverse? && cfg.Canonical(es[i].op.key)
  }

  ghost predicate Inserts(es: seq<Event>, key: Key) {
    exists i :: 0 <= i < |es| && es[i].Start? && es[i].op.Insert? && es[i].op.key == key
  }

  lemma InsertsEarlier(es: seq<Event>, m: nat, key: Key)
    requires m <= |es| && Inserts(es[..m], key)
    ensures Inserts(es, key)
  {
  }

  /** A lookup that answered although no thread ever tried to insert its key. */
  ghost predicate Phantom(cfg: Config, es: seq<Event>, t: Tid) {
    && KeyRun(cfg, es) && t in After(cfg, es).calls
    && var p := After(cfg, es).calls[t].point;
       p.Found? && p.result != None && !Inserts(es, p.key)
  }

  ghost predicate NoPhantoms(cfg: Config) {
    forall es: seq<Event>, t: Tid :: !Phantom(cfg, es, t)
  }

  // ---------------------------------------------------------------- without clashes

  lemma StartedInserts(cfg: Config, es: seq<Event>, t: Tid, c: Call)
    requires StartedAt(cfg, es, t, c) && c.point.Inserted?
    ensures Inserts(es, c.point.key)
  {
    assert es[c.since - 1].op == Insert(c.point.key, c.point.value);
  }

  /** A key enters the log only by a call that was made to insert it. */
  lemma EndedInserts(cfg: Config, es: seq<Event>, key: Key)
    requires Run(cfg, es) && es != [] && es[|es| - 1].Turn? && Run(cfg, es[..|es| - 1]) && !Inserts(es, key)
    ensures var e := es[|es| - 1];
            var d := Ended(After(cfg, es[..|es| - 1]), e.t, e.stop);
            |d| <= 1 && (d != [] ==> d[0].key != key)
  {
    var e := es[|es| - 1];
    var calls := After(cfg, es).calls;
    if e.t in calls && calls[e.t].point.Inserted? {
      CallsAreStarted(cfg, es, e.t, calls[e.t]);
      StartedInserts(cfg, es, e.t, calls[e.t]);
    }
  }

  lemma FewerInserts(es: seq<Event>, m: nat, key: Key)
    requires m <= |es| && !Inserts(es, key)
    ensures !Inserts(es[..m], key)
  {
    if Inserts(es[..m], key) { InsertsEarlier(es, m, key); }
  }

  lemma {:induction false} LogIsFromInserts(cfg: Config, es: seq<Event>, key: Key)
    requires Run(cfg, es) && !Inserts(es, key)
    ensures Under(Log(cfg, es), key) == []
    decreases |es|
  {
    if es != [] {
      var front, e := es[..|es| - 1], es[|es| - 1];
      assert Run(cfg, front);
      FewerInserts(es, |front|, key);
      LogIsFromInserts(cfg, front, key);
      if e.Turn? {
        EndedInserts(cfg, es, key);
        UnderAppends(Log(cfg, front), Ended(After(cfg, front), e.t, e.stop), key);
      }
    }
  }

  lemma CleanHasNoPhantoms(cfg: Config, es: seq<Event>, t: Tid)
    requires cfg.Ok()
    ensures !Phantom(cfg, es, t)
  {
    if Phantom(cfg, es, t) {
      var p := After(cfg, es).calls[t].point;
      assert Run(cfg, es);
      var m := LookupLinearizes(cfg, es, t, p.key, p.result);
      HistoryIsTheRun(cfg, es, m);
      FewerInserts(es, m, p.key);
      LogIsFromInserts(cfg, es[..m], p.key);
      MapIsTheLog(cfg, es[..m], p.key);
    }
  }

  // ---------------------------------------------------------------- with a clash

  /** Thread 0 inserts `x`, then thread 1 looks up `y`. */
  function PhantomRun(x: Key, y: Key): seq<Event> {
    ThenLookup([Start(0, Insert(x, 0)), Turn(0, false), Turn(0, false)], y)
  }

  function ThenLookup(es: seq<Event>, y: Key): seq<Event> {
    es + [Start(1, Lookup(y))] + [Turn(1, false)] + [Turn(1, false)] + [Turn(1, false)] + [Turn(1, false)]
  }

  lemma InsertAlone(cfg: Config, x: Key, s1: State, s2: State, s3: State)
    requires 0 < |x| == cfg.keySize
    requires s1 == Apply(cfg, Init(), Start(0, Insert(x, 0)))
    requires Enabled(s1, 0) ==> s2 == Apply(cfg, s1, Turn(0, false))
    requires Enabled(s1, 0) && Enabled(s2, 0) ==> s3 == Apply(cfg, s2, Turn(0, false))
    ensures Enabled(s1, 0) && Enabled(s2, 0)
    ensures s3.trie == AddLeaf(Init().trie, ROOT, 1, x, 0, [0]) && s3.next == 2 && s3.locks == map[]
            && s3.calls.Keys == {0}
  {
  }

  lemma LookupAlone(cfg: Config, x: Key, y: Key, s3: State, s4: State, s5: State, s6: State, s7: State, s8: State)
    requires 0 < |x| == |y| == cfg.keySize && x[1..] == y[1..] && Slot(x[0]) == Slot(y[0])
    requires s3.trie == AddLeaf(Init().trie, ROOT, 1, x, 0, [0]) && s3.locks == map[] && 1 !in s3.calls
    requires s4 == Apply(cfg, s3, Start(1, Lookup(y)))
    requires Enabled(s4, 1) ==> s5 == Exec(s4, 1, false)
    requires Enabled(s5, 1) ==> s6 == Exec(s5, 1, false)
    requires Enabled(s6, 1) ==> s7 == Exec(s6, 1, false)
    requires Enabled(s7, 1) ==> s8 == Exec(s7, 1, false)
    ensures Enabled(s4, 1) && Enabled(s5, 1) && Enabled(s6, 1) && Enabled(s7, 1)
    ensures 1 in s8.calls && s8.calls[1].point == Found(y, Some([0]))
  {
    assert s4.calls[1].point == LookupWait(y, ROOT, 0);
    assert s5.calls[1].point == LookupAt(y, ROOT, 0) && s5.trie == s3.trie;
    assert s6.calls[1].point == LookupWait(y, 1, 1) && s6.trie == s3.trie && s6.locks == map[];
    assert s7.calls[1].point == LookupAt(y, 1, 1) && s7.trie == s3.trie;
    assert Matches(y, x, 1);
  }

  ghost function Next(cfg: Config, s: State, e: Event): State {
    if Legal(s, e) then Apply(cfg, s, e) else s
  }

  lemma PhantomRunCalls(cfg: Config, x: Key, y: Key)
    requires cfg.Canonical(x) && cfg.Canonical(y) && x != y
    ensures var es := PhantomRun(x, y);
            && (forall i | 0 <= i < |es| :: es[i].Start? ==> !es[i].op.Traverse? && cfg.Canonical(es[i].op.key))
            && !Inserts(es, y)
  {
  }

  lemma Extends(cfg: Config, es: seq<Event>, e: Event, s: State)
    requires LegalRun(cfg, es) && After(cfg, es) == s && Legal(s, e)
    ensures LegalRun(cfg, es + [e]) && After(cfg, es + [e]) == Next(cfg, s, e)
  {
    assert (es + [e])[..|es|] == es;
  }

  lemma InsertPhase(cfg: Config, x: Key, es: seq<Event>)
    requires 0 < |x| == cfg.keySize && es == [Start(0, Insert(x, 0)), Turn(0, false), Turn(0, false)]
    ensures && LegalRun(cfg, es)
            && var s := After(cfg, es);
               s.trie == AddLeaf(Init().trie, ROOT, 1, x, 0, [0]) && s.next == 2 && s.locks == map[]
                   && s.calls.Keys == {0}
  {
    var e1, e2 := Start(0, Insert(x, 0)), Turn(0, false);
    var s1 := Next(cfg, Init(), e1);
    var s2 := Next(cfg, s1, e2);
    var s3 := Next(cfg, s2, e2);
    InsertAlone(cfg, x, s1, s2, s3);
    Extends(cfg, [], e1, Init());
    Extends(cfg, [e1], e2, s1);
    Extends(cfg, [e1, e2], e2, s2);
    assert [] + [e1] == [e1] && [e1] + [e2] == [e1, e2] && [e1, e2] + [e2] == [e1, e2, e2];
  }

  lemma LookupPhase(cfg: Config, x: Key, y: Key, es: seq<Event>, s3: State)
    requires 0 < |x| == |y| == cfg.keySize && Slot(x[0]) == Slot(y[0]) && x[1..] == y[1..]
    requires LegalRun(cfg, es) && After(cfg, es) == s3
    requires s3.trie == AddLeaf(Init().trie, ROOT, 1, x, 0, [0]) && s3.locks == map[] && 1 !in s3.calls
    ensures var es' := ThenLookup(es, y);
            LegalRun(cfg, es') && 1 in After(cfg, es').calls && After(cfg, es').calls[1].point == Found(y, Some([0]))
  {
    var e, turn := Start(1, Lookup(y)), Turn(1, false);
    var s4 := Next(cfg, s3, e);
    var s5 := Next(cfg, s4, turn);
    var s6 := Next(cfg, s5, turn);
    var s7 := Next(cfg, s6, turn);
    var s8 := Next(cfg, s7, turn);
    LookupAlone(cfg, x, y, s3, s4, s5, s6, s7, s8);
    Extends(cfg, es, e, s3);
    Extends(cfg, es + [e], turn, s4);
    Extends(cfg, es + [e] + [turn], turn, s5);
    Extends(cfg, es + [e] + [turn] + [turn], turn, s6);
    Extends(cfg, es + [e] + [turn] + [turn] + [turn], turn, s7);
  }

  lemma PhantomRunEnds(cfg: Config, x: Key, y: Key, es: seq<Event>)
    requires 0 < |x| == |y| == cfg.keySize && Slot(x[0]) == Slot(y[0]) && x[1..] == y[1..]
    requires es == ThenLookup([Start(0, Insert(x, 0)), Turn(0, false), Turn(0, false)], y)
    ensures LegalRun(cfg, es) && 1 in After(cfg, es).calls && After(cfg, es).calls[1].point == Found(y, Some([0]))
  {
    var first := [Start(0, Insert(x, 0)), Turn(0, false), Turn(0, false)];
    InsertPhase(cfg, x, first);
    LookupPhase(cfg, x, y, first, After(cfg, first));
  }

  /** `a` and `b` share a slot: a lookup that starts with `b` finds the key that starts with `a`. */
  lemma ClashMakesPhantom(cfg: Config, a: char, b: char)
    requires 0 < cfg.keySize && a in cfg.alphabet && b in cfg.alphabet && Clash(a, b)
    ensures Phantom(cfg, PhantomRun(seq(cfg.keySize, _ => a), seq(cfg.keySize, _ => a)[0 := b]), 1)
  {
    var x := seq(cfg.keySize, _ => a);
    var y := x[0 := b];
    assert x[1..] == y[1..] && x[0] == a && y[0] == b;
    PhantomRunCalls(cfg, x, y);
    PhantomRunEnds(cfg, x, y, PhantomRun(x, y));
  }

  /**
   * For every key size the constructor accepts: lookups never answer with another key's value in any
   * run over the alphabet exactly when no two of its characters share a slot. `a` and `A` do.
   */
  lemma MapLawNeedsInjectiveTable(keySize: nat, alphabet: set<char>)
    requires 0 < keySize <= 255
    ensures NoPhantoms(Config(keySize, alphabet)) <==> Injective(alphabet)
  {
    var cfg := Config(keySize, alphabet);
    if Injective(alphabet) {
      forall es: seq<Event>, t: Tid
        ensures !Phantom(cfg, es, t)
      {
        CleanHasNoPhantoms(cfg, es, t);
      }
    } else {
      var a, b :| a in alphabet && b in alphabet && Clash(a, b);
      ClashMakesPhantom(cfg, a, b);
    }
  }

  const LOWER_CASE: set<char> := {'0', '1', '2', '3', '4', '5', '6', '7', '8', '9', 'a', 'b', 'c', 'd', 'e', 'f'}
  const UPPER_CASE: set<char> := {'0', '1', '2', '3', '4', '5', '6', '7', '8', '9', 'A', 'B', 'C', 'D', 'E', 'F'}

  /** The alphabets handles are written in are free of clashes; a mix of the two cases is not. */
  lemma HexAlphabets()
    ensures Injective(LOWER_CASE) && Injective(UPPER_CASE) && !Injective(LOWER_CASE + UPPER_CASE)
  {
    assert Clash('a', 'A');
  }

  /** The table: the value of a hexadecimal digit in either case, and zero for any other character. */
  lemma SlotsOfDigits(ch: char)
    ensures var lower, upper := "0123456789abcdef", "0123456789ABCDEF";
            && (forall i | 0 <= i < ALPHABET_SIZE :: Slot(lower[i]) == i == Slot(upper[i]))
            && (ch !in lower && ch !in upper ==> Slot(ch) == 0)
  {
    var lower, upper := "0123456789abcdef", "0123456789ABCDEF";
    if '0' <= ch <= '9' {
      assert lower[ch as nat - '0' as nat] == ch;
    } else if 'a' <= ch <= 'f' {
      assert lower[ch as nat - 'a' as nat + 10] == ch;
    } else if 'A' <= ch <= 'F' {
      assert upper[ch as nat - 'A' as nat + 10] == ch;
    }
  }

  lemma SlotsAreInOrder(a: char, b: char)
    requires a in LOWER_CASE && b in LOWER_CASE
    ensures Slot(a) < Slot(b) <==> a < b
  {
  }

  /** On handles in lower case, the slot order in which a traversal visits is the order of strings. */
  lemma {:induction false} VisitsInStringOrder(a: Key, b: Key)
    requires |a| == |b| && forall i | 0 <= i < |a| :: a[i] in LOWER_CASE && b[i] in LOWER_CASE
    ensures Precedes(a, b) <==> Before(a, b)
  {
    if a != [] {
      SlotsAreInOrder(a[0], b[0]);
      if a[0] != b[0] {
        assert DiffAt(a, b, 0) <==> a[0] < b[0];
        assert forall d: nat | 0 < d <= |a| :: a[..d][0] == a[0] && b[..d][0] == b[0];
      } else {
        VisitsInStringOrder(a[1..], b[1..]);
        TailPrecedes(a, b);
      }
    }
  }

  lemma TailPrecedes(a: Key, b: Key)
    requires a != [] && b != [] && a[0] == b[0]
    ensures Precedes(a, b) <==> Precedes(a[1..], b[1..])
  {
    if Precedes(a, b) {
      var d: nat :| DiffAt(a, b, d);
      assert a[1..][..d - 1] == a[..d][1..] && b[1..][..d - 1] == b[..d][1..];
      assert DiffAt(a[1..], b[1..], d - 1);
    }
    if Precedes(a[1..], b[1..]) {
      var d: nat :| DiffAt(a[1..], b[1..], d);
      assert a[..d + 1] == [a[0]] + a[1..][..d] && b[..d + 1] == [b[0]] + b[1..][..d];
      assert DiffAt(a, b, d + 1);
    }
  }
}
