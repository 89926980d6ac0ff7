/**
 * Trie nodes as cells of a heap, with one flat invariant over all of them. `Id` stands for a node
 * pointer, so the same facts serve the sequential class and the interleaved machine.
 */
module TrieHeap {
  import opened Prelude
  import opened Keys

  /** One trie node. `path` and `up` are bookkeeping: no operation ever branches on them. */
  datatype Cell<Id, V> = Cell(
    children: seq<Option<Id>>,
    value: Option<V>,
    suffix: Key,
    suffixStart: nat,
    path: Key,
    up: Id)
  {
    predicate Leaf() { suffixStart > 0 }
  }

  type Heap<Id, V> = map<Id, Cell<Id, V>>

  function NoChildren<Id>(): (cs: seq<Option<Id>>)
    ensures |cs| == ALPHABET_SIZE && forall c | 0 <= c < ALPHABET_SIZE :: cs[c] == None
  {
    seq(ALPHABET_SIZE, _ => None)
  }

  function Last(k: Key): char
    requires k != []
  {
    k[|k| - 1]
  }

  function Front(k: Key): Key
    requires k != []
  {
    k[..|k| - 1]
  }

  // ---------------------------------------------------------------- the invariant

  ghost predicate ChildOk<Id, V>(h: Heap<Id, V>, root: Id, x: Id, c: nat)
    requires x in h && |h[x].children| == ALPHABET_SIZE && c < ALPHABET_SIZE
  {
    h[x].children[c].Some? ==>
      var y := h[x].children[c].value;
      y in h && y != root && h[y].up == x && h[y].path != [] && Slot(Last(h[y].path)) == c
  }

  ghost predicate UpOk<Id, V>(h: Heap<Id, V>, root: Id, x: Id)
    requires x in h
  {
    var n := h[x];
    if x == root then n.path == []
    else
      && n.path != []
      && n.up in h && !h[n.up].Leaf()
      && h[n.up].path == Front(n.path)
      && |h[n.up].children| == ALPHABET_SIZE
      && h[n.up].children[Slot(Last(n.path))] == Some(x)
  }

  ghost predicate ShapeOk<Id, V>(cfg: Config, n: Cell<Id, V>) {
    && |n.children| == ALPHABET_SIZE
    && (forall i | 0 <= i < |n.path| :: n.path[i] in cfg.alphabet)
    && if n.Leaf() then
         && cfg.Canonical(n.suffix)
         && n.suffixStart <= cfg.keySize
         && n.path == n.suffix[..n.suffixStart]
         && n.value.Some?
         && (forall c | 0 <= c < ALPHABET_SIZE :: n.children[c] == None)
       else
         |n.path| < cfg.keySize && n.value.None?
  }

  ghost predicate NodeOk<Id, V>(cfg: Config, h: Heap<Id, V>, root: Id, x: Id)
    requires x in h
  {
    && ShapeOk(cfg, h[x])
    && UpOk(h, root, x)
    && forall c {:trigger ChildOk(h, root, x, c)} | 0 <= c < ALPHABET_SIZE :: ChildOk(h, root, x, c)
  }

  ghost predicate Wf<Id, V>(cfg: Config, h: Heap<Id, V>, root: Id) {
    && cfg.Ok()
    && root in h && !h[root].Leaf()
    && forall x {:trigger NodeOk(cfg, h, root, x)} | x in h :: NodeOk(cfg, h, root, x)
  }

  // ---------------------------------------------------------------- consequences

  /** A path is the path of at most one node. */
  lemma {:induction false} PathsUnique<Id, V>(cfg: Config, h: Heap<Id, V>, root: Id, x: Id, y: Id)
    requires Wf(cfg, h, root) && x in h && y in h && h[x].path == h[y].path
    ensures x == y
    decreases |h[x].path|
  {
    assert NodeOk(cfg, h, root, x) && NodeOk(cfg, h, root, y);
    if x != root && y != root {
      PathsUnique(cfg, h, root, h[x].up, h[y].up);
    }
  }

  /** Every proper prefix of a node's path is the path of an internal node on the way to it. */
  lemma {:induction false} Ancestor<Id, V>(cfg: Config, h: Heap<Id, V>, root: Id, y: Id, d: nat) returns (z: Id)
    requires Wf(cfg, h, root) && y in h && d <= |h[y].path|
    ensures z in h && h[z].path == h[y].path[..d]
    ensures if d < |h[y].path| then !h[z].Leaf() else z == y
    decreases |h[y].path|
  {
    assert NodeOk(cfg, h, root, y);
    if d == |h[y].path| {
      z := y;
    } else {
      var p := h[y].up;
      z := Ancestor(cfg, h, root, p, d);
      assert h[p].path[..d] == h[y].path[..d];
    }
  }

  ghost predicate Holds<Id, V>(h: Heap<Id, V>, x: Id, k: Key) {
    x in h && h[x].Leaf() && h[x].suffix == k
  }

  ghost function KeySet<Id, V>(h: Heap<Id, V>): set<Key> {
    set x | x in h && h[x].Leaf() :: h[x].suffix
  }

  /** A leaf standing on the searched path is the only leaf that could hold the key. */
  lemma LeafOnPath<Id, V>(cfg: Config, h: Heap<Id, V>, root: Id, x: Id, z: Id, k: Key)
    requires Wf(cfg, h, root) && x in h && h[x].Leaf() && h[x].path <= k && Holds(h, z, k)
    ensures z == x
  {
    assert NodeOk(cfg, h, root, x) && NodeOk(cfg, h, root, z);
    var d := |h[x].path|;
    assert h[x].path == k[..d] && h[z].path == k[..h[z].suffixStart];
    if h[z].suffixStart <= d {
      var a := Ancestor(cfg, h, root, x, h[z].suffixStart);
      assert h[x].path[..h[z].suffixStart] == h[z].path;
      PathsUnique(cfg, h, root, a, z);
    } else {
      var a := Ancestor(cfg, h, root, z, d);
      assert h[z].path[..d] == h[x].path;
      PathsUnique(cfg, h, root, a, x);
    }
  }

  /** Two leaves never hold the same key. */
  lemma LeavesUnique<Id, V>(cfg: Config, h: Heap<Id, V>, root: Id, x: Id, y: Id, k: Key)
    requires Wf(cfg, h, root) && Holds(h, x, k) && Holds(h, y, k)
    ensures x == y
  {
    assert NodeOk(cfg, h, root, x);
    LeafOnPath(cfg, h, root, x, y, k);
  }

  /** An internal node on the searched path leads to every leaf that could hold the key. */
  lemma InnerOnPath<Id, V>(cfg: Config, h: Heap<Id, V>, root: Id, x: Id, z: Id, k: Key) returns (y: Id)
    requires Wf(cfg, h, root) && x in h && !h[x].Leaf() && h[x].path <= k && Holds(h, z, k)
    ensures |h[x].path| < |k|
    ensures |h[x].children| == ALPHABET_SIZE && h[x].children[Slot(k[|h[x].path|])] == Some(y)
    ensures y in h && h[y].path == k[..|h[x].path| + 1]
    ensures h[y].Leaf() ==> y == z
  {
    assert NodeOk(cfg, h, root, x) && NodeOk(cfg, h, root, z);
    var d := |h[x].path|;
    assert h[z].path == k[..h[z].suffixStart];
    if h[z].suffixStart <= d {
      var a := Ancestor(cfg, h, root, x, h[z].suffixStart);
      assert h[x].path[..h[z].suffixStart] == h[z].path;
      PathsUnique(cfg, h, root, a, z);
      assert false;
    }
    y := Ancestor(cfg, h, root, z, d + 1);
    assert h[z].path[..d + 1] == k[..d + 1];
    assert NodeOk(cfg, h, root, y);
    assert Front(h[y].path) == h[x].path;
    PathsUnique(cfg, h, root, h[y].up, x);
    if h[y].Leaf() {
      LeafOnPath(cfg, h, root, y, z, k);
    }
  }

  // ---------------------------------------------------------------- the map a heap stands for

  ghost function LeafOf<Id, V>(h: Heap<Id, V>, k: Key): (x: Id)
    requires k in KeySet(h)
    ensures Holds(h, x, k)
  {
    var x :| x in h && Holds(h, x, k);
    x
  }

  /** The abstract map: each leaf binds its key to its value. */
  ghost function Abs<Id, V>(h: Heap<Id, V>): map<Key, V> {
    map k | k in KeySet(h) && h[LeafOf(h, k)].value.Some? :: h[LeafOf(h, k)].value.value
  }

  lemma AbsOfLeaf<Id, V>(cfg: Config, h: Heap<Id, V>, root: Id, x: Id)
    requires Wf(cfg, h, root) && x in h && h[x].Leaf()
    ensures h[x].value.Some? && h[x].suffix in Abs(h) && Abs(h)[h[x].suffix] == h[x].value.value
  {
    assert NodeOk(cfg, h, root, x);
    var k := h[x].suffix;
    assert k in KeySet(h);
    LeavesUnique(cfg, h, root, x, LeafOf(h, k), k);
  }

  lemma AbsHasLeaf<Id, V>(h: Heap<Id, V>, k: Key) returns (x: Id)
    requires k in Abs(h)
    ensures Holds(h, x, k)
  {
    x := LeafOf(h, k);
  }

  /** `Abs` is determined by the leaves. */
  lemma AbsIs<Id, V>(cfg: Config, h: Heap<Id, V>, root: Id, m: map<Key, V>)
    requires Wf(cfg, h, root)
    requires forall x | x in h && h[x].Leaf() :: h[x].suffix in m && Some(m[h[x].suffix]) == h[x].value
    requires forall k | k in m :: k in KeySet(h)
    ensures Abs(h) == m
  {
  }

  // ---------------------------------------------------------------- the writes of `insert`

  function NewLeaf<Id, V>(key: Key, start: nat, v: V, up: Id): Cell<Id, V>
    requires start <= |key|
  {
    Cell(NoChildren(), Some(v), key, start, key[..start], up)
  }

  function WithChild<Id, V>(n: Cell<Id, V>, c: nat, y: Id): Cell<Id, V>
    requires c < |n.children|
  {
    n.(children := n.children[c := Some(y)])
  }

  /** The leaf `n` moved one level down, under `up`. */
  function Lowered<Id, V>(n: Cell<Id, V>, up: Id): Cell<Id, V>
    requires n.suffixStart < |n.suffix|
  {
    n.(suffixStart := n.suffixStart + 1, path := n.suffix[..n.suffixStart + 1], up := up)
  }

  /** Hang a new leaf `n` for `key` under the internal node `x` at depth `d`. */
  function AddLeaf<Id, V>(h: Heap<Id, V>, x: Id, n: Id, key: Key, d: nat, v: V): Heap<Id, V>
    requires x in h && d < |key| && |h[x].children| == ALPHABET_SIZE
  {
    h[n := NewLeaf(key, d + 1, v, x)][x := WithChild(h[x], Slot(key[d]), n)]
  }

  /** Put a new internal node `n` between `p` and its leaf `y`, at depth `d`. */
  function PushDown<Id, V>(h: Heap<Id, V>, p: Id, y: Id, n: Id, key: Key, d: nat): Heap<Id, V>
    requires p in h && y in h && 0 < d < |key|
    requires |h[p].children| == ALPHABET_SIZE && h[y].suffixStart < |h[y].suffix|
  {
    h[n := Cell(NoChildren()[Slot(key[d]) := Some(y)], None, [], 0, key[..d], p)]
     [y := Lowered(h[y], n)]
     [p := WithChild(h[p], Slot(key[d - 1]), n)]
  }

  /** Put a new internal node `s` between `p` and its leaf `y`, with a second leaf `n` for `key` beside `y`. */
  function Split<Id, V>(h: Heap<Id, V>, p: Id, y: Id, s: Id, n: Id, key: Key, d: nat, v: V): Heap<Id, V>
    requires p in h && y in h && 0 < d < |key|
    requires |h[p].children| == ALPHABET_SIZE && h[y].suffixStart < |h[y].suffix|
  {
    var below := NoChildren()[Slot(key[d]) := Some(n)][Slot(h[y].suffix[h[y].suffixStart]) := Some(y)];
    h[n := NewLeaf(key, d + 1, v, s)]
     [s := Cell(below, None, [], 0, key[..d], p)]
     [y := Lowered(h[y], s)]
     [p := WithChild(h[p], Slot(key[d - 1]), s)]
  }

  /** Replace the value held by the leaf `y`. */
  function SetValue<Id, V>(h: Heap<Id, V>, y: Id, v: V): Heap<Id, V>
    requires y in h
  {
    h[y := h[y].(value := Some(v))]
  }

  // ---------------------------------------------------------------- what every write keeps

  /** Internal nodes never move; leaves keep their key and only move deeper. */
  ghost predicate CellEvolves<Id, V>(n: Cell<Id, V>, n': Cell<Id, V>) {
    && n'.Leaf() == n.Leaf()
    && (!n.Leaf() ==> n'.path == n.path)
    && (n.Leaf() ==> n'.suffix == n.suffix && n.suffixStart <= n'.suffixStart)
  }

  ghost predicate Evolves<Id, V>(h: Heap<Id, V>, h': Heap<Id, V>) {
    forall x | x in h :: x in h' && CellEvolves(h[x], h'[x])
  }

  /** Only the cells in `w` and cells that did not exist may differ. */
  ghost predicate WritesOnly<Id, V>(h: Heap<Id, V>, h': Heap<Id, V>, w: set<Id>) {
    forall x | x in h && x !in w :: x in h' && h'[x] == h[x]
  }

  /** The leaf `y` hangs under `p` at depth `d` of the path `key` follows. */
  ghost predicate LeafUnder<Id, V>(h: Heap<Id, V>, p: Id, y: Id, key: Key, d: nat) {
    && p in h && y in h && p != y && h[y].Leaf() && !h[p].Leaf()
    && 0 < d <= |key|
    && h[y].path == key[..d] && h[y].up == p
  }

  lemma AddLeafNew<Id, V>(cfg: Config, h: Heap<Id, V>, root: Id, x: Id, n: Id, key: Key, d: nat, v: V)
    requires Wf(cfg, h, root) && cfg.Canonical(key) && d < cfg.keySize
    requires x in h && n !in h && !h[x].Leaf() && h[x].path == key[..d]
    requires |h[x].children| == ALPHABET_SIZE && h[x].children[Slot(key[d])] == None
    ensures NodeOk(cfg, AddLeaf(h, x, n, key, d, v), root, n)
  {
    assert NodeOk(cfg, h, root, x);
    assert Front(key[..d + 1]) == key[..d];
  }

  lemma AddLeafOld<Id, V>(cfg: Config, h: Heap<Id, V>, root: Id, x: Id, n: Id, key: Key, d: nat, v: V, z: Id)
    requires Wf(cfg, h, root) && cfg.Canonical(key) && d < cfg.keySize
    requires x in h && n !in h && !h[x].Leaf() && h[x].path == key[..d]
    requires |h[x].children| == ALPHABET_SIZE && h[x].children[Slot(key[d])] == None && z in h
    ensures NodeOk(cfg, AddLeaf(h, x, n, key, d, v), root, z)
  {
    var h' := AddLeaf(h, x, n, key, d, v);
    assert NodeOk(cfg, h, root, x) && NodeOk(cfg, h, root, z);
    forall c | 0 <= c < ALPHABET_SIZE
      ensures ChildOk(h', root, z, c)
    {
      assert ChildOk(h, root, z, c);
    }
  }

  lemma AddLeafOk<Id, V>(cfg: Config, h: Heap<Id, V>, root: Id, x: Id, n: Id, key: Key, d: nat, v: V)
    requires Wf(cfg, h, root) && cfg.Canonical(key) && d < cfg.keySize
    requires x in h && n !in h && !h[x].Leaf() && h[x].path == key[..d]
    requires |h[x].children| == ALPHABET_SIZE && h[x].children[Slot(key[d])] == None
    ensures var h' := AddLeaf(h, x, n, key, d, v);
            Wf(cfg, h', root) && Evolves(h, h') && WritesOnly(h, h', {x})
    ensures key !in Abs(h) && Abs(AddLeaf(h, x, n, key, d, v)) == Abs(h)[key := v]
  {
    var h' := AddLeaf(h, x, n, key, d, v);
    if key in Abs(h) {
      var z := AbsHasLeaf(h, key);
      var y := InnerOnPath(cfg, h, root, x, z, key);
      assert false;
    }
    forall z | z in h'
      ensures NodeOk(cfg, h', root, z)
    {
      if z == n { AddLeafNew(cfg, h, root, x, n, key, d, v); } else { AddLeafOld(cfg, h, root, x, n, key, d, v, z); }
    }
    AbsAfter(cfg, h, h', root, Abs(h)[key := v], n);
  }

  /** The step from the leaves of `h` to those of `h'`, when at most the leaf `n` is new. */
  lemma AbsAfter<Id, V>(cfg: Config, h: Heap<Id, V>, h': Heap<Id, V>, root: Id, m: map<Key, V>, n: Id)
    requires Wf(cfg, h, root) && Wf(cfg, h', root) && Evolves(h, h')
    requires n in h' && h'[n].Leaf()
    requires h'[n].suffix in m && Some(m[h'[n].suffix]) == h'[n].value
    requires forall z | z in h' && h'[z].Leaf() && z != n :: z in h && h[z].Leaf() && h'[z].value == h[z].value
    requires forall k | k in Abs(h) && k != h'[n].suffix :: k in m && m[k] == Abs(h)[k]
    requires forall k | k in m :: k in Abs(h) || k == h'[n].suffix
    ensures Abs(h') == m
  {
    forall z | z in h' && h'[z].Leaf()
      ensures h'[z].suffix in m && Some(m[h'[z].suffix]) == h'[z].value
    {
      if z != n {
        AbsOfLeaf(cfg, h, root, z);
        if h'[z].suffix == h'[n].suffix {
          LeavesUnique(cfg, h', root, z, n, h'[n].suffix);
        }
      }
    }
    forall k | k in m
      ensures k in KeySet(h')
    {
      if k in Abs(h) {
        var z := AbsHasLeaf(h, k);
        assert Holds(h', z, k);
      } else {
        assert Holds(h', n, k);
      }
    }
    AbsIs(cfg, h', root, m);
  }

  /** `h'` is `h` with the internal node `n` put between `p` and its leaf `y`, at depth `d`. */
  ghost predicate Interposed<Id, V>(h: Heap<Id, V>, h': Heap<Id, V>, p: Id, y: Id, n: Id, d: nat)
    requires p in h && y in h && 0 < d < |h[y].suffix| && h[y].suffixStart == d && |h[p].children| == ALPHABET_SIZE
  {
    && h'.Keys == h.Keys + {n}
    && h'[n] == Cell(NoChildren()[Slot(h[y].suffix[d]) := Some(y)], None, [], 0, h[y].suffix[..d], p)
    && h'[y] == Lowered(h[y], n)
    && h'[p] == WithChild(h[p], Slot(h[y].suffix[d - 1]), n)
    && forall z | z in h && z != p && z != y :: h'[z] == h[z]
  }

  lemma PushDownInterposes<Id, V>(h: Heap<Id, V>, p: Id, y: Id, n: Id, key: Key, d: nat)
    requires p in h && y in h && n !in h && p != y && |h[p].children| == ALPHABET_SIZE
    requires 0 < d < |key| && d < |h[y].suffix| && h[y].suffixStart == d && h[y].suffix[..d] == key[..d]
             && h[y].suffix[d] == key[d]
    ensures Interposed(h, PushDown(h, p, y, n, key, d), p, y, n, d)
  {
  }

  lemma InterposedChild<Id, V>(cfg: Config, h: Heap<Id, V>, h': Heap<Id, V>, root: Id, p: Id, y: Id, n: Id, d: nat,
                               z: Id, c: nat)
    requires Wf(cfg, h, root) && p in h && y in h && n !in h && p != y
    requires h[y].Leaf() && h[y].up == p && h[y].suffixStart == d && 0 < d < |h[y].suffix|
             && |h[p].children| == ALPHABET_SIZE
    requires Interposed(h, h', p, y, n, d)
    requires z in h' && c < ALPHABET_SIZE
    ensures |h'[z].children| == ALPHABET_SIZE && ChildOk(h', root, z, c)
  {
    assert NodeOk(cfg, h, root, y) && NodeOk(cfg, h, root, p);
    if z != n {
      assert NodeOk(cfg, h, root, z);
      assert ChildOk(h, root, z, c);
    }
  }

  lemma InterposedUp<Id, V>(cfg: Config, h: Heap<Id, V>, h': Heap<Id, V>, root: Id, p: Id, y: Id, n: Id, d: nat, z: Id)
    requires Wf(cfg, h, root) && p in h && y in h && n !in h && p != y
    requires h[y].Leaf() && h[y].up == p && h[y].suffixStart == d && 0 < d < |h[y].suffix|
             && |h[p].children| == ALPHABET_SIZE
    requires Interposed(h, h', p, y, n, d)
    requires z in h'
    ensures ShapeOk(cfg, h'[z]) && UpOk(h', root, z)
  {
    assert NodeOk(cfg, h, root, y) && NodeOk(cfg, h, root, p);
    var s := h[y].suffix;
    assert s[..d + 1] == s[..d] + [s[d]];
    assert Last(s[..d]) == s[d - 1];
    if z == n {
    } else if z == y {
    } else {
      assert NodeOk(cfg, h, root, z);
    }
  }

  lemma PushDownWf<Id, V>(cfg: Config, h: Heap<Id, V>, root: Id, p: Id, y: Id, n: Id, key: Key, d: nat)
    requires Wf(cfg, h, root) && |key| == cfg.keySize && 0 < d < cfg.keySize
    requires LeafUnder(h, p, y, key, d) && n !in h
    requires h[y].suffixStart == d && |h[p].children| == ALPHABET_SIZE
    requires |h[y].suffix| == cfg.keySize && h[y].suffix[d] == key[d]
    ensures Interposed(h, PushDown(h, p, y, n, key, d), p, y, n, d)
    ensures Wf(cfg, PushDown(h, p, y, n, key, d), root)
  {
    assert NodeOk(cfg, h, root, y);
    PushDownInterposes(h, p, y, n, key, d);
    var h' := PushDown(h, p, y, n, key, d);
    forall z | z in h'
      ensures NodeOk(cfg, h', root, z)
    {
      InterposedUp(cfg, h, h', root, p, y, n, d, z);
      forall c | 0 <= c < ALPHABET_SIZE
        ensures ChildOk(h', root, z, c)
      {
        InterposedChild(cfg, h, h', root, p, y, n, d, z, c);
      }
    }
  }

  lemma PushDownOk<Id, V>(cfg: Config, h: Heap<Id, V>, root: Id, p: Id, y: Id, n: Id, key: Key, d: nat)
    requires Wf(cfg, h, root) && |key| == cfg.keySize && 0 < d < cfg.keySize
    requires LeafUnder(h, p, y, key, d) && n !in h
    requires h[y].suffixStart == d && |h[p].children| == ALPHABET_SIZE
    requires |h[y].suffix| == cfg.keySize && h[y].suffix[d] == key[d]
    ensures var h' := PushDown(h, p, y, n, key, d);
            && Wf(cfg, h', root) && Evolves(h, h') && WritesOnly(h, h', {p, y})
            && LeafUnder(h', n, y, key, d + 1) && h'[n].path == key[..d]
            && Abs(h') == Abs(h)
  {
    var h' := PushDown(h, p, y, n, key, d);
    PushDownWf(cfg, h, root, p, y, n, key, d);
    assert h[y].suffix[..d + 1] == h[y].suffix[..d] + [key[d]] == key[..d + 1] by {
      assert NodeOk(cfg, h, root, y);
    }
    AbsOfLeaf(cfg, h, root, y);
    AbsAfter(cfg, h, h', root, Abs(h), y);
  }

  /** A split is a push-down by the leaf's own key followed by a new leaf under the fresh internal node. */
  lemma SplitIsTwoWrites<Id, V>(h: Heap<Id, V>, p: Id, y: Id, s: Id, n: Id, key: Key, d: nat, v: V)
    requires p in h && y in h && p != y && n !in h && s !in h && n != s
    requires 0 < d < |key| && d < |h[y].suffix| && h[y].suffixStart == d && |h[p].children| == ALPHABET_SIZE
    requires h[y].suffix[..d] == key[..d] && Slot(h[y].suffix[d]) != Slot(key[d])
    ensures Split(h, p, y, s, n, key, d, v) == AddLeaf(PushDown(h, p, y, s, h[y].suffix, d), s, n, key, d, v)
  {
    assert key[d - 1] == key[..d][d - 1] == h[y].suffix[d - 1];
    var a := NoChildren<Id>()[Slot(key[d]) := Some(n)][Slot(h[y].suffix[d]) := Some(y)];
    var b := NoChildren<Id>()[Slot(h[y].suffix[d]) := Some(y)][Slot(key[d]) := Some(n)];
    assert a == b;
  }

  lemma SplitOk<Id, V>(cfg: Config, h: Heap<Id, V>, root: Id, p: Id, y: Id, s: Id, n: Id, key: Key, d: nat, v: V)
    requires Wf(cfg, h, root) && cfg.Canonical(key) && 0 < d < cfg.keySize
    requires LeafUnder(h, p, y, key, d) && n !in h && s !in h && n != s
    requires h[y].suffixStart == d && |h[p].children| == ALPHABET_SIZE
    requires |h[y].suffix| == cfg.keySize && Slot(h[y].suffix[d]) != Slot(key[d])
    ensures var h' := Split(h, p, y, s, n, key, d, v);
            && Wf(cfg, h', root) && Evolves(h, h') && WritesOnly(h, h', {p, y})
            && key !in Abs(h) && Abs(h') == Abs(h)[key := v]
  {
    var k := h[y].suffix;
    assert h[y].path == k[..d] == key[..d] by { assert NodeOk(cfg, h, root, y); }
    var g := PushDown(h, p, y, s, k, d);
    PushDownOk(cfg, h, root, p, y, s, k, d);
    AddLeafOk(cfg, g, root, s, n, key, d, v);
    SplitIsTwoWrites(h, p, y, s, n, key, d, v);
  }

  /** What the code can rely on when it holds an unmatched leaf: the two depths agree, and so the index is in range. */
  lemma LeafUnderDepth<Id, V>(cfg: Config, h: Heap<Id, V>, root: Id, p: Id, y: Id, key: Key, d: nat)
    requires Wf(cfg, h, root) && cfg.Canonical(key) && LeafUnder(h, p, y, key, d) && h[y].suffix != key
    ensures h[y].suffixStart == d < cfg.keySize && |h[y].suffix| == cfg.keySize
    ensures |h[p].children| == ALPHABET_SIZE && h[p].path == key[..d - 1]
    ensures h[y].suffix[d..] != key[d..]
    ensures h[y].suffix[d] != key[d] ==> Slot(h[y].suffix[d]) != Slot(key[d])
  {
    assert NodeOk(cfg, h, root, y) && NodeOk(cfg, h, root, p);
    assert key == key[..d] + key[d..] && h[y].suffix == h[y].suffix[..d] + h[y].suffix[d..];
    assert Front(key[..d]) == key[..d - 1];
    if d == cfg.keySize {
      assert false;
    }
  }

  lemma SetValueOk<Id, V>(cfg: Config, h: Heap<Id, V>, root: Id, y: Id, v: V)
    requires Wf(cfg, h, root) && y in h && h[y].Leaf()
    ensures var h' := SetValue(h, y, v);
            && Wf(cfg, h', root) && Evolves(h, h') && WritesOnly(h, h', {y})
            && h[y].suffix in Abs(h) && Abs(h') == Abs(h)[h[y].suffix := v]
  {
    var h' := SetValue(h, y, v);
    forall z | z in h'
      ensures NodeOk(cfg, h', root, z)
    {
      assert NodeOk(cfg, h, root, z);
      forall c | 0 <= c < ALPHABET_SIZE
        ensures ChildOk(h', root, z, c)
      {
        assert ChildOk(h, root, z, c);
      }
    }
    AbsOfLeaf(cfg, h, root, y);
    AbsAfter(cfg, h, h', root, Abs(h)[h[y].suffix := v], y);
  }
}
