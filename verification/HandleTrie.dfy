/** The trie as its classes: nodes updated in place, and the map they stand for. */
module HandleTries {
  import opened Prelude
  import opened Keys
  import opened TrieHeap
  import opened TriePath
  import opened Traversal

  /** A value object. Its class supplies the `merge` the trie calls on a repeated key. */
  class TrieValue<T> {
    var contents: T

    constructor (c: T)
      ensures contents == c
    {
      contents := c;
    }

    method Merge(merge: (T, T) -> T, other: TrieValue<T>)
      modifies this
      ensures contents == merge(old(contents), old(other.contents))
    {
      contents := merge(contents, other.contents);
    }
  }

  class TrieNode<T> {
    const children: array<Option<TrieNode<T>>>
    var value: Option<TrieValue<T>>
    var suffix: Key
    var suffixStart: nat
    ghost var path: Key
    ghost var up: TrieNode<T>

    constructor ()
      ensures fresh(children) && children.Length == ALPHABET_SIZE && children[..] == NoChildren<TrieNode<T>>()
      ensures value == None && suffix == [] && suffixStart == 0 && path == [] && up == this
    {
      children := new Option<TrieNode<T>>[ALPHABET_SIZE](_ => None);
      value, suffix, suffixStart := None, [], 0;
      path, up := [], this;
    }

    ghost function View(): Cell<TrieNode<T>, TrieValue<T>>
      reads this, children
    {
      Cell(children[..], value, suffix, suffixStart, path, up)
    }

    method SetChild(c: nat, y: TrieNode<T>)
      requires c < children.Length
      modifies children
      ensures View() == WithChild(old(View()), c, y)
    {
      children[c] := Some(y);
    }

    /** One level down: the suffix begins one character later. */
    method Lower(ghost above: TrieNode<T>)
      requires suffixStart < |suffix|
      modifies this`suffixStart, this`path, this`up
      ensures View() == Lowered(old(View()), above)
    {
      suffixStart := suffixStart + 1;
      path, up := suffix[..suffixStart], above;
    }
  }

  ghost predicate Distinct<V>(m: map<Key, V>) {
    forall j, k | j in m && k in m && j != k :: m[j] != m[k]
  }

  class HandleTrie<T> {
    const keySize: nat
    const merge: (T, T) -> T
    ghost const alphabet: set<char>
    const root: TrieNode<T>
    ghost var nodes: set<TrieNode<T>>

    ghost function Cfg(): Config {
      Config(keySize, alphabet)
    }

    ghost function Arrays(): set<array<Option<TrieNode<T>>>>
      reads this
    {
      set n | n in nodes :: n.children
    }

    /** Every node has its own array of sixteen children. */
    ghost predicate Apart()
      reads this, nodes
    {
      && root in nodes
      && (forall n | n in nodes :: n.children.Length == ALPHABET_SIZE)
      && (forall m, n | m in nodes && n in nodes && m != n :: m.children != n.children)
    }

    ghost function Cells(): Heap<TrieNode<T>, TrieValue<T>>
      reads this, nodes, Arrays()
    {
      map n | n in nodes :: n.View()
    }

    ghost predicate Sound()
      reads this, nodes, Arrays()
    {
      Apart() && Wf(Cfg(), Cells(), root)
    }

    /** The map from keys to value objects. */
    ghost function Map(): map<Key, TrieValue<T>>
      reads this, nodes, Arrays()
    {
      Abs(Cells())
    }

    /** Two keys never share a value object. */
    ghost predicate Valid()
      reads this, nodes, Arrays()
    {
      Sound() && Distinct(Map())
    }

    // ---------------------------------------------------------------- the three writes of insert

    /** New nodes, each with an array of its own, join the trie. */
    ghost method Adopt(more: set<TrieNode<T>>)
      requires Apart() && forall n | n in more ::
                 n !in nodes && n.children.Length == ALPHABET_SIZE && n.children !in Arrays()
      requires forall m, n | m in more && n in more && m != n :: m.children != n.children
      modifies this`nodes
      ensures Apart() && nodes == old(nodes) + more
    {
      nodes := nodes + more;
    }

    /** The leaf `y` goes one level down, below `s`, which takes its place under `p`. */
    method Relink(p: TrieNode<T>, c: nat, s: TrieNode<T>, y: TrieNode<T>)
      requires Apart() && p in nodes && y in nodes && p != y && c < ALPHABET_SIZE && y.suffixStart < |y.suffix|
      modifies p.children, y`suffixStart, y`path, y`up
      ensures p.View() == WithChild(old(p.View()), c, s) && y.View() == Lowered(old(y.View()), s)
      ensures forall m | m in nodes && m != p && m != y :: m.View() == old(m.View())
    {
      y.Lower(s);
      p.SetChild(c, s);
    }

    method NewLeafNode(key: Key, d: nat, value: TrieValue<T>, ghost above: TrieNode<T>) returns (n: TrieNode<T>)
      requires d < |key|
      ensures fresh(n) && fresh(n.children) && n.children.Length == ALPHABET_SIZE
              && n.View() == NewLeaf(key, d + 1, value, above)
    {
      n := new TrieNode<T>();
      n.suffix, n.suffixStart, n.value := key, d + 1, Some(value);
      n.path, n.up := key[..d + 1], above;
    }

    method NewInnerNode(key: Key, d: nat, y: TrieNode<T>, ghost above: TrieNode<T>, c: nat) returns (n: TrieNode<T>)
      requires d < |key| && c < ALPHABET_SIZE
      ensures fresh(n) && fresh(n.children) && n.children.Length == ALPHABET_SIZE
      ensures n.View() == Cell(NoChildren()[c := Some(y)], None, [], 0, key[..d], above)
    {
      n := new TrieNode<T>();
      n.children[c] := Some(y);
      n.path, n.up := key[..d], above;
    }

    /** The two new nodes of a split: the leaf's slot is written last. */
    method NewSplit(p: TrieNode<T>, y: TrieNode<T>, key: Key, d: nat, value: TrieValue<T>)
      returns (s: TrieNode<T>, n: TrieNode<T>)
      requires d < |key| && y.suffixStart < |y.suffix|
      ensures n != s && n.children != s.children && fresh({n, s}) && fresh(n.children) && fresh(s.children)
      ensures s.children.Length == n.children.Length == ALPHABET_SIZE
      ensures n.View() == NewLeaf(key, d + 1, value, s)
      ensures s.View() == Cell(NoChildren()[Slot(key[d]) := Some(n)][Slot(y.suffix[y.suffixStart]) := Some(y)], None,
              [], 0, key[..d], p)
    {
      n := NewLeafNode(key, d, value, p);
      s := NewInnerNode(key, d, n, p, Slot(key[d]));
      s.SetChild(Slot(y.suffix[y.suffixStart]), y);
      n.up := s;
    }

    /** Hang a new leaf under the internal node `x`. */
    method AddLeafNode(x: TrieNode<T>, key: Key, d: nat, value: TrieValue<T>) returns (n: TrieNode<T>)
      requires Apart() && x in nodes && d < |key|
      modifies this`nodes, x.children
      ensures n !in old(nodes) && fresh(n) && fresh(n.children) && nodes == old(nodes) + {n}
      ensures Apart() && Cells() == AddLeaf(old(Cells()), x, n, key, d, value)
    {
      n := NewLeafNode(key, d, value, x);
      x.SetChild(Slot(key[d]), n);
      Adopt({n});
      AddLeafIs(old(Cells()), Cells(), x, n, key, d, value);
    }

    /** Put a new internal node between `p` and its leaf `y`. */
    method PushDownNode(p: TrieNode<T>, y: TrieNode<T>, key: Key, d: nat) returns (n: TrieNode<T>)
      requires Apart() && p in nodes && y in nodes && p != y && 0 < d < |key| && y.suffixStart < |y.suffix|
      modifies this`nodes, p.children, y`suffixStart, y`path, y`up
      ensures n !in old(nodes) && fresh(n) && fresh(n.children) && nodes == old(nodes) + {n}
      ensures Apart() && Cells() == PushDown(old(Cells()), p, y, n, key, d)
    {
      n := NewInnerNode(key, d, y, p, Slot(key[d]));
      Relink(p, Slot(key[d - 1]), n, y);
      Adopt({n});
      PushDownIs(old(Cells()), Cells(), p, y, n, key, d);
    }

    /** Put a new internal node between `p` and its leaf `y`, with a new leaf beside `y`. */
    method SplitNode(p: TrieNode<T>, y: TrieNode<T>, key: Key, d: nat, value: TrieValue<T>)
      returns (s: TrieNode<T>, n: TrieNode<T>)
      requires Apart() && p in nodes && y in nodes && p != y && 0 < d < |key| && y.suffixStart < |y.suffix|
      modifies this`nodes, p.children, y`suffixStart, y`path, y`up
      ensures n !in old(nodes) && s !in old(nodes) && n != s && fresh({n, s}) && fresh(n.children) && fresh(s.children)
      ensures nodes == old(nodes) + {n, s}
      ensures Apart() && Cells() == Split(old(Cells()), p, y, s, n, key, d, value)
    {
      s, n := NewSplit(p, y, key, d, value);
      Relink(p, Slot(key[d - 1]), s, y);
      Adopt({n, s});
      SplitIs(old(Cells()), Cells(), p, y, s, n, key, d, value);
    }

    // ---------------------------------------------------------------- the public operations

    constructor (keySize: nat, merge: (T, T) -> T, ghost alphabet: set<char>)
      requires Config(keySize, alphabet).Ok()
      ensures Valid() && Map() == map[] && fresh(nodes) && fresh(Arrays())
      ensures this.keySize == keySize && this.merge == merge && this.alphabet == alphabet
    {
      this.keySize, this.merge, this.alphabet := keySize, merge, alphabet;
      root := new TrieNode<T>();
      new;
      nodes := {root};
      assert NodeOk(Cfg(), Cells(), root, root);
      AbsIs(Cfg(), Cells(), root, map[]);
    }

    /** The checked constructor: key sizes 1 to 255 only. */
    static method Create(keySize: nat, merge: (T, T) -> T, ghost alphabet: set<char>) returns (r: Result<HandleTrie<T>>)
      requires Injective(alphabet)
      ensures r.Success? <==> 1 <= keySize <= 255
      ensures r.Success? ==> fresh(r.value) && r.value.Valid() && r.value.Map() == map[]
      ensures r.Success? ==> r.value.keySize == keySize && r.value.merge == merge && r.value.alphabet == alphabet
    {
      if keySize == 0 || keySize > 255 {
        return Failure;
      }
      var t := new HandleTrie<T>(keySize, merge, alphabet);
      return Success(t);
    }

    /** The comparison loop: characters from `from` on. */
    static method MatchesFrom(key: Key, suffix: Key, from: nat) returns (b: bool)
      requires from <= |key| == |suffix|
      ensures b == Matches(key, suffix, from)
    {
      for i := from to |key|
        invariant forall j | from <= j < i :: key[j] == suffix[j]
      {
        if key[i] != suffix[i] {
          assert key[from..][i - from] != suffix[from..][i - from];
          return false;
        }
      }
      assert key[from..] == suffix[from..];
      return true;
    }

    /** Keys that were never inserted map to nothing; the wrong key length is an error. */
    method Lookup(key: Key) returns (r: Result<Option<TrieValue<T>>>)
      requires Valid() && (|key| == keySize ==> Cfg().Canonical(key))
      ensures r.Success? <==> |key| == keySize
      ensures r.Success? ==> r.value == if key in Map() then Some(Map()[key]) else None
    {
      if |key| != keySize {
        return Failure;
      }
      var cursor := Some(root);
      var at := 0;
      ghost var h := Cells();
      assert NodeOk(Cfg(), h, root, root);
      while cursor.Some?
        invariant at <= keySize && Cells() == h
        invariant cursor.Some? ==> cursor.value in h && h[cursor.value].path == key[..at]
        invariant cursor.None? ==> key !in Abs(h)
        decreases if cursor.Some? then 1 + keySize - at else 0
      {
        var node := cursor.value;
        assert h[node] == node.View();
        if node.suffixStart > 0 {
          LeafDecides(Cfg(), h, root, node, key, at);
          var match_ := MatchesFrom(key, node.suffix, at);
          assert Cells() == h;
          return Success(if match_ then node.value else None);
        }
        InnerDecides(Cfg(), h, root, node, key, at);
        var c := Slot(key[at]);
        cursor := node.children[c];
        at := at + 1;
      }
      return Success(None);
    }

    /** One push-down: the map stays, the leaf is one level deeper and still unmatched. */
    method PushOne(parent: TrieNode<T>, cursor: TrieNode<T>, key: Key, at: nat) returns (child: TrieNode<T>)
      requires Valid() && InsertAtOk(Cfg(), Cells(), key, parent, cursor, at)
      requires cursor.suffixStart > 0 && at < |cursor.suffix| && key[at] == cursor.suffix[at]
      modifies this`nodes, nodes, Arrays()
      ensures Valid() && Map() == old(Map()) && InsertAtOk(Cfg(), Cells(), key, child, cursor, at + 1)
      ensures nodes == old(nodes) + {child} && fresh(child) && fresh(child.children)
    {
      ghost var h := Cells();
      assert h[cursor] == cursor.View() && h[parent] == parent.View();
      LeafUnderDepth(Cfg(), h, root, parent, cursor, key, at);
      child := PushDownNode(parent, cursor, key, at);
      PushDownOk(Cfg(), h, root, parent, cursor, child, key, at);
      LeafDiffersLater(key, h[cursor].suffix, at);
    }

    /** The last write of an insert of an absent key, at a free slot of an internal node. */
    method GrowLeaf(cursor: TrieNode<T>, key: Key, at: nat, value: TrieValue<T>)
      requires Sound() && InsertAtOk(Cfg(), Cells(), key, cursor, cursor, at)
      requires cursor.children[Slot(key[at])] == None && cursor.suffixStart == 0
      modifies this`nodes, cursor.children
      ensures Sound() && key !in old(Map()) && Map() == old(Map())[key := value]
      ensures old(nodes) <= nodes && forall n | n in nodes :: n in old(nodes) || (fresh(n) && fresh(n.children))
    {
      ghost var h := Cells();
      assert h[cursor] == cursor.View();
      var child := AddLeafNode(cursor, key, at, value);
      AddLeafOk(Cfg(), h, root, cursor, child, key, at, value);
    }

    /** The last write of an insert of an absent key, at a leaf whose next character differs. */
    method GrowSplit(parent: TrieNode<T>, cursor: TrieNode<T>, key: Key, at: nat, value: TrieValue<T>)
      requires Sound() && InsertAtOk(Cfg(), Cells(), key, parent, cursor, at)
      requires cursor.suffixStart > 0 && at < |cursor.suffix| && key[at] != cursor.suffix[at]
      modifies this`nodes, nodes, Arrays()
      ensures Sound() && key !in old(Map()) && Map() == old(Map())[key := value]
      ensures old(nodes) <= nodes && forall n | n in nodes :: n in old(nodes) || (fresh(n) && fresh(n.children))
    {
      ghost var h := Cells();
      assert h[cursor] == cursor.View() && h[parent] == parent.View();
      LeafUnderDepth(Cfg(), h, root, parent, cursor, key, at);
      var split, child := SplitNode(parent, cursor, key, at, value);
      assert forall n | n in nodes :: n in old(nodes) || (fresh(n) && fresh(n.children));
      SplitOk(Cfg(), h, root, parent, cursor, split, child, key, at, value);
    }

    /** The last write of an insert of an absent key. */
    method Grow(parent: TrieNode<T>, cursor: TrieNode<T>, key: Key, at: nat, value: TrieValue<T>)
      requires Searching(key, parent, cursor, at) && (forall k | k in Map() :: Map()[k] != value)
      requires at < |key| && cursor.children.Length == ALPHABET_SIZE && cursor.children[Slot(key[at])] == None
      requires cursor.suffixStart > 0 ==> at < |cursor.suffix| && key[at] != cursor.suffix[at]
      modifies this`nodes, nodes, Arrays()
      ensures Valid() && key !in old(Map()) && Map() == old(Map())[key := value]
      ensures old(nodes) <= nodes && forall n | n in nodes :: n in old(nodes) || (fresh(n) && fresh(n.children))
    {
      DistinctPut(Map(), key, value);
      if cursor.suffixStart == 0 {
        GrowLeaf(cursor, key, at, value);
      } else {
        GrowSplit(parent, cursor, key, at, value);
      }
    }

    /** From a node to its child on the key's path; `matched` when the child is the key's own leaf. */
    method Descend(cursor: TrieNode<T>, key: Key, at: nat) returns (next: TrieNode<T>, matched: bool)
      requires Sound() && Cfg().Canonical(key) && at < keySize && cursor in nodes
      requires cursor.suffixStart == 0 && cursor.path == key[..at] && cursor.children[Slot(key[at])].Some?
      ensures Cells() == old(Cells())
      ensures next == cursor.children[Slot(key[at])].value && next in nodes
      ensures matched ==> key in Map() && next.value == Some(Map()[key])
      ensures !matched ==> InsertAtOk(Cfg(), Cells(), key, cursor, next, at + 1)
    {
      ghost var h := Cells();
      assert h[cursor] == cursor.View();
      next := cursor.children[Slot(key[at])].value;
      ArriveAt(Cfg(), h, root, key, cursor, next, at);
      assert h[next] == next.View() && NodeOk(Cfg(), h, root, next);
      matched := false;
      if next.suffixStart > 0 {
        matched := MatchesFrom(key, next.suffix, at);
        assert Cells() == h;
        AbsOfLeaf(Cfg(), h, root, next);
      }
    }

    /** Merging changes one value object and no node. */
    method MergeInto(v: TrieValue<T>, other: TrieValue<T>)
      requires Valid()
      modifies v
      ensures Valid() && Cells() == old(Cells()) && Map() == old(Map())
      ensures v.contents == merge(old(v.contents), old(other.contents))
    {
      ghost var h := Cells();
      v.Merge(merge, other);
      assert Cells() == h;
    }

    /** The head of the loop of insert. */
    ghost predicate Searching(key: Key, parent: TrieNode<T>, cursor: TrieNode<T>, at: nat)
      reads this, nodes, Arrays()
    {
      Valid() && InsertAtOk(Cfg(), Cells(), key, parent, cursor, at)
    }

    lemma SearchStarts(key: Key)
      requires Valid() && Cfg().Canonical(key)
      ensures Searching(key, root, root, 0)
    {
      assert NodeOk(Cfg(), Cells(), root, root);
    }

    /** What the code knows there. */
    lemma SearchingInRange(key: Key, parent: TrieNode<T>, cursor: TrieNode<T>, at: nat)
      requires Searching(key, parent, cursor, at)
      ensures at < |key| == keySize && parent in nodes && cursor in nodes && cursor.children.Length == ALPHABET_SIZE
      ensures cursor.suffixStart > 0 ==> at < |cursor.suffix|
    {
      InsertInRange(Cfg(), Cells(), root, key, parent, cursor, at);
      assert Cells()[cursor] == cursor.View();
    }

    /** One turn of the loop of insert that does not end it: push a leaf down, or go to the child. */
    method Advance(parent: TrieNode<T>, cursor: TrieNode<T>, key: Key, at: nat)
      returns (parent': TrieNode<T>, cursor': TrieNode<T>, matched: bool)
      requires Searching(key, parent, cursor, at) && cursor.children.Length == ALPHABET_SIZE && at < |key|
      requires cursor.children[Slot(key[at])] == None ==>
                 cursor.suffixStart > 0 && at < |cursor.suffix| && key[at] == cursor.suffix[at]
      modifies this`nodes, nodes, Arrays()
      ensures Valid() && Map() == old(Map())
      ensures old(nodes) <= nodes && forall n | n in nodes :: n in old(nodes) || (fresh(n) && fresh(n.children))
      ensures matched ==> key in Map() && cursor'.value == Some(Map()[key])
      ensures !matched ==> Searching(key, parent', cursor', at + 1)
    {
      assert Cells()[cursor] == cursor.View();
      if cursor.children[Slot(key[at])] == None {
        cursor', matched := cursor, false;
        parent' := PushOne(parent, cursor, key, at);
      } else {
        InsertInRange(Cfg(), Cells(), root, key, parent, cursor, at);
        parent' := cursor;
        cursor', matched := Descend(cursor, key, at);
      }
    }

    /**
     * The loop of insert: go down the key's path, pushing an unmatched leaf down one level per turn,
     * until the key's own leaf is found (`matched`) or the place where a new leaf belongs.
     */
    method FindPlace(key: Key) returns (parent: TrieNode<T>, cursor: TrieNode<T>, at: nat, matched: bool)
      requires Valid() && Cfg().Canonical(key)
      modifies this`nodes, nodes, Arrays()
      ensures Valid() && Map() == old(Map())
      ensures old(nodes) <= nodes && forall n | n in nodes :: n in old(nodes) || (fresh(n) && fresh(n.children))
      ensures matched ==> key in Map() && cursor.value == Some(Map()[key])
      ensures !matched ==> Searching(key, parent, cursor, at) && at < |key| && cursor.children.Length == ALPHABET_SIZE
      ensures !matched ==> cursor.children[Slot(key[at])] == None
      ensures !matched && cursor.suffixStart > 0 ==> at < |cursor.suffix| && key[at] != cursor.suffix[at]
    {
      ghost var m := Map();
      cursor, parent, at, matched := root, root, 0, false;
      SearchStarts(key);
      while true
        invariant Searching(key, parent, cursor, at) && !matched && Map() == m
        invariant old(nodes) <= nodes && forall n | n in nodes :: n in old(nodes) || (fresh(n) && fresh(n.children))
        decreases keySize - at
      {
        SearchingInRange(key, parent, cursor, at);
        if cursor.children[Slot(key[at])] == None && (cursor.suffixStart == 0 || key[at] != cursor.suffix[at]) {
          return;
        }
        parent, cursor, matched := Advance(parent, cursor, key, at);
        if matched {
          return;
        }
        at := at + 1;
      }
    }

    /** The value object an insert under `key` would merge into, as a frame. */
    ghost function Target(key: Key): set<TrieValue<T>>
      reads this, nodes, Arrays()
    {
      if key in Map() then {Map()[key]} else {}
    }

    /**
     * Insert a new key, or merge into the value object it already has. The object a key maps to never
     * changes, and by the frame no other key's object is touched.
     */
    method InsertKey(key: Key, value: TrieValue<T>) returns (v: TrieValue<T>)
      requires Valid() && (forall k | k in Map() :: Map()[k] != value) && Cfg().Canonical(key)
      modifies this`nodes, nodes, Arrays(), Target(key)
      ensures Valid() && old(nodes) <= nodes && forall n | n in nodes ::
              n in old(nodes) || (fresh(n) && fresh(n.children))
      ensures key !in old(Map()) ==> v == value && Map() == old(Map())[key := value]
      ensures key in old(Map()) ==> v == old(Map())[key] && Map() == old(Map())
      ensures key in old(Map()) ==> v.contents == merge(old(Map()[key].contents), old(value.contents))
    {
      var parent, cursor, at, matched := FindPlace(key);
      if matched {
        v := cursor.value.value;
        MergeInto(v, value);
      } else {
        v := value;
        Grow(parent, cursor, key, at, value);
      }
    }

    /** Insert with the length check: a key of the wrong length is an error and changes nothing. */
    method Insert(key: Key, value: TrieValue<T>) returns (r: Result<TrieValue<T>>)
      requires Valid() && forall k | k in Map() :: Map()[k] != value
      requires |key| == keySize ==> Cfg().Canonical(key)
      modifies this`nodes, nodes, Arrays(), Target(key)
      ensures Valid() && old(nodes) <= nodes && forall n | n in nodes ::
              n in old(nodes) || (fresh(n) && fresh(n.children))
      ensures r.Success? <==> |key| == keySize
      ensures r.Failure? ==> Cells() == old(Cells())
      ensures r.Success? && key !in old(Map()) ==> r.value == value && Map() == old(Map())[key := value]
      ensures r.Success? && key in old(Map()) ==> r.value == old(Map())[key] && Map() == old(Map())
      ensures r.Success? && key in old(Map()) ==> r.value.contents == merge(old(Map()[key].contents),
              old(value.contents))
    {
      if |key| != keySize {
        return Failure;
      }
      var v := InsertKey(key, value);
      return Success(v);
    }

    /** The children of `x` pushed from the highest slot down, so that the lowest is on top. */
    method PushChildren(x: TrieNode<T>, stack: seq<TrieNode<T>>,
                        ghost h: Heap<TrieNode<T>, TrieValue<T>>, ghost spots: seq<Spot<TrieNode<T>>>)
      returns (stack': seq<TrieNode<T>>)
      requires Stacked(stack, spots) && x.children.Length == ALPHABET_SIZE
      requires forall c | 0 <= c < ALPHABET_SIZE :: x.children[c].Some? ==> x.children[c].value in h
      ensures Stacked(stack', Expand(h, x.children[..], 0) + spots)
    {
      stack' := stack;
      var i := ALPHABET_SIZE;
      ghost var cs := x.children[..];
      assert Expand(h, cs, i) + spots == spots;
      while i > 0
        invariant 0 <= i <= ALPHABET_SIZE && Stacked(stack', Expand(h, cs, i) + spots)
      {
        i := i - 1;
        ExpandStacks(h, cs, i, stack', spots);
        if x.children[i].Some? {
          stack' := [x.children[i].value] + stack';
        }
      }
    }

    /**
     * Visit the leaves in ascending slot order of their keys, up to the first one `stop` answers true
     * for. Every key before the last visited one has been visited.
     */
    method Traverse(stop: Key -> bool) returns (visited: seq<Key>, values: seq<TrieValue<T>>, stopped: bool)
      requires Valid()
      ensures Tour(Map(), stop, visited, values, stopped)
    {
      visited, values, stopped := [], [], false;
      ghost var h := Cells();
      var stack := [root];
      ghost var spots := [Spot(root, [])];
      StartFrontier(Cfg(), h, root);
      while stack != [] && !stopped
        invariant Cells() == h && Stacked(stack, spots) && Touring(h, stop, visited, values, stopped, spots)
        decreases StackWeight(Cfg(), spots)
      {
        var cursor := stack[0];
        TopIsPending(h, KeySet(h), visited, spots);
        assert h[cursor] == cursor.View();
        if cursor.suffixStart > 0 {
          VisitTop(Cfg(), h, root, stop, visited, values, spots);
          visited, values := visited + [cursor.suffix], values + [cursor.value.value];
          stack, spots := stack[1..], spots[1..];
          stopped := stop(cursor.suffix);
        } else {
          OpenTop(Cfg(), h, root, stop, visited, values, spots);
          stack := PushChildren(cursor, stack[1..], h, spots[1..]);
          assert Cells() == h;
          spots := Expand(h, h[cursor].children, 0) + spots[1..];
        }
      }
      TourEnds(Cfg(), h, root, stop, visited, values, stopped, spots);
    }
  }

  /** Each visited key came with the value the map has for it. */
  ghost predicate Visits<V>(m: map<Key, V>, visited: seq<Key>, values: seq<V>) {
    |values| == |visited| && forall i | 0 <= i < |visited| :: visited[i] in m && values[i] == m[visited[i]]
  }

  lemma ExpandStacks<Id, V>(h: Heap<Id, V>, cs: seq<Option<Id>>, i: nat, stack: seq<Id>, spots: seq<Spot<Id>>)
    requires i < |cs| && forall c | 0 <= c < |cs| :: cs[c].Some? ==> cs[c].value in h
    requires Stacked(stack, Expand(h, cs, i + 1) + spots)
    ensures cs[i].Some? ==> Stacked([cs[i].value] + stack, Expand(h, cs, i) + spots)
    ensures cs[i].None? ==> Stacked(stack, Expand(h, cs, i) + spots)
  {
  }

  /** The state of a traversal loop: what was visited, what is pending, and whether `stop` has answered true. */
  ghost predicate Touring<Id, V>(h: Heap<Id, V>, stop: Key -> bool, visited: seq<Key>, values: seq<V>, stopped: bool,
                                 spots: seq<Spot<Id>>) {
    && Frontier(h, KeySet(h), visited, spots)
    && Visits(Abs(h), visited, values)
    && StopsAt(stop, visited, stopped)
  }

  ghost predicate StopsAt(stop: Key -> bool, visited: seq<Key>, stopped: bool) {
    && (stopped ==> visited != [])
    && forall i | 0 <= i < |visited| :: stop(visited[i]) <==> stopped && i == |visited| - 1
  }

  lemma VisitTop<Id, V>(cfg: Config, h: Heap<Id, V>, root: Id, stop: Key -> bool, visited: seq<Key>, values: seq<V>,
                        spots: seq<Spot<Id>>)
    requires Wf(cfg, h, root) && Touring(h, stop, visited, values, false, spots) && spots != []
             && h[spots[0].node].Leaf()
    ensures h[spots[0].node].value.Some?
    ensures var k := h[spots[0].node].suffix;
            Touring(h, stop, visited + [k], values + [h[spots[0].node].value.value], stop(k), spots[1..])
  {
    VisitLeaf(h, KeySet(h), visited, spots);
    AbsOfLeaf(cfg, h, root, spots[0].node);
  }

  lemma OpenTop<Id, V>(cfg: Config, h: Heap<Id, V>, root: Id, stop: Key -> bool, visited: seq<Key>, values: seq<V>,
                       spots: seq<Spot<Id>>)
    requires Wf(cfg, h, root) && Touring(h, stop, visited, values, false, spots) && spots != []
             && !h[spots[0].node].Leaf()
    ensures var cs := h[spots[0].node].children;
            && |cs| == ALPHABET_SIZE && (forall c | 0 <= c < ALPHABET_SIZE :: cs[c].Some? ==> cs[c].value in h)
            && Touring(h, stop, visited, values, false, Expand(h, cs, 0) + spots[1..])
            && StackWeight(cfg, Expand(h, cs, 0) + spots[1..]) < StackWeight(cfg, spots)
  {
    OpenInner(cfg, h, root, KeySet(h), visited, spots);
    assert SpotOk(h, spots[0]);
    OpeningSinks(cfg, h, root, spots);
  }

  lemma TourEnds<Id, V>(cfg: Config, h: Heap<Id, V>, root: Id, stop: Key -> bool, visited: seq<Key>, values: seq<V>,
                        stopped: bool,
                        spots: seq<Spot<Id>>)
    requires Wf(cfg, h, root) && Touring(h, stop, visited, values, stopped, spots) && (stopped || spots == [])
    ensures Tour(Abs(h), stop, visited, values, stopped)
  {
    RestIsLater(cfg, h, root, visited, spots);
  }

  /** A whole traversal: in ascending order, up to the first key `stop` is true for, and nothing before it is missed. */
  ghost predicate Tour<V>(m: map<Key, V>, stop: Key -> bool, visited: seq<Key>, values: seq<V>, stopped: bool) {
    && Ascending(visited) && Visits(m, visited, values) && StopsAt(stop, visited, stopped)
    && forall k | k in m :: k in visited || (stopped && Precedes(visited[|visited| - 1], k))
  }

  lemma TopIsPending<Id, V>(h: Heap<Id, V>, start: set<Key>, visited: seq<Key>, spots: seq<Spot<Id>>)
    requires Frontier(h, start, visited, spots) && spots != []
    ensures SpotOk(h, spots[0])
  {
  }

  ghost predicate Stacked<Id>(stack: seq<Id>, spots: seq<Spot<Id>>) {
    |stack| == |spots| && forall i | 0 <= i < |stack| :: stack[i] == spots[i].node
  }

  /** What has not been visited comes after the last visited key. */
  lemma RestIsLater<Id, V>(cfg: Config, h: Heap<Id, V>, root: Id, visited: seq<Key>, spots: seq<Spot<Id>>)
    requires Wf(cfg, h, root) && Frontier(h, KeySet(h), visited, spots)
    ensures Ascending(visited)
    ensures forall k | k in Abs(h) ::
              k in visited || (spots != [] && (visited != [] ==> Precedes(visited[|visited| - 1], k)))
  {
    var w := visited + Zones(spots);
    assert forall i | 0 <= i < |visited| :: w[i] == visited[i];
    forall k | k in Abs(h) && k !in visited
      ensures spots != [] && (visited != [] ==> Precedes(visited[|visited| - 1], k))
    {
      var i :| 0 <= i < |spots| && LeadsTo(h, spots[i], k);
      if visited != [] {
        assert Precedes(w[|visited| - 1], w[|visited| + i]);
        PrecedesExtends(visited[|visited| - 1], spots[i].zone, visited[|visited| - 1], k);
      }
    }
  }

  lemma DistinctPut<V>(m: map<Key, V>, key: Key, v: V)
    requires Distinct(m) && forall k | k in m :: m[k] != v
    ensures Distinct(m[key := v])
  {
  }

  /** A leaf on the searched path settles the search. */
  lemma LeafDecides<Id, V>(cfg: Config, h: Heap<Id, V>, root: Id, x: Id, key: Key, at: nat)
    requires Wf(cfg, h, root) && cfg.Canonical(key) && at <= |key|
    requires x in h && h[x].Leaf() && h[x].path == key[..at]
    ensures |h[x].suffix| == |key| && h[x].suffixStart == at
    ensures Matches(key, h[x].suffix, at) ==> key in Abs(h) && h[x].value == Some(Abs(h)[key])
    ensures !Matches(key, h[x].suffix, at) ==> key !in Abs(h)
  {
    assert NodeOk(cfg, h, root, x);
    assert key == key[..at] + key[at..] && h[x].suffix == h[x].suffix[..at] + h[x].suffix[at..];
    AbsOfLeaf(cfg, h, root, x);
    if h[x].suffix != key && key in Abs(h) {
      var z := AbsHasLeaf(h, key);
      LeafOnPath(cfg, h, root, x, z, key);
    }
  }

  /** An internal node on the searched path sends the search on, or settles it. */
  lemma InnerDecides<Id, V>(cfg: Config, h: Heap<Id, V>, root: Id, x: Id, key: Key, at: nat)
    requires Wf(cfg, h, root) && cfg.Canonical(key)
    requires x in h && !h[x].Leaf() && at <= |key| && h[x].path == key[..at]
    ensures at < |key| && |h[x].children| == ALPHABET_SIZE
    ensures var child := h[x].children[Slot(key[at])];
            if child.Some? then child.value in h && h[child.value].path == key[..at + 1] else key !in Abs(h)
  {
    assert NodeOk(cfg, h, root, x);
    if h[x].children[Slot(key[at])].Some? {
      ChildOnPath(cfg, h, root, key, x, at);
    } else if key in Abs(h) {
      var z := AbsHasLeaf(h, key);
      var y := InnerOnPath(cfg, h, root, x, z, key);
    }
  }

  // Cell by cell, the three writes are the functions the heap theory is about.

  lemma AddLeafIs<Id, V>(h: Heap<Id, V>, h': Heap<Id, V>, x: Id, n: Id, key: Key, d: nat, v: V)
    requires x in h && n !in h && d < |key| && |h[x].children| == ALPHABET_SIZE && h'.Keys == h.Keys + {n}
    requires h'[n] == NewLeaf(key, d + 1, v, x)
    requires h'[x] == WithChild(h[x], Slot(key[d]), n)
    requires forall m | m in h && m != x :: h'[m] == h[m]
    ensures h' == AddLeaf(h, x, n, key, d, v)
  {
  }

  lemma PushDownIs<Id, V>(h: Heap<Id, V>, h': Heap<Id, V>, p: Id, y: Id, n: Id, key: Key, d: nat)
    requires p in h && y in h && p != y && n !in h && 0 < d < |key| && h'.Keys == h.Keys + {n}
    requires |h[p].children| == ALPHABET_SIZE && h[y].suffixStart < |h[y].suffix|
    requires h'[n] == Cell(NoChildren()[Slot(key[d]) := Some(y)], None, [], 0, key[..d], p)
    requires h'[y] == Lowered(h[y], n)
    requires h'[p] == WithChild(h[p], Slot(key[d - 1]), n)
    requires forall m | m in h && m != p && m != y :: h'[m] == h[m]
    ensures h' == PushDown(h, p, y, n, key, d)
  {
  }

  lemma SplitIs<Id, V>(h: Heap<Id, V>, h': Heap<Id, V>, p: Id, y: Id, s: Id, n: Id, key: Key, d: nat, v: V)
    requires p in h && y in h && p != y && n !in h && s !in h && n != s && 0 < d < |key| && h'.Keys == h.Keys + {n, s}
    requires |h[p].children| == ALPHABET_SIZE && h[y].suffixStart < |h[y].suffix|
    requires h'[n] == NewLeaf(key, d + 1, v, s)
    requires h'[s] == Cell(NoChildren()[Slot(key[d]) := Some(n)][Slot(h[y].suffix[h[y].suffixStart]) := Some(y)],
             None, [], 0, key[..d], p)
    requires h'[y] == Lowered(h[y], s)
    requires h'[p] == WithChild(h[p], Slot(key[d - 1]), s)
    requires forall m | m in h && m != p && m != y :: h'[m] == h[m]
    ensures h' == Split(h, p, y, s, n, key, d, v)
  {
  }
}
