/** Where a search for a key stands in a well-formed heap, and what the next character tells it. */
module TriePath {
  import opened Prelude
  import opened Keys
  import opened TrieHeap

  /** The comparison loop of `insert` and `lookup`: characters from `from` to the end of the key. */
  predicate Matches(key: Key, suffix: Key, from: nat) {
    from <= |key| && from <= |suffix| && key[from..] == suffix[from..]
  }

  /** An insert at the head of its loop: at an internal node of the key's path, or at a leaf to be moved or split. */
  ghost predicate InsertAtOk<Id, V>(cfg: Config, h: Heap<Id, V>, key: Key, parent: Id, cursor: Id, at: nat) {
    && cfg.Canonical(key) && at < cfg.keySize && parent in h && cursor in h
    && if h[cursor].Leaf() then LeafUnder(h, parent, cursor, key, at) && h[cursor].suffix != key
       else h[cursor].path == key[..at]
  }

  /** An insert about to go from `parent` to its child `next`. */
  ghost predicate InsertWaitOk<Id, V>(cfg: Config, h: Heap<Id, V>, key: Key, parent: Id, next: Id, at: nat) {
    && cfg.Canonical(key) && at < cfg.keySize
    && parent in h && !h[parent].Leaf() && h[parent].path == key[..at]
    && |h[parent].children| == ALPHABET_SIZE && h[parent].children[Slot(key[at])] == Some(next)
  }

  /**
   * At the head of its loop an insert is within the key and within a byte; a leaf there is at the same depth,
   * differs from the key at or after it, and if it differs right there, in the slot too.
   */
  lemma InsertInRange<Id, V>(cfg: Config, h: Heap<Id, V>, root: Id, key: Key, parent: Id, cursor: Id, at: nat)
    requires Wf(cfg, h, root) && InsertAtOk(cfg, h, key, parent, cursor, at)
    ensures at < |key| <= 255 && |h[parent].children| == |h[cursor].children| == ALPHABET_SIZE
    ensures h[cursor].Leaf() ==>
              var suffix := h[cursor].suffix;
              && h[cursor].children[Slot(key[at])].None? && 0 < at < |suffix| == |key| && h[cursor].suffixStart == at
              && suffix[at..] != key[at..] && (suffix[at] != key[at] ==> Slot(suffix[at]) != Slot(key[at]))
  {
    assert NodeOk(cfg, h, root, cursor) && NodeOk(cfg, h, root, parent);
    if h[cursor].Leaf() {
      LeafUnderDepth(cfg, h, root, parent, cursor, key, at);
    }
  }

  /** Two keys that differ, but not here, differ later. */
  lemma LeafDiffersLater(key: Key, suffix: Key, at: nat)
    requires |key| == |suffix| && at < |key| && key[at..] != suffix[at..] && key[at] == suffix[at]
    ensures at + 1 < |key| && key[at + 1..] != suffix[at + 1..]
  {
    assert key[at..] == [key[at]] + key[at + 1..] && suffix[at..] == [suffix[at]] + suffix[at + 1..];
  }

  /** The child a character leads to stands on the key's path. */
  lemma ChildOnPath<Id, V>(cfg: Config, h: Heap<Id, V>, root: Id, key: Key, x: Id, at: nat)
    requires Wf(cfg, h, root) && cfg.Canonical(key) && at < cfg.keySize
    requires x in h && !h[x].Leaf() && h[x].path == key[..at]
    requires |h[x].children| == ALPHABET_SIZE && h[x].children[Slot(key[at])].Some?
    ensures var y := h[x].children[Slot(key[at])].value;
            y in h && y != x && h[y].path == key[..at + 1] && h[y].up == x
  {
    assert NodeOk(cfg, h, root, x) && ChildOk(h, root, x, Slot(key[at]));
    var y := h[x].children[Slot(key[at])].value;
    assert NodeOk(cfg, h, root, y);
    assert !Clash(Last(h[y].path), key[at]);
    assert h[y].path == key[..at] + [key[at]] == key[..at + 1];
  }

  /** A leaf that matches from here matches from the start; one that does not is to be moved or split. */
  lemma ArriveAt<Id, V>(cfg: Config, h: Heap<Id, V>, root: Id, key: Key, parent: Id, next: Id, at: nat)
    requires Wf(cfg, h, root) && InsertWaitOk(cfg, h, key, parent, next, at)
    ensures next in h && next != parent && |h[parent].path| < |h[next].path|
    ensures h[next].Leaf() && Matches(key, h[next].suffix, at) ==> h[next].suffix == key && h[next].value.Some?
    ensures !(h[next].Leaf() && Matches(key, h[next].suffix, at)) ==> InsertAtOk(cfg, h, key, parent, next, at + 1)
  {
    ChildOnPath(cfg, h, root, key, parent, at);
    assert NodeOk(cfg, h, root, next);
    var n := h[next];
    if n.Leaf() {
      assert n.suffix[..at] == n.path[..at] == key[..at];
      assert key == key[..at] + key[at..] && n.suffix == n.suffix[..at] + n.suffix[at..];
    } else {
      assert |key[..at + 1]| < cfg.keySize;
    }
  }
}
