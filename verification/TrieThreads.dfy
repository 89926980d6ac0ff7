/**
 * Threads that insert into, look up in and traverse one trie, interleaved at lock operations.
 * Insert holds its parent while it waits for a child; lookup and traverse let go of a node before
 * they wait for the next one. Values are numbered objects; a leaf's value is the list of those inserted
 * under its key, in order, so any `merge` is a fold of it.
 */
module TrieThreads {
  import opened Prelude
  import opened Keys
  import opened TrieHeap
  import opened TriePath
  import opened Traversal

  type Tid = nat
  type Node = nat
  type Item = nat
  type Trie = Heap<Node, seq<Item>>
  type Contents = map<Key, seq<Item>>

  const ROOT: Node := 0

  datatype Op = Insert(key: Key, value: Item) | Lookup(key: Key) | Traverse(keepRootLocked: bool)

  /** Where a thread is. `...Wait` is about to lock a node; `...At` has it locked. */
  datatype Point =
    | InsertBegin(key: Key, value: Item)
    | InsertAt(key: Key, value: Item, parent: Node, cursor: Node, at: nat)
    | InsertWait(key: Key, value: Item, parent: Node, next: Node, at: nat)
    | Inserted(key: Key, value: Item)
    | LookupWait(key: Key, node: Node, at: nat)
    | LookupAt(key: Key, node: Node, at: nat)
    | Found(key: Key, result: Option<seq<Item>>)
    | TraverseWait(keep: bool, start: set<Key>, visited: seq<Key>, stack: seq<Spot<Node>>)
    | TraverseAt(keep: bool, start: set<Key>, visited: seq<Key>, stack: seq<Spot<Node>>)
    | Traversed(start: set<Key>, visited: seq<Key>, stopped: bool)
    | Rejected  // the key had the wrong length
    | Wild      // an index or a pointer was out of range

  /** A call and the instant it was made, as an index into the history. */
  datatype Call = Call(since: nat, point: Point)

  /** `history` lists the abstract map after every event so far. */
  datatype State = State(
    trie: Trie,
    next: Node,
    locks: map<Node, Tid>,
    calls: map<Tid, Call>,
    history: seq<Contents>)

  datatype Event = Start(t: Tid, op: Op) | Turn(t: Tid, stop: bool)

  // ---------------------------------------------------------------- one step of one thread

  function Awaited(p: Point): Option<Node> {
    match p
    case InsertBegin(_, _) => Some(ROOT)
    case InsertWait(_, _, _, next, _) => Some(next)
    case LookupWait(_, node, _) => Some(node)
    case TraverseWait(_, _, _, stack) => if stack == [] then None else Some(stack[0].node)
    case _ => None
  }

  predicate Finished(p: Point) {
    p.Inserted? || p.Found? || p.Traversed? || p.Rejected? || p.Wild?
  }

  predicate Enabled(s: State, t: Tid) {
    && t in s.calls && !Finished(s.calls[t].point)
    && var w := Awaited(s.calls[t].point); w.Some? ==> w.value !in s.locks
  }

  ghost function Close(s: State, t: Tid, trie: Trie, next: Node, locks: map<Node, Tid>, p: Point): State
    requires t in s.calls
  {
    State(trie, next, locks, s.calls[t := s.calls[t].(point := p)], s.history + [Abs(trie)])
  }

  ghost function Move(s: State, t: Tid, locks: map<Node, Tid>, p: Point): State
    requires t in s.calls
  {
    Close(s, t, s.trie, s.next, locks, p)
  }

  /** One turn of the `insert` loop, up to the next lock operation. */
  ghost function InsertTurn(s: State, t: Tid, key: Key, v: Item, parent: Node, cursor: Node, at: nat): State
    requires t in s.calls
  {
    if !(at < |key| && parent in s.trie && cursor in s.trie
         && |s.trie[parent].children| == ALPHABET_SIZE && |s.trie[cursor].children| == ALPHABET_SIZE)
    then Move(s, t, s.locks, Wild)
    else
      var n := s.trie[cursor];
      var child := n.children[Slot(key[at])];
      if child.Some? then
        Move(s, t, if cursor != parent then s.locks - {parent}
            else s.locks, InsertWait(key, v, cursor, child.value, at))
      else if !n.Leaf() then
        Close(s, t, AddLeaf(s.trie, cursor, s.next, key, at, [v]), s.next + 1, s.locks - {parent, cursor},
            Inserted(key, v))
      else if !(0 < at < |n.suffix| && n.suffixStart < |n.suffix|) then
        Move(s, t, s.locks, Wild)
      else if key[at] == n.suffix[at] then
        Close(s, t, PushDown(s.trie, parent, cursor, s.next, key, at), s.next + 1, (s.locks - {parent})[s.next := t],
              InsertAt(key, v, s.next, cursor, at + 1))
      else
        Close(s, t, Split(s.trie, parent, cursor, s.next, s.next + 1, key, at, [v]), s.next + 2,
              s.locks - {parent, cursor}, Inserted(key, v))
  }

  /** Lock the child and, if it holds the key already, merge into it. */
  ghost function InsertArrive(s: State, t: Tid, key: Key, v: Item, parent: Node, next: Node, at: nat): State
    requires t in s.calls
  {
    if next !in s.trie then Move(s, t, s.locks, Wild)
    else
      var n := s.trie[next];
      if n.Leaf() && n.value.Some? && Matches(key, n.suffix, at) then
        Close(s, t, SetValue(s.trie, next, n.value.value + [v]), s.next, s.locks - {parent}, Inserted(key, v))
      else
        Move(s, t, s.locks[next := t], InsertAt(key, v, parent, next, at + 1))
  }

  ghost function LookupTurn(s: State, t: Tid, key: Key, node: Node, at: nat): State
    requires t in s.calls
  {
    if node !in s.trie then Move(s, t, s.locks, Wild)
    else
      var n := s.trie[node];
      if n.Leaf() then
        Move(s, t, s.locks - {node}, Found(key, if Matches(key, n.suffix, at) then n.value else None))
      else if !(at < |key| && |n.children| == ALPHABET_SIZE) then
        Move(s, t, s.locks, Wild)
      else
        var child := n.children[Slot(key[at])];
        Move(s, t, s.locks - {node}, if child.Some? then LookupWait(key, child.value, at + 1) else Found(key, None))
  }

  /** Visit a leaf, or push the children of an internal node. `stop` is the visit function's answer. */
  ghost function TraverseTurn(s: State, t: Tid, keep: bool, start: set<Key>, visited: seq<Key>,
                              stack: seq<Spot<Node>>, stop: bool): State
    requires t in s.calls
  {
    if stack == [] || stack[0].node !in s.trie then Move(s, t, s.locks, Wild)
    else
      var x := stack[0].node;
      var n := s.trie[x];
      if n.Leaf() then
        if stop then
          Move(s, t, s.locks - (if keep then {x, ROOT} else {x}), Traversed(start, visited + [n.suffix], true))
        else
          Move(s, t, s.locks - {x}, TraverseWait(keep, start, visited + [n.suffix], stack[1..]))
      else if exists c | 0 <= c < |n.children| :: n.children[c].Some? && n.children[c].value !in s.trie then
        Move(s, t, s.locks, Wild)
      else
        Move(s, t, if keep && x == ROOT then s.locks else s.locks - {x},
             TraverseWait(keep, start, visited, Expand(s.trie, n.children, 0) + stack[1..]))
  }

  ghost function Exec(s: State, t: Tid, stop: bool): State
    requires Enabled(s, t)
  {
    match s.calls[t].point
    case InsertBegin(key, v) => Move(s, t, s.locks[ROOT := t], InsertAt(key, v, ROOT, ROOT, 0))
    case InsertAt(key, v, parent, cursor, at) => InsertTurn(s, t, key, v, parent, cursor, at)
    case InsertWait(key, v, parent, next, at) => InsertArrive(s, t, key, v, parent, next, at)
    case LookupWait(key, node, at) => Move(s, t, s.locks[node := t], LookupAt(key, node, at))
    case LookupAt(key, node, at) => LookupTurn(s, t, key, node, at)
    case TraverseWait(keep, start, visited, stack) =>
      if stack == [] then Move(s, t, if keep then s.locks - {ROOT} else s.locks, Traversed(start, visited, false))
      else Move(s, t, s.locks[stack[0].node := t], TraverseAt(keep, start, visited, stack))
    case TraverseAt(keep, start, visited, stack) => TraverseTurn(s, t, keep, start, visited, stack, stop)
    case _ => s
  }

  /** The first point of a call. A key of the wrong length is refused before any lock is taken. */
  ghost function FirstPoint(cfg: Config, trie: Trie, op: Op): Point {
    match op
    case Insert(key, v) => if |key| != cfg.keySize then Rejected else InsertBegin(key, v)
    case Lookup(key) => if |key| != cfg.keySize then Rejected else LookupWait(key, ROOT, 0)
    case Traverse(keep) => TraverseWait(keep, KeySet(trie), [], [Spot(ROOT, [])])
  }

  ghost predicate Legal(s: State, e: Event) {
    match e
    case Start(t, _) => t !in s.calls
    case Turn(t, _) => Enabled(s, t)
  }

  ghost function Apply(cfg: Config, s: State, e: Event): State
    requires Legal(s, e)
  {
    match e
    case Start(t, op) =>
      s.(calls := s.calls[t := Call(|s.history|, FirstPoint(cfg, s.trie, op))], history := s.history + [Abs(s.trie)])
    case Turn(t, stop) => Exec(s, t, stop)
  }
}
