/** Handles, the table that maps a character to a trie slot, and the order a traversal follows. */
module Keys {

  type Key = string

  const ALPHABET_SIZE: nat := 16

  /** The character-to-slot table: a static array, zero everywhere `TLB_INIT` does not write. */
  function Slot(ch: char): (c: nat)
    ensures c < ALPHABET_SIZE
  {
    if '0' <= ch <= '9' then ch as nat - '0' as nat
    else if 'a' <= ch <= 'f' then ch as nat - 'a' as nat + 10
    else if 'A' <= ch <= 'F' then ch as nat - 'A' as nat + 10
    else 0
  }

  ghost predicate Clash(a: char, b: char) {
    a != b && Slot(a) == Slot(b)
  }

  /** No two characters of the alphabet share a slot. */
  ghost predicate Injective(alphabet: set<char>) {
    forall a, b | a in alphabet && b in alphabet :: !Clash(a, b)
  }

  /** The key length a trie was built for and the characters its callers write keys in. */
  datatype Config = Config(keySize: nat, alphabet: set<char>) {
    ghost predicate Ok() {
      0 < keySize <= 255 && Injective(alphabet)
    }

    ghost predicate Canonical(k: Key) {
      |k| == keySize && forall i | 0 <= i < |k| :: k[i] in alphabet
    }
  }

  // ---------------------------------------------------------------- slot order on prefixes

  ghost predicate DiffAt(a: Key, b: Key, d: nat) {
    d < |a| && d < |b| && a[..d] == b[..d] && Slot(a[d]) < Slot(b[d])
  }

  /** Every key that starts with `a` precedes every key that starts with `b`. */
  ghost predicate Precedes(a: Key, b: Key) {
    exists d: nat :: DiffAt(a, b, d)
  }

  ghost predicate Ascending(ks: seq<Key>) {
    forall i, j | 0 <= i < j < |ks| :: Precedes(ks[i], ks[j])
  }

  lemma PrecedesExtends(a: Key, b: Key, a': Key, b': Key)
    requires Precedes(a, b) && a <= a' && b <= b'
    ensures Precedes(a', b')
  {
    var d: nat :| DiffAt(a, b, d);
    assert a'[..d] == a[..d] && b'[..d] == b[..d];
    assert DiffAt(a', b', d);
  }

  /** Replacing one prefix by an ascending list of its own extensions keeps a list ascending. */
  lemma RefineAscending(ks: seq<Key>, at: nat, es: seq<Key>)
    requires at < |ks| && Ascending(ks) && Ascending(es)
    requires forall i | 0 <= i < |es| :: ks[at] <= es[i]
    ensures Ascending(ks[..at] + es + ks[at + 1..])
  {
    var r := ks[..at] + es + ks[at + 1..];
    forall i, j | 0 <= i < j < |r|
      ensures Precedes(r[i], r[j])
    {
      // position in ks of the prefix that r[i] extends
      var oi := if i < at then i else if i < at + |es| then at else i - |es| + 1;
      var oj := if j < at then j else if j < at + |es| then at else j - |es| + 1;
      if oi == oj {
        assert r[i] == es[i - at] && r[j] == es[j - at];
      } else {
        assert ks[oi] <= r[i] && ks[oj] <= r[j];
        PrecedesExtends(ks[oi], ks[oj], r[i], r[j]);
      }
    }
  }

  lemma AscendingHasNoRepeats(ks: seq<Key>)
    requires Ascending(ks)
    ensures forall i, j | 0 <= i < j < |ks| :: ks[i] != ks[j]
  {
  }

  // ---------------------------------------------------------------- string order

  /** The order of strings. */
  predicate Before(a: Key, b: Key) {
    if b == [] then false
    else if a == [] then true
    else if a[0] != b[0] then a[0] < b[0]
    else Before(a[1..], b[1..])
  }

  lemma {:induction false} BeforeIsTotal(a: Key, b: Key)
    ensures a == b ==> !Before(a, b)
    ensures a != b ==> (Before(a, b) <==> !Before(b, a))
  {
    if a != [] && b != [] && a[0] == b[0] {
      assert a == [a[0]] + a[1..] && b == [b[0]] + b[1..];
      BeforeIsTotal(a[1..], b[1..]);
    }
  }
}
