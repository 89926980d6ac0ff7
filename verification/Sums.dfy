/** Finite sums of reals, indexed by the keys of a map, in no particular order. */
module Sums {
  import opened Keys

  ghost function Sum(m: map<Key, real>): real
    decreases |m|
  {
    if m == map[] then 0.0
    else
      var k :| k in m;
      m[k] + Sum(m - {k})
  }

  /** Any entry can be taken out first: the order does not matter. */
  lemma {:induction false} SumTakesOut(m: map<Key, real>, k: Key)
    requires k in m
    ensures Sum(m) == m[k] + Sum(m - {k})
    decreases |m|
  {
    var j :| j in m && Sum(m) == m[j] + Sum(m - {j});
    if j != k {
      SumTakesOut(m - {j}, k);
      SumTakesOut(m - {k}, j);
      assert m - {j} - {k} == m - {k} - {j};
    }
  }

  lemma SumPuts(m: map<Key, real>, k: Key, x: real)
    ensures Sum(m[k := x]) == Sum(m) + x - if k in m then m[k] else 0.0
  {
    SumTakesOut(m[k := x], k);
    assert m[k := x] - {k} == m - {k};
    if k in m { SumTakesOut(m, k); } else { assert m - {k} == m; }
  }

  lemma {:induction false} SumAdds(a: map<Key, real>, b: map<Key, real>, c: map<Key, real>)
    requires a.Keys == b.Keys == c.Keys && forall k | k in a :: c[k] == a[k] + b[k]
    ensures Sum(c) == Sum(a) + Sum(b)
    decreases |a|
  {
    if k :| k in a {
      SumTakesOut(a, k);
      SumTakesOut(b, k);
      SumTakesOut(c, k);
      SumAdds(a - {k}, b - {k}, c - {k});
    }
  }

  ghost function Mapped(m: map<Key, real>, f: real -> real): map<Key, real> {
    map k | k in m :: f(m[k])
  }

  /** A product, named so that products of equal factors are seen to be equal. */
  function Prod(x: real, y: real): real {
    x * y
  }

  function By(x: real): real -> real {
    y => Prod(x, y)
  }

  lemma Distributes(x: real, p: real, q: real, s: real)
    requires s == p + q
    ensures Prod(x, s) == Prod(x, p) + Prod(x, q)
  {
  }

  lemma MappedWithout(m: map<Key, real>, f: real -> real, k: Key)
    ensures Mapped(m, f) - {k} == Mapped(m - {k}, f)
  {
  }

  lemma {:induction false} SumScales(m: map<Key, real>, x: real)
    ensures Sum(Mapped(m, By(x))) == Prod(x, Sum(m))
    decreases |m|
  {
    if k :| k in m {
      SumTakesOut(m, k);
      SumTakesOut(Mapped(m, By(x)), k);
      MappedWithout(m, By(x), k);
      SumScales(m - {k}, x);
      Distributes(x, m[k], Sum(m - {k}), Sum(m));
    }
  }

  lemma ScaledAlike(a: map<Key, real>, x: real, b: map<Key, real>, y: real)
    requires Mapped(a, By(x)) == Mapped(b, By(y))
    ensures Prod(x, Sum(a)) == Prod(y, Sum(b))
  {
    SumScales(a, x);
    SumScales(b, y);
  }

  lemma {:induction false} SumIsNonNegative(m: map<Key, real>)
    requires forall k | k in m :: m[k] >= 0.0
    ensures Sum(m) >= 0.0
    ensures forall k | k in m :: m[k] <= Sum(m)
    decreases |m|
  {
    if k :| k in m {
      SumTakesOut(m, k);
      SumIsNonNegative(m - {k});
      forall j | j in m
        ensures m[j] <= Sum(m)
      {
        if j != k { assert (m - {k})[j] == m[j]; }
      }
    }
  }

  lemma {:induction false} SumOfZeros(m: map<Key, real>)
    requires forall k | k in m :: m[k] == 0.0
    ensures Sum(m) == 0.0
    decreases |m|
  {
    if k :| k in m {
      SumTakesOut(m, k);
      SumOfZeros(m - {k});
    }
  }

  /** The part of a sum that matters: entries outside `p` are zero. */
  lemma {:induction false} SumOverPart(m: map<Key, real>, p: map<Key, real>)
    requires p.Keys <= m.Keys && forall k | k in m :: m[k] == if k in p then p[k] else 0.0
    ensures Sum(m) == Sum(p)
    decreases |m|
  {
    if k :| k in m {
      SumTakesOut(m, k);
      if k in p {
        SumTakesOut(p, k);
      } else {
        assert p - {k} == p;
      }
      SumOverPart(m - {k}, p - {k});
    }
  }

  // ---------------------------------------------------------------- sums of sums

  ghost function Row(f: (Key, Key) -> real, i: Key, vs: set<Key>): map<Key, real> {
    map j | j in vs :: f(i, j)
  }

  ghost function Column(f: (Key, Key) -> real, us: set<Key>, j: Key): map<Key, real> {
    map i | i in us :: f(i, j)
  }

  ghost function RowSums(f: (Key, Key) -> real, us: set<Key>, vs: set<Key>): map<Key, real> {
    map i | i in us :: Sum(Row(f, i, vs))
  }

  ghost function ColumnSums(f: (Key, Key) -> real, us: set<Key>, vs: set<Key>): map<Key, real> {
    map j | j in vs :: Sum(Column(f, us, j))
  }

  lemma ColumnsGrow(f: (Key, Key) -> real, us: set<Key>, i: Key, vs: set<Key>)
    requires i in us
    ensures Sum(ColumnSums(f, us, vs)) == Sum(Row(f, i, vs)) + Sum(ColumnSums(f, us - {i}, vs))
  {
    forall j | j in vs
      ensures ColumnSums(f, us, vs)[j] == Row(f, i, vs)[j] + ColumnSums(f, us - {i}, vs)[j]
    {
      SumTakesOut(Column(f, us, j), i);
      assert Column(f, us, j) - {i} == Column(f, us - {i}, j);
    }
    SumAdds(Row(f, i, vs), ColumnSums(f, us - {i}, vs), ColumnSums(f, us, vs));
  }

  /** A table of numbers adds up to the same by rows and by columns. */
  lemma {:induction false} RowsMeetColumns(f: (Key, Key) -> real, us: set<Key>, vs: set<Key>)
    ensures Sum(RowSums(f, us, vs)) == Sum(ColumnSums(f, us, vs))
    decreases |us|
  {
    if us == {} {
      forall j | j in vs
        ensures ColumnSums(f, us, vs)[j] == 0.0
      {
        assert Column(f, us, j) == map[];
      }
      SumOfZeros(ColumnSums(f, us, vs));
    } else {
      var i :| i in us;
      var rest := us - {i};
      RowsMeetColumns(f, rest, vs);
      SumTakesOut(RowSums(f, us, vs), i);
      assert RowSums(f, us, vs) - {i} == RowSums(f, rest, vs);
      ColumnsGrow(f, us, i, vs);
    }
  }
}
