/** Sums of the values of a map, for any addition whose order does not matter. */
module Totals {

  ghost predicate Commutes<V>(plus: (V, V) -> V, a: V, b: V) {
    plus(a, b) == plus(b, a)
  }

  ghost predicate Associates<V>(plus: (V, V) -> V, a: V, b: V, c: V) {
    plus(plus(a, b), c) == plus(a, plus(b, c))
  }

  ghost predicate Neutral<V>(plus: (V, V) -> V, zero: V, a: V) {
    plus(a, zero) == a
  }

  /** The laws are stated through predicates, so that they are used only where they are named. */
  ghost predicate Additive<V(!new)>(plus: (V, V) -> V, zero: V) {
    && (forall a, b :: Commutes(plus, a, b))
    && (forall a, b, c :: Associates(plus, a, b, c))
    && (forall a :: Neutral(plus, zero, a))
  }

  lemma {:induction false} Swap<V(!new)>(plus: (V, V) -> V, zero: V, a: V, b: V, c: V)
    requires Additive(plus, zero)
    ensures plus(a, plus(b, c)) == plus(b, plus(a, c))
  {
    assert Associates(plus, a, b, c) && Associates(plus, b, a, c) && Commutes(plus, a, b);
  }

  /** A missing entry reads as zero. */
  function Get<V>(m: map<string, V>, k: string, zero: V): V {
    if k in m then m[k] else zero
  }

  ghost function Total<V(!new)>(m: map<string, V>, plus: (V, V) -> V, zero: V): V {
    if m == map[] then zero
    else
      var k :| k in m;
      plus(m[k], Total(m - {k}, plus, zero))
  }

  /** Any entry may be taken first. */
  lemma {:induction false} TotalSplit<V(!new)>(m: map<string, V>, k: string, plus: (V, V) -> V, zero: V)
    requires Additive(plus, zero) && k in m
    ensures Total(m, plus, zero) == plus(m[k], Total(m - {k}, plus, zero))
    decreases |m|
  {
    var j :| j in m && Total(m, plus, zero) == plus(m[j], Total(m - {j}, plus, zero));
    if j != k {
      TotalSplit(m - {j}, k, plus, zero);
      TotalSplit(m - {k}, j, plus, zero);
      assert m - {j} - {k} == m - {k} - {j};
      Swap(plus, zero, m[j], m[k], Total(m - {j} - {k}, plus, zero));
    }
  }

  /** Adding to one entry, present or not, adds to the total. */
  lemma {:induction false} TotalAdd<V(!new)>(m: map<string, V>, k: string, v: V, plus: (V, V) -> V, zero: V)
    requires Additive(plus, zero)
    ensures Total(m[k := plus(Get(m, k, zero), v)], plus, zero) == plus(Total(m, plus, zero), v)
  {
    var m' := m[k := plus(Get(m, k, zero), v)];
    TotalSplit(m', k, plus, zero);
    assert m' - {k} == m - {k};
    var rest := Total(m - {k}, plus, zero);
    assert Commutes(plus, rest, v) && Commutes(plus, zero, v) && Neutral(plus, zero, v);
    if k in m {
      TotalSplit(m, k, plus, zero);
      assert Associates(plus, m[k], v, rest) && Associates(plus, m[k], rest, v);
    } else {
      assert m - {k} == m;
    }
  }

  /** The maps differ at most in entries of zero, which may be missing. */
  ghost predicate Same<V(!new)>(m: map<string, V>, m': map<string, V>, zero: V) {
    forall k :: Get(m, k, zero) == Get(m', k, zero)
  }

  lemma {:induction false} SameWithout<V(!new)>(m: map<string, V>, m': map<string, V>, k: string, zero: V)
    requires Same(m, m', zero)
    ensures Same(m - {k}, m' - {k}, zero) && Get(m, k, zero) == Get(m', k, zero)
  {
    forall j
      ensures Get(m - {k}, j, zero) == Get(m' - {k}, j, zero)
    {
      assert Get(m, j, zero) == Get(m', j, zero);
    }
  }

  /** Such maps have the same total. */
  lemma {:induction false} TotalSame<V(!new)>(m: map<string, V>, m': map<string, V>, plus: (V, V) -> V, zero: V)
    requires Additive(plus, zero) && Same(m, m', zero)
    ensures Total(m, plus, zero) == Total(m', plus, zero)
    decreases |m.Keys + m'.Keys|
  {
    var keys := m.Keys + m'.Keys;
    if keys == {} {
      assert m.Keys <= keys && m'.Keys <= keys;
      assert m == map[] && m' == map[];
    } else {
      var k :| k in keys;
      SameWithout(m, m', k, zero);
      SmallerWithout(m, m', k);
      TotalSame(m - {k}, m' - {k}, plus, zero);
      TotalWithout(m, k, plus, zero);
      TotalWithout(m', k, plus, zero);
    }
  }

  lemma {:induction false} SmallerWithout<V>(m: map<string, V>, m': map<string, V>, k: string)
    requires k in m.Keys + m'.Keys
    ensures |(m - {k}).Keys + (m' - {k}).Keys| < |m.Keys + m'.Keys|
  {
    assert (m - {k}).Keys + (m' - {k}).Keys == (m.Keys + m'.Keys) - {k};
  }

  /** Any entry may be taken first, present or not. */
  lemma {:induction false} TotalWithout<V(!new)>(m: map<string, V>, k: string, plus: (V, V) -> V, zero: V)
    requires Additive(plus, zero)
    ensures Total(m, plus, zero) == plus(Get(m, k, zero), Total(m - {k}, plus, zero))
  {
    if k in m {
      TotalSplit(m, k, plus, zero);
    } else {
      var total := Total(m, plus, zero);
      assert m - {k} == m && Commutes(plus, zero, total) && Neutral(plus, zero, total);
    }
  }
}
