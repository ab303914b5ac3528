/** Sums of real-valued maps, with the update laws the portfolio arithmetic needs. */
module Sums {

  ghost function MapSum<K>(m: map<K, real>): real
    decreases |m|
  {
    if m == map[] then 0.0
    else
      var k :| k in m;
      assert |m - {k}| < |m| by { assert m == (m - {k})[k := m[k]]; }
      m[k] + MapSum(m - {k})
  }

  /** The sum does not depend on which entry is taken out first. */
  lemma {:induction false} TakeOut<K>(m: map<K, real>, k: K)
    requires k in m
    ensures MapSum(m) == m[k] + MapSum(m - {k})
    decreases |m|
  {
    var c :| c in m && MapSum(m) == m[c] + MapSum(m - {c});
    if c != k {
      assert m == (m - {c})[c := m[c]];
      assert m == (m - {k})[k := m[k]];
      TakeOut(m - {c}, k);
      TakeOut(m - {k}, c);
      assert m - {c} - {k} == m - {k} - {c};
    }
  }

  ghost function At<K>(m: map<K, real>, k: K): real {
    if k in m then m[k] else 0.0
  }

  /** Two maps that differ at one key at most differ in sum by that key's change. */
  lemma ChangeOne<K>(m: map<K, real>, m': map<K, real>, k: K)
    requires m - {k} == m' - {k}
    ensures MapSum(m') - At(m', k) == MapSum(m) - At(m, k)
  {
    if k in m {
      TakeOut(m, k);
    } else {
      assert m - {k} == m;
    }
    if k in m' {
      TakeOut(m', k);
    } else {
      assert m' - {k} == m';
    }
  }

  /** Entries that are zero can be added without changing the sum. */
  lemma {:induction false} PadWithZeros<K>(m: map<K, real>, padded: map<K, real>)
    requires m.Keys <= padded.Keys
    requires forall k :: k in m ==> padded[k] == m[k]
    requires forall k :: k in padded && k !in m ==> padded[k] == 0.0
    ensures MapSum(padded) == MapSum(m)
    decreases |padded|
  {
    if padded.Keys == m.Keys {
      assert padded == m;
    } else {
      var k :| k in padded && k !in m;
      TakeOut(padded, k);
      assert padded == (padded - {k})[k := padded[k]];
      PadWithZeros(m, padded - {k});
    }
  }

  lemma {:induction false} Monotone<K>(a: map<K, real>, b: map<K, real>)
    requires a.Keys == b.Keys
    requires forall k :: k in a ==> a[k] <= b[k]
    ensures MapSum(a) <= MapSum(b)
    decreases |a|
  {
    if a == map[] {
      assert b == map[];
    } else {
      var k :| k in a;
      TakeOut(a, k);
      TakeOut(b, k);
      assert a == (a - {k})[k := a[k]];
      Monotone(a - {k}, b - {k});
    }
  }

  function Scaling(factor: real): real -> real {
    (x: real) => factor * x
  }

  lemma Distributes(factor: real, x: real, y: real)
    ensures factor * (x + y) == factor * x + factor * y
  {
  }

  lemma ScaleOneMore(factor: real, x: real, rest: real, total: real, scaled: real, scaledRest: real, scaledTotal: real)
    requires total == x + rest && scaledTotal == scaled + scaledRest
    requires scaled == Scaling(factor)(x) && scaledRest == Scaling(factor)(rest)
    ensures scaledTotal == Scaling(factor)(total)
  {
    Distributes(factor, x, rest);
  }

  /** Scaling every entry scales the sum. */
  lemma {:induction false} Scaled<K>(a: map<K, real>, b: map<K, real>, factor: real)
    requires a.Keys == b.Keys
    requires forall k :: k in a ==> b[k] == Scaling(factor)(a[k])
    ensures MapSum(b) == Scaling(factor)(MapSum(a))
    decreases |a|
  {
    if a == map[] {
      assert b == map[];
    } else {
      var k :| k in a;
      TakeOut(a, k);
      TakeOut(b, k);
      assert a == (a - {k})[k := a[k]];
      Scaled(a - {k}, b - {k}, factor);
      ScaleOneMore(factor, a[k], MapSum(a - {k}), MapSum(a), b[k], MapSum(b - {k}), MapSum(b));
    }
  }

  lemma {:induction false} NonNegative<K>(m: map<K, real>)
    requires forall k :: k in m ==> m[k] >= 0.0
    ensures MapSum(m) >= 0.0
    decreases |m|
  {
    if m != map[] {
      var k :| k in m;
      TakeOut(m, k);
      assert m == (m - {k})[k := m[k]];
      NonNegative(m - {k});
    }
  }
}
