/** Sums over the values of a finite map, independent of iteration order. */
module Totals {

  ghost function Total<K(!new)>(m: map<K, real>): real {
    if m == map[] then 0.0
    else
      var k :| k in m;
      m[k] + Total(m - {k})
  }

  /** Any key may be taken out first. */
  lemma {:induction false} TotalRemove<K(!new)>(m: map<K, real>, k: K)
    requires k in m
    ensures Total(m) == m[k] + Total(m - {k})
    decreases |m|
  {
    var first :| first in m && Total(m) == m[first] + Total(m - {first});
    if first != k {
      TotalRemove(m - {first}, k);
      TotalRemove(m - {k}, first);
      assert m - {first} - {k} == m - {k} - {first};
    }
  }

  lemma TotalUpdate<K(!new)>(m: map<K, real>, k: K, v: real)
    ensures Total(m[k := v]) == v + Total(m - {k})
    ensures k in m ==> Total(m[k := v]) == Total(m) - m[k] + v
    ensures k !in m ==> Total(m[k := v]) == Total(m) + v
  {
    var updated := m[k := v];
    TotalRemove(updated, k);
    assert updated - {k} == m - {k};
    if k in m {
      TotalRemove(m, k);
    } else {
      assert m - {k} == m;
    }
  }

  /** Keys that carry zero do not contribute. */
  lemma {:induction false} TotalRestrict<K(!new)>(m: map<K, real>, keep: set<K>)
    requires forall k :: k in m && k !in keep ==> m[k] == 0.0
    ensures Total(m) == Total(map k | k in m && k in keep :: m[k])
    decreases |m|
  {
    var kept := map k | k in m && k in keep :: m[k];
    if m == map[] {
      assert kept == map[];
    } else {
      var k :| k in m;
      var rest := m - {k};
      var keptRest := map j | j in rest && j in keep :: rest[j];
      TotalRemove(m, k);
      TotalRestrict(rest, keep);
      if k in keep {
        TotalRemove(kept, k);
        assert kept - {k} == keptRest;
      } else {
        assert kept == keptRest;
      }
    }
  }

  lemma {:induction false} TotalSum<K(!new)>(a: map<K, real>, b: map<K, real>, c: map<K, real>)
    requires a.Keys == b.Keys == c.Keys
    requires forall k :: k in a ==> c[k] == a[k] + b[k]
    ensures Total(c) == Total(a) + Total(b)
    decreases |a|
  {
    if a != map[] {
      var k :| k in a;
      TotalRemove(a, k);
      TotalRemove(b, k);
      TotalRemove(c, k);
      TotalSum(a - {k}, b - {k}, c - {k});
    }
  }

  lemma {:induction false} TotalMonotone<K(!new)>(a: map<K, real>, b: map<K, real>)
    requires a.Keys == b.Keys
    requires forall k :: k in a ==> a[k] <= b[k]
    ensures Total(a) <= Total(b)
    decreases |a|
  {
    if a != map[] {
      var k :| k in a;
      TotalRemove(a, k);
      TotalRemove(b, k);
      TotalMonotone(a - {k}, b - {k});
    }
  }

  ghost predicate AdditiveAt(scale: real -> real, a: real, b: real) {
    scale(a + b) == scale(a) + scale(b)
  }

  ghost predicate Additive(scale: real -> real) {
    scale(0.0) == 0.0 && forall a, b {:trigger AdditiveAt(scale, a, b)} :: AdditiveAt(scale, a, b)
  }

  /** Rescaling every value rescales the sum. */
  lemma {:induction false} TotalScaled<K(!new)>(m: map<K, real>, scaled: map<K, real>, scale: real -> real)
    requires m.Keys == scaled.Keys && Additive(scale) && forall k :: k in m ==> scaled[k] == scale(m[k])
    ensures Total(scaled) == scale(Total(m))
    decreases |m|
  {
    if m == map[] {
      assert scaled == map[];
    } else {
      var k :| k in m;
      TotalRemove(m, k);
      TotalRemove(scaled, k);
      TotalScaled(m - {k}, scaled - {k}, scale);
      assert AdditiveAt(scale, m[k], Total(m - {k}));
    }
  }

  function Times(factor: real): real -> real {
    x => factor * x
  }

  lemma FactorAdditive(factor: real)
    ensures Additive(Times(factor))
  {
    var scale := Times(factor);
    forall a, b
      ensures AdditiveAt(scale, a, b)
    {
      Distribute(factor, a, b);
    }
  }

  lemma Distribute(factor: real, a: real, b: real)
    ensures factor * a + factor * b == factor * (a + b)
  {
  }

  /** A sum of values between 0 and 1. */
  lemma {:induction false} TotalOfFractions<K(!new)>(m: map<K, real>)
    requires forall k :: k in m ==> 0.0 <= m[k] <= 1.0
    ensures 0.0 <= Total(m) <= |m| as real
    decreases |m|
  {
    if m != map[] {
      var k :| k in m;
      TotalRemove(m, k);
      TotalOfFractions(m - {k});
      assert m.Keys == (m - {k}).Keys + {k};
    }
  }
}
