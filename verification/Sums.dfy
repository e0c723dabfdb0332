/** Exact sums over the values of a finite map, standing for `sum(d.values())`. */
module Sums {

  type Weights = map<string, real>

  /** What Python's `d.get(k, 0.0)` reads. */
  function Get(m: Weights, k: string): real {
    if k in m then m[k] else 0.0
  }

  ghost function MapSum(m: Weights): real {
    if m == map[] then 0.0 else
      var k :| k in m;
      m[k] + MapSum(m - {k})
  }

  ghost predicate NonNegative(m: Weights) {
    forall k :: k in m ==> m[k] >= 0.0
  }

  /** A weight vector: nothing negative, everything adding to one. */
  ghost predicate UnitVector(m: Weights) {
    NonNegative(m) && MapSum(m) == 1.0
  }

  lemma {:induction false} SumRemove(m: Weights, k: string)
    requires k in m
    ensures MapSum(m) == m[k] + MapSum(m - {k})
    decreases |m|
  {
    var c :| c in m && MapSum(m) == m[c] + MapSum(m - {c});
    if c != k {
      SumRemove(m - {c}, k);
      SumRemove(m - {k}, c);
      assert m - {c} - {k} == m - {k} - {c};
    }
  }

  lemma SumUpdate(m: Weights, k: string, v: real)
    ensures MapSum(m[k := v]) == MapSum(m) - Get(m, k) + v
  {
    SumRemove(m[k := v], k);
    assert m[k := v] - {k} == m - {k};
    if k in m {
      SumRemove(m, k);
    } else {
      assert m - {k} == m;
    }
  }

  lemma {:induction false} SumAdd(m: Weights, x: Weights, y: Weights)
    requires m.Keys == x.Keys == y.Keys
    requires forall k :: k in m ==> m[k] == x[k] + y[k]
    ensures MapSum(m) == MapSum(x) + MapSum(y)
    decreases |m|
  {
    if m == map[] {
      assert x == map[] && y == map[];
    } else {
      var k :| k in m;
      SumAdd(m - {k}, x - {k}, y - {k});
      SumRemove(m, k);
      SumRemove(x, k);
      SumRemove(y, k);
    }
  }

  /** `u` is `a` times `v`; named so that products stay out of quantifiers. */
  ghost predicate Scaled(u: real, a: real, v: real) {
    u == a * v
  }

  lemma ScaledSum(u: real, u': real, a: real, v: real, v': real)
    requires Scaled(u, a, v) && Scaled(u', a, v')
    ensures Scaled(u + u', a, v + v')
  {
    assert a * (v + v') == a * v + a * v';
  }

  lemma {:induction false} SumScale(m: Weights, a: real, x: Weights)
    requires m.Keys == x.Keys
    requires forall k :: k in m ==> Scaled(m[k], a, x[k])
    ensures Scaled(MapSum(m), a, MapSum(x))
    decreases |m|
  {
    if m == map[] {
      assert x == map[];
    } else {
      var k :| k in m;
      var m', x' := m - {k}, x - {k};
      assert forall j :: j in m' ==> Scaled(m'[j], a, x'[j]) by {
        forall j | j in m' ensures Scaled(m'[j], a, x'[j]) {
          assert Scaled(m[j], a, x[j]);
        }
      }
      SumScale(m', a, x');
      ScaledSum(m[k], MapSum(m'), a, x[k], MapSum(x'));
      assert MapSum(m) == m[k] + MapSum(m') by { SumRemove(m, k); }
      assert MapSum(x) == x[k] + MapSum(x') by { SumRemove(x, k); }
    }
  }

  lemma {:induction false} SumMonotone(x: Weights, y: Weights)
    requires x.Keys == y.Keys
    requires forall k :: k in x ==> x[k] <= y[k]
    ensures MapSum(x) <= MapSum(y)
    decreases |x|
  {
    if x != map[] {
      var k :| k in x;
      SumRemove(x, k);
      SumRemove(y, k);
      SumMonotone(x - {k}, y - {k});
    } else {
      assert y == map[];
    }
  }

  lemma {:induction false} SumZero(m: Weights)
    requires forall k :: k in m ==> m[k] == 0.0
    ensures MapSum(m) == 0.0
    decreases |m|
  {
    if m != map[] {
      var k :| k in m;
      SumRemove(m, k);
      SumZero(m - {k});
    }
  }

  lemma SumNonNegative(m: Weights)
    requires NonNegative(m)
    ensures MapSum(m) >= 0.0
    ensures forall k :: k in m ==> m[k] <= MapSum(m)
  {
    SumZero(map k | k in m :: 0.0);
    SumMonotone(map k | k in m :: 0.0, m);
    forall k | k in m ensures m[k] <= MapSum(m) {
      SumRemove(m, k);
      var m' := m - {k};
      SumZero(map j | j in m' :: 0.0);
      SumMonotone(map j | j in m' :: 0.0, m');
    }
  }

  /** Padding a map with zeros leaves its sum alone. */
  lemma {:induction false} SumPad(m: Weights, keys: set<string>)
    requires m.Keys <= keys
    ensures MapSum(map k | k in keys :: Get(m, k)) == MapSum(m)
    decreases keys - m.Keys
  {
    var padded := map k | k in keys :: Get(m, k);
    if keys == m.Keys {
      assert padded == m;
    } else {
      var k :| k in keys && k !in m.Keys;
      var m' := m[k := 0.0];
      assert MapSum(m') == MapSum(m) by { SumUpdate(m, k, 0.0); }
      assert keys - m'.Keys < keys - m.Keys by {
        assert k in keys - m.Keys && k !in keys - m'.Keys;
      }
      assert padded == map j | j in keys :: Get(m', j);
      SumPad(m', keys);
    }
  }

  /** The running total of a loop over the values, in whatever order the keys come. */
  method Total(m: Weights) returns (total: real)
    ensures total == MapSum(m)
  {
    var rest := m;
    total := 0.0;
    while rest != map[]
      invariant total + MapSum(rest) == MapSum(m)
      decreases |rest|
    {
      var k :| k in rest;
      SumRemove(rest, k);
      total := total + rest[k];
      rest := rest - {k};
    }
  }
}
