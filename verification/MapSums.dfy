/** Sums over the values of a finite map, and how they change with one key. */
module MapSums {

  ghost function Total<V>(m: map<string, V>, weight: V -> nat): nat {
    if m == map[] then 0
    else
      var k :| k in m;
      weight(m[k]) + Total(m - {k}, weight)
  }

  lemma {:induction false} TotalWithout<V>(m: map<string, V>, weight: V -> nat, key: string)
    requires key in m
    ensures Total(m, weight) == weight(m[key]) + Total(m - {key}, weight)
  {
    var k :| k in m && Total(m, weight) == weight(m[k]) + Total(m - {k}, weight);
    if k != key {
      TotalWithout(m - {k}, weight, key);
      TotalWithout(m - {key}, weight, k);
      assert m - {k} - {key} == m - {key} - {k};
    }
  }

  lemma TotalWith<V>(m: map<string, V>, weight: V -> nat, key: string, value: V)
    ensures Total(m[key := value], weight) == Total(m - {key}, weight) + weight(value)
  {
    TotalWithout(m[key := value], weight, key);
    assert m[key := value] - {key} == m - {key};
  }

  /** Changing a value without changing its weight keeps the total. */
  lemma TotalSameWeight<V>(m: map<string, V>, weight: V -> nat, key: string, value: V)
    requires key in m && weight(value) == weight(m[key])
    ensures Total(m[key := value], weight) == Total(m, weight)
  {
    TotalWith(m, weight, key, value);
    TotalWithout(m, weight, key);
  }

  lemma OneMore(n: nat, unit: nat)
    ensures (n + 1) * unit == n * unit + unit
  {
  }

  lemma MulMonotone(a: nat, b: nat, unit: nat)
    requires a <= b
    ensures a * unit <= b * unit
  {
    assert b * unit == a * unit + (b - a) * unit;
  }

  lemma QuotientBound(n: nat, unit: nat, limit: nat)
    requires 0 < unit && n * unit <= limit
    ensures n <= limit / unit
  {
    var q := limit / unit;
    assert limit < q * unit + unit;
    OneMore(q, unit);
    if q < n {
      MulMonotone(q + 1, n, unit);
    }
  }

  /** A map of which every value weighs at least `unit` weighs at least `unit` times its size. */
  lemma {:induction false} TotalAtLeast<V>(m: map<string, V>, weight: V -> nat, unit: nat)
    requires forall k :: k in m ==> weight(m[k]) >= unit
    ensures Total(m, weight) >= |m| * unit
  {
    if m != map[] {
      var k :| k in m;
      TotalWithout(m, weight, k);
      TotalAtLeast(m - {k}, weight, unit);
      OneMore(|m - {k}|, unit);
      assert |m| == |m - {k}| + 1;
    }
  }

  lemma {:induction false} TotalSubmap<V>(part: map<string, V>, all: map<string, V>, weight: V -> nat)
    requires forall k :: k in part ==> k in all && part[k] == all[k]
    ensures Total(part, weight) <= Total(all, weight)
    decreases |part|
  {
    if part != map[] {
      var k :| k in part;
      TotalWithout(part, weight, k);
      TotalWithout(all, weight, k);
      TotalSubmap(part - {k}, all - {k}, weight);
    }
  }

  /** A map that weighs at most as much at every key weighs at most as much altogether. */
  lemma {:induction false} TotalPointwise<U, V>(light: map<string, U>, lighter: U -> nat,
    heavy: map<string, V>, heavier: V -> nat)
    requires light.Keys == heavy.Keys && forall k :: k in light ==> lighter(light[k]) <= heavier(heavy[k])
    ensures Total(light, lighter) <= Total(heavy, heavier)
    decreases |light|
  {
    if light == map[] {
      assert heavy == map[];
    } else {
      var k :| k in light;
      TotalWithout(light, lighter, k);
      TotalWithout(heavy, heavier, k);
      TotalPointwise(light - {k}, lighter, heavy - {k}, heavier);
    }
  }
}
