/** Small value types and finite sums shared by every component. */
module Base {

  datatype Option<+T> = None | Some(value: T)

  datatype Result<+T, +E> = Ok(value: T) | Err(error: E)

  /** Reading a Go map: a missing key reads as zero. */
  function Count<K>(m: map<K, int>, k: K): int {
    if k in m then m[k] else 0
  }

  /** The sum of all values of a finite map. */
  ghost function SumValues<K>(m: map<K, int>): int
    decreases |m.Keys|
  {
    if m.Keys == {} then 0
    else
      var k :| k in m.Keys;
      assert (m - {k}).Keys == m.Keys - {k};
      m[k] + SumValues(m - {k})
  }

  lemma {:induction false} SumRemove<K>(m: map<K, int>, k: K)
    requires k in m
    ensures SumValues(m) == m[k] + SumValues(m - {k})
    decreases |m.Keys|
  {
    var p :| p in m.Keys && SumValues(m) == m[p] + SumValues(m - {p});
    if p != k {
      assert (m - {p}).Keys == m.Keys - {p};
      assert (m - {k}).Keys == m.Keys - {k};
      SumRemove(m - {p}, k);
      SumRemove(m - {k}, p);
      assert (m - {p}) - {k} == (m - {k}) - {p};
    }
  }

  /** Writing one key moves the sum by the difference at that key. */
  lemma SumUpdate<K>(m: map<K, int>, k: K, v: int)
    ensures SumValues(m[k := v]) == SumValues(m) - Count(m, k) + v
  {
    SumRemove(m[k := v], k);
    if k in m {
      SumRemove(m, k);
      assert m[k := v] - {k} == m - {k};
    } else {
      assert m[k := v] - {k} == m;
    }
  }

  /** Two maps that differ by `d` at one key have sums that differ by `d`. */
  lemma SumShift<K>(m: map<K, int>, m': map<K, int>, k: K, d: int)
    requires m'.Keys == m.Keys + {k}
    requires forall i :: i in m' ==> m'[i] == Count(m, i) + if i == k then d else 0
    ensures SumValues(m') == SumValues(m) + d
  {
    SumUpdate(m, k, m'[k]);
    assert m' == m[k := m'[k]];
  }

  lemma {:induction false} SumNonNegative<K>(m: map<K, int>)
    requires forall k :: k in m ==> m[k] >= 0
    ensures SumValues(m) >= 0
    decreases |m.Keys|
  {
    if m.Keys != {} {
      var k :| k in m.Keys;
      assert (m - {k}).Keys == m.Keys - {k};
      SumRemove(m, k);
      SumNonNegative(m - {k});
    }
  }
}
