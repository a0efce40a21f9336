/** An optional value, clamping, and sums over the rows of a table. */
module Sums {

  datatype Option<+T> = None | Some(value: T)

  /** PHP's `max(0, x)`. */
  function Clamp(x: int): int {
    if x < 0 then 0 else x
  }

  /** PHP's `max(low, min(x, high))`. */
  function Between(low: int, high: int, x: int): int {
    if x < low then low else if x > high then high else x
  }

  /** The distance of two numbers. */
  function Apart(x: int, y: int): nat {
    if x >= y then x - y else y - x
  }

  /** Clamping goes to the nearest number of the range, and leaves those in it alone. */
  lemma ClampsToTheNearest(low: int, high: int, x: int, y: int)
    requires low <= high
    ensures low <= Between(low, high, x) <= high
    ensures low <= y <= high ==> Apart(x, Between(low, high, x)) <= Apart(x, y)
    ensures 0 <= Clamp(x) && (0 <= y ==> Apart(x, Clamp(x)) <= Apart(x, y))
  {
  }

  ghost function Total<K, V>(m: map<K, V>, w: V -> int): int
    decreases |m|
  {
    if m == map[] then
      0
    else
      var k :| k in m;
      w(m[k]) + Total(m - {k}, w)
  }

  lemma {:induction false} TotalRemove<K, V>(m: map<K, V>, w: V -> int, k: K)
    requires k in m
    ensures Total(m, w) == w(m[k]) + Total(m - {k}, w)
    decreases |m|
  {
    var j :| j in m && Total(m, w) == w(m[j]) + Total(m - {j}, w);
    if j != k {
      TotalRemove(m - {j}, w, k);
      TotalRemove(m - {k}, w, j);
      assert m - {j} - {k} == m - {k} - {j};
    }
  }

  lemma TotalUpdate<K, V>(m: map<K, V>, w: V -> int, k: K, v: V)
    ensures Total(m[k := v], w) == Total(m, w) - (if k in m then w(m[k]) else 0) + w(v)
  {
    TotalRemove(m[k := v], w, k);
    if k in m {
      TotalRemove(m, w, k);
      assert m[k := v] - {k} == m - {k};
    } else {
      assert m[k := v] - {k} == m;
    }
  }

  lemma {:induction false} TotalNonNegative<K, V>(m: map<K, V>, w: V -> int)
    requires forall k :: k in m ==> w(m[k]) >= 0
    ensures Total(m, w) >= 0
    decreases |m|
  {
    if m != map[] {
      var k :| k in m && Total(m, w) == w(m[k]) + Total(m - {k}, w);
      TotalNonNegative(m - {k}, w);
    }
  }

  lemma TotalAtLeast<K, V>(m: map<K, V>, w: V -> int, k: K)
    requires k in m && forall j :: j in m ==> w(m[j]) >= 0
    ensures Total(m, w) >= w(m[k])
  {
    TotalRemove(m, w, k);
    TotalNonNegative(m - {k}, w);
  }

  lemma {:induction false} TotalSame<K, V>(m: map<K, V>, w: V -> int, w': V -> int)
    requires forall k :: k in m ==> w(m[k]) == w'(m[k])
    ensures Total(m, w) == Total(m, w')
    decreases |m|
  {
    if m != map[] {
      var k :| k in m;
      TotalRemove(m, w, k);
      TotalRemove(m, w', k);
      TotalSame(m - {k}, w, w');
    }
  }

  lemma {:induction false} TotalOfZeros<K, V>(m: map<K, V>, w: V -> int)
    requires forall k :: k in m ==> w(m[k]) == 0
    ensures Total(m, w) == 0
    decreases |m|
  {
    if m != map[] {
      var k :| k in m && Total(m, w) == w(m[k]) + Total(m - {k}, w);
      TotalOfZeros(m - {k}, w);
    }
  }
}
