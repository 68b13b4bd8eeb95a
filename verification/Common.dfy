/** Vocabulary shared by every component: identifiers, time, options and sums over tables. */
module Common {

  /** Row identifiers, references and tokens: only their equality matters. */
  type Id = nat

  /** A point in time, in microseconds, the resolution of the database columns. */
  type Time = int

  const SECOND: int := 1_000_000
  const MINUTE: int := 60 * SECOND
  const HOUR: int := 60 * MINUTE
  const DAY: int := 24 * HOUR

  datatype Option<+T> = None | Some(value: T)

  function Max(x: int, y: int): int {
    if x < y then y else x
  }

  function Min(x: int, y: int): int {
    if x < y then x else y
  }

  /** The rows of a table without the row at `k`. */
  function Drop<K, V>(m: map<K, V>, k: K): map<K, V> {
    m - {k}
  }

  /** The sum of `f` over the rows of a table. */
  ghost function Sum<K(!new), V>(m: map<K, V>, f: (K, V) -> int): int
    decreases |m|
  {
    if m == map[] then 0 else
      var k :| k in m;
      DropShrinks(m, k);
      f(k, m[k]) + Sum(Drop(m, k), f)
  }

  lemma DropShrinks<K, V>(m: map<K, V>, k: K)
    requires k in m
    ensures |Drop(m, k)| < |m|
  {
    assert Drop(m, k).Keys == m.Keys - {k};
    assert |m.Keys| == |m| && |Drop(m, k).Keys| == |Drop(m, k)|;
  }

  /** Any row may be taken out of a sum first. */
  lemma {:induction false} SumSplit<K(!new), V>(m: map<K, V>, f: (K, V) -> int, k: K)
    requires k in m
    ensures Sum(m, f) == f(k, m[k]) + Sum(Drop(m, k), f)
    decreases |m|
  {
    var j :| j in m && Sum(m, f) == f(j, m[j]) + Sum(Drop(m, j), f);
    if j != k {
      DropShrinks(m, j);
      DropShrinks(m, k);
      SumSplit(Drop(m, j), f, k);
      SumSplit(Drop(m, k), f, j);
      assert Drop(Drop(m, j), k) == Drop(Drop(m, k), j);
    }
  }

  /** Writing a row changes a sum by the difference of that row's contributions. */
  lemma SumWrite<K(!new), V>(m: map<K, V>, f: (K, V) -> int, k: K, v: V)
    ensures Sum(m[k := v], f) == Sum(m, f) - (if k in m then f(k, m[k]) else 0) + f(k, v)
  {
    SumSplit(m[k := v], f, k);
    assert Drop(m[k := v], k) == Drop(m, k);
    if k in m {
      SumSplit(m, f, k);
    } else {
      assert Drop(m, k) == m;
    }
  }

  /** A sum of non-negative contributions is at least each of them. */
  lemma {:induction false} SumBounds<K(!new), V>(m: map<K, V>, f: (K, V) -> int)
    requires forall k :: k in m ==> f(k, m[k]) >= 0
    ensures Sum(m, f) >= 0
    ensures forall k :: k in m ==> f(k, m[k]) <= Sum(m, f)
    decreases |m|
  {
    if m != map[] {
      var j :| j in m && Sum(m, f) == f(j, m[j]) + Sum(Drop(m, j), f);
      DropShrinks(m, j);
      SumBounds(Drop(m, j), f);
      forall k | k in m ensures f(k, m[k]) <= Sum(m, f) {
        if k != j {
          assert k in Drop(m, j) && Drop(m, j)[k] == m[k];
        }
      }
    }
  }

  /** Sums agree when the contributions agree row by row. */
  lemma {:induction false} SumAgree<K(!new), V>(m: map<K, V>, f: (K, V) -> int, g: (K, V) -> int)
    requires forall k :: k in m ==> f(k, m[k]) == g(k, m[k])
    ensures Sum(m, f) == Sum(m, g)
    decreases |m|
  {
    if m != map[] {
      var j :| j in m && Sum(m, f) == f(j, m[j]) + Sum(Drop(m, j), f);
      SumSplit(m, g, j);
      DropShrinks(m, j);
      SumAgree(Drop(m, j), f, g);
    }
  }

  /** A sum of non-negative contributions is positive exactly when one of them is. */
  lemma {:induction false} SumPositiveIff<K(!new), V>(m: map<K, V>, f: (K, V) -> int)
    requires forall k :: k in m ==> f(k, m[k]) >= 0
    ensures 0 < Sum(m, f) <==> exists k :: k in m && 0 < f(k, m[k])
    decreases |m|
  {
    SumBounds(m, f);
    if m != map[] {
      var j :| j in m && Sum(m, f) == f(j, m[j]) + Sum(Drop(m, j), f);
      DropShrinks(m, j);
      SumPositiveIff(Drop(m, j), f);
      if 0 < Sum(Drop(m, j), f) {
        var k :| k in Drop(m, j) && 0 < f(k, Drop(m, j)[k]);
        assert k in m && 0 < f(k, m[k]);
      }
    }
  }

  /** Rows that contribute nothing may be left out of a sum. */
  lemma {:induction false} SumSkipsZeros<K(!new), V>(m: map<K, V>, n: map<K, V>, f: (K, V) -> int)
    requires n.Keys <= m.Keys && forall k :: k in n ==> n[k] == m[k]
    requires forall k :: k in m && k !in n ==> f(k, m[k]) == 0
    ensures Sum(m, f) == Sum(n, f)
    decreases |m|
  {
    if m == map[] {
      assert n == map[];
    } else {
      var j :| j in m;
      SumSplit(m, f, j);
      DropShrinks(m, j);
      SumSkipsZeros(Drop(m, j), Drop(n, j), f);
      if j in n {
        SumSplit(n, f, j);
      } else {
        assert Drop(n, j) == n;
      }
    }
  }
}
