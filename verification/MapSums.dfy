/** Sums of a weight over the rows of a table. */
module MapSums {

  ghost function Sum<K, V>(rows: map<K, V>, weight: V -> int): int
    decreases rows.Keys
  {
    if rows.Keys == {} then 0
    else
      var k :| k in rows;
      weight(rows[k]) + Sum(rows - {k}, weight)
  }

  /** Any row may be taken out first. */
  lemma {:induction false} SumSplit<K, V>(rows: map<K, V>, weight: V -> int, k: K)
    requires k in rows
    ensures Sum(rows, weight) == weight(rows[k]) + Sum(rows - {k}, weight)
    decreases rows.Keys
  {
    var first :| first in rows && Sum(rows, weight) == weight(rows[first]) + Sum(rows - {first}, weight);
    if first != k {
      SumSplit(rows - {first}, weight, k);
      SumSplit(rows - {k}, weight, first);
      assert rows - {first} - {k} == rows - {k} - {first};
    }
  }

  /** Inserting or replacing one row changes the sum by that row alone. */
  lemma SumUpdate<K, V>(rows: map<K, V>, weight: V -> int, k: K, row: V)
    ensures Sum(rows[k := row], weight) == Sum(rows, weight) - (if k in rows then weight(rows[k]) else 0) + weight(row)
  {
    var updated := rows[k := row];
    SumSplit(updated, weight, k);
    if k in rows {
      SumSplit(rows, weight, k);
      assert updated - {k} == rows - {k};
    } else {
      assert updated - {k} == rows;
    }
  }

  /** A pointwise smaller weight has a smaller sum. */
  lemma {:induction false} SumMonotone<K, V>(rows: map<K, V>, smaller: V -> int, larger: V -> int)
    requires forall j | j in rows :: smaller(rows[j]) <= larger(rows[j])
    ensures Sum(rows, smaller) <= Sum(rows, larger)
    decreases rows.Keys
  {
    if rows.Keys != {} {
      var k :| k in rows;
      SumSplit(rows, smaller, k);
      SumSplit(rows, larger, k);
      SumMonotone(rows - {k}, smaller, larger);
    }
  }

  /** Weights that agree on every row have the same sum. */
  lemma SumSame<K, V>(rows: map<K, V>, one: V -> int, other: V -> int)
    requires forall j | j in rows :: one(rows[j]) == other(rows[j])
    ensures Sum(rows, one) == Sum(rows, other)
  {
    SumMonotone(rows, one, other);
    SumMonotone(rows, other, one);
  }

  /** A sum of non-negative weights is non-negative. */
  lemma {:induction false} SumNonNegative<K, V>(rows: map<K, V>, weight: V -> int)
    requires forall j | j in rows :: 0 <= weight(rows[j])
    ensures 0 <= Sum(rows, weight)
    decreases rows.Keys
  {
    if rows.Keys != {} {
      var k :| k in rows;
      SumSplit(rows, weight, k);
      SumNonNegative(rows - {k}, weight);
    }
  }

  /** A sum of non-negative weights is at least each of its terms. */
  lemma SumAtLeast<K, V>(rows: map<K, V>, weight: V -> int, k: K)
    requires k in rows
    requires forall j | j in rows :: 0 <= weight(rows[j])
    ensures weight(rows[k]) <= Sum(rows, weight)
  {
    SumSplit(rows, weight, k);
    SumNonNegative(rows - {k}, weight);
  }

  /** Weights at most a bound sum to at most the bound times the number of rows. */
  lemma {:induction false} SumAtMost<K, V>(rows: map<K, V>, weight: V -> int, bound: int)
    requires forall j | j in rows :: weight(rows[j]) <= bound
    ensures Sum(rows, weight) <= bound * |rows|
    decreases rows.Keys
  {
    if rows.Keys != {} {
      var k :| k in rows;
      SumSplit(rows, weight, k);
      SumAtMost(rows - {k}, weight, bound);
      SizeWithout(rows, k);
      Distribute(bound, |rows - {k}|);
    }
  }

  lemma Distribute(bound: int, n: int)
    ensures bound * (n + 1) == bound * n + bound
  {
  }

  lemma SizeWithout<K, V>(rows: map<K, V>, k: K)
    requires k in rows
    ensures |rows - {k}| == |rows| - 1
  {
    assert (rows - {k}).Keys == rows.Keys - {k};
  }
}
