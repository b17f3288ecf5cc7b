/** Totals of a table's rows. */
module Totals {
  /** What a row with a given key contributes to a total. */
  type Weight<!K, !V> = (K, V) -> int

  /** The sum, over the rows of a table, of what each row contributes. */
  ghost function Total<K, V>(rows: map<K, V>, weight: Weight<K, V>): int {
    if rows == map[] then 0
    else
      var k :| k in rows;
      weight(k, rows[k]) + Total(rows - {k}, weight)
  }

  /** The total does not depend on the order in which the rows are summed. */
  lemma {:induction false} TotalSplit<K, V>(rows: map<K, V>, weight: Weight<K, V>, k: K)
    requires k in rows
    ensures Total(rows, weight) == weight(k, rows[k]) + Total(rows - {k}, weight)
    decreases |rows|
  {
    var j :| j in rows && Total(rows, weight) == weight(j, rows[j]) + Total(rows - {j}, weight);
    if j != k {
      assert rows - {j} - {k} == rows - {k} - {j};
      TotalSplit(rows - {j}, weight, k);
      TotalSplit(rows - {k}, weight, j);
    }
  }

  /** Rows that contribute the same have the same total. */
  lemma {:induction false} TotalCongruence<K, V, W>(rows: map<K, V>, f: Weight<K, V>, rows': map<K, W>, g: Weight<K, W>)
    requires rows.Keys == rows'.Keys
    requires forall k :: k in rows ==> f(k, rows[k]) == g(k, rows'[k])
    ensures Total(rows, f) == Total(rows', g)
    decreases |rows|
  {
    if rows == map[] {
      assert rows' == map[];
    } else {
      var k :| k in rows;
      TotalSplit(rows, f, k);
      TotalSplit(rows', g, k);
      TotalCongruence(rows - {k}, f, rows' - {k}, g);
    }
  }

  /** When only row k is inserted or changed, the total moves by that row's change alone. */
  lemma {:induction false} TotalChange<K, V>(rows: map<K, V>, f: Weight<K, V>, rows': map<K, V>, g: Weight<K, V>, k: K)
    requires rows'.Keys == rows.Keys + {k}
    requires forall j :: j in rows && j != k ==> f(j, rows[j]) == g(j, rows'[j])
    ensures Total(rows', g) - g(k, rows'[k]) == if k in rows then Total(rows, f) - f(k, rows[k]) else Total(rows, f)
  {
    TotalSplit(rows', g, k);
    TotalCongruence(rows - {k}, f, rows' - {k}, g);
    if k in rows {
      TotalSplit(rows, f, k);
    } else {
      assert rows - {k} == rows;
    }
  }

  /** A weight that is the sum of two others has the sum of their totals. */
  lemma {:induction false} TotalSum<K, V>(rows: map<K, V>, f: Weight<K, V>, g: Weight<K, V>, h: Weight<K, V>)
    requires forall k :: k in rows ==> h(k, rows[k]) == f(k, rows[k]) + g(k, rows[k])
    ensures Total(rows, h) == Total(rows, f) + Total(rows, g)
    decreases |rows|
  {
    if rows != map[] {
      var k :| k in rows;
      TotalSplit(rows, f, k);
      TotalSplit(rows, g, k);
      TotalSplit(rows, h, k);
      TotalSum(rows - {k}, f, g, h);
    }
  }

  /** A total of non-negative contributions is non-negative. */
  lemma {:induction false} TotalNonNegative<K, V>(rows: map<K, V>, f: Weight<K, V>)
    requires forall k :: k in rows ==> f(k, rows[k]) >= 0
    ensures Total(rows, f) >= 0
    decreases |rows|
  {
    if rows != map[] {
      var k :| k in rows;
      TotalSplit(rows, f, k);
      TotalNonNegative(rows - {k}, f);
    }
  }

  /** When no row contributes, the total is zero. */
  lemma {:induction false} TotalOfZeros<K, V>(rows: map<K, V>, f: Weight<K, V>)
    requires forall k :: k in rows ==> f(k, rows[k]) == 0
    ensures Total(rows, f) == 0
    decreases |rows|
  {
    if rows != map[] {
      var k :| k in rows;
      TotalSplit(rows, f, k);
      TotalOfZeros(rows - {k}, f);
    }
  }

  /** A total of non-negative contributions is zero exactly when every contribution is. */
  lemma {:induction false} TotalIsZero<K, V>(rows: map<K, V>, f: Weight<K, V>)
    requires forall k :: k in rows ==> f(k, rows[k]) >= 0
    ensures Total(rows, f) == 0 <==> forall k :: k in rows ==> f(k, rows[k]) == 0
  {
    if Total(rows, f) == 0 {
      forall k | k in rows ensures f(k, rows[k]) == 0 {
        TotalSplit(rows, f, k);
        TotalNonNegative(rows - {k}, f);
      }
    } else if forall k :: k in rows ==> f(k, rows[k]) == 0 {
      TotalOfZeros(rows, f);
    }
  }

  /** When every row that contributes is matched with a row of its own that contributes the same, the total is at most
      the other table's. */
  lemma {:induction false} TotalInjects<K, V, J, W>(
    rows: map<K, V>, f: Weight<K, V>, others: map<J, W>, g: Weight<J, W>, partner: map<K, J>)
    requires forall k :: k in rows && f(k, rows[k]) != 0 ==>
      k in partner && partner[k] in others && g(partner[k], others[partner[k]]) == f(k, rows[k])
    requires forall j, k :: (j in rows && k in rows && f(j, rows[j]) != 0 && f(k, rows[k]) != 0
        && j in partner && k in partner && partner[j] == partner[k]) ==> j == k
    requires forall j :: j in others ==> g(j, others[j]) >= 0
    ensures Total(rows, f) <= Total(others, g)
    decreases |rows|
  {
    if rows == map[] {
      TotalNonNegative(others, g);
    } else {
      var k :| k in rows;
      TotalSplit(rows, f, k);
      if f(k, rows[k]) == 0 {
        TotalInjects(rows - {k}, f, others, g, partner);
      } else {
        TotalSplit(others, g, partner[k]);
        TotalInjects(rows - {k}, f, others - {partner[k]}, g, partner);
      }
    }
  }

  /** Further rows that contribute nothing leave the total as it is. */
  lemma {:induction false} TotalExtends<K, V>(rows: map<K, V>, f: Weight<K, V>, more: map<K, V>, g: Weight<K, V>)
    requires rows.Keys <= more.Keys
    requires forall k :: k in rows ==> g(k, more[k]) == f(k, rows[k])
    requires forall k :: k in more && k !in rows ==> g(k, more[k]) == 0
    ensures Total(more, g) == Total(rows, f)
    decreases |more|
  {
    if more == map[] {
      assert rows == map[];
    } else {
      var k :| k in more;
      TotalSplit(more, g, k);
      if k in rows {
        TotalSplit(rows, f, k);
        TotalExtends(rows - {k}, f, more - {k}, g);
      } else {
        TotalExtends(rows, f, more - {k}, g);
      }
    }
  }
}
