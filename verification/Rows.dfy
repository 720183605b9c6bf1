/** Sums over the rows of a table, and what one upsert does to them. */
module Rows {

  datatype Option<+T> = None | Some(value: T)

  /** The value stored under a key, 0 when there is no row. */
  function Get<K>(rows: map<K, int>, k: K): int {
    if k in rows then rows[k] else 0
  }

  /** SELECT SUM(value): the sum over every row. */
  ghost function Sum<K(!new)>(rows: map<K, int>): int {
    if rows == map[] then 0
    else
      var k :| k in rows;
      rows[k] + Sum(rows - {k})
  }

  lemma {:induction false} SumWithout<K(!new)>(rows: map<K, int>, k: K)
    requires k in rows
    ensures Sum(rows) == rows[k] + Sum(rows - {k})
    decreases |rows|
  {
    var p :| p in rows && Sum(rows) == rows[p] + Sum(rows - {p});
    if p != k {
      SumWithout(rows - {p}, k);
      SumWithout(rows - {k}, p);
      assert rows - {p} - {k} == rows - {k} - {p};
    }
  }

  lemma SumUpdate<K(!new)>(rows: map<K, int>, k: K, v: int)
    ensures Sum(rows[k := v]) == Sum(rows) - Get(rows, k) + v
  {
    var after := rows[k := v];
    SumWithout(after, k);
    assert after - {k} == rows - {k};
    if k in rows {
      SumWithout(rows, k);
    } else {
      assert rows - {k} == rows;
    }
  }
}
