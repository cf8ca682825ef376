/** Column-major grid arithmetic.
    With `limit` rows per column, item `i` sits in column `i / limit` at row
    `i % limit`; column `c` holds the items `c * limit .. min((c + 1) * limit, n) - 1`,
    and only the last column may be shorter than `limit`. */
module Grid {

  /** The column that holds item `i`. */
  function ColumnOf(i: nat, limit: nat): (c: nat)
    requires limit > 0
    ensures c * limit <= i < c * limit + limit
  {
    i / limit
  }

  /** The row (within its column) that holds item `i`. */
  function RowOf(i: nat, limit: nat): (r: nat)
    requires limit > 0
    ensures r < limit
    ensures i == ColumnOf(i, limit) * limit + r
  {
    i % limit
  }

  /** Index of the first item of column `c`. */
  function ColumnStart(c: nat, limit: nat): nat
  {
    c * limit
  }

  /** Number of columns needed for `n` items: the ceiling of `n / limit`. */
  function ColumnCount(n: nat, limit: nat): (t: nat)
    requires limit > 0
    ensures n <= t * limit
    ensures t == 0 || (t - 1) * limit < n
  {
    (n + limit - 1) / limit
  }

  /** Index of the last item of column `c`. */
  function ColumnLast(c: nat, limit: nat, n: nat): (last: nat)
    requires limit > 0
    requires c < ColumnCount(n, limit)
    ensures ColumnStart(c, limit) <= last < n
    ensures last < ColumnStart(c, limit) + limit
    // every column except the last is full
    ensures c + 1 < ColumnCount(n, limit) ==> last == ColumnStart(c, limit) + limit - 1
    // the last column ends with the last item
    ensures c + 1 == ColumnCount(n, limit) ==> last == n - 1
  {
    ColumnCountBound(n, limit, c);
    ColumnCountBound(n, limit, c + 1);
    Min(ColumnStart(c, limit) + limit, n) - 1
  }

  function Min(a: int, b: int): int
  {
    if a <= b then a else b
  }

  /** `c` is one of the `ColumnCount(n, limit)` columns exactly when it starts before item `n`. */
  lemma ColumnCountBound(n: nat, limit: nat, c: nat)
    requires limit > 0
    ensures c < ColumnCount(n, limit) <==> c * limit < n
  {
  }

  /** The multiples of `k` are at least `k` apart. */
  lemma MulStep(a: nat, b: nat, k: nat)
    requires a < b
    ensures a * k + k <= b * k
  {
    assert b * k == a * k + k + (b - a - 1) * k;
  }

  /** Partition: every item belongs to exactly one column, the one whose
      start..last range contains it, and that column exists. */
  lemma Partition(i: nat, c: nat, limit: nat, n: nat)
    requires limit > 0
    requires i < n
    ensures ColumnOf(i, limit) < ColumnCount(n, limit)
    ensures c < ColumnCount(n, limit) ==>
              (ColumnOf(i, limit) == c <==> ColumnStart(c, limit) <= i <= ColumnLast(c, limit, n))
  {
    var k := ColumnOf(i, limit);
    ColumnCountBound(n, limit, k);
    if c < ColumnCount(n, limit) {
      if c < k {
        MulStep(c, k, limit);
        assert ColumnLast(c, limit, n) < i;
      } else if k < c {
        MulStep(k, c, limit);
        assert i < ColumnStart(c, limit);
      }
    }
  }

  /** The item at column `c`, row `r` is item `c * limit + r`. */
  lemma Position(c: nat, r: nat, limit: nat)
    requires limit > 0
    requires r < limit
    ensures ColumnOf(c * limit + r, limit) == c
    ensures RowOf(c * limit + r, limit) == r
  {
    var i := c * limit + r;
    var k := ColumnOf(i, limit);
    if k < c {
      MulStep(k, c, limit);
    } else if c < k {
      MulStep(c, k, limit);
    }
  }
}
