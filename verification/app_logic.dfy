/**
  The payout table behind the Mini Cactpot helper's side panel
  (src/components/app_logic.rs): one row of statistics per line, and the
  rows ranked by average or by best payout.

  A `TableRow` keeps the integer parts of the source's row. The
  percentage column is the float 100 * maxCount / |payouts|; the model
  keeps `maxCount` itself and leaves the float out.
 */
module AppLogic {
  import opened Digits

  datatype TableRow = TableRow(index: nat, lineLabel: string, avg: nat, max: nat, maxCount: nat)

  /** The column the table is ranked by (`SortBy` in src/components/payout_table.rs). */
  datatype SortBy = Avg | Max

  function DigitChar(d: nat): (c: char)
    requires d <= 9
    ensures '0' <= c <= '9' && c as int - '0' as int == d
  {
    ('0' as int + d) as char
  }

  /**
    The name of line i: the three rows, the three columns and the two
    diagonals in the order the payout engine lists them; any other index
    has no name.
   */
  function Label(i: nat): (name: string)
    ensures i < 3 ==> name == "Row " + [DigitChar(i + 1)]
    ensures 3 <= i < 6 ==> name == "Col " + [DigitChar(i - 2)]
    ensures 6 <= i < 8 ==> name == "Diag " + [DigitChar(i - 5)]
    ensures 8 <= i <==> name == ""
  {
    match i
    case 0 => "Row 1"
    case 1 => "Row 2"
    case 2 => "Row 3"
    case 3 => "Col 1"
    case 4 => "Col 2"
    case 5 => "Col 3"
    case 6 => "Diag 1"
    case 7 => "Diag 2"
    case _ => ""
  }

  /** How many entries of `vals` equal m. */
  function CountOf(vals: seq<nat>, m: nat): (c: nat)
    ensures c <= |vals|
    ensures c > 0 <==> m in vals
  {
    if vals == [] then 0
    else
      assert forall x :: x in vals ==> x == vals[0] || x in vals[1..];
      (if vals[0] == m then 1 else 0) + CountOf(vals[1..], m)
  }

  /**
    The floor of the mean. The source divides in floating point; for an
    empty list the quotient is NaN, which the cast to `u32` turns into 0.
   */
  function Average(vals: seq<nat>): (avg: nat)
    ensures vals == [] ==> avg == 0
    ensures vals != [] ==> FloorMean(avg, Sum(vals), |vals|)
  {
    if vals == [] then 0
    else
      SumNonNegative(vals);
      Sum(vals) / |vals|
  }

  /** a is s / n rounded down. */
  predicate FloorMean(a: int, s: int, n: int) {
    a * n <= s < (a + 1) * n
  }

  lemma {:induction false} SumNonNegative(vals: seq<nat>)
    ensures Sum(vals) >= 0
  {
    if vals != [] {
      SumNonNegative(vals[1..]);
    }
  }

  /** No entry above m means a sum of at most |vals| * m. */
  lemma {:induction false} SumAtMost(vals: seq<nat>, m: nat)
    requires forall x :: x in vals ==> x <= m
    ensures Sum(vals) <= |vals| * m
  {
    if vals != [] {
      assert vals[0] in vals;
      assert forall x :: x in vals[1..] ==> x in vals;
      SumAtMost(vals[1..], m);
    }
  }

  /** The statistics of line i, from the payouts it can still reach. */
  function RowOf(i: nat, vals: seq<nat>): (row: TableRow)
    ensures row.index == i && row.lineLabel == Label(i)
  {
    var max := MaxOrZero(vals);
    TableRow(i, Label(i), Average(vals), max, CountOf(vals, max))
  }

  /** `prepare_rows`: one row per list of payouts, in the order given. */
  function PrepareRows(payouts: seq<seq<nat>>): (rows: seq<TableRow>)
    ensures |rows| == |payouts|
    ensures forall i :: 0 <= i < |rows| ==> rows[i].index == i && rows[i].lineLabel == Label(i)
    ensures forall i :: 0 <= i < |rows| ==> rows[i] == RowOf(i, payouts[i])
  {
    seq(|payouts|, i requires 0 <= i < |payouts| => RowOf(i, payouts[i]))
  }

  /** The best payout of a row is the largest of its payouts, 0 when there are none. */
  lemma RowMax(i: nat, vals: seq<nat>)
    ensures forall v :: v in vals ==> v <= RowOf(i, vals).max
    ensures vals == [] ==> RowOf(i, vals).max == 0
    ensures vals != [] ==> RowOf(i, vals).max in vals
  {
  }

  /** The average is the mean rounded down, and never above the best payout. */
  lemma RowAverage(i: nat, vals: seq<nat>)
    ensures vals == [] ==> RowOf(i, vals).avg == 0
    ensures vals != [] ==> FloorMean(RowOf(i, vals).avg, Sum(vals), |vals|)
    ensures RowOf(i, vals).avg <= RowOf(i, vals).max
  {
    AverageAtMostMax(vals);
  }

  lemma AverageAtMostMax(vals: seq<nat>)
    ensures Average(vals) <= MaxOrZero(vals)
  {
    if vals != [] {
      var a, m, n := Average(vals), MaxOrZero(vals), |vals|;
      SumAtMost(vals, m);
      assert a * n <= m * n;
      ProductCancel(a, m, n);
    }
  }

  lemma ProductCancel(a: nat, m: nat, n: nat)
    requires 0 < n && a * n <= m * n
    ensures a <= m
  {
  }

  /** A row with payouts counts its best payout at least once and at most once per entry. */
  lemma RowMaxCount(i: nat, vals: seq<nat>)
    ensures vals == [] ==> RowOf(i, vals).maxCount == 0
    ensures vals != [] ==> 1 <= RowOf(i, vals).maxCount <= |vals|
    ensures RowOf(i, vals).maxCount == CountOf(vals, RowOf(i, vals).max)
  {
  }

  // ---------------------------------------------------------------------
  // `sort_rows`

  function Key(row: TableRow, order: SortBy): nat {
    match order
    case Avg => row.avg
    case Max => row.max
  }

  /** Ranked from the highest key down. */
  predicate NonIncreasing(rows: seq<TableRow>, order: SortBy) {
    forall i, j :: 0 <= i < j < |rows| ==> Key(rows[j], order) <= Key(rows[i], order)
  }

  /** The rows whose key is v, in their order in `rows`. */
  function WithKey(rows: seq<TableRow>, order: SortBy, v: nat): (r: seq<TableRow>)
    ensures |r| <= |rows|
  {
    if rows == [] then []
    else (if Key(rows[0], order) == v then [rows[0]] else []) + WithKey(rows[1..], order, v)
  }

  lemma {:induction false} WithKeyConcat(a: seq<TableRow>, b: seq<TableRow>, order: SortBy, v: nat)
    ensures WithKey(a + b, order, v) == WithKey(a, order, v) + WithKey(b, order, v)
  {
    if a == [] {
      assert a + b == b;
    } else {
      var ab := a + b;
      assert ab[0] == a[0] && ab[1..] == a[1..] + b;
      WithKeyConcat(a[1..], b, order, v);
      var head := if Key(a[0], order) == v then [a[0]] else [];
      assert WithKey(ab, order, v) == head + (WithKey(a[1..], order, v) + WithKey(b, order, v));
      assert WithKey(a, order, v) == head + WithKey(a[1..], order, v);
    }
  }

  lemma {:induction false} WithKeyNone(rows: seq<TableRow>, order: SortBy, v: nat)
    requires forall i :: 0 <= i < |rows| ==> Key(rows[i], order) < v
    ensures WithKey(rows, order, v) == []
  {
    if rows != [] {
      WithKeyNone(rows[1..], order, v);
    }
  }

  /** The copies of x in `rows` are the copies of x among the rows sharing its key. */
  lemma {:induction false} WithKeyCount(rows: seq<TableRow>, order: SortBy, x: TableRow)
    ensures multiset(WithKey(rows, order, Key(x, order)))[x] == multiset(rows)[x]
  {
    if rows != [] {
      assert rows == [rows[0]] + rows[1..];
      WithKeyCount(rows[1..], order, x);
    }
  }

  /**
    Two row lists that agree on the rows of every key are permutations of
    each other: stability implies the sort loses and invents nothing.
   */
  lemma SameGroupsPermutation(a: seq<TableRow>, b: seq<TableRow>, order: SortBy)
    requires forall v :: WithKey(a, order, v) == WithKey(b, order, v)
    ensures multiset(a) == multiset(b)
  {
    forall x ensures multiset(a)[x] == multiset(b)[x] {
      WithKeyCount(a, order, x);
      WithKeyCount(b, order, x);
    }
  }

  /**
    `sort_rows`: the rows from the highest key down; `sort_by` is stable,
    so rows with equal keys keep their order.
   */
  method SortRows(rows: seq<TableRow>, order: SortBy) returns (sorted: seq<TableRow>)
    ensures NonIncreasing(sorted, order)
    ensures forall v :: WithKey(sorted, order, v) == WithKey(rows, order, v)
    ensures multiset(sorted) == multiset(rows)
  {
    sorted := [];
    for i := 0 to |rows|
      invariant NonIncreasing(sorted, order)
      invariant forall v :: WithKey(sorted, order, v) == WithKey(rows[..i], order, v)
    {
      assert rows[..i + 1] == rows[..i] + [rows[i]];
      forall v ensures WithKey(rows[..i + 1], order, v) == WithKey(rows[..i], order, v) + WithKey([rows[i]], order, v) {
        WithKeyConcat(rows[..i], [rows[i]], order, v);
      }
      sorted := InsertAfterEqual(sorted, rows[i], order);
    }
    assert rows[..|rows|] == rows;
    SameGroupsPermutation(sorted, rows, order);
  }

  /** Puts x after every row whose key is not below x's. */
  method InsertAfterEqual(r: seq<TableRow>, x: TableRow, order: SortBy) returns (r': seq<TableRow>)
    requires NonIncreasing(r, order)
    ensures NonIncreasing(r', order)
    ensures forall v :: WithKey(r', order, v) == WithKey(r, order, v) + WithKey([x], order, v)
  {
    var p := 0;
    while p < |r| && Key(x, order) <= Key(r[p], order)
      invariant 0 <= p <= |r|
      invariant forall q :: 0 <= q < p ==> Key(x, order) <= Key(r[q], order)
    {
      p := p + 1;
    }
    BelowAfter(r, p, x, order);
    r' := r[..p] + [x] + r[p..];
    InsertOrdered(r, p, x, order);
    InsertGroups(r, p, x, order);
  }

  /** Where the scan stops, every later row ranks strictly below x. */
  lemma BelowAfter(r: seq<TableRow>, p: nat, x: TableRow, order: SortBy)
    requires NonIncreasing(r, order) && p <= |r|
    requires p < |r| ==> Key(r[p], order) < Key(x, order)
    ensures forall q :: p <= q < |r| ==> Key(r[q], order) < Key(x, order)
  {
  }

  lemma InsertOrdered(r: seq<TableRow>, p: nat, x: TableRow, order: SortBy)
    requires NonIncreasing(r, order) && p <= |r|
    requires forall q :: 0 <= q < p ==> Key(x, order) <= Key(r[q], order)
    requires forall q :: p <= q < |r| ==> Key(r[q], order) < Key(x, order)
    ensures NonIncreasing(r[..p] + [x] + r[p..], order)
  {
    var s := r[..p] + [x] + r[p..];
    assert forall q :: 0 <= q < |s| ==> s[q] == if q < p then r[q] else if q == p then x else r[q - 1];
  }

  lemma InsertGroups(r: seq<TableRow>, p: nat, x: TableRow, order: SortBy)
    requires p <= |r|
    requires forall q :: p <= q < |r| ==> Key(r[q], order) < Key(x, order)
    ensures forall v :: WithKey(r[..p] + [x] + r[p..], order, v) == WithKey(r, order, v) + WithKey([x], order, v)
  {
    var front, back := r[..p], r[p..];
    assert r == front + back;
    assert forall q :: 0 <= q < |back| ==> Key(back[q], order) < Key(x, order) by {
      forall q | 0 <= q < |back| ensures Key(back[q], order) < Key(x, order) {
        assert back[q] == r[p + q];
      }
    }
    forall v ensures WithKey(front + [x] + back, order, v) == WithKey(front + back, order, v) + WithKey([x], order, v) {
      InsertGroup(front, back, x, order, v);
    }
  }

  lemma InsertGroup(front: seq<TableRow>, back: seq<TableRow>, x: TableRow, order: SortBy, v: nat)
    requires forall q :: 0 <= q < |back| ==> Key(back[q], order) < Key(x, order)
    ensures WithKey(front + [x] + back, order, v) == WithKey(front + back, order, v) + WithKey([x], order, v)
  {
    WithKeyConcat(front + [x], back, order, v);
    WithKeyConcat(front, [x], order, v);
    WithKeyConcat(front, back, order, v);
    if Key(x, order) == v {
      WithKeyNone(back, order, v);
      AppendEmpty(WithKey(front, order, v), WithKey([x], order, v), WithKey(back, order, v));
    } else {
      WithKeySingleOther(x, order, v);
      AppendEmpty(WithKey(front, order, v), WithKey(back, order, v), WithKey([x], order, v));
    }
  }

  lemma WithKeySingleOther(x: TableRow, order: SortBy, v: nat)
    requires Key(x, order) != v
    ensures WithKey([x], order, v) == []
  {
    assert [x][1..] == [];
  }

  lemma AppendEmpty<T>(f: seq<T>, m: seq<T>, b: seq<T>)
    requires b == []
    ensures f + m + b == f + m && f + b + m == f + m
  {
  }
}
