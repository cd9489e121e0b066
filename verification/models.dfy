/**
  The grid of the older engine (src/models.rs): line extraction, the lines
  through a cell, `remaining` and `max_value`, the best payout key that
  `possible` reports over the lines through a cell.

  As written, `max_value` hands `possible` the digits already placed
  (`remaining()` collects the filled cells), not the digits still
  available. `MaxValue` models that; `BestPayout` is the same computation
  over the unused digits, related to the other engine's line sums.
 */
module Models {
  import opened Digits
  import opened Enumeration
  import Logic
  import Solver

  /** `Grid`: the nine cells row by row; a `Number` is a `Digit`. */
  datatype Grid = Grid(numbers: Board)

  /** `row(index)`: the cells 3i, 3i+1 and 3i+2. */
  function Row(g: Grid, index: nat): (row: seq<Cell>)
    requires index < Logic.GridSize
    ensures row == Logic.Cells(g.numbers, Logic.Lines[index])
  {
    Logic.LinesShape();
    var start := index * 3;
    [g.numbers[start], g.numbers[start + 1], g.numbers[start + 2]]
  }

  /** `column(index)`: the cells i, i+3 and i+6. */
  function Column(g: Grid, index: nat): (column: seq<Cell>)
    requires index < Logic.GridSize
    ensures column == Logic.Cells(g.numbers, Logic.Lines[Logic.GridSize + index])
  {
    Logic.LinesShape();
    [g.numbers[index], g.numbers[index + 3], g.numbers[index + 6]]
  }

  /** `slash`: the diagonal from the top-right corner, cells 2, 4 and 6. */
  function Slash(g: Grid): (diagonal: seq<Cell>)
    ensures diagonal == Logic.Cells(g.numbers, Logic.Lines[7])
  {
    Logic.LinesShape();
    [g.numbers[2], g.numbers[4], g.numbers[6]]
  }

  /** `backslash`: the diagonal from the top-left corner, cells 0, 4 and 8. */
  function Backslash(g: Grid): (diagonal: seq<Cell>)
    ensures diagonal == Logic.Cells(g.numbers, Logic.Lines[6])
  {
    Logic.LinesShape();
    [g.numbers[0], g.numbers[4], g.numbers[8]]
  }

  /** `rows(index)`: the lines through a cell, row first, then column, then diagonals. */
  function Rows(g: Grid, index: nat): seq<seq<Cell>>
    requires index < NumCells
  {
    match index
    case 0 => [Row(g, 0), Column(g, 0), Backslash(g)]
    case 1 => [Row(g, 0), Column(g, 1)]
    case 2 => [Row(g, 0), Column(g, 2), Slash(g)]
    case 3 => [Row(g, 1), Column(g, 0)]
    case 4 => [Row(g, 1), Column(g, 1), Slash(g), Backslash(g)]
    case 5 => [Row(g, 1), Column(g, 2)]
    case 6 => [Row(g, 2), Column(g, 0), Slash(g)]
    case 7 => [Row(g, 2), Column(g, 1)]
    case 8 => [Row(g, 2), Column(g, 2), Backslash(g)]
  }

  /** The index in `Logic.Lines` of the k-th line `Rows(g, index)` lists. */
  function RowLine(index: nat, k: nat): nat {
    if k == 0 then index / 3
    else if k == 1 then 3 + index % 3
    else if k == 2 && (index == 0 || index == 8) then 6
    else if k == 2 then 7
    else 6
  }

  /**
    `rows(index)` lists the lines through the cell, each once: three for a
    corner, two for an edge cell, four for the centre.
   */
  lemma RowsThrough(g: Grid, index: nat)
    requires index < NumCells
    ensures |Rows(g, index)| == if index == 4 then 4 else if index % 2 == 0 then 3 else 2
    ensures forall k :: 0 <= k < |Rows(g, index)| ==>
      RowLine(index, k) < |Logic.Lines| && index in Logic.Lines[RowLine(index, k)] &&
      Rows(g, index)[k] == Logic.Cells(g.numbers, Logic.Lines[RowLine(index, k)])
    ensures forall i :: 0 <= i < |Logic.Lines| && index in Logic.Lines[i] ==>
      exists k :: 0 <= k < |Rows(g, index)| && RowLine(index, k) == i
    ensures forall k, k' :: 0 <= k < k' < |Rows(g, index)| ==> RowLine(index, k) != RowLine(index, k')
  {
    RowsCount(g, index);
    forall k | 0 <= k < |Rows(g, index)|
      ensures RowLine(index, k) < |Logic.Lines| && index in Logic.Lines[RowLine(index, k)]
      ensures Rows(g, index)[k] == Logic.Cells(g.numbers, Logic.Lines[RowLine(index, k)])
    {
      RowsEntry(g, index, k);
    }
    forall i | 0 <= i < |Logic.Lines| && index in Logic.Lines[i]
      ensures exists k :: 0 <= k < |Rows(g, index)| && RowLine(index, k) == i
    {
      LineThrough(index, i);
    }
  }

  lemma RowsCount(g: Grid, index: nat)
    requires index < NumCells
    ensures |Rows(g, index)| == if index == 4 then 4 else if index % 2 == 0 then 3 else 2
  {
  }

  lemma RowsEntry(g: Grid, index: nat, k: nat)
    requires index < NumCells && k < |Rows(g, index)|
    ensures RowLine(index, k) < |Logic.Lines| && index in Logic.Lines[RowLine(index, k)]
    ensures Rows(g, index)[k] == Logic.Cells(g.numbers, Logic.Lines[RowLine(index, k)])
  {
    Logic.LinesShape();
  }

  /** Which of the eight lines pass through a cell, and where `Rows` lists each. */
  lemma LineThrough(index: nat, i: nat)
    requires index < NumCells && i < |Logic.Lines| && index in Logic.Lines[i]
    ensures i < 3 ==> RowLine(index, 0) == i
    ensures 3 <= i < 6 ==> RowLine(index, 1) == i
    ensures i == 6 ==> index % 4 == 0 && RowLine(index, if index == 4 then 3 else 2) == i
    ensures i == 7 ==> index % 2 == 0 && 0 < index < 8 && RowLine(index, 2) == i
  {
    Logic.LinesShape();
  }

  /** `remaining()`: the digits placed on the grid, in cell order, not the digits left to place. */
  function Remaining(g: Grid): (placed: seq<Digit>)
    ensures forall d: Digit :: d in placed <==> Some(d) in g.numbers
    ensures forall d: Digit :: d in placed <==> d !in Logic.Unused(g.numbers)
  {
    Logic.UnusedSpec(g.numbers);
    Filled(g.numbers)
  }

  /** `keys().max()`: the largest key of a count map, `None` for an empty map. */
  function MaxKey(m: map<nat, nat>): (r: Option<nat>)
    ensures r.None? <==> m.Keys == {}
    ensures r.Some? ==> r.value in m && forall p :: p in m ==> p <= r.value
  {
    if m.Keys == {} then None
    else
      SetHasMax(m.Keys);
      var top :| top in m && forall p :: p in m ==> p <= top;
      Some(top)
  }

  lemma SetHasMax(s: set<nat>)
    requires s != {}
    ensures exists top :: top in s && forall p :: p in s ==> p <= top
  {
    var top := SetMax(s);
  }

  lemma {:induction false} SetMax(s: set<nat>) returns (top: nat)
    requires s != {}
    ensures top in s && forall p :: p in s ==> p <= top
    decreases |s|
  {
    var x :| x in s;
    if s - {x} == {} {
      top := x;
      forall p | p in s ensures p <= x {
        assert p !in s - {x};
      }
    } else {
      var below := SetMax(s - {x});
      top := if x > below then x else below;
      forall p | p in s ensures p <= top {
        if p != x {
          assert p in s - {x};
        }
      }
    }
  }

  /** `possible` completes every listed line without reaching `unreachable!`. */
  ghost predicate RowsComplete(rows: seq<seq<Cell>>, rem: seq<Digit>) {
    forall k :: 0 <= k < |rows| ==> |Filled(rows[k])| <= 3 && Solver.Completes(Filled(rows[k]), rem)
  }

  /** `possible(row, &remaining)` for each line. */
  function LineCounts(rows: seq<seq<Cell>>, rem: seq<Digit>): (ms: seq<map<nat, nat>>)
    requires RowsComplete(rows, rem)
    ensures |ms| == |rows|
    ensures forall k :: 0 <= k < |rows| ==> ms[k] == Solver.Tally(Filled(rows[k]), rem)
  {
    seq(|rows|, k requires 0 <= k < |rows| => Solver.Tally(Filled(rows[k]), rem))
  }

  /**
    The `filter_map` of `max_value` over the first n count maps: the
    largest key of each, in order, maps with no key skipped.
   */
  function MaxKeys(ms: seq<map<nat, nat>>, n: nat): (keys: seq<nat>)
    requires n <= |ms|
    ensures forall q :: q in keys <==> exists k :: 0 <= k < n && q in ms[k] && MaxKey(ms[k]) == Some(q)
  {
    if n == 0 then []
    else
      var rest := MaxKeys(ms, n - 1);
      var last := match MaxKey(ms[n - 1]) case Some(q) => [q] case None => [];
      assert forall q :: q in rest + last <==> exists k :: 0 <= k < n && q in ms[k] && MaxKey(ms[k]) == Some(q) by {
        forall q ensures q in rest + last <==> exists k :: 0 <= k < n && q in ms[k] && MaxKey(ms[k]) == Some(q) {
          if exists k :: 0 <= k < n && q in ms[k] && MaxKey(ms[k]) == Some(q) {
            var k :| 0 <= k < n && q in ms[k] && MaxKey(ms[k]) == Some(q);
            if k == n - 1 {
              assert q in last;
            } else {
              assert q in rest;
            }
          }
        }
      }
      rest + last
  }

  /** `max().unwrap_or_default()` of the keys: at least every key of every map, and one of them unless 0. */
  lemma BestKey(ms: seq<map<nat, nat>>)
    ensures forall k, p :: 0 <= k < |ms| && p in ms[k] ==> p <= MaxOrZero(MaxKeys(ms, |ms|))
    ensures MaxOrZero(MaxKeys(ms, |ms|)) == 0 || exists k :: 0 <= k < |ms| && MaxOrZero(MaxKeys(ms, |ms|)) in ms[k]
  {
    var keys := MaxKeys(ms, |ms|);
    forall k, p | 0 <= k < |ms| && p in ms[k] ensures p <= MaxOrZero(keys) {
      assert MaxKey(ms[k]).value in keys;
    }
  }

  /**
    The body of `max_value` for given lines and digits: the largest payout
    key `possible` reports for any of the lines, 0 when none reports one.
   */
  function LinesBest(rows: seq<seq<Cell>>, rem: seq<Digit>): (v: nat)
    requires RowsComplete(rows, rem)
    ensures forall k, p :: 0 <= k < |rows| && p in Solver.Tally(Filled(rows[k]), rem) ==> p <= v
    ensures v == 0 || exists k :: 0 <= k < |rows| && v in Solver.Tally(Filled(rows[k]), rem)
  {
    var ms := LineCounts(rows, rem);
    BestKey(ms);
    MaxOrZero(MaxKeys(ms, |ms|))
  }

  /**
    `max_value(index)` as written: the best payout key over the lines
    through the cell, with `remaining()` (the placed digits) as the pool.
   */
  function MaxValue(g: Grid, index: nat): (v: nat)
    requires index < NumCells
    requires RowsComplete(Rows(g, index), Remaining(g))
    ensures forall k, p :: 0 <= k < |Rows(g, index)| && p in Solver.Tally(Filled(Rows(g, index)[k]), Remaining(g)) ==> p <= v
    ensures v == 0 || exists k :: 0 <= k < |Rows(g, index)| && v in Solver.Tally(Filled(Rows(g, index)[k]), Remaining(g))
  {
    LinesBest(Rows(g, index), Remaining(g))
  }

  // ---------------------------------------------------------------------
  // The board 1..9 (the unit test at src/models.rs:82-106)

  /** The payout of each line of the board 1..9, in `Logic.Lines` order. */
  const FullLinePayouts: seq<nat> := [10000, 180, 3600, 108, 180, 119, 180, 180]

  /** What `max_value` gives each cell of the board 1..9. */
  const FullBest: seq<nat> := [10000, 10000, 10000, 180, 180, 180, 3600, 3600, 3600]

  /** The cells of a line of the board 1..9 hold the line's cell indices plus one. */
  lemma FullCells(board: Board, line: seq<nat>) returns (known: seq<Digit>)
    requires Logic.IsFullBoard(board) && Logic.IsLine(line)
    ensures known == [line[0] + 1, line[1] + 1, line[2] + 1]
    ensures Filled(Logic.Cells(board, line)) == known
  {
    known := [line[0] + 1, line[1] + 1, line[2] + 1];
    assert Logic.Cells(board, line) == seq(|known|, j requires 0 <= j < |known| => Some(known[j]));
    FilledOfKnown(known);
  }

  /** The sum of each line of the board 1..9, in `Logic.Lines` order. */
  const FullLineSums: seq<int> := [6, 15, 24, 12, 15, 18, 15, 15]

  /** Each line of the board 1..9 sums to a value the table covers and pays `FullLinePayouts[i]`. */
  lemma FullLineSum(i: nat)
    requires i < |Logic.Lines|
    ensures Logic.IsLine(Logic.Lines[i])
    ensures var s := Logic.Lines[i][0] + Logic.Lines[i][1] + Logic.Lines[i][2] + 3;
      6 <= s <= 24 && Logic.PayoutForSum(s) == FullLinePayouts[i]
  {
    FullLineSumIs(i);
    FullLinePaysAre(i);
  }

  lemma FullLineSumIs(i: nat)
    requires i < |Logic.Lines|
    ensures Logic.IsLine(Logic.Lines[i])
    ensures Logic.Lines[i][0] + Logic.Lines[i][1] + Logic.Lines[i][2] + 3 == FullLineSums[i]
  {
    Logic.LinesShape();
  }

  lemma FullLinePaysAre(i: nat)
    requires i < |FullLineSums|
    ensures 6 <= FullLineSums[i] <= 24 && Logic.PayoutForSum(FullLineSums[i]) == FullLinePayouts[i]
  {
    Logic.PayoutTableSamples();
    assert Logic.PayoutForSum(12) == 108;
  }

  /** On the board 1..9 every line is fully known, and `possible` counts its one payout once. */
  lemma FullLine(board: Board, i: nat, rem: seq<Digit>)
    requires Logic.IsFullBoard(board) && i < |Logic.Lines|
    ensures |Filled(Logic.Cells(board, Logic.Lines[i]))| == 3
    ensures Solver.Completes(Filled(Logic.Cells(board, Logic.Lines[i])), rem)
    ensures Solver.Tally(Filled(Logic.Cells(board, Logic.Lines[i])), rem) == map[FullLinePayouts[i] := 1]
  {
    FullLineSum(i);
    var known := FullCells(board, Logic.Lines[i]);
    Sum3(known);
    KnownLineTally(known, rem, FullLinePayouts[i]);
  }

  /** A fully known line is complete whatever is left, and `possible` reports its payout once. */
  lemma KnownLineTally(known: seq<Digit>, rem: seq<Digit>, pay: nat)
    requires |known| == 3 && 6 <= Sum(known) <= 24 && Logic.PayoutForSum(Sum(known)) == pay
    ensures Solver.Completes(known, rem) && Solver.Tally(known, rem) == map[pay := 1]
  {
  }

  /** On the board 1..9 each line through a cell reports exactly its own payout. */
  lemma FullTallies(g: Grid, index: nat)
    requires Logic.IsFullBoard(g.numbers) && index < NumCells
    ensures RowsComplete(Rows(g, index), Remaining(g))
    ensures forall k :: 0 <= k < |Rows(g, index)| ==> (RowLine(index, k) < |FullLinePayouts| &&
      Solver.Tally(Filled(Rows(g, index)[k]), Remaining(g)) == map[FullLinePayouts[RowLine(index, k)] := 1])
  {
    RowsThrough(g, index);
    forall k | 0 <= k < |Rows(g, index)|
      ensures |Filled(Rows(g, index)[k])| <= 3 && Solver.Completes(Filled(Rows(g, index)[k]), Remaining(g))
      ensures Solver.Tally(Filled(Rows(g, index)[k]), Remaining(g)) == map[FullLinePayouts[RowLine(index, k)] := 1]
    {
      FullLine(g.numbers, RowLine(index, k), Remaining(g));
    }
  }

  /** The row through a cell of the board 1..9 pays at least as much as any other line through it. */
  lemma FullBestOf(index: nat)
    requires index < NumCells
    ensures forall k :: 0 <= k < (if index == 4 then 4 else if index % 2 == 0 then 3 else 2) ==>
      RowLine(index, k) < |FullLinePayouts| && FullLinePayouts[RowLine(index, k)] <= FullBest[index]
    ensures FullLinePayouts[RowLine(index, 0)] == FullBest[index]
  {
  }

  /** When each line reports a single payout, the best of them is the largest. */
  lemma SingletonsBest(rows: seq<seq<Cell>>, rem: seq<Digit>, pays: seq<nat>, top: nat)
    requires RowsComplete(rows, rem) && |pays| == |rows| && 0 < |rows| && pays[0] == top
    requires forall k :: 0 <= k < |rows| ==> Solver.Tally(Filled(rows[k]), rem) == map[pays[k] := 1] && pays[k] <= top
    ensures LinesBest(rows, rem) == top
  {
    var v := LinesBest(rows, rem);
    assert top in Solver.Tally(Filled(rows[0]), rem);
  }

  /** `max_value` on the board 1..9: 10000 in the top row, 180 in the middle row, 3600 in the bottom row. */
  lemma MaxValueFullBoard(g: Grid, index: nat)
    requires Logic.IsFullBoard(g.numbers) && index < NumCells
    ensures RowsComplete(Rows(g, index), Remaining(g))
    ensures MaxValue(g, index) == FullBest[index]
  {
    var rows := Rows(g, index);
    FullTallies(g, index);
    RowsCount(g, index);
    FullBestOf(index);
    var pays := seq(|rows|, k requires 0 <= k < |rows| => FullLinePayouts[RowLine(index, k)]);
    SingletonsBest(rows, Remaining(g), pays, FullBest[index]);
  }

  // ---------------------------------------------------------------------
  // `remaining()` as written: the placed digits are the pool

  /** 1 completed from the pool [1]: the only candidate is 1 again, which leaves nothing to place last. */
  lemma OneAgainstOne()
    ensures Solver.Completes([1], [1]) && Solver.Tally([1], [1]) == map[]
  {
    assert Solver.Without([1], 1) == [];
    assert Solver.Tally([1, 1], []) == map[];
    assert Solver.TallyUpTo([1], [1], 1) == Solver.Merge(map[], map[]);
  }

  /** With only 1 revealed, every line through the top-left cell knows just the digit 1. */
  lemma OneRevealedLines(g: Grid)
    requires Logic.IsOneRevealed(g.numbers)
    ensures forall k :: 0 <= k < |Rows(g, 0)| ==> Filled(Rows(g, 0)[k]) == [1]
  {
    RowsThrough(g, 0);
    Logic.LinesShape();
    forall k | 0 <= k < |Rows(g, 0)| ensures Filled(Rows(g, 0)[k]) == [1] {
      FilledSingle(Rows(g, 0)[k], 0, 1);
    }
  }

  /**
    With only 1 revealed, in the top-left cell, `max_value(0)` as written is
    0: `possible` looks for the two missing digits among the placed digits
    [1] and finds no completion, while the top row can still reach 1+2+3.
   */
  lemma MaxValueMissesOpenLines(g: Grid)
    requires Logic.IsOneRevealed(g.numbers)
    ensures RowsComplete(Rows(g, 0), Remaining(g)) && MaxValue(g, 0) == 0
  {
    FilledSingle(g.numbers, 0, 1);
    assert Remaining(g) == [1];
    OneRevealedLines(g);
    OneAgainstOne();
  }

  /** The known digits of column 0 when 1 and 2 are its top two cells. */
  lemma OneTwoColumn(cells: seq<Cell>)
    requires cells == [Some(1), Some(2), None]
    ensures Filled(cells) == [1, 2]
  {
    FilledPush([], Some(1));
    FilledPush([Some(1)], Some(2));
    FilledPush([Some(1), Some(2)], None);
    assert [Some(1), Some(2), None] == [Some(1), Some(2)] + [None];
  }

  /** Adding a 1 that is already known takes the sum of 1 and 2 to 4, outside the table. */
  lemma OneTwoCannotComplete(rem: seq<Digit>)
    requires 1 in rem
    ensures !Solver.Completes([1, 2], rem)
  {
    Sum3([1, 2, 1]);
    assert [1, 2] + [1] == [1, 2, 1];
    assert !Solver.Completes([1, 2] + [1], Solver.Without(rem, 1));
  }

  /** Filtering out r keeps every other entry. */
  lemma {:induction false} WithoutKeeps(rem: seq<Digit>, r: Digit, x: Digit)
    requires x in rem && x != r
    ensures x in Solver.Without(rem, r)
    decreases |rem|
  {
    if rem[0] != x {
      WithoutKeeps(rem[1..], r, x);
    }
  }

  /** The top row with only 1 known: completing it with 1 and then 2 sums to 4, outside the table. */
  lemma OneCannotComplete(rem: seq<Digit>)
    requires 1 in rem && 2 in rem
    ensures !Solver.Completes([1], rem)
  {
    WithoutKeeps(rem, 1, 2);
    var rest := Solver.Without(rem, 1);
    Sum3([1, 1, 2]);
    assert [1] + [1] == [1, 1] && [1, 1] + [2] == [1, 1, 2];
    assert !Solver.Completes([1, 1] + [2], Solver.Without(rest, 2));
    assert !Solver.Completes([1] + [1], rest);
  }

  lemma OneTopRow(cells: seq<Cell>)
    requires cells == [Some(1), None, None]
    ensures Filled(cells) == [1]
  {
    FilledPush([], Some(1));
    FilledPush([Some(1)], None);
    FilledPush([Some(1), None], None);
    assert [Some(1), None, None] == [Some(1), None] + [None];
  }

  /**
    With 1 in the top-left cell and 2 below it, `max_value(0)` as written
    panics. `rows(0)` lists the top row first; completing it from the
    placed digits gives 1, 1, 2, whose sum 4 is outside 6..24, and
    `row_gil` reaches `unreachable!`. Column 0, listed second, fails the
    same way with 1, 2, 1.
   */
  lemma MaxValuePanics(g: Grid)
    requires g.numbers == [Some(1), None, None, Some(2), None, None, None, None, None]
    ensures !Solver.Completes(Filled(Rows(g, 0)[0]), Remaining(g))
    ensures !Solver.Completes(Filled(Rows(g, 0)[1]), Remaining(g))
    ensures !RowsComplete(Rows(g, 0), Remaining(g))
  {
    assert g.numbers[0] == Some(1) && g.numbers[3] == Some(2);
    assert 1 in Remaining(g) && 2 in Remaining(g);
    RowsEntry(g, 0, 0);
    RowsEntry(g, 0, 1);
    Logic.LinesShape();
    OneTopRow(Rows(g, 0)[0]);
    OneCannotComplete(Remaining(g));
    OneTwoColumn(Rows(g, 0)[1]);
    OneTwoCannotComplete(Remaining(g));
  }

  // ---------------------------------------------------------------------
  // The intended computation: the unused digits are the pool

  /** Some sum line `line` can still reach pays p. */
  ghost predicate LinePays(board: Board, line: seq<nat>, p: nat)
    requires Logic.IsLine(line)
  {
    exists s :: s in Logic.LineSumSet(board, line) && Logic.PayoutForSum(s) == p
  }

  /** Some line through cell `index` can still pay p. */
  ghost predicate CellPays(board: Board, index: nat, p: nat) {
    exists i :: 0 <= i < |Logic.Lines| && index in Logic.Lines[i] && Logic.IsLine(Logic.Lines[i]) && LinePays(board, Logic.Lines[i], p)
  }

  /** A line of a board without repeated digits holds no digit twice. */
  lemma LineCellsDistinct(board: Board, line: seq<nat>)
    requires Logic.IsLine(line) && Distinct(line) && DistinctBoard(board)
    ensures DistinctBoard(Logic.Cells(board, line))
  {
    var cells := Logic.Cells(board, line);
    forall i, j | 0 <= i < j < |cells| && cells[i].Some? ensures cells[i] != cells[j] {
      var a, b := line[i], line[j];
      if b < a && board[b].Some? {
        assert board[b] != board[a];
      }
    }
  }

  /** A line of a board without repeated digits: its known digits are distinct and not among the unused ones. */
  lemma LineCompletes(board: Board, line: seq<nat>)
    requires Logic.IsLine(line) && Distinct(line) && DistinctBoard(board)
    ensures |Filled(Logic.Cells(board, line))| <= 3
    ensures Distinct(Logic.Unused(board))
    ensures Solver.Completes(Filled(Logic.Cells(board, line)), Logic.Unused(board))
  {
    var cells := Logic.Cells(board, line);
    var known, rem := Filled(cells), Logic.Unused(board);
    LineCellsDistinct(board, line);
    FilledDistinct(cells);
    Logic.UnusedSpec(board);
    forall x | x in known ensures x !in rem {
      var j :| 0 <= j < |cells| && cells[j] == Some(x);
      assert board[line[j]] == Some(x);
    }
    Solver.DifferentCompletes(known, rem);
  }

  /** `TallyKeys` stated over the cells of a line rather than over the number of open cells. */
  lemma CellsTallyKeys(cells: seq<Cell>, known: seq<Digit>, rem: seq<Digit>, p: nat)
    requires |cells| == 3 && known == Filled(cells) && Solver.Completes(known, rem) && Distinct(rem)
    ensures p in Solver.Tally(known, rem) <==> Solver.SomeSelectionPays(rem, EmptyCount(cells), Sum(known), p)
  {
    Solver.TallyKeys(known, rem, Sum(known), EmptyCount(cells), p);
  }

  /** The selections `possible` walks for a line are the ones the line sums are built from. */
  lemma LineTallyKeysBySelection(board: Board, line: seq<nat>, p: nat)
    requires Logic.IsLine(line) && Distinct(line) && DistinctBoard(board)
    ensures |Filled(Logic.Cells(board, line))| <= 3
    ensures Solver.Completes(Filled(Logic.Cells(board, line)), Logic.Unused(board))
    ensures p in Solver.Tally(Filled(Logic.Cells(board, line)), Logic.Unused(board)) <==>
      Solver.SomeSelectionPays(Logic.Unused(board), EmptyCount(Logic.Cells(board, line)), Sum(Filled(Logic.Cells(board, line))), p)
  {
    LineCompletes(board, line);
    CellsTallyKeys(Logic.Cells(board, line), Filled(Logic.Cells(board, line)), Logic.Unused(board), p);
  }

  /** A selection that pays p gives a reachable line sum that pays p, and back. */
  lemma SelectionPays(board: Board, line: seq<nat>, p: nat)
    requires Logic.IsLine(line)
    ensures LinePays(board, line, p) <==>
      Solver.SomeSelectionPays(Logic.Unused(board), EmptyCount(Logic.Cells(board, line)), Sum(Filled(Logic.Cells(board, line))), p)
  {
    if Solver.SomeSelectionPays(Logic.Unused(board), EmptyCount(Logic.Cells(board, line)), Sum(Filled(Logic.Cells(board, line))), p) {
      SelectionGivesSum(board, line, p);
    }
    if LinePays(board, line, p) {
      SumGivesSelection(board, line, p);
    }
  }

  lemma SelectionGivesSum(board: Board, line: seq<nat>, p: nat)
    requires Logic.IsLine(line)
    requires Solver.SomeSelectionPays(Logic.Unused(board), EmptyCount(Logic.Cells(board, line)), Sum(Filled(Logic.Cells(board, line))), p)
    ensures LinePays(board, line, p)
  {
    var c :| c in Arrangements(Logic.Unused(board), EmptyCount(Logic.Cells(board, line))) &&
      Logic.PayoutForSum(Sum(Filled(Logic.Cells(board, line))) + Sum(c)) == p;
    Logic.SelectionSum(board, line, c);
  }

  lemma SumGivesSelection(board: Board, line: seq<nat>, p: nat)
    requires Logic.IsLine(line) && LinePays(board, line, p)
    ensures Solver.SomeSelectionPays(Logic.Unused(board), EmptyCount(Logic.Cells(board, line)), Sum(Filled(Logic.Cells(board, line))), p)
  {
    var s :| s in Logic.LineSumSet(board, line) && Logic.PayoutForSum(s) == p;
    var c := Logic.MemberFilling(board, line, s);
    Logic.SelectionFills(board, line, c);
  }

  /**
    The two engines agree on a line: `possible` over the unused digits
    reports payout p exactly when some sum the line can reach pays p.
   */
  lemma LineTallyKeys(board: Board, line: seq<nat>, p: nat)
    requires Logic.IsLine(line) && Distinct(line) && DistinctBoard(board)
    ensures |Filled(Logic.Cells(board, line))| <= 3
    ensures Solver.Completes(Filled(Logic.Cells(board, line)), Logic.Unused(board))
    ensures p in Solver.Tally(Filled(Logic.Cells(board, line)), Logic.Unused(board)) <==> LinePays(board, line, p)
  {
    LineTallyKeysBySelection(board, line, p);
    SelectionPays(board, line, p);
  }

  /** Over the unused digits, `possible` completes every line through a cell. */
  lemma UnusedRowsComplete(g: Grid, index: nat)
    requires index < NumCells && DistinctBoard(g.numbers)
    ensures RowsComplete(Rows(g, index), Logic.Unused(g.numbers))
  {
    RowsThrough(g, index);
    Logic.LinesShape();
    forall k | 0 <= k < |Rows(g, index)|
      ensures |Filled(Rows(g, index)[k])| <= 3 && Solver.Completes(Filled(Rows(g, index)[k]), Logic.Unused(g.numbers))
    {
      LineCompletes(g.numbers, Logic.Lines[RowLine(index, k)]);
    }
  }

  /** `max_value(index)` with the unused digits as the pool. */
  function BestPayout(g: Grid, index: nat): (v: nat)
    requires index < NumCells && DistinctBoard(g.numbers)
    ensures RowsComplete(Rows(g, index), Logic.Unused(g.numbers))
    ensures forall k, p :: 0 <= k < |Rows(g, index)| && p in Solver.Tally(Filled(Rows(g, index)[k]), Logic.Unused(g.numbers)) ==> p <= v
    ensures v == 0 || exists k :: 0 <= k < |Rows(g, index)| && v in Solver.Tally(Filled(Rows(g, index)[k]), Logic.Unused(g.numbers))
  {
    UnusedRowsComplete(g, index);
    LinesBest(Rows(g, index), Logic.Unused(g.numbers))
  }

  /** Every payout a line through the cell can still reach is at most the corrected value. */
  lemma BestPayoutBounds(g: Grid, index: nat, p: nat)
    requires index < NumCells && DistinctBoard(g.numbers) && CellPays(g.numbers, index, p)
    ensures p <= BestPayout(g, index)
  {
    var i :| 0 <= i < |Logic.Lines| && index in Logic.Lines[i] && Logic.IsLine(Logic.Lines[i]) && LinePays(g.numbers, Logic.Lines[i], p);
    RowsThrough(g, index);
    Logic.LinesShape();
    var k :| 0 <= k < |Rows(g, index)| && RowLine(index, k) == i;
    LineTallyKeys(g.numbers, Logic.Lines[i], p);
  }

  /** A payout reported for one of the lines through a cell is one that line can reach. */
  lemma RowPays(g: Grid, index: nat, k: nat, p: nat)
    requires index < NumCells && DistinctBoard(g.numbers) && k < |Rows(g, index)|
    requires RowsComplete(Rows(g, index), Logic.Unused(g.numbers))
    requires p in Solver.Tally(Filled(Rows(g, index)[k]), Logic.Unused(g.numbers))
    ensures CellPays(g.numbers, index, p)
  {
    RowsEntry(g, index, k);
    Logic.LinesShape();
    LineTallyKeys(g.numbers, Logic.Lines[RowLine(index, k)], p);
  }

  /** A non-zero corrected value is reached by some line through the cell. */
  lemma BestPayoutReached(g: Grid, index: nat)
    requires index < NumCells && DistinctBoard(g.numbers) && BestPayout(g, index) != 0
    ensures CellPays(g.numbers, index, BestPayout(g, index))
  {
    var v := BestPayout(g, index);
    var k :| 0 <= k < |Rows(g, index)| && v in Solver.Tally(Filled(Rows(g, index)[k]), Logic.Unused(g.numbers));
    RowPays(g, index, k, v);
  }

  /**
    The corrected value is the best payout any line through the cell can
    still reach, in the terms of the current engine's line sums.
   */
  lemma BestPayoutSpec(g: Grid, index: nat)
    requires index < NumCells && DistinctBoard(g.numbers)
    ensures forall p: nat :: CellPays(g.numbers, index, p) ==> p <= BestPayout(g, index)
    ensures BestPayout(g, index) == 0 || CellPays(g.numbers, index, BestPayout(g, index))
  {
    forall p: nat | CellPays(g.numbers, index, p) ensures p <= BestPayout(g, index) {
      BestPayoutBounds(g, index, p);
    }
    if BestPayout(g, index) != 0 {
      BestPayoutReached(g, index);
    }
  }

  /** With only 1 revealed, in the top-left cell, the corrected value for that cell is 10000 (1+2+3 = 6). */
  lemma BestPayoutOneRevealed(g: Grid)
    requires Logic.IsOneRevealed(g.numbers)
    ensures DistinctBoard(g.numbers) && BestPayout(g, 0) == 10000
  {
    var board := g.numbers;
    assert DistinctBoard(board);
    Logic.LinesShape();
    Logic.OneRevealedTopRow(board, 6);
    Logic.PayoutTableSamples();
    assert LinePays(board, Logic.Lines[0], 10000);
    assert CellPays(board, 0, 10000);
    BestPayoutBounds(g, 0, 10000);
    var v := BestPayout(g, 0);
    var k :| 0 <= k < |Rows(g, 0)| && v in Solver.Tally(Filled(Rows(g, 0)[k]), Logic.Unused(board));
    Solver.KeysAtMostTop(Solver.Tally(Filled(Rows(g, 0)[k]), Logic.Unused(board)), v);
  }

  // ---------------------------------------------------------------------
  // The third test of `possible`: 1 known and 2..9 left

  /** The payouts the third test in src/solver.rs lists for 1 known and 2..9 left. */
  const TwoOpenKeys: set<nat> := {10000, 36, 720, 360, 80, 252, 108, 72, 54, 180, 119}

  /** The table entries for the sums 13 to 18. */
  lemma HighPayouts()
    ensures Logic.PayoutForSum(13) == 72 && Logic.PayoutForSum(14) == 54 && Logic.PayoutForSum(15) == 180
    ensures Logic.PayoutForSum(16) == 72 && Logic.PayoutForSum(17) == 180 && Logic.PayoutForSum(18) == 119
  {
    assert Logic.Payouts[13] == 72 && Logic.Payouts[14] == 54 && Logic.Payouts[15] == 180;
    assert Logic.Payouts[16] == 72 && Logic.Payouts[17] == 180 && Logic.Payouts[18] == 119;
  }

  /** The sums 6..18 pay exactly the payouts of the test. */
  lemma SixToEighteenPays(p: nat)
    ensures (exists s :: 6 <= s <= 18 && Logic.PayoutForSum(s) == p) <==> p in TwoOpenKeys
  {
    Solver.LowPayouts();
    HighPayouts();
    if p in TwoOpenKeys {
      var s := if p == 10000 then 6 else if p == 36 then 7 else if p == 720 then 8 else if p == 360 then 9
        else if p == 80 then 10 else if p == 252 then 11 else if p == 108 then 12 else if p == 72 then 13
        else if p == 54 then 14 else if p == 180 then 15 else 18;
      assert Logic.PayoutForSum(s) == p;
    }
  }

  /** With only 1 revealed, in the top-left cell, the digits 2..9 are unused. */
  lemma OneRevealedUnused(board: Board)
    requires Logic.IsOneRevealed(board)
    ensures Logic.Unused(board) == [2, 3, 4, 5, 6, 7, 8, 9]
  {
    Logic.UnusedSpec(board);
    var u: seq<int> := Logic.Unused(board);
    var t: seq<int> := [2, 3, 4, 5, 6, 7, 8, 9];
    forall x ensures x in Logic.SetOf(u) <==> x in Logic.SetOf(t) {
      if 1 <= x <= 9 {
        var d: Digit := x;
        assert d in u <==> Some(d) !in board;
        assert Some(d) in board <==> d == 1 by {
          assert board[0] == Some(1);
          if d != 1 {
            forall i | 0 <= i < NumCells ensures board[i] != Some(d) {
              assert i == 0 || board[i] == None;
            }
          }
        }
      }
    }
    Logic.AscendingUnique(u, t);
  }

  /** With only 1 revealed, the top row can still pay exactly the payouts of the test. */
  lemma OneRevealedPays(board: Board, p: nat)
    requires Logic.IsOneRevealed(board)
    ensures Logic.IsLine(Logic.Lines[0])
    ensures LinePays(board, Logic.Lines[0], p) <==> p in TwoOpenKeys
  {
    Logic.LinesShape();
    SixToEighteenPays(p);
    if LinePays(board, Logic.Lines[0], p) {
      var s :| s in Logic.LineSumSet(board, Logic.Lines[0]) && Logic.PayoutForSum(s) == p;
      Logic.OneRevealedTopRow(board, s);
    }
    if p in TwoOpenKeys {
      var s :| 6 <= s <= 18 && Logic.PayoutForSum(s) == p;
      Logic.OneRevealedTopRow(board, s);
    }
  }

  /** With only 1 revealed, `possible` for the top row over the unused digits reports exactly the payouts of the test. */
  lemma OneRevealedKeys(board: Board, rem: seq<Digit>, p: nat)
    requires Logic.IsOneRevealed(board) && rem == Logic.Unused(board)
    ensures Solver.Completes([1], rem)
    ensures p in Solver.Tally([1], rem) <==> p in TwoOpenKeys
  {
    assert DistinctBoard(board) by {
      forall i, j | 0 <= i < j < |board| && board[i].Some? ensures board[i] != board[j] {
        assert i == 0 && board[j] == None;
      }
    }
    Logic.LinesShape();
    Logic.OneRevealedTopCells(board);
    LineTallyKeys(board, Logic.Lines[0], p);
    OneRevealedPays(board, p);
  }

  lemma OneRevealedKeySet(board: Board, rem: seq<Digit>)
    requires Logic.IsOneRevealed(board) && rem == Logic.Unused(board)
    ensures Solver.Completes([1], rem)
    ensures Solver.Tally([1], rem).Keys == TwoOpenKeys
  {
    OneRevealedKeys(board, rem, 0);
    forall p: nat ensures p in Solver.Tally([1], rem) <==> p in TwoOpenKeys {
      OneRevealedKeys(board, rem, p);
    }
  }

  /**
    1 known and 2..9 left: `possible` reports exactly the eleven payouts the
    test lists (their counts add up to 56, `Solver.TwoOpenTotal`).
   */
  lemma TwoOpenTallyKeys(rem: seq<Digit>)
    requires rem == [2, 3, 4, 5, 6, 7, 8, 9]
    ensures Solver.Completes([1], rem)
    ensures Solver.Tally([1], rem).Keys == TwoOpenKeys
  {
    var board: Board := [Some(1), None, None, None, None, None, None, None, None];
    assert Logic.IsOneRevealed(board);
    OneRevealedUnused(board);
    OneRevealedKeySet(board, rem);
  }

  /** The sixteen payouts the test of three unknowns lists, every value of the table. */
  const ThreeOpenKeys: set<nat> := {1080, 1800, 3600, 10000, 36, 54, 72, 80, 108, 119, 144, 180, 252, 306, 360, 720}

  /** The table entries for the sums 19 to 24. */
  lemma TopPayouts()
    ensures Logic.PayoutForSum(19) == 36 && Logic.PayoutForSum(20) == 306 && Logic.PayoutForSum(21) == 1080
    ensures Logic.PayoutForSum(22) == 144 && Logic.PayoutForSum(23) == 1800 && Logic.PayoutForSum(24) == 3600
  {
    assert Logic.Payouts[19] == 36 && Logic.Payouts[20] == 306 && Logic.Payouts[21] == 1080;
    assert Logic.Payouts[22] == 144 && Logic.Payouts[23] == 1800 && Logic.Payouts[24] == 3600;
  }

  /** The sums 6..24 pay exactly the payouts of the test. */
  lemma SixToTwentyFourPays(p: nat)
    ensures (exists s :: 6 <= s <= 24 && Logic.PayoutForSum(s) == p) <==> p in ThreeOpenKeys
  {
    Solver.LowPayouts();
    HighPayouts();
    TopPayouts();
    if p in ThreeOpenKeys {
      var s := if p == 10000 then 6 else if p == 36 then 7 else if p == 720 then 8 else if p == 360 then 9
        else if p == 80 then 10 else if p == 252 then 11 else if p == 108 then 12 else if p == 72 then 13
        else if p == 54 then 14 else if p == 180 then 15 else if p == 119 then 18 else if p == 306 then 20
        else if p == 1080 then 21 else if p == 144 then 22 else if p == 1800 then 23 else 24;
      assert Logic.PayoutForSum(s) == p;
    }
  }

  /** On an empty board every digit is unused. */
  lemma EmptyUnused(board: Board)
    requires Logic.IsEmptyBoard(board)
    ensures Logic.Unused(board) == [1, 2, 3, 4, 5, 6, 7, 8, 9]
  {
    Logic.UnusedSpec(board);
    var u: seq<int> := Logic.Unused(board);
    var t: seq<int> := [1, 2, 3, 4, 5, 6, 7, 8, 9];
    forall x ensures x in Logic.SetOf(u) <==> x in Logic.SetOf(t) {
      if 1 <= x <= 9 {
        var d: Digit := x;
        assert d in u <==> Some(d) !in board;
        assert Some(d) !in board by {
          forall i | 0 <= i < NumCells ensures board[i] != Some(d) {
            assert board[i] == None;
          }
        }
      }
    }
    Logic.AscendingUnique(u, t);
  }

  /** On an empty board the top row can pay exactly the payouts of the test. */
  lemma EmptyPays(board: Board, p: nat)
    requires Logic.IsEmptyBoard(board)
    ensures Logic.IsLine(Logic.Lines[0])
    ensures LinePays(board, Logic.Lines[0], p) <==> p in ThreeOpenKeys
  {
    Logic.LinesShape();
    SixToTwentyFourPays(p);
    if LinePays(board, Logic.Lines[0], p) {
      var s :| s in Logic.LineSumSet(board, Logic.Lines[0]) && Logic.PayoutForSum(s) == p;
      Logic.EmptyTopRow(board, s);
    }
    if p in ThreeOpenKeys {
      var s :| 6 <= s <= 24 && Logic.PayoutForSum(s) == p;
      Logic.EmptyTopRow(board, s);
    }
  }

  /** On an empty board, `possible` for the top row over all nine digits reports exactly the payouts of the test. */
  lemma EmptyKeys(board: Board, rem: seq<Digit>, p: nat)
    requires Logic.IsEmptyBoard(board) && rem == Logic.Unused(board)
    ensures Solver.Completes([], rem)
    ensures p in Solver.Tally([], rem) <==> p in ThreeOpenKeys
  {
    assert DistinctBoard(board);
    Logic.LinesShape();
    Logic.EmptyTopCells(board);
    LineTallyKeys(board, Logic.Lines[0], p);
    EmptyPays(board, p);
  }

  lemma EmptyKeySet(board: Board, rem: seq<Digit>)
    requires Logic.IsEmptyBoard(board) && rem == Logic.Unused(board)
    ensures Solver.Completes([], rem)
    ensures Solver.Tally([], rem).Keys == ThreeOpenKeys
  {
    EmptyKeys(board, rem, 0);
    forall p: nat ensures p in Solver.Tally([], rem) <==> p in ThreeOpenKeys {
      EmptyKeys(board, rem, p);
    }
  }

  /**
    Nothing known and 1..9 left: `possible` reports exactly the sixteen
    payouts the test lists (their counts add up to 504, `Solver.ThreeOpenTotal`).
   */
  lemma ThreeOpenTallyKeys(rem: seq<Digit>)
    requires rem == [1, 2, 3, 4, 5, 6, 7, 8, 9]
    ensures Solver.Completes([], rem)
    ensures Solver.Tally([], rem).Keys == ThreeOpenKeys
  {
    var board: Board := [None, None, None, None, None, None, None, None, None];
    assert Logic.IsEmptyBoard(board);
    EmptyUnused(board);
    EmptyKeySet(board, rem);
  }
}
