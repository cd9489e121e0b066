/**
  Digits, cells and boards of the Mini Cactpot grid, shared by both
  iterations of the payout engine.

  A board is nine cells in row-major order; a cell is empty or holds a
  digit 1..9 (`Option<u8>` in src/logic.rs, `Option<Number>` in
  src/models.rs).
 */
module Digits {

  datatype Option<T> = None | Some(value: T)

  /** A digit of the game, `Number::One` .. `Number::Nine`. */
  type Digit = d: int | 1 <= d <= 9 witness 1

  type Cell = Option<Digit>

  const NumCells: nat := 9

  /** The nine cells of the grid, indexed 0..8 row by row. */
  type Board = b: seq<Cell> | |b| == NumCells
    witness [None, None, None, None, None, None, None, None, None]

  predicate Distinct<T(==)>(s: seq<T>) {
    forall i, j :: 0 <= i < j < |s| ==> s[i] != s[j]
  }

  /** No digit is placed in two cells. */
  predicate DistinctBoard(board: seq<Cell>) {
    forall i, j :: 0 <= i < j < |board| && board[i].Some? ==> board[i] != board[j]
  }

  function Sum(s: seq<int>): int {
    if s == [] then 0 else s[0] + Sum(s[1..])
  }

  lemma {:induction false} SumConcat(a: seq<int>, b: seq<int>)
    ensures Sum(a + b) == Sum(a) + Sum(b)
  {
    if a == [] {
      assert a + b == b;
    } else {
      assert (a + b)[1..] == a[1..] + b;
      SumConcat(a[1..], b);
    }
  }

  /** The largest entry, 0 for an empty list (`max().unwrap_or(0)` over naturals). */
  function MaxOrZero(s: seq<nat>): (m: nat)
    ensures forall x :: x in s ==> x <= m
    ensures s == [] ==> m == 0
    ensures s != [] ==> m in s
  {
    if s == [] then 0
    else
      var rest := MaxOrZero(s[1..]);
      assert forall x :: x in s ==> x == s[0] || x in s[1..];
      if s[0] > rest then s[0] else rest
  }

  /** The digits held by filled cells, in cell order (`filter_map(|n| n)`). */
  function Filled(cells: seq<Cell>): (known: seq<Digit>)
    ensures |known| <= |cells|
    ensures forall d: Digit :: d in known <==> Some(d) in cells
  {
    if cells == [] then []
    else
      var front := cells[..|cells| - 1];
      assert cells == front + [cells[|cells| - 1]];
      Filled(front) + (match cells[|cells| - 1] case Some(d) => [d] case None => [])
  }

  /** The number of empty cells. */
  function EmptyCount(cells: seq<Cell>): (n: nat)
    ensures n + |Filled(cells)| == |cells|
  {
    if cells == [] then 0
    else EmptyCount(cells[..|cells| - 1]) + (if cells[|cells| - 1].None? then 1 else 0)
  }

  /** The set of digits already on the board (`Board::used`). */
  function Used(board: seq<Cell>): (used: set<Digit>)
    ensures forall d: Digit :: d in used <==> Some(d) in board
  {
    set d | d in Filled(board)
  }

  lemma FilledPush(cells: seq<Cell>, c: Cell)
    ensures Filled(cells + [c]) == Filled(cells) + (match c case Some(d) => [d] case None => [])
    ensures EmptyCount(cells + [c]) == EmptyCount(cells) + (if c.None? then 1 else 0)
  {
    assert (cells + [c])[..|cells|] == cells;
  }

  /** `filter_map` keeps cell order: the known digits of a + b are those of a followed by those of b. */
  lemma {:induction false} FilledConcat(a: seq<Cell>, b: seq<Cell>)
    ensures Filled(a + b) == Filled(a) + Filled(b)
    ensures EmptyCount(a + b) == EmptyCount(a) + EmptyCount(b)
    decreases |b|
  {
    if b == [] {
      assert a + b == a;
    } else {
      var front, last := b[..|b| - 1], b[|b| - 1];
      FilledConcat(a, front);
      assert b == front + [last];
      assert a + b == (a + front) + [last];
      FilledPush(a + front, last);
      FilledPush(front, last);
    }
  }

  /** Filling every cell of a line with known digits gives those digits back. */
  lemma {:induction false} FilledOfKnown(known: seq<Digit>)
    ensures Filled(seq(|known|, j requires 0 <= j < |known| => Some(known[j]))) == known
    ensures EmptyCount(seq(|known|, j requires 0 <= j < |known| => Some(known[j]))) == 0
  {
    var cells := seq(|known|, j requires 0 <= j < |known| => Some(known[j]));
    if known != [] {
      var front := known[..|known| - 1];
      var frontCells := seq(|front|, j requires 0 <= j < |front| => Some(front[j]));
      assert cells == frontCells + [Some(known[|known| - 1])];
      FilledOfKnown(front);
      FilledPush(frontCells, Some(known[|known| - 1]));
      assert known == front + [known[|known| - 1]];
    }
  }

  lemma Sum3(s: seq<int>)
    requires |s| == 3
    ensures Sum(s) == s[0] + s[1] + s[2]
  {
    assert Sum(s[2..]) == s[2] by {
      assert s[2..][1..] == [];
    }
    assert Sum(s[1..]) == s[1] + Sum(s[2..]) by {
      assert s[1..][1..] == s[2..];
    }
  }

  /** Three distinct digits always sum to a value the payout table covers. */
  lemma DistinctDigitsSum(s: seq<Digit>)
    requires |s| == 3 && Distinct(s)
    ensures 6 <= Sum(s) <= 24
  {
    Sum3(s);
  }

  /** On a board without repeated digits the filled cells list each digit once. */
  lemma {:induction false} FilledDistinct(cells: seq<Cell>)
    requires DistinctBoard(cells)
    ensures Distinct(Filled(cells))
    decreases |cells|
  {
    if cells != [] {
      var front, last := cells[..|cells| - 1], cells[|cells| - 1];
      assert cells == front + [last];
      assert DistinctBoard(front) by {
        forall i, j | 0 <= i < j < |front| && front[i].Some? ensures front[i] != front[j] {
          assert front[i] == cells[i] && front[j] == cells[j];
        }
      }
      FilledDistinct(front);
      FilledPush(front, last);
      if last.Some? {
        var known := Filled(front);
        forall i | 0 <= i < |front| ensures front[i] != last {
          assert front[i] == cells[i];
        }
        assert last.value !in known;
        forall a, b | 0 <= a < b < |known| + 1 ensures (known + [last.value])[a] != (known + [last.value])[b] {
          if b == |known| {
            assert known[a] in known;
          }
        }
      }
    }
  }

  lemma {:induction false} FilledNone(cells: seq<Cell>)
    requires forall j :: 0 <= j < |cells| ==> cells[j] == None
    ensures Filled(cells) == []
    decreases |cells|
  {
    if cells != [] {
      FilledNone(cells[..|cells| - 1]);
    }
  }

  /** A list of cells with one digit in one cell and every other cell empty. */
  lemma {:induction false} FilledSingle(cells: seq<Cell>, i: nat, d: Digit)
    requires i < |cells| && cells[i] == Some(d)
    requires forall j :: 0 <= j < |cells| && j != i ==> cells[j] == None
    ensures Filled(cells) == [d]
    decreases |cells|
  {
    var front, last := cells[..|cells| - 1], cells[|cells| - 1];
    assert cells == front + [last];
    FilledPush(front, last);
    if i == |cells| - 1 {
      FilledNone(front);
    } else {
      FilledSingle(front, i, d);
    }
  }
}
