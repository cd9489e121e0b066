/**
  The current payout engine (src/logic.rs): the payout table, the eight
  lines, and the attainable sums and payouts of every line.

  `possible_line_sums` returns, per line, the SET of attainable sums as a
  strictly ascending list (it sorts and deduplicates), not the multiset of
  completions.
 */
module Logic {
  import opened Digits
  import opened Enumeration

  const MinNum: int := 1
  const MaxNum: int := 9
  const GridSize: nat := 3

  /** Rows, then columns, then the two diagonals, as cell indices. */
  const Lines: seq<seq<nat>> := [
    [0, 1, 2], [3, 4, 5], [6, 7, 8],
    [0, 3, 6], [1, 4, 7], [2, 5, 8],
    [0, 4, 8], [2, 4, 6]
  ]

  predicate IsLine(line: seq<nat>) {
    |line| == 3 && forall j :: 0 <= j < |line| ==> line[j] < NumCells
  }

  lemma LinesShape()
    ensures |Lines| == 8
    ensures forall i :: 0 <= i < |Lines| ==> IsLine(Lines[i]) && Distinct(Lines[i])
    ensures forall i :: 0 <= i < GridSize ==> Lines[i] == [3 * i, 3 * i + 1, 3 * i + 2]
    ensures forall i :: GridSize <= i < 2 * GridSize ==> Lines[i] == [i - 3, i, i + 3]
    ensures Lines[6] == [0, 4, 8] && Lines[7] == [2, 4, 6]
  {
  }

  /** The Mini Cactpot payout of each line sum that pays (`init_payouts`). */
  const Payouts: map<int, nat> := map[
    6 := 10000, 7 := 36, 8 := 720, 9 := 360, 10 := 80, 11 := 252, 12 := 108,
    13 := 72, 14 := 54, 15 := 180, 16 := 72, 17 := 180, 18 := 119, 19 := 36,
    20 := 306, 21 := 1080, 22 := 144, 23 := 1800, 24 := 3600
  ]

  /** The payout of a line sum; sums outside the table pay 0. */
  function PayoutForSum(sum: int): (pay: nat)
    ensures pay != 0 <==> 6 <= sum <= 24
    ensures pay <= 10000
  {
    if sum in Payouts then Payouts[sum] else 0
  }

  lemma PayoutTableSamples()
    ensures PayoutForSum(6) == 10000 && PayoutForSum(7) == 36 && PayoutForSum(24) == 3600
    ensures PayoutForSum(15) == 180 && PayoutForSum(18) == 119
    ensures PayoutForSum(5) == 0 && PayoutForSum(25) == 0
  {
  }

  predicate Ascending(s: seq<int>) {
    forall i, j :: 0 <= i < j < |s| ==> s[i] <= s[j]
  }

  predicate StrictlyAscending(s: seq<int>) {
    forall i, j :: 0 <= i < j < |s| ==> s[i] < s[j]
  }

  function SetOf(s: seq<int>): set<int> {
    set x | x in s
  }

  /** The digits 1..9 that are on no cell of the board, ascending (`unused`). */
  function Unused(board: seq<Cell>): seq<Digit> {
    UnusedFrom(board, MinNum)
  }

  // `board` in the decreases clause keeps the verifier from unrolling the
  // recursion whenever n is a literal.
  function UnusedFrom(board: seq<Cell>, n: int): seq<Digit>
    requires MinNum <= n <= MaxNum + 1
    decreases MaxNum + 1 - n, board
  {
    if n > MaxNum then []
    else (if Some(n) in board then [] else [n]) + UnusedFrom(board, n + 1)
  }

  /** The unused digits are listed once each, in ascending order, and are exactly the digits not on the board. */
  lemma UnusedSpec(board: seq<Cell>)
    ensures StrictlyAscending(Unused(board)) && Distinct(Unused(board))
    ensures forall d: Digit :: d in Unused(board) <==> d !in Used(board)
  {
    UnusedFromSpec(board, MinNum);
  }

  lemma {:induction false} UnusedFromSpec(board: seq<Cell>, n: int)
    requires MinNum <= n <= MaxNum + 1
    ensures forall i :: 0 <= i < |UnusedFrom(board, n)| ==> n <= UnusedFrom(board, n)[i]
    ensures StrictlyAscending(UnusedFrom(board, n)) && Distinct(UnusedFrom(board, n))
    ensures forall d: Digit :: d in UnusedFrom(board, n) <==> n <= d && Some(d) !in board
    decreases MaxNum + 1 - n, board
  {
    if n <= MaxNum {
      UnusedFromSpec(board, n + 1);
    }
  }

  /** The cells of a line, in line order. */
  function Cells(board: seq<Cell>, line: seq<nat>): (cells: seq<Cell>)
    requires forall j :: 0 <= j < |line| ==> line[j] < |board|
    ensures |cells| == |line|
    ensures forall j :: 0 <= j < |line| ==> cells[j] == board[line[j]]
  {
    seq(|line|, j requires 0 <= j < |line| => board[line[j]])
  }

  /**
    The sums a line can still reach: its known digits plus one ordered
    selection of distinct unused digits per empty cell of the line.
   */
  function LineSumSet(board: Board, line: seq<nat>): set<int>
    requires IsLine(line)
  {
    Reachable(Cells(board, line), Unused(board))
  }

  /** The known digits of `cells` plus each selection from `pool`, one per empty cell. */
  function Reachable(cells: seq<Cell>, pool: seq<Digit>): set<int> {
    SumsOver(Sum(Filled(cells)), Arrangements(pool, EmptyCount(cells)))
  }

  /** `base` plus the sum of each selection. */
  function SumsOver(base: int, combos: seq<seq<Digit>>): set<int> {
    set c | c in combos :: base + Sum(c)
  }

  /** What `possible_line_sums` returns: one ascending, repetition-free list per line. */
  ghost predicate IsLineSums(board: Board, all: seq<seq<int>>) {
    |all| == |Lines| && forall i {:trigger ListsLine(board, i, all[i])} :: 0 <= i < |Lines| ==> ListsLine(board, i, all[i])
  }

  /** `sums` lists the attainable sums of line i, ascending, each once. */
  ghost predicate ListsLine(board: Board, i: nat, sums: seq<int>) {
    i < |Lines| && IsLine(Lines[i]) && StrictlyAscending(sums) && SetOf(sums) == LineSumSet(board, Lines[i])
  }

  /** Sorts ascending, as `sort_unstable` does. */
  method SortAscending(s: seq<int>) returns (r: seq<int>)
    ensures Ascending(r)
    ensures multiset(r) == multiset(s)
  {
    r := [];
    for i := 0 to |s|
      invariant Ascending(r)
      invariant multiset(r) == multiset(s[..i])
    {
      assert s[..i + 1] == s[..i] + [s[i]];
      r := InsertAscending(r, s[i]);
    }
    assert s[..|s|] == s;
  }

  /** Puts x after every element not above it. */
  method InsertAscending(r: seq<int>, x: int) returns (r': seq<int>)
    requires Ascending(r)
    ensures Ascending(r')
    ensures multiset(r') == multiset(r) + multiset{x}
  {
    var p := 0;
    while p < |r| && r[p] <= x
      invariant 0 <= p <= |r|
      invariant forall q :: 0 <= q < p ==> r[q] <= x
    {
      p := p + 1;
    }
    assert forall q :: p <= q < |r| ==> x < r[q] by {
      if p < |r| {
        assert x < r[p];
      }
    }
    assert r == r[..p] + r[p..];
    r' := r[..p] + [x] + r[p..];
    AscendingAround(r[..p], x, r[p..]);
  }

  lemma AscendingAround(a: seq<int>, x: int, b: seq<int>)
    requires Ascending(a) && Ascending(b)
    requires forall i :: 0 <= i < |a| ==> a[i] <= x
    requires forall i :: 0 <= i < |b| ==> x <= b[i]
    ensures Ascending(a + [x] + b)
  {
    var s := a + [x] + b;
    assert forall i :: 0 <= i < |s| ==> s[i] == if i < |a| then a[i] else if i == |a| then x else b[i - |a| - 1];
  }

  /** Drops each element equal to its predecessor, as `Vec::dedup` does. */
  method Dedup(s: seq<int>) returns (r: seq<int>)
    ensures forall i :: 0 <= i < |r| - 1 ==> r[i] != r[i + 1]
    ensures SetOf(r) == SetOf(s)
    ensures Ascending(s) ==> StrictlyAscending(r)
  {
    r := [];
    for i := 0 to |s|
      invariant forall k :: 0 <= k < |r| - 1 ==> r[k] != r[k + 1]
      invariant SetOf(r) == SetOf(s[..i])
      invariant i > 0 <==> r != []
      invariant i > 0 ==> r[|r| - 1] == s[i - 1]
      invariant Ascending(s) ==> StrictlyAscending(r)
    {
      assert s[..i + 1] == s[..i] + [s[i]];
      assert SetOf(s[..i + 1]) == SetOf(s[..i]) + {s[i]};
      if r == [] || r[|r| - 1] != s[i] {
        assert SetOf(r + [s[i]]) == SetOf(r) + {s[i]};
        if Ascending(s) && r != [] {
          assert s[i - 1] <= s[i];
          StrictlyAscendingPush(r, s[i]);
        }
        r := r + [s[i]];
      } else {
        assert s[i] in SetOf(r);
      }
    }
    assert s[..|s|] == s;
  }

  lemma StrictlyAscendingPush(r: seq<int>, x: int)
    requires StrictlyAscending(r) && r != [] && r[|r| - 1] < x
    ensures StrictlyAscending(r + [x])
  {
    var s := r + [x];
    assert forall i :: 0 <= i < |s| ==> s[i] == if i < |r| then r[i] else x;
    assert forall k :: 0 <= k < |r| ==> r[k] <= r[|r| - 1];
  }

  lemma SameMultisetSameSet(a: seq<int>, b: seq<int>)
    requires multiset(a) == multiset(b)
    ensures SetOf(a) == SetOf(b)
  {
    forall x ensures x in a <==> x in b {
      assert x in a <==> x in multiset(a);
      assert x in b <==> x in multiset(b);
    }
  }

  /** The sums of all selections, listed in selection order, form the line's sum set. */
  lemma SelectionSums(cells: seq<Cell>, pool: seq<Digit>, known: seq<Digit>, combos: seq<seq<Digit>>, found: seq<int>)
    requires known == Filled(cells)
    requires combos == Arrangements(pool, EmptyCount(cells))
    requires |found| == |combos|
    requires forall m :: 0 <= m < |combos| ==> found[m] == Sum(known) + Sum(combos[m])
    ensures SetOf(found) == Reachable(cells, pool)
  {
    SumsOfSelections(Sum(known), combos, found);
  }

  lemma SumsOfSelections(base: int, combos: seq<seq<Digit>>, found: seq<int>)
    requires |found| == |combos|
    requires forall m :: 0 <= m < |combos| ==> found[m] == base + Sum(combos[m])
    ensures SetOf(found) == SumsOver(base, combos)
  {
    forall x ensures x in SetOf(found) <==> x in SumsOver(base, combos) {
      if x in SetOf(found) {
        var m :| 0 <= m < |found| && found[m] == x;
        assert combos[m] in combos;
      }
      if x in SumsOver(base, combos) {
        var c :| c in combos && x == base + Sum(c);
        var m :| 0 <= m < |combos| && combos[m] == c;
        assert found[m] == x;
      }
    }
  }

  /** The body of the closure `possible_line_sums` maps over `LINES`. */
  method LineSums(board: Board, unused: seq<Digit>, line: seq<nat>) returns (sums: seq<int>)
    requires IsLine(line)
    ensures StrictlyAscending(sums)
    ensures SetOf(sums) == Reachable(Cells(board, line), unused)
  {
    ghost var cells := Cells(board, line);
    var known, unknownIndices := SplitLine(board, line);
    if |unknownIndices| == 0 {
      // every cell of the line is known
      sums := [Sum(known)];
      assert Arrangements(unused, 0) == [[]];
      SumsOverNothing(Sum(known));
      return;
    }
    var combos := Arrangements(unused, |unknownIndices|);
    var found := CompletionSums(known, combos);
    var sorted := SortAscending(found);
    sums := Dedup(sorted);
    SameMultisetSameSet(sorted, found);
    SelectionSums(cells, unused, known, combos, found);
  }

  /** The known digits of a line in line order, and the indices of its empty cells. */
  method SplitLine(board: Board, line: seq<nat>) returns (known: seq<Digit>, unknownIndices: seq<nat>)
    requires IsLine(line)
    ensures known == Filled(Cells(board, line))
    ensures |unknownIndices| == EmptyCount(Cells(board, line))
  {
    ghost var cells := Cells(board, line);
    known := [];
    unknownIndices := [];
    for j := 0 to |line|
      invariant known == Filled(cells[..j])
      invariant |unknownIndices| == EmptyCount(cells[..j])
    {
      assert cells[..j + 1] == cells[..j] + [cells[j]];
      FilledPush(cells[..j], cells[j]);
      match board[line[j]]
      case Some(n) =>
        known := known + [n];
      case None =>
        unknownIndices := unknownIndices + [line[j]];
    }
    assert cells[..|line|] == cells;
  }

  /** The sum of the known digits plus each selection, in selection order. */
  method CompletionSums(known: seq<Digit>, combos: seq<seq<Digit>>) returns (found: seq<int>)
    ensures |found| == |combos|
    ensures forall m :: 0 <= m < |combos| ==> found[m] == Sum(known) + Sum(combos[m])
  {
    found := [];
    for c := 0 to |combos|
      invariant |found| == c
      invariant forall m :: 0 <= m < c ==> found[m] == Sum(known) + Sum(combos[m])
    {
      SumConcat(known, combos[c]);
      found := found + [Sum(known + combos[c])];
    }
  }

  /** `possible_line_sums`: the attainable sums of every line, in `LINES` order. */
  method PossibleLineSums(board: Board) returns (all: seq<seq<int>>)
    ensures IsLineSums(board, all)
  {
    var unused := Unused(board);
    all := [];
    for i := 0 to |Lines|
      invariant |all| == i
      invariant forall m :: 0 <= m < i ==> ListsLine(board, m, all[m])
    {
      LinesShape();
      var sums := LineSums(board, unused, Lines[i]);
      ListsLinePush(board, all, sums);
      all := all + [sums];
    }
  }

  lemma ListsLinePush(board: Board, all: seq<seq<int>>, sums: seq<int>)
    requires |all| < |Lines| && IsLine(Lines[|all|])
    requires forall m :: 0 <= m < |all| ==> ListsLine(board, m, all[m])
    requires StrictlyAscending(sums)
    requires SetOf(sums) == Reachable(Cells(board, Lines[|all|]), Unused(board))
    ensures forall m :: 0 <= m < |all| + 1 ==> ListsLine(board, m, (all + [sums])[m])
  {
    assert ListsLine(board, |all|, sums);
  }

  /** Each sum list mapped through the payout table, list by list and place by place. */
  ghost predicate PaysFor(sums: seq<seq<int>>, payouts: seq<seq<nat>>) {
    |payouts| == |sums| &&
    forall i :: 0 <= i < |sums| ==>
      |payouts[i]| == |sums[i]| &&
      forall j :: 0 <= j < |sums[i]| ==> payouts[i][j] == PayoutForSum(sums[i][j])
  }

  /** `possible_line_payouts`: the sums of every line replaced by their payouts. */
  method PossibleLinePayouts(board: Board) returns (payouts: seq<seq<nat>>)
    ensures exists sums :: IsLineSums(board, sums) && PaysFor(sums, payouts)
  {
    var sums := PossibleLineSums(board);
    payouts := seq(|sums|, i requires 0 <= i < |sums| =>
      seq(|sums[i]|, j requires 0 <= j < |sums[i]| => PayoutForSum(sums[i][j])));
    assert IsLineSums(board, sums) && PaysFor(sums, payouts);
  }

  /** A way to fill the empty cells of a line: one distinct digit per empty cell, none already on the board. */
  ghost predicate Fills(board: Board, line: seq<nat>, c: seq<Digit>)
    requires IsLine(line)
  {
    |c| == EmptyCount(Cells(board, line)) && Distinct(c) && forall x :: x in c ==> x !in Used(board)
  }

  /**
    A sum is attainable on a line exactly when it is the sum of the line's
    known digits plus one filling of its empty cells.
   */
  lemma LineSumSetMember(board: Board, line: seq<nat>, s: int)
    requires IsLine(line)
    ensures s in LineSumSet(board, line) <==>
      exists c: seq<Digit> {:trigger Fills(board, line, c)} :: Fills(board, line, c) && s == Sum(Filled(Cells(board, line))) + Sum(c)
  {
    if s in LineSumSet(board, line) {
      var c := MemberFilling(board, line, s);
    }
    if exists c: seq<Digit> {:trigger Fills(board, line, c)} :: Fills(board, line, c) && s == Sum(Filled(Cells(board, line))) + Sum(c) {
      var c: seq<Digit> :| Fills(board, line, c) && s == Sum(Filled(Cells(board, line))) + Sum(c);
      FillingMember(board, line, c);
    }
  }

  /** Every attainable sum comes from a filling. */
  lemma MemberFilling(board: Board, line: seq<nat>, s: int) returns (c: seq<Digit>)
    requires IsLine(line) && s in LineSumSet(board, line)
    ensures Fills(board, line, c) && s == Sum(Filled(Cells(board, line))) + Sum(c)
  {
    var combos := Arrangements(Unused(board), EmptyCount(Cells(board, line)));
    c :| c in combos && s == Sum(Filled(Cells(board, line))) + Sum(c);
    SelectionFills(board, line, c);
  }

  /** Every filling gives an attainable sum. */
  lemma FillingMember(board: Board, line: seq<nat>, c: seq<Digit>)
    requires IsLine(line) && Fills(board, line, c)
    ensures Sum(Filled(Cells(board, line))) + Sum(c) in LineSumSet(board, line)
  {
    SelectionFills(board, line, c);
    SelectionSum(board, line, c);
  }

  lemma SelectionSum(board: Board, line: seq<nat>, c: seq<Digit>)
    requires IsLine(line) && c in Arrangements(Unused(board), EmptyCount(Cells(board, line)))
    ensures Sum(Filled(Cells(board, line))) + Sum(c) in LineSumSet(board, line)
  {
    var cells, pool := Cells(board, line), Unused(board);
    var base := Sum(Filled(cells));
    assert base + Sum(c) in Reachable(cells, pool) by {
      SumsOverMember(base, Arrangements(pool, EmptyCount(cells)), c);
    }
  }

  lemma SumsOverMember(base: int, combos: seq<seq<Digit>>, c: seq<Digit>)
    requires c in combos
    ensures base + Sum(c) in SumsOver(base, combos)
  {
  }

  /** The selections of unused digits for a line are exactly its fillings. */
  lemma SelectionFills(board: Board, line: seq<nat>, c: seq<Digit>)
    requires IsLine(line)
    ensures c in Arrangements(Unused(board), EmptyCount(Cells(board, line))) <==> Fills(board, line, c)
  {
    UnusedSpec(board);
    ArrangementsMember(Unused(board), EmptyCount(Cells(board, line)), c);
  }

  /** Two strictly ascending lists of the same elements are the same list. */
  lemma {:induction false} AscendingUnique(a: seq<int>, b: seq<int>)
    requires StrictlyAscending(a) && StrictlyAscending(b) && SetOf(a) == SetOf(b)
    ensures a == b
    decreases |a|
  {
    if a != [] {
      assert a[0] in SetOf(b);
      assert b != [];
      assert b[0] in SetOf(a);
      assert a[0] == b[0] by {
        var i :| 0 <= i < |b| && b[i] == a[0];
        var j :| 0 <= j < |a| && a[j] == b[0];
        assert b[0] <= a[0] && a[0] <= b[0];
      }
      assert SetOf(a[1..]) == SetOf(b[1..]) by {
        forall x ensures x in SetOf(a[1..]) <==> x in SetOf(b[1..]) {
          assert x in SetOf(a[1..]) <==> x in SetOf(a) && x != a[0];
          assert x in SetOf(b[1..]) <==> x in SetOf(b) && x != b[0];
        }
      }
      AscendingUnique(a[1..], b[1..]);
      assert a == [a[0]] + a[1..] && b == [b[0]] + b[1..];
    } else {
      SetOfEmpty(b);
    }
  }

  lemma SetOfEmpty(s: seq<int>)
    ensures SetOf(s) == {} <==> s == []
  {
    if s != [] {
      assert s[0] in SetOf(s);
    }
  }

  /** `possible_line_sums` has exactly one correct answer per board. */
  lemma LineSumsDetermined(board: Board, a: seq<seq<int>>, b: seq<seq<int>>)
    requires IsLineSums(board, a) && IsLineSums(board, b)
    ensures a == b
  {
    forall i | 0 <= i < |Lines| ensures a[i] == b[i] {
      assert ListsLine(board, i, a[i]) && ListsLine(board, i, b[i]);
      AscendingUnique(a[i], b[i]);
    }
  }

  /** A line without an empty cell yields the single list of its digit sum. */
  lemma CompleteLineSums(board: Board, all: seq<seq<int>>, i: nat)
    requires IsLineSums(board, all) && i < |Lines|
    requires EmptyCount(Cells(board, Lines[i])) == 0
    ensures all[i] == [Sum(Filled(Cells(board, Lines[i])))]
  {
    assert ListsLine(board, i, all[i]);
    var base := Sum(Filled(Cells(board, Lines[i])));
    assert Arrangements(Unused(board), 0) == [[]];
    assert Sum([]) == 0;
    assert LineSumSet(board, Lines[i]) == {base};
    assert SetOf([base]) == {base};
    AscendingUnique(all[i], [base]);
  }

  /** The board 1..9 in reading order, every cell revealed. */
  predicate IsFullBoard(board: Board) {
    forall i :: 0 <= i < NumCells ==> board[i] == Some(i + 1)
  }

  /** Only the top-left cell revealed, holding 1. */
  predicate IsOneRevealed(board: Board) {
    board[0] == Some(1) && forall i :: 0 < i < NumCells ==> board[i] == None
  }

  /** On the full board the three rows sum to 6, 15 and 24. */
  lemma FullBoardSums(board: Board, all: seq<seq<int>>)
    requires IsFullBoard(board) && IsLineSums(board, all)
    ensures all[0] == [6] && all[1] == [15] && all[2] == [24]
  {
    assert all[0] == [6] by {
      KnownLineSums(board, all, 0, [1, 2, 3]);
    }
    assert all[1] == [15] by {
      KnownLineSums(board, all, 1, [4, 5, 6]);
    }
    assert all[2] == [24] by {
      KnownLineSums(board, all, 2, [7, 8, 9]);
    }
  }

  /** The one ascending list of a single value. */
  lemma SingletonList(s: seq<int>, x: int)
    requires StrictlyAscending(s) && SetOf(s) == {x}
    ensures s == [x]
  {
    assert SetOf([x]) == {x};
    AscendingUnique(s, [x]);
  }

  /** A line whose cells all hold known digits can reach their sum and nothing else. */
  lemma KnownLineSet(board: Board, line: seq<nat>, known: seq<Digit>)
    requires IsLine(line)
    requires |known| == 3 && forall j :: 0 <= j < 3 ==> board[line[j]] == Some(known[j])
    ensures LineSumSet(board, line) == {Sum(known)}
  {
    var cells := Cells(board, line);
    assert cells == seq(|known|, j requires 0 <= j < |known| => Some(known[j])) by {
      forall j | 0 <= j < 3 ensures cells[j] == Some(known[j]) {
        assert cells[j] == board[line[j]];
      }
    }
    FilledOfKnown(known);
    assert Arrangements(Unused(board), 0) == [[]];
    SumsOverNothing(Sum(known));
  }

  /** With nothing left to choose, the only sum is the base. */
  lemma SumsOverNothing(base: int)
    ensures SumsOver(base, [[]]) == {base}
  {
    var none: seq<Digit> := [];
    assert Sum(none) == 0;
    assert none in [none];
  }

  lemma KnownLineSums(board: Board, all: seq<seq<int>>, i: nat, known: seq<Digit>)
    requires IsLineSums(board, all) && i < |Lines|
    requires |known| == 3 && forall j :: 0 <= j < 3 ==> board[Lines[i][j]] == Some(known[j])
    ensures all[i] == [Sum(known)]
  {
    LinesShape();
    KnownLineSet(board, Lines[i], known);
    assert ListsLine(board, i, all[i]);
    SingletonList(all[i], Sum(known));
  }

  /** The payouts of the full board's rows are those of 6, 15 and 24. */
  lemma FullBoardPayouts(board: Board, sums: seq<seq<int>>, payouts: seq<seq<nat>>)
    requires IsFullBoard(board) && IsLineSums(board, sums) && PaysFor(sums, payouts)
    ensures payouts[0] == [PayoutForSum(6)] && payouts[1] == [PayoutForSum(15)] && payouts[2] == [PayoutForSum(24)]
    ensures payouts[0] == [10000] && payouts[1] == [180] && payouts[2] == [3600]
  {
    FullBoardSums(board, sums);
  }

  lemma Sum2(c: seq<int>)
    requires |c| == 2
    ensures Sum(c) == c[0] + c[1]
  {
    assert Sum(c[1..]) == c[1] by {
      assert c[1..][1..] == [];
    }
  }

  /** The line sums 6..18, each once, ascending. */
  const SixToEighteen: seq<int> := [6, 7, 8, 9, 10, 11, 12, 13, 14, 15, 16, 17, 18]

  /**
    With only 1 revealed in the top-left cell, the top row can reach each
    sum from 6 to 18 and no other: thirteen distinct sums.
   */
  lemma OneRevealedSums(board: Board, all: seq<seq<int>>)
    requires IsOneRevealed(board) && IsLineSums(board, all)
    ensures all[0] == SixToEighteen
    ensures |all[0]| == 13 && forall s :: s in all[0] ==> 6 <= s <= 18
  {
    assert ListsLine(board, 0, all[0]);
    OneRevealedSet(board);
    assert StrictlyAscending(SixToEighteen);
    AscendingUnique(all[0], SixToEighteen);
  }

  lemma OneRevealedSet(board: Board)
    requires IsOneRevealed(board)
    ensures LineSumSet(board, Lines[0]) == SetOf(SixToEighteen)
  {
    forall s ensures s in SetOf(SixToEighteen) <==> s in LineSumSet(board, Lines[0]) {
      OneRevealedTopRow(board, s);
      SixToEighteenMember(s);
    }
  }

  lemma SixToEighteenMember(s: int)
    ensures s in SetOf(SixToEighteen) <==> 6 <= s <= 18
  {
    if 6 <= s <= 18 {
      assert SixToEighteen[s - 6] == s;
    }
  }

  /** The sums the top row can reach when only its first cell, holding 1, is revealed. */
  lemma OneRevealedTopRow(board: Board, s: int)
    requires IsOneRevealed(board)
    ensures s in LineSumSet(board, Lines[0]) <==> 6 <= s <= 18
  {
    OneRevealedTopCells(board);
    LineSumSetMember(board, Lines[0], s);
    if s in LineSumSet(board, Lines[0]) {
      var c: seq<Digit> :| Fills(board, Lines[0], c) && s == 1 + Sum(c);
      OneRevealedFillingSum(board, c);
    }
    if 6 <= s <= 18 {
      var t: int := s - 1;
      var c: seq<Digit> := if t <= 11 then [2, t - 2] else [t - 9, 9];
      OneRevealedFilling(board, c);
    }
  }

  lemma OneRevealedTopCells(board: Board)
    requires IsOneRevealed(board)
    ensures Filled(Cells(board, Lines[0])) == [1] && EmptyCount(Cells(board, Lines[0])) == 2
    ensures Sum(Filled(Cells(board, Lines[0]))) == 1
  {
    var cells := Cells(board, Lines[0]);
    assert cells == [Some(1), None, None];
    assert cells[..2][..1] == [Some(1)] && cells[..2] == [Some(1), None];
    assert Sum([1]) == 1;
  }

  /** Two distinct digits other than 1 add up to 5..17. */
  lemma OneRevealedFillingSum(board: Board, c: seq<Digit>)
    requires IsOneRevealed(board) && Fills(board, Lines[0], c)
    ensures 5 <= Sum(c) <= 17
  {
    OneRevealedTopCells(board);
    assert c[0] in c && c[1] in c;
    assert Some(1) in board;
    Sum2(c);
  }

  lemma OneRevealedFilling(board: Board, c: seq<Digit>)
    requires IsOneRevealed(board)
    requires |c| == 2 && c[0] != c[1] && c[0] != 1 && c[1] != 1
    ensures Fills(board, Lines[0], c) && Sum(c) == c[0] as int + c[1]
  {
    OneRevealedTopCells(board);
    Sum2(c);
  }

  /** No cell revealed yet. */
  predicate IsEmptyBoard(board: Board) {
    forall i :: 0 <= i < NumCells ==> board[i] == None
  }

  /** The sums the top row can reach on an empty board. */
  lemma EmptyTopRow(board: Board, s: int)
    requires IsEmptyBoard(board)
    ensures s in LineSumSet(board, Lines[0]) <==> 6 <= s <= 24
  {
    EmptyTopCells(board);
    LineSumSetMember(board, Lines[0], s);
    if s in LineSumSet(board, Lines[0]) {
      var c: seq<Digit> :| Fills(board, Lines[0], c) && s == Sum(Filled(Cells(board, Lines[0]))) + Sum(c);
      DistinctDigitsSum(c);
    }
    if 6 <= s <= 24 {
      var c: seq<Digit> := if s <= 12 then [1, 2, s - 3] else if s <= 18 then [1, s - 10, 9] else [s - 17, 8, 9];
      EmptyFilling(board, c);
    }
  }

  lemma EmptyTopCells(board: Board)
    requires IsEmptyBoard(board)
    ensures Filled(Cells(board, Lines[0])) == [] && EmptyCount(Cells(board, Lines[0])) == 3
  {
    var cells := Cells(board, Lines[0]);
    assert cells == [None, None, None];
    FilledNone(cells);
  }

  lemma EmptyFilling(board: Board, c: seq<Digit>)
    requires IsEmptyBoard(board)
    requires |c| == 3 && c[0] != c[1] && c[0] != c[2] && c[1] != c[2]
    ensures Fills(board, Lines[0], c) && Sum(c) == c[0] as int + c[1] + c[2]
  {
    EmptyTopCells(board);
    assert Distinct(c) by {
      forall i, j | 0 <= i < j < |c| ensures c[i] != c[j] {
        assert (i == 0 && j == 1) || (i == 0 && j == 2) || (i == 1 && j == 2);
      }
    }
    Sum3(c);
  }
}
