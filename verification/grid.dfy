/**
  Cycling the digit of a cell with the mouse wheel
  (`next_number` in src/components/grid.rs).

  The board is nine optional digits and `used()` the set of digits on it;
  the board type is imported by src/components/grid.rs but not defined in
  the modelled files, so both are assumptions of this model (see
  `Digits.Board` and `Digits.Used`).
 */
module GridInput {
  import opened Digits
  import Logic

  datatype ScrollDirection = Up | Down

  /** The digits from n to 9 that are unused or equal to the cell's own digit, ascending. */
  function CandidatesFrom(board: Board, current: Cell, n: int): seq<Digit>
    requires 1 <= n <= 10
    decreases 10 - n, board
  {
    if n > 9 then []
    else (if n !in Used(board) || Some(n) == current then [n] else []) + CandidatesFrom(board, current, n + 1)
  }

  /** The digits the cell at idx may take: `unused` in `next_number`. */
  function Candidates(board: Board, idx: nat): seq<Digit>
    requires idx < NumCells
  {
    CandidatesFrom(board, board[idx], 1)
  }

  lemma {:induction false} CandidatesFromSpec(board: Board, current: Cell, n: int)
    requires 1 <= n <= 10
    ensures Logic.StrictlyAscending(CandidatesFrom(board, current, n))
    ensures forall i :: 0 <= i < |CandidatesFrom(board, current, n)| ==> n <= CandidatesFrom(board, current, n)[i]
    ensures forall d: Digit :: d in CandidatesFrom(board, current, n) <==> n <= d && (Some(d) !in board || Some(d) == current)
    decreases 10 - n, board
  {
    if n <= 9 {
      CandidatesFromSpec(board, current, n + 1);
      var head: seq<Digit> := if n !in Used(board) || Some(n) == current then [n] else [];
      AscendingCons(head, CandidatesFrom(board, current, n + 1), n);
    }
  }

  /** Putting at most the one digit n in front of a strictly ascending list of digits above n. */
  lemma AscendingCons(head: seq<Digit>, rest: seq<Digit>, n: int)
    requires head == [] || head == [n]
    requires Logic.StrictlyAscending(rest)
    requires forall i :: 0 <= i < |rest| ==> n + 1 <= rest[i]
    ensures Logic.StrictlyAscending(head + rest)
    ensures forall i :: 0 <= i < |head + rest| ==> n <= (head + rest)[i]
  {
    var s := head + rest;
    assert forall i :: 0 <= i < |s| ==> s[i] == if i < |head| then n else rest[i - |head|];
  }

  /**
    The candidates are the digits 1..9, ascending, that no cell holds or
    that the cell itself holds.
   */
  lemma CandidatesSpec(board: Board, idx: nat)
    requires idx < NumCells
    ensures Logic.StrictlyAscending(Candidates(board, idx))
    ensures forall d: Digit :: d in Candidates(board, idx) <==> Some(d) !in board || board[idx] == Some(d)
  {
    CandidatesFromSpec(board, board[idx], 1);
  }

  /** The first index holding n (`iter().position`). */
  function Position(s: seq<Digit>, n: Digit): (pos: Option<nat>)
    ensures pos.None? <==> n !in s
    ensures pos.Some? ==> pos.value < |s| && s[pos.value] == n && forall q :: 0 <= q < pos.value ==> s[q] != n
  {
    if s == [] then None
    else if s[0] == n then Some(0)
    else
      match Position(s[1..], n)
      case None => None
      case Some(p) =>
        assert forall q :: 1 <= q <= p ==> s[q] == s[1..][q - 1];
        Some(p + 1)
  }

  /** The smallest entry (`iter().min()`), None for an empty list. */
  function Min(s: seq<Digit>): (m: Option<Digit>)
    ensures m.None? <==> s == []
    ensures m.Some? ==> m.value in s && forall x :: x in s ==> m.value <= x
  {
    if s == [] then None
    else
      assert forall x :: x in s ==> x == s[0] || x in s[1..];
      match Min(s[1..])
      case None => Some(s[0])
      case Some(r) => if r < s[0] then Some(r) else Some(s[0])
  }

  /** The largest entry (`iter().max()`), None for an empty list. */
  function Max(s: seq<Digit>): (m: Option<Digit>)
    ensures m.None? <==> s == []
    ensures m.Some? ==> m.value in s && forall x :: x in s ==> x <= m.value
  {
    if s == [] then None
    else
      assert forall x :: x in s ==> x == s[0] || x in s[1..];
      match Max(s[1..])
      case None => Some(s[0])
      case Some(r) => if r > s[0] then Some(r) else Some(s[0])
  }

  /**
    `next_number`: an empty cell takes the smallest (Up) or largest (Down)
    candidate; a filled cell steps to the neighbouring candidate in the
    direction of the scroll and stays put at either end.
   */
  function NextNumber(board: Board, idx: nat, direction: ScrollDirection): Option<Digit>
    requires idx < NumCells
  {
    var current := board[idx];
    var unused := Candidates(board, idx);
    match current
    case Some(n) =>
      (match Position(unused, n)
       case None => current
       case Some(pos) =>
         match direction
         case Up => if pos + 1 < |unused| then Some(unused[pos + 1]) else Some(n)
         case Down => if pos > 0 then Some(unused[pos - 1]) else Some(n))
    case None =>
      match direction
      case Up => Min(unused)
      case Down => Max(unused)
  }

  /** The cell's own digit is always a candidate, so `next_number` never takes its early return. */
  lemma CurrentIsCandidate(board: Board, idx: nat, n: Digit)
    requires idx < NumCells && board[idx] == Some(n)
    ensures Position(Candidates(board, idx), n).Some?
  {
    CandidatesSpec(board, idx);
  }

  /**
    On an empty cell the candidates are the unused digits; Up gives the
    smallest and Down the largest, and there is no result only when every
    digit is placed.
   */
  lemma NextOnEmpty(board: Board, idx: nat, direction: ScrollDirection)
    requires idx < NumCells && board[idx] == None
    ensures forall d: Digit :: d in Candidates(board, idx) <==> d !in Used(board)
    ensures NextNumber(board, idx, direction).None? <==> Candidates(board, idx) == []
    ensures NextNumber(board, idx, direction).Some? ==> NextNumber(board, idx, direction).value in Candidates(board, idx)
    ensures direction == Up && NextNumber(board, idx, direction).Some? ==>
      forall c :: c in Candidates(board, idx) ==> NextNumber(board, idx, direction).value <= c
    ensures direction == Down && NextNumber(board, idx, direction).Some? ==>
      forall c :: c in Candidates(board, idx) ==> c <= NextNumber(board, idx, direction).value
  {
    CandidatesSpec(board, idx);
  }

  /** Scrolling up on a digit n gives the next larger candidate, or n when there is none. */
  lemma NextUpOnFilled(board: Board, idx: nat, n: Digit)
    requires idx < NumCells && board[idx] == Some(n)
    ensures NextNumber(board, idx, Up).Some?
    ensures var m := NextNumber(board, idx, Up).value;
      m in Candidates(board, idx) && n <= m &&
      (forall c :: c in Candidates(board, idx) && n < c ==> m <= c) &&
      (m == n <==> forall c :: c in Candidates(board, idx) ==> c <= n)
  {
    CandidatesSpec(board, idx);
    AscendingNext(Candidates(board, idx), Position(Candidates(board, idx), n).value, n);
  }

  /** Scrolling down on a digit n gives the next smaller candidate, or n when there is none. */
  lemma NextDownOnFilled(board: Board, idx: nat, n: Digit)
    requires idx < NumCells && board[idx] == Some(n)
    ensures NextNumber(board, idx, Down).Some?
    ensures var m := NextNumber(board, idx, Down).value;
      m in Candidates(board, idx) && m <= n &&
      (forall c :: c in Candidates(board, idx) && c < n ==> c <= m) &&
      (m == n <==> forall c :: c in Candidates(board, idx) ==> n <= c)
  {
    CandidatesSpec(board, idx);
    AscendingPrevious(Candidates(board, idx), Position(Candidates(board, idx), n).value, n);
  }

  /** In a strictly ascending list, the entry after n is the least entry above n. */
  lemma AscendingNext(s: seq<Digit>, pos: nat, n: Digit)
    requires Logic.StrictlyAscending(s) && pos < |s| && s[pos] == n
    ensures pos + 1 < |s| ==> n < s[pos + 1]
    ensures forall c :: c in s && n < c ==> pos + 1 < |s| && s[pos + 1] <= c
    ensures pos + 1 == |s| ==> forall c :: c in s ==> c <= n
  {
    forall c | c in s ensures n < c ==> pos + 1 < |s| && s[pos + 1] <= c
      ensures pos + 1 == |s| ==> c <= n
    {
      var q :| 0 <= q < |s| && s[q] == c;
      if n < c {
        assert pos < q;
      }
    }
  }

  /** In a strictly ascending list, the entry before n is the greatest entry below n. */
  lemma AscendingPrevious(s: seq<Digit>, pos: nat, n: Digit)
    requires Logic.StrictlyAscending(s) && pos < |s| && s[pos] == n
    ensures 0 < pos ==> s[pos - 1] < n
    ensures forall c :: c in s && c < n ==> 0 < pos && c <= s[pos - 1]
    ensures pos == 0 ==> forall c :: c in s ==> n <= c
  {
    forall c | c in s ensures c < n ==> 0 < pos && c <= s[pos - 1]
      ensures pos == 0 ==> n <= c
    {
      var q :| 0 <= q < |s| && s[q] == c;
      if c < n {
        assert q < pos;
      }
    }
  }

  /** On a board without repeated digits, a digit `next_number` offers is held by no other cell. */
  lemma NextIsFree(board: Board, idx: nat, direction: ScrollDirection, j: nat)
    requires idx < NumCells && DistinctBoard(board) && NextNumber(board, idx, direction).Some?
    requires j < NumCells && j != idx
    ensures board[j] != NextNumber(board, idx, direction)
  {
    CandidatesSpec(board, idx);
    var d := NextNumber(board, idx, direction).value;
    if board[idx].Some? {
      if direction == Up {
        NextUpOnFilled(board, idx, board[idx].value);
      } else {
        NextDownOnFilled(board, idx, board[idx].value);
      }
    } else {
      NextOnEmpty(board, idx, direction);
    }
    assert d in Candidates(board, idx);
    if board[idx] != Some(d) {
      assert Some(d) !in board;
    } else if j < idx {
      assert board[j] != board[idx];
    } else {
      assert board[idx] != board[j];
    }
  }

  /**
    Moving a cell from n to another candidate m leaves the candidates of
    that cell unchanged: n is freed and m was free.
   */
  lemma CandidatesAfterMove(board: Board, idx: nat, n: Digit, m: Digit)
    requires idx < NumCells && DistinctBoard(board) && board[idx] == Some(n)
    requires m in Candidates(board, idx)
    ensures forall c: Digit :: c in Candidates(board[idx := Some(m)], idx) <==> c in Candidates(board, idx)
  {
    var board' := board[idx := Some(m)];
    CandidatesSpec(board, idx);
    CandidatesSpec(board', idx);
    forall c: Digit ensures Some(c) in board' && board'[idx] != Some(c) <==> Some(c) in board && board[idx] != Some(c) {
      if Some(c) in board' && c != m {
        var j :| 0 <= j < |board'| && board'[j] == Some(c);
        assert board[j] == Some(c);
      }
      if Some(c) in board && c != n {
        var j :| 0 <= j < |board| && board[j] == Some(c);
        assert j != idx && board'[j] == Some(c);
        assert m != c;
      }
    }
  }

  /**
    Round trip: from a cell holding n below the largest candidate, one
    step up and one step down brings n back.
   */
  lemma UpThenDown(board: Board, idx: nat, n: Digit)
    requires idx < NumCells && DistinctBoard(board) && board[idx] == Some(n)
    requires exists c :: c in Candidates(board, idx) && n < c
    ensures NextNumber(board, idx, Up).Some?
    ensures NextNumber(board[idx := Some(NextNumber(board, idx, Up).value)], idx, Down) == Some(n)
  {
    NextUpOnFilled(board, idx, n);
    var m := NextNumber(board, idx, Up).value;
    var above :| above in Candidates(board, idx) && n < above;
    assert m <= above && m != n;
    CandidatesAfterMove(board, idx, n, m);
    CandidatesSpec(board, idx);
    var board' := board[idx := Some(m)];
    assert n in Candidates(board', idx);
    forall c | c in Candidates(board', idx) && n < c ensures m <= c {
      assert c in Candidates(board, idx);
    }
    DownToPrevious(board', idx, m, n);
  }

  /** Scrolling down from m lands on n when n is the largest candidate below m. */
  lemma DownToPrevious(board: Board, idx: nat, m: Digit, n: Digit)
    requires idx < NumCells && board[idx] == Some(m)
    requires n in Candidates(board, idx) && n < m
    requires forall c :: c in Candidates(board, idx) && n < c ==> m <= c
    ensures NextNumber(board, idx, Down) == Some(n)
  {
    NextDownOnFilled(board, idx, m);
  }
}
