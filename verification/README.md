# Mini Cactpot helper — a verified model

Mini Cactpot is a 3×3 scratch card. Its nine cells hide the digits 1..9,
each digit once. The player reveals some cells and then picks one of the
eight lines: three rows, three columns and two diagonals. The line pays
according to the sum of its three digits, from 6 (10000) to 24 (3600).
The helper tells the player what each line can still pay.

This project models the helper's two payout engines and the part of its
user interface that is pure logic:

- `digits.dfy` (module `Digits`): digits, cells, the nine-cell board,
  and the known digits of a list of cells.
- `enumeration.dfy` (module `Enumeration`): ordered selections of k
  distinct entries of a list. This is what `permutations(k)` enumerates.
- `logic.dfy` (module `Logic`): the current engine. It holds the payout
  table, the eight lines, `possible_line_sums` and
  `possible_line_payouts`. The methods mirror the source's loops: split a
  line, enumerate its completions, sort, deduplicate. Each method is
  proved against `LineSumSet`, the set of sums a line can still reach.
- `solver.dfy` (module `Solver`): the older engine. `row_gil` pays a
  line of three known digits. The recursive `possible` counts the
  completions of a line per payout. `Possible` is the method that walks
  the remaining digits and merges the counts. `Tally` is the function it
  is proved against.
- `models.dfy` (module `Models`): the grid, the lines
  through a cell, `remaining` and `max_value`. It relates the older
  engine to the newer one: a payout is a key of `possible` for a line
  exactly when some attainable sum of that line pays it.
- `app_logic.dfy` (module `AppLogic`): the table rows the interface
  shows. `prepare_rows` gives a label, a floor average, a maximum and a
  count of the maximum. `sort_rows` is a stable sort by average or
  maximum, largest first.
- `grid.dfy` (module `GridInput`): `next_number`, the digit a scroll over
  a cell moves to.

Panics of the source become preconditions: `rows` with an index above 8,
for example, or `row_gil` on a sum outside 6..24. `Solver.Completes`
says that no completion of a line reaches `unreachable!` in `row_gil`.
`Models.RowsComplete` says the same for every line through a cell.

## Model

| member | source | states |
|---|---|---|
| Digits.Filled | src/solver.rs:31 | The known digits are no more than the cells, and d is among them exactly when some cell holds d |
| Digits.FilledPush | src/solver.rs:31 | Appending a cell appends its digit, if it holds one, to the known digits, and otherwise adds one to the empty count |
| Digits.FilledConcat | src/solver.rs:31 | The known digits keep cell order: those of a + b are those of a followed by those of b, and the empty counts add up |
| Digits.EmptyCount | src/logic.rs:69-76 | The empty cells and the known digits together account for every cell of the line |
| Digits.Used | src/components/grid.rs:32 | The set of digits on the board holds d exactly when some cell holds d |
| Digits.MaxOrZero | src/models.rs:33 | The maximum of a list bounds every entry and is one of them, or 0 for the empty list |
| Digits.DistinctDigitsSum | src/solver.rs:4-27 | Three distinct digits sum to 6..24, the range `row_gil` covers |
| Enumeration.ArrangementsMember | src/logic.rs:84-89 | The selections of k unused digits are exactly the repetition-free lists of length k drawn from the pool |
| Enumeration.ArrangementsLength | src/logic.rs:84-89 | There are n!/(n-k)! such selections |
| Logic.LinesShape | src/logic.rs:11-23 | There are eight lines: rows 3i..3i+2, columns i, i+3, i+6, then the diagonals 0,4,8 and 2,4,6; each holds three distinct cells |
| Logic.PayoutForSum | src/logic.rs:55-58 | A sum pays something exactly when it lies in 6..24, and never more than 10000 |
| Logic.PayoutTableSamples | src/logic.rs:112-123 | The table entries the tests check: 6 pays 10000, 7 pays 36, 24 pays 3600, 15 pays 180, 18 pays 119 |
| Logic.UnusedSpec | src/logic.rs:62-65 | The unused digits are ascending, and d is among them exactly when d is not on the board |
| Logic.SplitLine | src/logic.rs:69-76 | The split gives the line's known digits in order and one index per empty cell |
| Logic.CompletionSums | src/logic.rs:84-92 | Each selection yields the sum of the known digits plus the selection's sum |
| Logic.SortAscending | src/logic.rs:93 | The result is ascending and a permutation of its input |
| Logic.Dedup | src/logic.rs:94 | No two neighbours are equal, the set of values is kept, and ascending input gives strictly ascending output |
| Logic.LineSums | src/logic.rs:68-96 | One line's list is strictly ascending and holds exactly the sums the line can still reach |
| Logic.PossibleLineSums | src/logic.rs:61-98 | One strictly ascending list per line, in line order, holding exactly that line's attainable sums |
| Logic.PossibleLinePayouts | src/logic.rs:101-106 | Each attainable sum, line by line and place by place, is replaced by its payout |
| Logic.LineSumSetMember | src/logic.rs:84-92 | A sum is attainable exactly when it is the known digits plus one filling of the empty cells with distinct unused digits |
| Logic.SelectionFills | src/logic.rs:84-89 | A selection is enumerated exactly when it fills the empty cells with distinct digits not on the board |
| Logic.LineSumsDetermined | src/logic.rs:61-98 | Any two results for the same board are equal: the sorted, repetition-free lists are unique |
| Logic.CompleteLineSums | src/logic.rs:77-80 | A line with no empty cell lists its own sum alone |
| Logic.FullBoardSums | src/logic.rs:125-143 | On the board 1..9 the rows list only 6, 15 and 24 |
| Logic.FullBoardPayouts | src/logic.rs:155-172 | On the board 1..9 the rows pay only 10000, 180 and 3600 |
| Logic.OneRevealedSums | src/logic.rs:145-153 | With only 1 revealed top-left, the top row lists the 13 sums 6..18 |
| Logic.OneRevealedTopRow | src/logic.rs:145-153 | With only 1 revealed top-left, s is attainable on the top row exactly when 6 <= s <= 18 |
| Logic.EmptyTopRow | src/logic.rs:61-98 | On an empty board, s is attainable on the top row exactly when 6 <= s <= 24 |
| Solver.RowGil | src/solver.rs:4-27 | `row_gil` pays the table's payout of the three digits' sum, one of the 16 payout values |
| Solver.WithoutRemoveAt | src/solver.rs:42-46 | On a list without repeats, filtering out one entry removes exactly that position, keeps the rest in order, and leaves no repeats |
| Solver.AddCounts | src/solver.rs:48-50 | The merge loop adds every count of the child map into the accumulator |
| Solver.Possible | src/solver.rs:29-55 | `possible` returns, per payout, the number of completions of the line's known digits by ordered selections from `remaining` |
| Solver.DifferentCompletes | src/solver.rs:29-55 | When the known and remaining digits are all distinct, `possible` never reaches `unreachable!` |
| Solver.TallyTotal | src/solver.rs:29-55 | The counts of a line with k open cells and n distinct remaining digits add up to n!/(n-k)! |
| Solver.TallyCounts | src/solver.rs:29-55 | The count of payout p is the number of selections whose completed sum pays p |
| Solver.TallyKeys | src/solver.rs:29-55 | p is a key exactly when some selection completes the line to a sum paying p |
| Solver.KeysAtMostTop | src/solver.rs:4-27 | No key exceeds 10000 |
| Solver.AllKnownTally | src/solver.rs:57-72 | A line 1, 2, 3 is one completion paying 10000 |
| Solver.OneOpenTally | src/solver.rs:74-98 | 1 and 2 known with 3..9 left give seven completions paying 10000, 36, 720, 360, 80, 252 and 108, once each |
| Solver.TwoOpenTotal | src/solver.rs:100-129 | 1 known with eight distinct digits left: the counts add up to 56 |
| Solver.ThreeOpenTotal | src/solver.rs:131-166 | Nothing known with nine distinct digits left: the counts add up to 504 |
| Models.Row | src/models.rs:55-62 | Row i is the cells of the line 3i, 3i+1, 3i+2 |
| Models.Column | src/models.rs:64-71 | Column i is the cells of the line i, i+3, i+6 |
| Models.Slash | src/models.rs:73-75 | `slash` is the cells 2, 4, 6 |
| Models.Backslash | src/models.rs:77-80 | `backslash` is the cells 0, 4, 8 |
| Models.RowsThrough | src/models.rs:40-53 | `rows(i)` lists four lines for the centre, three for a corner and two for an edge; each passes through i, every line through i is listed, and none twice |
| Models.Remaining | src/models.rs:36-38 | `remaining` holds exactly the digits placed on the grid, not the unused ones |
| Models.MaxKey | src/models.rs:29-30 | The largest key of a count map, or none when the map is empty |
| Models.LinesBest | src/models.rs:22-34 | The result bounds every key of every line's counts and is one of them, or 0 when no line has a key |
| Models.MaxValue | src/models.rs:22-34 | `max_value(i)` bounds every payout `possible` reports for the lines through i and is one of them, or 0 |
| Models.TwoOpenTallyKeys | src/solver.rs:100-129 | 1 known and 2..9 left: the payouts reported are exactly the eleven the test lists, 10000, 36, 720, 360, 80, 252, 108, 72, 54, 180 and 119 |
| Models.EmptyUnused | src/logic.rs:62-65 | On an empty board the unused digits are 1..9 in ascending order |
| Models.ThreeOpenTallyKeys | src/solver.rs:131-166 | Nothing known and 1..9 left: the payouts reported are exactly the sixteen the test lists, every value of the payout table |
| Models.MaxValueFullBoard | src/models.rs:82-106 | On the board 1..9 the best payout through cells 0..8 is 10000, 10000, 10000, 180, 180, 180, 3600, 3600, 3600 |
| Models.MaxValueMissesOpenLines | src/models.rs:22-38 | As written, with only 1 revealed top-left, `max_value(0)` is 0 |
| Models.MaxValuePanics | src/models.rs:22-38 | As written, with 1 top-left and 2 below it, neither the top row (listed first by `rows(0)`) nor column 0 can be completed within `row_gil`'s range |
| Models.LineTallyKeys | src/models.rs:26-30 | Given the unused digits, p is a key of `possible` for a line exactly when some attainable sum of the line pays p |
| Models.UnusedRowsComplete | src/models.rs:22-34 | Given the unused digits, every line through every cell stays within `row_gil`'s range on any board without repeated digits |
| Models.BestPayout | src/models.rs:22-34 | `max_value` over the unused digits bounds every payout of every line through the cell and is one of them, or 0 |
| Models.BestPayoutSpec | src/models.rs:22-34 | The best payout bounds every payout any line through the cell can still make, and is such a payout unless it is 0 |
| Models.BestPayoutOneRevealed | src/models.rs:22-34 | With only 1 revealed top-left, the best payout through cell 0 is 10000 |
| AppLogic.Label | src/components/app_logic.rs:21-31 | Lines 0..2 are "Row 1".."Row 3", 3..5 "Col 1".."Col 3", 6 and 7 "Diag 1" and "Diag 2"; the label is empty exactly from 8 on |
| AppLogic.CountOf | src/components/app_logic.rs:19 | The count of m is at most the list's length, and positive exactly when m occurs |
| AppLogic.Average | src/components/app_logic.rs:17 | The average is the floor of the sum over the count, and 0 for no values |
| AppLogic.PrepareRows | src/components/app_logic.rs:12-41 | One row per line, in order, each carrying its own index and label and the figures of its own payouts |
| AppLogic.RowMax | src/components/app_logic.rs:18 | A row's maximum bounds every payout and is one of them, or 0 for no payouts |
| AppLogic.RowAverage | src/components/app_logic.rs:35 | A row's average is the floor mean of its payouts and never exceeds its maximum |
| AppLogic.RowMaxCount | src/components/app_logic.rs:19 | A row counts how many payouts equal the maximum, at least one of them when there are payouts |
| AppLogic.SameGroupsPermutation | src/components/app_logic.rs:43-52 | Keeping the rows of each key in order keeps the rows as a multiset |
| AppLogic.InsertAfterEqual | src/components/app_logic.rs:44-50 | Inserting a row after the rows with the same or larger key keeps the order and appends it to its key's group |
| AppLogic.SortRows | src/components/app_logic.rs:43-52 | The rows come out largest key first, the rows sharing a key keep their relative order, and no row is lost or added |
| GridInput.CandidatesSpec | src/components/grid.rs:31-35 | The candidates are ascending, and d is one exactly when d is not on the board or is the cell's own digit |
| GridInput.Position | src/components/grid.rs:38 | The first index holding n, or none exactly when n is absent |
| GridInput.Min | src/components/grid.rs:61 | The smallest candidate, or none exactly when there are none |
| GridInput.Max | src/components/grid.rs:62 | The largest candidate, or none exactly when there are none |
| GridInput.CurrentIsCandidate | src/components/grid.rs:38-42 | A filled cell's own digit is always a candidate |
| GridInput.NextOnEmpty | src/components/grid.rs:60-63 | On an empty cell the candidates are the unused digits; scrolling up gives the smallest, down the largest, and nothing when none is left |
| GridInput.NextUpOnFilled | src/components/grid.rs:44-50 | Scrolling up moves to the least free digit above the current one, and stays exactly when none is above |
| GridInput.NextDownOnFilled | src/components/grid.rs:51-57 | Scrolling down moves to the greatest free digit below the current one, and stays exactly when none is below |
| GridInput.NextIsFree | src/components/grid.rs:31-42 | On a board without repeated digits the digit scrolled to is in no other cell |
| GridInput.CandidatesAfterMove | src/components/grid.rs:31-35 | Moving a cell to one of its candidates leaves its candidates unchanged |
| GridInput.UpThenDown | src/components/grid.rs:44-57 | When some free digit lies above, scrolling up and then down returns to the starting digit |

## Left out

- Integer widths: payouts are `u16`/`u32` and the counts of `possible` are `u8` in the source; the model uses unbounded naturals, so a `u8` overflow of a count is not modelled.
- The average is computed in `f64` and then floored. The model uses exact floor division. No value here is large enough for rounding to differ. For an empty list the source's `NaN` floor casts to 0; the model also returns 0.
- The `percent` field (an `f64`) is left out. `maxCount`, the count it is computed from, is kept and proved instead.
- `.unique()` after `permutations(k)` is left out: the pool of unused digits never repeats, so the selections are already distinct.
- `OnceLock` initialisation of the payout table is left out; the table is a constant map.
- `sort_unstable`, `dedup` and `sort_by` are modelled on sequences, not in place on a `Vec`. This does not change their results.
- The user interface, the application entry point, the HTML of the payout table and `ScrollDirection::from(f64)` are not part of this model. Only the `SortBy` enum is.
- `Grid.numbers` is a `Vec` of any length in the source; the model fixes it at nine cells (a `Board`). With a longer `Vec`, `remaining` would also collect the extra cells.
- `Board` and `Board::used` are not part of this model beyond what `Digits.Used` states.
- Solver.TwoOpenTotal: proves the total of the counts (56); `Models.TwoOpenTallyKeys` proves the eleven payouts. The count the test lists for each payout is not proved.
- Solver.ThreeOpenTotal: proves the total of the counts (504); `Models.ThreeOpenTallyKeys` proves the sixteen payouts. The count the test lists for each payout is not proved.
- Panics are modelled as preconditions, not as behaviour: `rows` beyond 8 (`Models.Rows`), a scroll index beyond 8 (`GridInput.NextNumber`), `unreachable!` in `row_gil` (`Solver.Completes`) and `unimplemented!` in `possible` for more than three cells (`|Filled(nums)| <= 3`).
- Models.MaxValueFullBoard: the source test checks cell 6 three times; the lemma states cells 0..8, so it covers 7 and 8 as well.

## Findings

| source | as written | input that shows it | evidently intended | confidence | as-written member | corrected member |
|---|---|---|---|---|---|---|
| src/models.rs:36-38 | `remaining` collects the digits already placed, and `max_value` passes them to `possible` as the digits still to place | only 1 revealed, in cell 0: `max_value(0)` is 0, though the top row can still become 1, 2, 3 and pay 10000 | pass the digits not yet on the board | not executed | Models.MaxValueMissesOpenLines | Models.BestPayoutOneRevealed |
| src/models.rs:22-34 | with the placed digits as the remaining list, `possible` can complete a line with a digit already on it | 1 in cell 0 and 2 in cell 3: `rows(0)` lists the top row first, which completes to 1+1+2 = 4, and `row_gil` reaches `unreachable!` (column 0 would too, with 1+2+1) | every completion uses unused digits, so each sum stays within 6..24 | not executed | Models.MaxValuePanics | Models.UnusedRowsComplete |
