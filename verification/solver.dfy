/**
  The older payout engine (src/solver.rs): `row_gil`, a payout table that
  panics outside 6..24, and `possible`, which counts every completion of a
  line as a map from payout to number of completions.

  Unlike `Logic.PossibleLineSums`, `possible` keeps multiplicity: two
  completions with the same payout count twice.
 */
module Solver {
  import opened Digits
  import opened Enumeration
  import Logic

  /** The payouts `row_gil` can return, each once. */
  const PayoutValues: seq<nat> :=
    [10000, 36, 720, 360, 80, 252, 108, 72, 54, 180, 119, 306, 1080, 144, 1800, 3600]

  /** `row_gil`: the payout of three digits; any sum outside 6..24 is `unreachable!`. */
  function RowGil(nums: seq<Digit>): (gil: nat)
    requires 6 <= Sum(nums) <= 24
    ensures gil == Logic.PayoutForSum(Sum(nums))
    ensures gil in PayoutValues
  {
    match Sum(nums)
    case 6 => 10000
    case 7 => 36
    case 8 => 720
    case 9 => 360
    case 10 => 80
    case 11 => 252
    case 12 => 108
    case 13 => 72
    case 14 => 54
    case 15 => 180
    case 16 => 72
    case 17 => 180
    case 18 => 119
    case 19 => 36
    case 20 => 306
    case 21 => 1080
    case 22 => 144
    case 23 => 1800
    case 24 => 3600
  }

  /** `remaining` without the entries equal to r (the `filter` at src/solver.rs:42-46). */
  function Without(rem: seq<Digit>, r: Digit): (rest: seq<Digit>)
    ensures |rest| <= |rem|
  {
    if rem == [] then []
    else (if rem[0] == r then [] else [rem[0]]) + Without(rem[1..], r)
  }

  /** The number of completions counted under payout p; absent keys count 0. */
  function Count(m: map<nat, nat>, p: nat): nat {
    if p in m then m[p] else 0
  }

  /** Key-wise sum of two count maps (`*entry(key).or_default() += value`). */
  function Merge(a: map<nat, nat>, b: map<nat, nat>): map<nat, nat> {
    map p | p in a.Keys + b.Keys :: Count(a, p) + Count(b, p)
  }

  /** Merging keeps every key of either map and adds up the counts. */
  lemma MergeCounts(a: map<nat, nat>, b: map<nat, nat>, p: nat)
    ensures Merge(a, b).Keys == a.Keys + b.Keys
    ensures Count(Merge(a, b), p) == Count(a, p) + Count(b, p)
  {
  }

  /**
    `possible` never reaches `unreachable!`: every way of completing
    `known` with entries of `rem` sums to 6..24.
   */
  ghost predicate Completes(known: seq<Digit>, rem: seq<Digit>)
    requires |known| <= 3
    decreases 3 - |known|
  {
    if |known| == 3 then 6 <= Sum(known) <= 24
    else forall r {:trigger Without(rem, r)} :: r in rem ==> Completes(known + [r], Without(rem, r))
  }

  /** Every key is a `row_gil` value and every count at least 1. */
  ghost predicate WellCounted(m: map<nat, nat>) {
    forall p :: p in m ==> p in PayoutValues && m[p] >= 1
  }

  // `rem` in the decreases clauses of Tally and TallyUpTo keeps the verifier
  // from unrolling the recursion whenever the known digits are a literal.

  /** What `possible` returns for the known digits of a line and the digits left to place. */
  function Tally(known: seq<Digit>, rem: seq<Digit>): (t: map<nat, nat>)
    requires |known| <= 3 && Completes(known, rem)
    ensures WellCounted(t)
    decreases 3 - |known|, 1, 0, rem
  {
    if |known| == 3 then map[RowGil(known) := 1]
    else TallyUpTo(known, rem, |rem|)
  }

  /** The counts gathered from the first j entries of `rem`. */
  function TallyUpTo(known: seq<Digit>, rem: seq<Digit>, j: nat): (t: map<nat, nat>)
    requires |known| < 3 && Completes(known, rem) && j <= |rem|
    ensures WellCounted(t)
    decreases 3 - |known|, 0, j, rem
  {
    if j == 0 then map[]
    else
      assert rem[j - 1] in rem;
      Merge(TallyUpTo(known, rem, j - 1), Tally(known + [rem[j - 1]], Without(rem, rem[j - 1])))
  }

  /** The known digits as cells, `Some` each. */
  function AsCells(known: seq<Digit>): (cells: seq<Cell>)
    ensures |cells| == |known| && Filled(cells) == known && EmptyCount(cells) == 0
  {
    FilledOfKnown(known);
    seq(|known|, j requires 0 <= j < |known| => Some(known[j]))
  }

  /**
    `possible`: the counts depend only on the filled cells of `nums`
    (empty ones are skipped) and on `remaining`.
   */
  method Possible(nums: seq<Cell>, remaining: seq<Digit>) returns (solutions: map<nat, nat>)
    requires |Filled(nums)| <= 3 && Completes(Filled(nums), remaining)
    ensures solutions == Tally(Filled(nums), remaining)
    decreases 3 - |Filled(nums)|
  {
    var known := Filled(nums);
    if |known| == 3 {
      solutions := map[RowGil(known) := 1];
    } else {
      solutions := map[];
      for i := 0 to |remaining|
        invariant solutions == TallyUpTo(known, remaining, i)
      {
        var r := remaining[i];
        var next := AsCells(known) + [Some(r)];
        FilledPush(AsCells(known), Some(r));
        var rest := Without(remaining, r);
        assert r in remaining;
        var counts := Possible(next, rest);
        solutions := AddCounts(solutions, counts);
      }
    }
  }

  /** Adds every entry of m into acc, one key at a time. */
  method AddCounts(acc: map<nat, nat>, m: map<nat, nat>) returns (r: map<nat, nat>)
    ensures r == Merge(acc, m)
  {
    r := acc;
    var rest := m.Keys;
    while rest != {}
      invariant MergedExcept(r, acc, m, rest)
      decreases |rest|
    {
      var key :| key in rest;
      MergeStep(r, acc, m, rest, key);
      r := r[key := Count(r, key) + m[key]];
      rest := rest - {key};
    }
    MergeDone(r, acc, m);
  }

  lemma MergeDone(r: map<nat, nat>, acc: map<nat, nat>, m: map<nat, nat>)
    requires MergedExcept(r, acc, m, {})
    ensures r == Merge(acc, m)
  {
    SameCounts(r, Merge(acc, m));
  }

  /** r is acc with every entry of m added, except the keys in rest. */
  ghost predicate MergedExcept(r: map<nat, nat>, acc: map<nat, nat>, m: map<nat, nat>, rest: set<nat>) {
    rest <= m.Keys &&
    r.Keys == acc.Keys + (m.Keys - rest) &&
    forall p :: Count(r, p) == Count(acc, p) + (if p in rest then 0 else Count(m, p))
  }

  lemma MergeStep(r: map<nat, nat>, acc: map<nat, nat>, m: map<nat, nat>, rest: set<nat>, key: nat)
    requires MergedExcept(r, acc, m, rest) && key in rest
    ensures MergedExcept(r[key := Count(r, key) + m[key]], acc, m, rest - {key})
  {
    var r' := r[key := Count(r, key) + m[key]];
    forall p ensures Count(r', p) == Count(acc, p) + (if p in rest - {key} then 0 else Count(m, p)) {
      if p != key {
        assert Count(r', p) == Count(r, p);
      }
    }
  }

  /** Two count maps with the same keys and the same counts are equal. */
  lemma SameCounts(a: map<nat, nat>, b: map<nat, nat>)
    requires a.Keys == b.Keys
    requires forall p :: Count(a, p) == Count(b, p)
    ensures a == b
  {
    forall p | p in a ensures a[p] == b[p] {
      assert Count(a, p) == Count(b, p);
    }
  }

  lemma {:induction false} WithoutAbsent(rem: seq<Digit>, r: Digit)
    requires r !in rem
    ensures Without(rem, r) == rem
  {
    if rem != [] {
      WithoutAbsent(rem[1..], r);
      assert rem == [rem[0]] + rem[1..];
    }
  }

  /** On a repetition-free list, filtering out an entry removes exactly its position. */
  lemma {:induction false} WithoutRemoveAt(rem: seq<Digit>, j: nat)
    requires Distinct(rem) && j < |rem|
    ensures Without(rem, rem[j]) == RemoveAt(rem, j)
    ensures Distinct(Without(rem, rem[j])) && |Without(rem, rem[j])| == |rem| - 1
  {
    var r := rem[j];
    assert rem == [rem[0]] + rem[1..];
    if j == 0 {
      assert r !in rem[1..] by {
        forall i | 0 <= i < |rem[1..]| ensures rem[1..][i] != r {
          assert rem[1..][i] == rem[i + 1];
        }
      }
      WithoutAbsent(rem[1..], r);
    } else {
      assert Distinct(rem[1..]) by {
        forall a, b | 0 <= a < b < |rem[1..]| ensures rem[1..][a] != rem[1..][b] {
          assert rem[1..][a] == rem[a + 1] && rem[1..][b] == rem[b + 1];
        }
      }
      assert rem[1..][j - 1] == r;
      WithoutRemoveAt(rem[1..], j - 1);
      assert RemoveAt(rem, j) == [rem[0]] + RemoveAt(rem[1..], j - 1);
    }
    RemoveAtMember(rem, j, r);
  }

  /** The known digits and the digits left are all different from one another. */
  predicate AllDifferent(known: seq<Digit>, rem: seq<Digit>) {
    Distinct(known) && Distinct(rem) && forall x :: x in known ==> x !in rem
  }

  /** With all digits different, no completion leaves 6..24, so `unreachable!` is never hit. */
  lemma {:induction false} DifferentCompletes(known: seq<Digit>, rem: seq<Digit>)
    requires |known| <= 3 && AllDifferent(known, rem)
    ensures Completes(known, rem)
    decreases 3 - |known|
  {
    if |known| == 3 {
      DistinctDigitsSum(known);
    } else {
      forall r | r in rem ensures Completes(known + [r], Without(rem, r)) {
        var j :| 0 <= j < |rem| && rem[j] == r;
        WithoutRemoveAt(rem, j);
        var known' := known + [r];
        assert Distinct(known') by {
          forall a, b | 0 <= a < b < |known'| ensures known'[a] != known'[b] {
            assert known'[a] == known[a];
            if b == |known| {
              assert known[a] in known;
            }
          }
        }
        DifferentCompletes(known', Without(rem, r));
      }
    }
  }

  /** The counts of m over the payouts ps. */
  // `m` in the decreases clause keeps the verifier from unrolling the
  // recursion over the literal list of payouts.
  function SumCounts(m: map<nat, nat>, ps: seq<nat>): nat
    decreases ps, |m|
  {
    if ps == [] then 0 else Count(m, ps[0]) + SumCounts(m, ps[1..])
  }

  /** The number of completions a count map records. */
  function Total(m: map<nat, nat>): nat {
    SumCounts(m, PayoutValues)
  }

  lemma {:induction false} SumCountsMerge(a: map<nat, nat>, b: map<nat, nat>, ps: seq<nat>)
    ensures SumCounts(Merge(a, b), ps) == SumCounts(a, ps) + SumCounts(b, ps)
  {
    if ps != [] {
      SumCountsMerge(a, b, ps[1..]);
    }
  }

  lemma {:induction false} SumCountsSingle(g: nat, ps: seq<nat>)
    requires Distinct(ps)
    ensures SumCounts(map[g := 1], ps) == if g in ps then 1 else 0
  {
    if ps != [] {
      assert Distinct(ps[1..]) by {
        forall a, b | 0 <= a < b < |ps[1..]| ensures ps[1..][a] != ps[1..][b] {
          assert ps[1..][a] == ps[a + 1] && ps[1..][b] == ps[b + 1];
        }
      }
      SumCountsSingle(g, ps[1..]);
      assert ps == [ps[0]] + ps[1..];
      if g == ps[0] {
        assert g !in ps[1..] by {
          forall i | 0 <= i < |ps[1..]| ensures ps[1..][i] != g {
            assert ps[1..][i] == ps[i + 1];
          }
        }
      }
    }
  }

  /**
    Over a repetition-free `remaining` of n digits, the counts add up to
    the number of ordered ways to fill the k = 3 - |known| open places:
    n!/(n-k)!.
   */
  lemma {:induction false} TallyTotal(known: seq<Digit>, rem: seq<Digit>, n: nat, k: nat)
    requires |known| <= 3 && Completes(known, rem) && Distinct(rem)
    requires n == |rem| && k == 3 - |known|
    ensures Total(Tally(known, rem)) == Perm(n, k)
    decreases 3 - |known|, 2, 0, 0
  {
    if |known| == 3 {
      assert Distinct(PayoutValues);
      SumCountsSingle(RowGil(known), PayoutValues);
    } else if rem == [] {
      EmptyCounts(PayoutValues);
    } else {
      TallyUpToTotal(known, rem, |rem|, Perm(n - 1, k - 1));
    }
  }

  lemma {:induction false} EmptyCounts(ps: seq<nat>)
    ensures SumCounts(map[], ps) == 0
  {
    if ps != [] {
      EmptyCounts(ps[1..]);
    }
  }

  lemma {:induction false} TallyUpToTotal(known: seq<Digit>, rem: seq<Digit>, j: nat, p: nat)
    requires |known| < 3 && Completes(known, rem) && Distinct(rem) && 0 < |rem| && j <= |rem|
    requires p == Perm(|rem| - 1, 2 - |known|)
    ensures Total(TallyUpTo(known, rem, j)) == j * p
    decreases 3 - |known|, 1, j, 0
  {
    if j == 0 {
      EmptyCounts(PayoutValues);
    } else {
      var r := rem[j - 1];
      assert r in rem;
      ChildTotal(known, rem, j - 1, p);
      TallyUpToTotal(known, rem, j - 1, p);
      TallyUpToStep(known, rem, j, (j - 1) * p, p);
      MulStep(j, p);
    }
  }

  lemma MulStep(j: nat, p: nat)
    requires j > 0
    ensures j * p == (j - 1) * p + p
  {
  }

  /** The counts below the j-th choice add up to p. */
  lemma {:induction false} ChildTotal(known: seq<Digit>, rem: seq<Digit>, j: nat, p: nat)
    requires |known| < 3 && Completes(known, rem) && Distinct(rem) && j < |rem|
    requires p == Perm(|rem| - 1, 2 - |known|)
    ensures rem[j] in rem && Total(Tally(known + [rem[j]], Without(rem, rem[j]))) == p
    decreases 3 - |known|, 0, 0, 0
  {
    var r := rem[j];
    assert r in rem;
    var child, rest := known + [r], Without(rem, r);
    ChildCompletes(known, rem, r);
    WithoutShape(rem, j);
    TallyTotal(child, rest, |rem| - 1, 2 - |known|);
    assert Total(Tally(child, rest)) == p;
  }

  lemma WithoutShape(rem: seq<Digit>, j: nat)
    requires Distinct(rem) && j < |rem|
    ensures Distinct(Without(rem, rem[j])) && |Without(rem, rem[j])| == |rem| - 1
  {
    WithoutRemoveAt(rem, j);
  }

  /** Taking in the j-th choice adds the counts below it. */
  lemma TallyUpToStep(known: seq<Digit>, rem: seq<Digit>, j: nat, a: nat, b: nat)
    requires |known| < 3 && Completes(known, rem) && 0 < j <= |rem|
    requires rem[j - 1] in rem
    requires Total(TallyUpTo(known, rem, j - 1)) == a
    requires Total(Tally(known + [rem[j - 1]], Without(rem, rem[j - 1]))) == b
    ensures Total(TallyUpTo(known, rem, j)) == a + b
  {
    SumCountsMerge(TallyUpTo(known, rem, j - 1), Tally(known + [rem[j - 1]], Without(rem, rem[j - 1])), PayoutValues);
  }

  /** How many of the completions `combos` of a line whose known digits sum to `base` pay p. */
  function Occurrences(base: int, combos: seq<seq<Digit>>, p: nat): nat {
    if combos == [] then 0
    else (if Logic.PayoutForSum(base + Sum(combos[0])) == p then 1 else 0) + Occurrences(base, combos[1..], p)
  }

  lemma {:induction false} OccurrencesConcat(base: int, a: seq<seq<Digit>>, b: seq<seq<Digit>>, p: nat)
    ensures Occurrences(base, a + b, p) == Occurrences(base, a, p) + Occurrences(base, b, p)
  {
    if a == [] {
      assert a + b == b;
    } else {
      assert (a + b)[1..] == a[1..] + b;
      OccurrencesConcat(base, a[1..], b, p);
    }
  }

  lemma {:induction false} OccurrencesPrepend(base: int, x: Digit, cs: seq<seq<Digit>>, p: nat)
    ensures Occurrences(base, Prepend(x, cs), p) == Occurrences(base + x, cs, p)
  {
    if cs != [] {
      var c := cs[0];
      assert Sum([x] + c) == x + Sum(c) by {
        assert ([x] + c)[1..] == c;
      }
      assert Prepend(x, cs)[1..] == Prepend(x, cs[1..]);
      OccurrencesPrepend(base, x, cs[1..], p);
    }
  }

  /**
    Over a repetition-free `remaining`, the count `possible` reports for a
    payout is the number of ordered completions of the line that pay it
    (base is the sum of the known digits, k the number of open places).
   */
  lemma {:induction false} TallyCounts(known: seq<Digit>, rem: seq<Digit>, base: int, k: nat, p: nat)
    requires |known| <= 3 && Completes(known, rem) && Distinct(rem)
    requires base == Sum(known) && k == 3 - |known|
    ensures Count(Tally(known, rem), p) == Occurrences(base, Arrangements(rem, k), p)
    decreases 3 - |known|, 2, 0
  {
    if |known| == 3 {
      assert Arrangements(rem, 0) == [[]];
      assert Sum([]) == 0;
    } else {
      TallyUpToCounts(known, rem, base, k, |rem|, p);
    }
  }

  lemma {:induction false} TallyUpToCounts(known: seq<Digit>, rem: seq<Digit>, base: int, k: nat, j: nat, p: nat)
    requires |known| < 3 && Completes(known, rem) && Distinct(rem) && j <= |rem|
    requires base == Sum(known) && k == 3 - |known|
    ensures Count(TallyUpTo(known, rem, j), p) == Occurrences(base, Leading(rem, k, j), p)
    decreases 3 - |known|, 1, j
  {
    if j > 0 {
      var r := rem[j - 1];
      assert r in rem;
      var tail := Prepend(r, Arrangements(RemoveAt(rem, j - 1), k - 1));
      assert Leading(rem, k, j) == Leading(rem, k, j - 1) + tail;
      ChildCounts(known, rem, base, k, j - 1, p);
      TallyUpToCounts(known, rem, base, k, j - 1, p);
      MergeCounts(TallyUpTo(known, rem, j - 1), Tally(known + [r], Without(rem, r)), p);
      OccurrencesConcat(base, Leading(rem, k, j - 1), tail, p);
    }
  }

  /** The counts below the j-th choice are the completions that start with it. */
  lemma {:induction false} ChildCounts(known: seq<Digit>, rem: seq<Digit>, base: int, k: nat, j: nat, p: nat)
    requires |known| < 3 && Completes(known, rem) && Distinct(rem) && j < |rem|
    requires base == Sum(known) && k == 3 - |known|
    ensures rem[j] in rem
    ensures Count(Tally(known + [rem[j]], Without(rem, rem[j])), p) ==
      Occurrences(base, Prepend(rem[j], Arrangements(RemoveAt(rem, j), k - 1)), p)
    decreases 3 - |known|, 0, 0
  {
    var r := rem[j];
    assert r in rem;
    var rest := Without(rem, r);
    ChildCompletes(known, rem, r);
    WithoutRemoveAt(rem, j);
    SumPush(known, r);
    var below := Arrangements(rest, k - 1);
    TallyCounts(known + [r], rest, base + r, k - 1, p);
    assert Count(Tally(known + [r], rest), p) == Occurrences(base + r, below, p);
    OccurrencesPrepend(base, r, below, p);
    assert Occurrences(base, Prepend(r, below), p) == Occurrences(base + r, below, p);
    assert below == Arrangements(RemoveAt(rem, j), k - 1);
  }

  /** Choosing an entry of `rem` keeps every completion in 6..24. */
  lemma ChildCompletes(known: seq<Digit>, rem: seq<Digit>, r: Digit)
    requires |known| < 3 && Completes(known, rem) && r in rem
    ensures Completes(known + [r], Without(rem, r))
  {
  }

  lemma SumPush(known: seq<Digit>, r: Digit)
    ensures Sum(known + [r]) == Sum(known) + r
  {
    SumConcat(known, [r]);
    assert Sum([r]) == r;
  }

  /** The payouts of completing a line whose known digits sum to `base` with each digit of `ds` in turn. */
  function SinglePayouts(base: int, ds: seq<Digit>): (ps: seq<nat>)
    ensures |ps| == |ds|
  {
    seq(|ds|, i requires 0 <= i < |ds| => Logic.PayoutForSum(base + ds[i]))
  }

  lemma SinglePayoutsPush(base: int, ds: seq<Digit>, x: Digit)
    ensures SinglePayouts(base, ds + [x]) == SinglePayouts(base, ds) + [Logic.PayoutForSum(base + x)]
  {
    var l := SinglePayouts(base, ds + [x]);
    var r := SinglePayouts(base, ds) + [Logic.PayoutForSum(base + x)];
    forall i | 0 <= i < |l| ensures l[i] == r[i] {
      assert (ds + [x])[i] == if i < |ds| then ds[i] else x;
    }
  }

  /** How often p occurs in ps. */
  function CountIn(ps: seq<nat>, p: nat): nat {
    if ps == [] then 0 else (if ps[0] == p then 1 else 0) + CountIn(ps[1..], p)
  }

  lemma {:induction false} CountInPush(ps: seq<nat>, x: nat, p: nat)
    ensures CountIn(ps + [x], p) == CountIn(ps, p) + (if x == p then 1 else 0)
  {
    if ps != [] {
      assert (ps + [x])[1..] == ps[1..] + [x];
      CountInPush(ps[1..], x, p);
    }
  }

  /** With one digit left to place, each pool digit is one completion, in pool order. */
  lemma {:induction false} LeadingOfOne(pool: seq<Digit>, base: int, j: nat, p: nat)
    requires j <= |pool|
    ensures Occurrences(base, Leading(pool, 1, j), p) == CountIn(SinglePayouts(base, pool[..j]), p)
  {
    if j > 0 {
      LeadingOfOne(pool, base, j - 1, p);
      LeadingOneStep(pool, base, j, p);
      SinglePayoutsStep(pool, base, j, p);
    }
  }

  lemma LeadingOneStep(pool: seq<Digit>, base: int, j: nat, p: nat)
    requires 0 < j <= |pool|
    ensures Occurrences(base, Leading(pool, 1, j), p) ==
      Occurrences(base, Leading(pool, 1, j - 1), p) + (if Logic.PayoutForSum(base + pool[j - 1]) == p then 1 else 0)
  {
    var x := pool[j - 1];
    assert Arrangements(RemoveAt(pool, j - 1), 0) == [[]];
    assert Leading(pool, 1, j) == Leading(pool, 1, j - 1) + Prepend(x, [[]]);
    OccurrencesConcat(base, Leading(pool, 1, j - 1), Prepend(x, [[]]), p);
    OccurrencesOfOne(base, x, p);
  }

  lemma SinglePayoutsStep(pool: seq<Digit>, base: int, j: nat, p: nat)
    requires 0 < j <= |pool|
    ensures CountIn(SinglePayouts(base, pool[..j]), p) ==
      CountIn(SinglePayouts(base, pool[..j - 1]), p) + (if Logic.PayoutForSum(base + pool[j - 1]) == p then 1 else 0)
  {
    var x := pool[j - 1];
    assert pool[..j] == pool[..j - 1] + [x];
    SinglePayoutsPush(base, pool[..j - 1], x);
    CountInPush(SinglePayouts(base, pool[..j - 1]), Logic.PayoutForSum(base + x), p);
  }

  lemma OccurrencesOfOne(base: int, x: Digit, p: nat)
    ensures Occurrences(base, Prepend(x, [[]]), p) == if Logic.PayoutForSum(base + x) == p then 1 else 0
  {
    OccurrencesPrepend(base, x, [[]], p);
    assert Sum([]) == 0;
  }

  /** With the whole line known, `possible` counts the one payout (the first test in src/solver.rs). */
  lemma AllKnownTally(rem: seq<Digit>)
    ensures Completes([1, 2, 3], rem)
    ensures Tally([1, 2, 3], rem) == map[10000 := 1]
  {
    assert Sum([1, 2, 3]) == 6;
  }

  /** The payouts of one-digit completions of a line whose known digits sum to 3. */
  const OneOpenPayouts: map<nat, nat> := map[10000 := 1, 36 := 1, 720 := 1, 360 := 1, 80 := 1, 252 := 1, 108 := 1]

  /** 1 and 2 known and 3..9 left: seven completions, seven different payouts, one each. */
  lemma OneOpenTally(rem: seq<Digit>)
    requires rem == [3, 4, 5, 6, 7, 8, 9]
    ensures Completes([1, 2], rem)
    ensures Tally([1, 2], rem) == OneOpenPayouts
  {
    var known: seq<Digit> := [1, 2];
    OneOpenDigits(known, rem);
    OneOpenPayoutList(rem);
    DifferentCompletes(known, rem);
    forall p ensures Count(Tally(known, rem), p) == Count(OneOpenPayouts, p) {
      OneOpenCount(known, rem, p);
    }
    CountsDetermine(Tally(known, rem), OneOpenPayouts);
  }

  lemma OneOpenDigits(known: seq<Digit>, rem: seq<Digit>)
    requires known == [1, 2] && rem == [3, 4, 5, 6, 7, 8, 9]
    ensures AllDifferent(known, rem) && Sum(known) == 3
  {
    assert Sum([1, 2]) == 3;
  }

  lemma OneOpenPayoutList(rem: seq<Digit>)
    requires rem == [3, 4, 5, 6, 7, 8, 9]
    ensures SinglePayouts(3, rem) == [10000, 36, 720, 360, 80, 252, 108]
  {
    LowPayouts();
  }

  /** The table entries for the sums 6 to 12. */
  lemma LowPayouts()
    ensures Logic.PayoutForSum(6) == 10000 && Logic.PayoutForSum(7) == 36 && Logic.PayoutForSum(8) == 720
    ensures Logic.PayoutForSum(9) == 360 && Logic.PayoutForSum(10) == 80
    ensures Logic.PayoutForSum(11) == 252 && Logic.PayoutForSum(12) == 108
  {
    assert Logic.Payouts[6] == 10000 && Logic.Payouts[7] == 36 && Logic.Payouts[8] == 720;
    assert Logic.Payouts[9] == 360 && Logic.Payouts[10] == 80 && Logic.Payouts[11] == 252 && Logic.Payouts[12] == 108;
  }

  /** Two count maps without zero counts are equal once every count agrees. */
  lemma CountsDetermine(a: map<nat, nat>, b: map<nat, nat>)
    requires forall p :: p in a ==> a[p] >= 1
    requires forall p :: p in b ==> b[p] >= 1
    requires forall p :: Count(a, p) == Count(b, p)
    ensures a == b
  {
    assert a.Keys == b.Keys by {
      forall p ensures p in a <==> p in b {
        assert Count(a, p) == Count(b, p);
      }
    }
    SameCounts(a, b);
  }

  lemma OneOpenCount(known: seq<Digit>, rem: seq<Digit>, p: nat)
    requires |known| == 2 && Sum(known) == 3 && Completes(known, rem) && Distinct(rem)
    requires SinglePayouts(3, rem) == [10000, 36, 720, 360, 80, 252, 108]
    ensures Count(Tally(known, rem), p) == Count(OneOpenPayouts, p)
  {
    TallyCounts(known, rem, 3, 1, p);
    LeadingOfOne(rem, 3, |rem|, p);
    assert rem[..|rem|] == rem;
    OneOpenList(p);
  }

  lemma OneOpenList(p: nat)
    ensures CountIn([10000, 36, 720, 360, 80, 252, 108], p) == Count(OneOpenPayouts, p)
  {
    var ps: seq<nat> := [10000, 36, 720, 360, 80, 252, 108];
    CountInDistinct(ps, p);
    assert p in ps <==> p in OneOpenPayouts;
  }

  lemma {:induction false} CountInDistinct(ps: seq<nat>, p: nat)
    requires Distinct(ps)
    ensures CountIn(ps, p) == if p in ps then 1 else 0
  {
    if ps != [] {
      assert Distinct(ps[1..]);
      CountInDistinct(ps[1..], p);
      assert p in ps <==> p == ps[0] || p in ps[1..];
    }
  }

  /** 1 known and eight digits left: 8 * 7 = 56 completions in all. */
  lemma TwoOpenTotal(rem: seq<Digit>)
    requires |rem| == 8 && AllDifferent([1], rem)
    ensures Completes([1], rem) && Total(Tally([1], rem)) == 56
  {
    DifferentCompletes([1], rem);
    TallyTotal([1], rem, 8, 2);
  }

  /** Nothing known and nine digits left: 9 * 8 * 7 = 504 completions in all. */
  lemma ThreeOpenTotal(rem: seq<Digit>)
    requires |rem| == 9 && Distinct(rem)
    ensures Completes([], rem) && Total(Tally([], rem)) == 504
  {
    DifferentCompletes([], rem);
    TallyTotal([], rem, 9, 3);
  }

  /** Some completion in `combos` pays p exactly when p occurs at least once. */
  lemma {:induction false} OccurrencesPositive(base: int, combos: seq<seq<Digit>>, p: nat)
    ensures Occurrences(base, combos, p) > 0 <==>
      exists c :: c in combos && Logic.PayoutForSum(base + Sum(c)) == p
  {
    if combos != [] {
      OccurrencesPositive(base, combos[1..], p);
      if Logic.PayoutForSum(base + Sum(combos[0])) == p {
        assert combos[0] in combos;
      } else {
        if exists c :: c in combos && Logic.PayoutForSum(base + Sum(c)) == p {
          var c :| c in combos && Logic.PayoutForSum(base + Sum(c)) == p;
          assert c in combos[1..];
        }
        if Occurrences(base, combos[1..], p) > 0 {
          var c :| c in combos[1..] && Logic.PayoutForSum(base + Sum(c)) == p;
          assert c in combos;
        }
      }
    }
  }

  /** Some ordered selection of k digits of `rem` takes `base` to a sum that pays p. */
  ghost predicate SomeSelectionPays(rem: seq<Digit>, k: nat, base: int, p: nat) {
    exists c :: c in Arrangements(rem, k) && Logic.PayoutForSum(base + Sum(c)) == p
  }

  /**
    The keys `possible` reports are exactly the payouts of the ordered
    completions of the line (over a repetition-free `remaining`).
   */
  lemma TallyKeys(known: seq<Digit>, rem: seq<Digit>, base: int, k: nat, p: nat)
    requires |known| <= 3 && Completes(known, rem) && Distinct(rem)
    requires base == Sum(known) && k == 3 - |known|
    ensures p in Tally(known, rem) <==> SomeSelectionPays(rem, k, base, p)
  {
    TallyCounts(known, rem, base, k, p);
    CountPositive(Tally(known, rem), p);
    OccurrencesPays(base, rem, k, p);
  }

  lemma CountPositive(m: map<nat, nat>, p: nat)
    requires WellCounted(m)
    ensures p in m <==> Count(m, p) > 0
  {
  }

  lemma OccurrencesPays(base: int, rem: seq<Digit>, k: nat, p: nat)
    ensures Occurrences(base, Arrangements(rem, k), p) > 0 <==> SomeSelectionPays(rem, k, base, p)
  {
    OccurrencesPositive(base, Arrangements(rem, k), p);
  }

  /** No payout exceeds 10000, so no key of `possible` does. */
  lemma KeysAtMostTop(m: map<nat, nat>, p: nat)
    requires WellCounted(m) && p in m
    ensures p <= 10000
  {
    var i :| 0 <= i < |PayoutValues| && PayoutValues[i] == p;
  }
}
