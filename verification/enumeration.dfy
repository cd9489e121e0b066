/**
  Ordered selections of k distinct positions of a pool, the enumeration
  behind `permutations(k)` in src/logic.rs and behind the recursion of
  `possible` in src/solver.rs.

  `Arrangements(pool, k)` lists the selections in lexicographic order of
  the positions chosen, which is the order `permutations(k)` yields them.
 */
module Enumeration {
  import opened Digits

  function RemoveAt<T>(s: seq<T>, i: nat): (r: seq<T>)
    requires i < |s|
    ensures |r| == |s| - 1
  {
    s[..i] + s[i + 1..]
  }

  lemma RemoveAtMember<T>(s: seq<T>, i: nat, x: T)
    requires i < |s| && Distinct(s)
    ensures x in RemoveAt(s, i) <==> x in s && x != s[i]
    ensures Distinct(RemoveAt(s, i))
  {
    var r := RemoveAt(s, i);
    assert forall j :: 0 <= j < |r| ==> r[j] == if j < i then s[j] else s[j + 1];
    if x in s && x != s[i] {
      var j :| 0 <= j < |s| && s[j] == x;
      assert r[if j < i then j else j - 1] == x;
    }
  }

  /** Each list of `cs`, with `x` put in front. */
  function Prepend<T>(x: T, cs: seq<seq<T>>): (r: seq<seq<T>>)
    ensures |r| == |cs|
    ensures forall j :: 0 <= j < |cs| ==> r[j] == [x] + cs[j]
  {
    seq(|cs|, j requires 0 <= j < |cs| => [x] + cs[j])
  }

  /** Every ordered selection of k elements taken from distinct positions of pool. */
  function Arrangements<T>(pool: seq<T>, k: nat): seq<seq<T>>
    decreases k, 1, 0
  {
    if k == 0 then [[]] else Leading(pool, k, |pool|)
  }

  /** The selections of length k > 0 whose first element sits at a position below j. */
  function Leading<T>(pool: seq<T>, k: nat, j: nat): seq<seq<T>>
    requires 0 < k && j <= |pool|
    decreases k, 0, j
  {
    if j == 0 then []
    else Leading(pool, k, j - 1) + Prepend(pool[j - 1], Arrangements(RemoveAt(pool, j - 1), k - 1))
  }

  /** The number of k-permutations of n items, n!/(n-k)!. */
  function Perm(n: nat, k: nat): nat {
    if k == 0 then 1 else if n == 0 then 0 else n * Perm(n - 1, k - 1)
  }

  lemma {:induction false} LeadingLength<T>(pool: seq<T>, k: nat, j: nat)
    requires 0 < k && j <= |pool|
    ensures |Leading(pool, k, j)| == if |pool| == 0 then 0 else j * Perm(|pool| - 1, k - 1)
    decreases k, 0, j
  {
    if j > 0 {
      LeadingLength(pool, k, j - 1);
      ArrangementsLength(RemoveAt(pool, j - 1), k - 1);
      assert |Leading(pool, k, j)| == (j - 1) * Perm(|pool| - 1, k - 1) + Perm(|pool| - 1, k - 1);
    }
  }

  /** There are n!/(n-k)! selections of k out of n positions. */
  lemma {:induction false} ArrangementsLength<T>(pool: seq<T>, k: nat)
    ensures |Arrangements(pool, k)| == Perm(|pool|, k)
    decreases k, 1, 0
  {
    if k > 0 {
      LeadingLength(pool, k, |pool|);
    }
  }

  lemma {:induction false} LeadingMember<T>(pool: seq<T>, k: nat, j: nat, c: seq<T>)
    requires 0 < k && j <= |pool|
    ensures c in Leading(pool, k, j) <==>
      c != [] && exists i :: 0 <= i < j && c[0] == pool[i] && c[1..] in Arrangements(RemoveAt(pool, i), k - 1)
  {
    if j > 0 {
      LeadingMember(pool, k, j - 1, c);
      var tail := Prepend(pool[j - 1], Arrangements(RemoveAt(pool, j - 1), k - 1));
      if c in tail {
        var m :| 0 <= m < |tail| && tail[m] == c;
        assert c[1..] == Arrangements(RemoveAt(pool, j - 1), k - 1)[m];
      }
      if c != [] && c[0] == pool[j - 1] && c[1..] in Arrangements(RemoveAt(pool, j - 1), k - 1) {
        var m :| 0 <= m < |Arrangements(RemoveAt(pool, j - 1), k - 1)| && Arrangements(RemoveAt(pool, j - 1), k - 1)[m] == c[1..];
        assert tail[m] == c;
      }
    }
  }

  /**
    Over a pool without repeated elements, the selections are exactly the
    repetition-free lists of length k drawn from the pool.
   */
  lemma ArrangementsMember<T>(pool: seq<T>, k: nat, c: seq<T>)
    requires Distinct(pool)
    ensures c in Arrangements(pool, k) <==> |c| == k && Distinct(c) && forall x :: x in c ==> x in pool
  {
    if c in Arrangements(pool, k) {
      ArrangementsSound(pool, k, c);
    }
    if |c| == k && Distinct(c) && forall x :: x in c ==> x in pool {
      ArrangementsComplete(pool, k, c);
    }
  }

  lemma {:induction false} ArrangementsSound<T>(pool: seq<T>, k: nat, c: seq<T>)
    requires Distinct(pool) && c in Arrangements(pool, k)
    ensures |c| == k && Distinct(c) && forall x :: x in c ==> x in pool
    decreases k
  {
    if k > 0 {
      LeadingMember(pool, k, |pool|, c);
      var i :| 0 <= i < |pool| && c[0] == pool[i] && c[1..] in Arrangements(RemoveAt(pool, i), k - 1);
      RemoveAtMember(pool, i, c[0]);
      ArrangementsSound(RemoveAt(pool, i), k - 1, c[1..]);
      forall x | x in c[1..] ensures x in pool && x != c[0] {
        RemoveAtMember(pool, i, x);
      }
      assert c == [c[0]] + c[1..];
      forall a, b | 0 <= a < b < |c| ensures c[a] != c[b] {
        assert c[b] == c[1..][b - 1];
        if a > 0 {
          assert c[a] == c[1..][a - 1];
        }
      }
    }
  }

  lemma {:induction false} ArrangementsComplete<T>(pool: seq<T>, k: nat, c: seq<T>)
    requires Distinct(pool) && |c| == k && Distinct(c) && forall x :: x in c ==> x in pool
    ensures c in Arrangements(pool, k)
    decreases k
  {
    if k > 0 {
      assert c[0] in c;
      var i :| 0 <= i < |pool| && pool[i] == c[0];
      forall x | x in c[1..] ensures x in RemoveAt(pool, i) {
        var b :| 0 <= b < |c[1..]| && c[1..][b] == x;
        assert c[b + 1] == x;
        RemoveAtMember(pool, i, x);
      }
      RemoveAtMember(pool, i, c[0]);
      assert Distinct(c[1..]) by {
        forall a, b | 0 <= a < b < |c[1..]| ensures c[1..][a] != c[1..][b] {
          assert c[1..][a] == c[a + 1] && c[1..][b] == c[b + 1];
        }
      }
      ArrangementsComplete(RemoveAt(pool, i), k - 1, c[1..]);
      LeadingMember(pool, k, |pool|, c);
    }
  }
}
