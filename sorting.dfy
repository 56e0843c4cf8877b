/** Sorting frame rows by a date key and dropping repeated rows, as the
    data frames' `sort_values` and `drop_duplicates` do. */
module Sorting {

  /** `a` may come before `b` in the requested direction. */
  predicate InOrder(a: int, b: int, descending: bool)
  {
    if descending then a >= b else a <= b
  }

  predicate SortedBy<T>(xs: seq<T>, key: T -> int, descending: bool)
  {
    forall i, j :: 0 <= i < j < |xs| ==> InOrder(key(xs[i]), key(xs[j]), descending)
  }

  /** Places `x` in front of the first element it may precede. */
  function Insert<T>(x: T, xs: seq<T>, key: T -> int, descending: bool): (r: seq<T>)
    ensures |r| == |xs| + 1
    ensures multiset(r) == multiset(xs) + multiset{x}
  {
    if xs == [] || InOrder(key(x), key(xs[0]), descending) then [x] + xs
    else
      assert xs == [xs[0]] + xs[1..];
      [xs[0]] + Insert(x, xs[1..], key, descending)
  }

  /** The rows in key order; equal keys keep their input order. */
  function SortBy<T>(xs: seq<T>, key: T -> int, descending: bool): (r: seq<T>)
    ensures |r| == |xs|
    ensures multiset(r) == multiset(xs)
  {
    if xs == [] then []
    else
      assert xs == [xs[0]] + xs[1..];
      Insert(xs[0], SortBy(xs[1..], key, descending), key, descending)
  }

  lemma {:induction false} InsertSorted<T>(x: T, xs: seq<T>, key: T -> int, descending: bool)
    requires SortedBy(xs, key, descending)
    ensures SortedBy(Insert(x, xs, key, descending), key, descending)
  {
    if xs != [] && !InOrder(key(x), key(xs[0]), descending) {
      var rest := Insert(x, xs[1..], key, descending);
      assert SortedBy(xs[1..], key, descending) by {
        forall i, j | 0 <= i < j < |xs[1..]|
          ensures InOrder(key(xs[1..][i]), key(xs[1..][j]), descending)
        {
          assert xs[1..][i] == xs[i + 1] && xs[1..][j] == xs[j + 1];
        }
      }
      InsertSorted(x, xs[1..], key, descending);
      forall k | 0 <= k < |rest| ensures InOrder(key(xs[0]), key(rest[k]), descending) {
        assert rest[k] in multiset(rest);
        assert rest[k] == x || rest[k] in multiset(xs[1..]);
        if rest[k] != x {
          var m :| 0 <= m < |xs[1..]| && xs[1..][m] == rest[k];
          assert xs[m + 1] == rest[k];
        }
      }
    }
  }

  /** Sorting yields the rows in key order. */
  lemma {:induction false} SortBySorted<T>(xs: seq<T>, key: T -> int, descending: bool)
    ensures SortedBy(SortBy(xs, key, descending), key, descending)
  {
    if xs != [] {
      SortBySorted(xs[1..], key, descending);
      InsertSorted(xs[0], SortBy(xs[1..], key, descending), key, descending);
    }
  }

  /** `drop_duplicates`: every row equal to an earlier one is dropped, and
      the first of each kind is kept in place. */
  function Distinct<T(==, !new)>(xs: seq<T>): (r: seq<T>)
    ensures |r| <= |xs|
    ensures forall x :: x in r <==> x in xs
  {
    if xs == [] then []
    else
      var rest := Distinct(xs[..|xs| - 1]);
      assert forall x :: x in xs <==> x in xs[..|xs| - 1] || x == xs[|xs| - 1] by {
        assert xs == xs[..|xs| - 1] + [xs[|xs| - 1]];
      }
      if xs[|xs| - 1] in rest then rest else rest + [xs[|xs| - 1]]
  }

  /** No row is left twice. */
  lemma {:induction false} DistinctHasNoRepeats<T(!new)>(xs: seq<T>)
    ensures forall i, j :: 0 <= i < j < |Distinct(xs)| ==> Distinct(xs)[i] != Distinct(xs)[j]
  {
    if xs != [] {
      DistinctHasNoRepeats(xs[..|xs| - 1]);
    }
  }

  /** Rows that are already all different are kept as they are. */
  lemma {:induction false} DistinctOfDistinct<T(!new)>(xs: seq<T>)
    requires forall i, j :: 0 <= i < j < |xs| ==> xs[i] != xs[j]
    ensures Distinct(xs) == xs
  {
    if xs != [] {
      var init := xs[..|xs| - 1];
      DistinctOfDistinct(init);
      assert xs[|xs| - 1] !in init by {
        forall k | 0 <= k < |init| ensures init[k] != xs[|xs| - 1] { assert init[k] == xs[k]; }
      }
      assert xs == init + [xs[|xs| - 1]];
    }
  }

  /** Dropping repeated rows keeps a sorted list sorted. */
  lemma {:induction false} DistinctSorted<T(!new)>(xs: seq<T>, key: T -> int, descending: bool)
    requires SortedBy(xs, key, descending)
    ensures SortedBy(Distinct(xs), key, descending)
  {
    if xs != [] {
      var init := xs[..|xs| - 1];
      assert SortedBy(init, key, descending) by {
        forall i, j | 0 <= i < j < |init| ensures InOrder(key(init[i]), key(init[j]), descending) {
          assert init[i] == xs[i] && init[j] == xs[j];
        }
      }
      DistinctSorted(init, key, descending);
      var rest := Distinct(init);
      var last := xs[|xs| - 1];
      if last !in rest {
        forall i | 0 <= i < |rest| ensures InOrder(key(rest[i]), key(last), descending) {
          assert rest[i] in init;
          var m :| 0 <= m < |init| && init[m] == rest[i];
          assert xs[m] == rest[i];
        }
        assert forall i, j :: 0 <= i < j < |rest + [last]| ==> InOrder(key((rest + [last])[i]), key((rest + [last])[j]), descending) by {
          forall i, j | 0 <= i < j < |rest + [last]|
            ensures InOrder(key((rest + [last])[i]), key((rest + [last])[j]), descending)
          {
            if j == |rest| {
              assert (rest + [last])[i] == rest[i];
            } else {
              assert (rest + [last])[i] == rest[i] && (rest + [last])[j] == rest[j];
            }
          }
        }
      }
    }
  }

  /** `sort_values(...).drop_duplicates()`: the rows in key order, no row
      twice, and exactly the rows given. */
  lemma SortThenDistinct<T(!new)>(xs: seq<T>, key: T -> int, descending: bool)
    ensures SortedBy(Distinct(SortBy(xs, key, descending)), key, descending)
    ensures var r := Distinct(SortBy(xs, key, descending));
            forall i, j :: 0 <= i < j < |r| ==> r[i] != r[j]
    ensures forall x :: x in Distinct(SortBy(xs, key, descending)) <==> x in xs
  {
    var sorted := SortBy(xs, key, descending);
    SortBySorted(xs, key, descending);
    DistinctSorted(sorted, key, descending);
    DistinctHasNoRepeats(sorted);
    forall x ensures x in sorted <==> x in xs {
      assert x in sorted <==> x in multiset(sorted);
      assert x in xs <==> x in multiset(xs);
    }
  }

  /** Dropping the first row keeps a list in key order. */
  lemma SortedTail<T>(xs: seq<T>, key: T -> int, descending: bool)
    requires xs != [] && SortedBy(xs, key, descending)
    ensures SortedBy(xs[1..], key, descending)
  {
    forall i, k | 0 <= i < k < |xs[1..]| ensures InOrder(key(xs[1..][i]), key(xs[1..][k]), descending) {
      assert xs[1..][i] == xs[i + 1] && xs[1..][k] == xs[k + 1];
    }
  }

  /** Orderings of the same rows on a key no two rows share start alike. */
  lemma SortedPermutationsStartAlike<T>(a: seq<T>, b: seq<T>, key: T -> int, descending: bool)
    requires a != [] && b != [] && multiset(a) == multiset(b)
    requires SortedBy(a, key, descending) && SortedBy(b, key, descending)
    requires KeysDistinct(a, key)
    ensures a[0] == b[0]
  {
    assert a[0] in multiset(b);
    var j :| 0 <= j < |b| && b[j] == a[0];
    assert b[0] in multiset(a);
    var m :| 0 <= m < |a| && a[m] == b[0];
    if m != 0 {
      assert false;
    }
  }

  /** Lists with the same rows and the same first row have the same rest. */
  lemma TailsPermuted<T>(a: seq<T>, b: seq<T>)
    requires a != [] && b != [] && multiset(a) == multiset(b) && a[0] == b[0]
    ensures multiset(a[1..]) == multiset(b[1..])
  {
    assert a == [a[0]] + a[1..] && b == [b[0]] + b[1..];
    assert multiset(a) == multiset{a[0]} + multiset(a[1..]);
    assert multiset(b) == multiset{b[0]} + multiset(b[1..]);
    assert multiset(a[1..]) == multiset(a) - multiset{a[0]};
    assert multiset(b[1..]) == multiset(b) - multiset{b[0]};
  }

  /** Two orderings of the same rows, both in key order on a key no two rows
      share, are the same ordering: with distinct keys the sort is unique. */
  lemma {:induction false} SortedPermutationsEqual<T>(a: seq<T>, b: seq<T>, key: T -> int, descending: bool)
    requires multiset(a) == multiset(b)
    requires SortedBy(a, key, descending) && SortedBy(b, key, descending)
    requires KeysDistinct(a, key)
    ensures a == b
  {
    assert |a| == |multiset(a)| == |multiset(b)| == |b|;
    if a != [] {
      SortedPermutationsStartAlike(a, b, key, descending);
      TailsPermuted(a, b);
      SortedTail(a, key, descending);
      SortedTail(b, key, descending);
      assert forall i, k :: 0 <= i < k < |a[1..]| ==> key(a[1..][i]) != key(a[1..][k]) by {
        forall i, k | 0 <= i < k < |a[1..]| ensures key(a[1..][i]) != key(a[1..][k]) {
          assert a[1..][i] == a[i + 1] && a[1..][k] == a[k + 1];
        }
      }
      SortedPermutationsEqual(a[1..], b[1..], key, descending);
      assert a == [a[0]] + a[1..] && b == [b[0]] + b[1..];
    }
  }

  /** No two rows share a key. */
  predicate KeysDistinct<T>(xs: seq<T>, key: T -> int)
  {
    forall i, j :: 0 <= i < j < |xs| ==> key(xs[i]) != key(xs[j])
  }

  /** A row at two places is counted at least twice. */
  lemma CountAtLeastTwo<T>(s: seq<T>, i: nat, j: nat)
    requires i < j < |s| && s[i] == s[j]
    ensures multiset(s)[s[i]] >= 2
  {
    assert s == s[..j] + s[j..];
    assert s[..j][i] == s[i] && s[j..][0] == s[j];
    assert multiset(s) == multiset(s[..j]) + multiset(s[j..]);
  }

  /** A row at one place only is counted once. */
  lemma CountOnce<T>(s: seq<T>, p: nat)
    requires p < |s| && forall k :: 0 <= k < |s| && k != p ==> s[k] != s[p]
    ensures multiset(s)[s[p]] == 1
  {
    assert s == s[..p] + [s[p]] + s[p + 1..];
    assert s[p] !in s[..p] by {
      forall k | 0 <= k < p ensures s[..p][k] != s[p] { assert s[..p][k] == s[k]; }
    }
    var after := s[p + 1..];
    assert s[p] !in after by {
      forall k | 0 <= k < |after| ensures after[k] != s[p] { assert after[k] == s[p + 1 + k]; }
    }
    assert multiset(s) == multiset(s[..p]) + multiset{s[p]} + multiset(after);
  }

  /** Reordering rows keeps their keys distinct. */
  lemma KeysDistinctPermuted<T>(a: seq<T>, b: seq<T>, key: T -> int)
    requires multiset(a) == multiset(b) && KeysDistinct(a, key)
    ensures KeysDistinct(b, key)
  {
    forall i, j | 0 <= i < j < |b| ensures key(b[i]) != key(b[j]) {
      if key(b[i]) == key(b[j]) {
        assert b[i] in multiset(a) && b[j] in multiset(a);
        var p :| 0 <= p < |a| && a[p] == b[i];
        var q :| 0 <= q < |a| && a[q] == b[j];
        assert p == q;
        CountAtLeastTwo(b, i, j);
        forall k | 0 <= k < |a| && k != p ensures a[k] != a[p] {
          if k < p { assert key(a[k]) != key(a[p]); } else { assert key(a[p]) != key(a[k]); }
        }
        CountOnce(a, p);
        assert false;
      }
    }
  }
}
