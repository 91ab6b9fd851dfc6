/**
  Sorting by a comparison, the model of JavaScript's `Array.prototype.sort`
  with a comparator. The original sorts with a stable algorithm; here the
  sort is a functional insertion sort, and what the callers rely on is its
  contract: the result is a permutation of the input, ordered by `le`.
 */
module Sorting {

  ghost predicate Total<T(!new)>(le: (T, T) -> bool) {
    forall a, b :: le(a, b) || le(b, a)
  }

  ghost predicate Transitive<T(!new)>(le: (T, T) -> bool) {
    forall a, b, c :: le(a, b) && le(b, c) ==> le(a, c)
  }

  ghost predicate Antisymmetric<T(!new)>(le: (T, T) -> bool) {
    forall a, b :: le(a, b) && le(b, a) ==> a == b
  }

  /** `le` orders every pair consistently: what a JavaScript comparator must be for `sort` to be meaningful. */
  ghost predicate TotalPreorder<T(!new)>(le: (T, T) -> bool) {
    Total(le) && Transitive(le)
  }

  predicate Sorted<T>(s: seq<T>, le: (T, T) -> bool) {
    forall i, j :: 0 <= i < j < |s| ==> le(s[i], s[j])
  }

  /** Inserts `x` before the first element it may precede. */
  function Insert<T>(x: T, s: seq<T>, le: (T, T) -> bool): (r: seq<T>)
    ensures multiset(r) == multiset(s) + multiset{x}
    ensures |r| == |s| + 1
  {
    if |s| == 0 then [x]
    else if le(x, s[0]) then [x] + s
    else
      assert s == [s[0]] + s[1..];
      [s[0]] + Insert(x, s[1..], le)
  }

  lemma {:induction false} InsertSorted<T(!new)>(x: T, s: seq<T>, le: (T, T) -> bool)
    requires TotalPreorder(le)
    requires Sorted(s, le)
    ensures Sorted(Insert(x, s, le), le)
  {
    if |s| == 0 {
    } else if le(x, s[0]) {
      var r := [x] + s;
      forall i, j | 0 <= i < j < |r| ensures le(r[i], r[j]) {
        if i == 0 && j > 1 {
          assert le(s[0], s[j - 1]);
        }
      }
    } else {
      assert le(s[0], x);
      var rest := Insert(x, s[1..], le);
      InsertSorted(x, s[1..], le);
      var r := [s[0]] + rest;
      forall i, j | 0 <= i < j < |r| ensures le(r[i], r[j]) {
        if i == 0 {
          var y := rest[j - 1];
          assert y in multiset(rest);
          if y != x {
            assert y in multiset(s[1..]);
            var k :| 0 <= k < |s[1..]| && s[1..][k] == y;
            assert le(s[0], s[k + 1]);
          }
        }
      }
    }
  }

  /** The sorted permutation of `s`. */
  function SortBy<T(!new)>(s: seq<T>, le: (T, T) -> bool): (r: seq<T>)
    requires TotalPreorder(le)
    ensures multiset(r) == multiset(s)
    ensures |r| == |s|
    ensures Sorted(r, le)
  {
    if |s| == 0 then []
    else
      assert s == [s[0]] + s[1..];
      var sortedTail := SortBy(s[1..], le);
      InsertSorted(s[0], sortedTail, le);
      Insert(s[0], sortedTail, le)
  }

  lemma SortedTail<T>(s: seq<T>, le: (T, T) -> bool)
    requires |s| > 0 && Sorted(s, le)
    ensures Sorted(s[1..], le)
  {
    forall p, q | 0 <= p < q < |s[1..]| ensures le(s[1..][p], s[1..][q]) {
      assert le(s[p + 1], s[q + 1]);
    }
  }

  /** Two sorted permutations start with the same element. */
  lemma SortedPermutationsSameHead<T(!new)>(a: seq<T>, b: seq<T>, le: (T, T) -> bool)
    requires Antisymmetric(le)
    requires Sorted(a, le) && Sorted(b, le)
    requires multiset(a) == multiset(b) && |a| > 0
    ensures |b| > 0 && a[0] == b[0]
  {
    assert |b| > 0 by { assert |multiset(b)| == |multiset(a)|; }
    assert a[0] in multiset(b);
    var j :| 0 <= j < |b| && b[j] == a[0];
    assert b[0] in multiset(a);
    var i :| 0 <= i < |a| && a[i] == b[0];
    if i != 0 && j != 0 {
      assert le(a[0], b[0]) && le(b[0], a[0]);
    }
  }

  /** Taking the same first element off two permutations leaves permutations. */
  lemma PermutationTails<T>(a: seq<T>, b: seq<T>)
    requires multiset(a) == multiset(b) && |a| > 0 && |b| > 0 && a[0] == b[0]
    ensures multiset(a[1..]) == multiset(b[1..])
  {
    assert a == [a[0]] + a[1..];
    assert b == [b[0]] + b[1..];
    assert multiset(a[1..]) == multiset(a) - multiset{a[0]};
    assert multiset(b[1..]) == multiset(b) - multiset{b[0]};
  }

  /**
    Two sorted sequences that are permutations of each other are equal, when
    the order is antisymmetric: sorting is a canonical form for multisets.
   */
  lemma {:induction false} SortedPermutationsEqual<T(!new)>(a: seq<T>, b: seq<T>, le: (T, T) -> bool)
    requires Antisymmetric(le)
    requires Sorted(a, le) && Sorted(b, le)
    requires multiset(a) == multiset(b)
    ensures a == b
    decreases |a|
  {
    if |a| == 0 {
      assert |multiset(b)| == 0;
    } else {
      SortedPermutationsSameHead(a, b, le);
      PermutationTails(a, b);
      SortedTail(a, le);
      SortedTail(b, le);
      SortedPermutationsEqual(a[1..], b[1..], le);
      assert a == [a[0]] + a[1..];
      assert b == [b[0]] + b[1..];
    }
  }

  /** Sorting two sequences yields the same result exactly when they hold the same elements. */
  lemma SortEqualIffSameMultiset<T(!new)>(a: seq<T>, b: seq<T>, le: (T, T) -> bool)
    requires TotalPreorder(le) && Antisymmetric(le)
    ensures SortBy(a, le) == SortBy(b, le) <==> multiset(a) == multiset(b)
  {
    if multiset(a) == multiset(b) {
      SortedPermutationsEqual(SortBy(a, le), SortBy(b, le), le);
    }
  }

  predicate IntLe(x: int, y: int) {
    x <= y
  }

  lemma IntLeIsTotalOrder()
    ensures TotalPreorder(IntLe) && Antisymmetric(IntLe)
  {
  }
}
