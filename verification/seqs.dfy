/**
  Sequence helpers shared by every component of the client: the `filter`,
  `reduce` and `map` idioms of the original JavaScript, stated once with the
  properties the rest of the model relies on.
 */
module Seqs {

  /** A value that may be absent (JavaScript `null`/`undefined`, a missing storage key). */
  datatype Option<+T> = None | Some(value: T)

  /** `a` is an order-preserving subsequence of `b` (greedy matching from the front). */
  predicate IsSubseq<T(==)>(a: seq<T>, b: seq<T>)
    decreases |b|
  {
    if |a| == 0 then true
    else if |b| == 0 then false
    else if a[0] == b[0] then IsSubseq(a[1..], b[1..])
    else IsSubseq(a, b[1..])
  }

  lemma {:induction false} SubseqRefl<T>(s: seq<T>)
    ensures IsSubseq(s, s)
    decreases |s|
  {
    if |s| > 0 {
      SubseqRefl(s[1..]);
    }
  }

  /** Dropping the first element of a subsequence keeps it a subsequence. */
  lemma {:induction false} SubseqDropHead<T>(a: seq<T>, c: seq<T>)
    requires |a| > 0 && IsSubseq(a, c)
    ensures IsSubseq(a[1..], c)
    decreases |c|, 1
  {
    if a[0] != c[0] {
      SubseqDropHead(a, c[1..]);
    }
    SubseqExtendFront(a[1..], c);
  }

  /** A subsequence of the tail is a subsequence of the whole. */
  lemma {:induction false} SubseqExtendFront<T>(x: seq<T>, c: seq<T>)
    requires |c| > 0 && IsSubseq(x, c[1..])
    ensures IsSubseq(x, c)
    decreases |c|, 0
  {
    if |x| > 0 && x[0] == c[0] {
      SubseqDropHead(x, c[1..]);
    }
  }

  /** Subsequences compose. */
  lemma {:induction false} SubseqTransitive<T>(a: seq<T>, b: seq<T>, c: seq<T>)
    requires IsSubseq(a, b) && IsSubseq(b, c)
    ensures IsSubseq(a, c)
    decreases |c|
  {
    if |a| > 0 {
      if b[0] == c[0] {
        if a[0] == b[0] {
          SubseqTransitive(a[1..], b[1..], c[1..]);
        } else {
          SubseqTransitive(a, b[1..], c[1..]);
        }
      } else {
        SubseqTransitive(a, b, c[1..]);
        if a[0] == c[0] {
          SubseqDropHead(a, c[1..]);
        }
      }
    }
  }

  /** No element occurs twice. */
  predicate NoDup<T(==)>(s: seq<T>) {
    forall i, j :: 0 <= i < j < |s| ==> s[i] != s[j]
  }

  /** Number of occurrences of `x` in `s`. */
  function Count<T(==)>(s: seq<T>, x: T): nat {
    if |s| == 0 then 0
    else Count(s[..|s| - 1], x) + (if s[|s| - 1] == x then 1 else 0)
  }

  lemma {:induction false} CountNoDup<T>(s: seq<T>, x: T)
    requires NoDup(s)
    ensures Count(s, x) == if x in s then 1 else 0
  {
    if |s| > 0 {
      var init := s[..|s| - 1];
      assert NoDup(init);
      CountNoDup(init, x);
      if s[|s| - 1] == x {
        assert x !in init by {
          forall i | 0 <= i < |init| ensures init[i] != x {
            assert s[i] != s[|s| - 1];
          }
        }
      }
      assert s == init + [s[|s| - 1]];
    }
  }

  /** JavaScript `s.filter(p)`: the elements satisfying `p`, in their original order. */
  function Filter<T(==,!new)>(s: seq<T>, p: T -> bool): (r: seq<T>)
    ensures |r| <= |s|
    ensures forall x :: x in r <==> x in s && p(x)
    ensures forall i :: 0 <= i < |r| ==> p(r[i])
    ensures (forall i :: 0 <= i < |s| ==> p(s[i])) ==> r == s
    ensures IsSubseq(r, s)
    ensures multiset(r) <= multiset(s)
  {
    if |s| == 0 then []
    else
      var rest := Filter(s[1..], p);
      assert s == [s[0]] + s[1..];
      if p(s[0]) then [s[0]] + rest else rest
  }

  /**
    `Filter` keeps every copy of a passing element and no copy of a failing
    one. Stated apart from `Filter` so that proofs about the order of the
    result do not carry it.
   */
  lemma {:induction false} FilterCount<T(!new)>(s: seq<T>, p: T -> bool)
    ensures forall x :: multiset(Filter(s, p))[x] == if p(x) then multiset(s)[x] else 0
  {
    if |s| > 0 {
      FilterCount(s[1..], p);
      assert s == [s[0]] + s[1..];
      assert multiset(s) == multiset{s[0]} + multiset(s[1..]);
    }
  }

  /** One step of `Filter`, from the front. */
  lemma FilterCons<T(!new)>(s: seq<T>, p: T -> bool)
    requires |s| > 0
    ensures Filter(s, p) == if p(s[0]) then [s[0]] + Filter(s[1..], p) else Filter(s[1..], p)
  {
  }

  /** Nothing passes, so nothing is kept. */
  lemma FilterNone<T(!new)>(s: seq<T>, p: T -> bool)
    requires forall i :: 0 <= i < |s| ==> !p(s[i])
    ensures Filter(s, p) == []
  {
  }

  /** A prefix in which nothing passes contributes nothing. */
  lemma {:induction false} FilterSkipPrefix<T(!new)>(s: seq<T>, p: T -> bool, k: int)
    requires 0 <= k <= |s|
    requires forall i :: 0 <= i < k ==> !p(s[i])
    ensures Filter(s, p) == Filter(s[k..], p)
  {
    var a, b := s[..k], s[k..];
    assert forall i :: 0 <= i < |a| ==> !p(a[i]) by {
      forall i | 0 <= i < |a| ensures !p(a[i]) {
        assert a[i] == s[i];
      }
    }
    FilterNone(a, p);
    FilterAppend(a, b, p);
    assert s == a + b;
  }

  /** When only the element at `k` passes, it is all that is kept. */
  lemma {:induction false} FilterOnlyAt<T(!new)>(s: seq<T>, p: T -> bool, k: int)
    requires 0 <= k < |s| && p(s[k])
    requires forall i :: 0 <= i < |s| && i != k ==> !p(s[i])
    ensures Filter(s, p) == [s[k]]
  {
    FilterSkipPrefix(s, p, k);
    var rest := s[k..];
    FilterCons(rest, p);
    assert forall i :: 0 <= i < |rest[1..]| ==> !p(rest[1..][i]) by {
      forall i | 0 <= i < |rest[1..]| ensures !p(rest[1..][i]) {
        assert rest[1..][i] == s[k + 1 + i];
      }
    }
    FilterNone(rest[1..], p);
  }

  /** When only the element at `k` fails, the rest is kept as it was. */
  lemma {:induction false} FilterDropsOnlyAt<T(!new)>(s: seq<T>, p: T -> bool, k: int)
    requires 0 <= k < |s| && !p(s[k])
    requires forall i :: 0 <= i < |s| && i != k ==> p(s[i])
    ensures Filter(s, p) == s[..k] + s[k + 1..]
  {
    assert s == s[..k] + s[k..];
    FilterKeepsPrefix(s, p, k);
    FilterDropsFirstOfSuffix(s, p, k);
    FilterAppend(s[..k], s[k..], p);
  }

  lemma {:induction false} FilterKeepsPrefix<T(!new)>(s: seq<T>, p: T -> bool, k: int)
    requires 0 <= k <= |s|
    requires forall i :: 0 <= i < k ==> p(s[i])
    ensures Filter(s[..k], p) == s[..k]
  {
    var a := s[..k];
    assert forall i :: 0 <= i < |a| ==> p(a[i]) by {
      forall i | 0 <= i < |a| ensures p(a[i]) {
        assert a[i] == s[i];
      }
    }
  }

  lemma {:induction false} FilterDropsFirstOfSuffix<T(!new)>(s: seq<T>, p: T -> bool, k: int)
    requires 0 <= k < |s| && !p(s[k])
    requires forall i :: k < i < |s| ==> p(s[i])
    ensures Filter(s[k..], p) == s[k + 1..]
  {
    var b := s[k..];
    FilterCons(b, p);
    var c := b[1..];
    assert c == s[k + 1..];
    assert forall i :: 0 <= i < |c| ==> p(c[i]) by {
      forall i | 0 <= i < |c| ensures p(c[i]) {
        assert c[i] == s[k + 1 + i];
      }
    }
  }

  /** Filtering distributes over concatenation. */
  lemma {:induction false} FilterAppend<T(!new)>(a: seq<T>, b: seq<T>, p: T -> bool)
    ensures Filter(a + b, p) == Filter(a, p) + Filter(b, p)
  {
    if |a| == 0 {
      assert a + b == b;
    } else {
      assert (a + b)[1..] == a[1..] + b;
      FilterAppend(a[1..], b, p);
    }
  }

  /** Two tests that agree on every element of `s` filter it identically. */
  lemma {:induction false} FilterExt<T(!new)>(s: seq<T>, p: T -> bool, q: T -> bool)
    requires forall x :: x in s ==> p(x) == q(x)
    ensures Filter(s, p) == Filter(s, q)
  {
    if |s| > 0 {
      assert forall x :: x in s[1..] ==> x in s;
      FilterExt(s[1..], p, q);
    }
  }

  /** Filtering a duplicate-free sequence leaves it duplicate-free. */
  lemma {:induction false} FilterNoDup<T(!new)>(s: seq<T>, p: T -> bool)
    requires NoDup(s)
    ensures NoDup(Filter(s, p))
  {
    if |s| > 0 {
      assert NoDup(s[1..]);
      FilterNoDup(s[1..], p);
      assert s[0] !in s[1..] by {
        forall i | 0 <= i < |s[1..]| ensures s[1..][i] != s[0] {
          assert s[i + 1] != s[0];
        }
      }
    }
  }

  /** JavaScript `s.map(f)`. */
  function Map<T, U>(s: seq<T>, f: T -> U): (r: seq<U>)
    ensures |r| == |s|
    ensures forall i :: 0 <= i < |s| ==> r[i] == f(s[i])
  {
    seq(|s|, i requires 0 <= i < |s| => f(s[i]))
  }

  /** JavaScript `s.reduce((total, x) => total + f(x), 0)`: a left fold from 0. */
  function SumBy<T>(s: seq<T>, f: T -> int): int {
    if |s| == 0 then 0 else SumBy(s[..|s| - 1], f) + f(s[|s| - 1])
  }

  lemma SumByAppend<T>(s: seq<T>, x: T, f: T -> int)
    ensures SumBy(s + [x], f) == SumBy(s, f) + f(x)
  {
    assert (s + [x])[..|s + [x]| - 1] == s;
  }

  lemma {:induction false} SumByConcat<T>(a: seq<T>, b: seq<T>, f: T -> int)
    ensures SumBy(a + b, f) == SumBy(a, f) + SumBy(b, f)
  {
    if |b| == 0 {
      assert a + b == a;
    } else {
      var init := b[..|b| - 1];
      assert a + b == (a + init) + [b[|b| - 1]];
      assert b == init + [b[|b| - 1]];
      SumByConcat(a, init, f);
      SumByAppend(a + init, b[|b| - 1], f);
      SumByAppend(init, b[|b| - 1], f);
    }
  }

  /** Replacing one element moves the sum by exactly the difference of the two values. */
  lemma {:induction false} SumByUpdate<T>(s: seq<T>, k: int, x: T, f: T -> int)
    requires 0 <= k < |s|
    ensures SumBy(s[k := x], f) == SumBy(s, f) - f(s[k]) + f(x)
  {
    var t := s[k := x];
    assert s == s[..k] + [s[k]] + s[k + 1..];
    assert t == s[..k] + [x] + s[k + 1..];
    SumByConcat(s[..k] + [s[k]], s[k + 1..], f);
    SumByConcat(s[..k] + [x], s[k + 1..], f);
    SumByAppend(s[..k], s[k], f);
    SumByAppend(s[..k], x, f);
  }

  /** Every element contributes zero, so the sum is zero. */
  lemma {:induction false} SumByZero<T>(s: seq<T>, f: T -> int)
    requires forall i :: 0 <= i < |s| ==> f(s[i]) == 0
    ensures SumBy(s, f) == 0
  {
    if |s| > 0 {
      SumByZero(s[..|s| - 1], f);
    }
  }
}
