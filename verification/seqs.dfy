/**
 * The array combinators the views are built from, over Dafny sequences:
 * `filter`, `reduce((s, x) => s + f(x), 0)`, `slice(0, n)`, and
 * `sort((a, b) => key(b) - key(a))` (a stable sort, largest key first).
 */
module Seqs {
  import opened Wrappers

  /** `s.find(p)`: the first element satisfying `p`, if any. */
  function Find<T>(s: seq<T>, p: T -> bool): (r: Option<T>)
    ensures r.None? <==> forall i | 0 <= i < |s| :: !p(s[i])
    ensures r.Some? ==> exists k | 0 <= k < |s| :: s[k] == r.value && p(s[k]) && forall j | 0 <= j < k :: !p(s[j])
  {
    if |s| == 0 then None
    else if p(s[0]) then Some(s[0])
    else
      var r := Find(s[1..], p);
      assert r.Some? ==> exists k | 0 <= k < |s[1..]| :: s[1..][k] == r.value && p(s[1..][k]) && forall j | 0 <= j < k :: !p(s[1..][j]);
      r
  }

  /** What `Find` returns for a sequence that maps element-wise to another. */
  lemma {:induction false} FindMapped<T, U>(s: seq<T>, p: T -> bool, t: seq<U>, q: U -> bool, m: T -> U)
    requires |s| == |t|
    requires forall i | 0 <= i < |s| :: t[i] == m(s[i]) && (q(t[i]) <==> p(s[i]))
    ensures Find(s, p).None? <==> Find(t, q).None?
    ensures Find(s, p).Some? ==> Find(t, q) == Some(m(Find(s, p).value))
  {
    if |s| > 0 {
      FindMapped(s[1..], p, t[1..], q, m);
    }
  }

  /** Two predicates that agree on every element find the same element. */
  lemma {:induction false} FindCongruent<T>(s: seq<T>, p: T -> bool, q: T -> bool)
    requires forall i | 0 <= i < |s| :: p(s[i]) == q(s[i])
    ensures Find(s, p) == Find(s, q)
  {
    if |s| > 0 {
      FindCongruent(s[1..], p, q);
    }
  }

  /** `s.filter(p)`: keeps, in order, the elements satisfying `p`. */
  function Filter<T>(s: seq<T>, p: T -> bool): (r: seq<T>)
    ensures |r| <= |s|
    ensures forall x | x in r :: x in s && p(x)
    ensures forall x | x in s && p(x) :: x in r
    ensures forall i | 0 <= i < |r| :: p(r[i])
  {
    if |s| == 0 then []
    else (if p(s[0]) then [s[0]] else []) + Filter(s[1..], p)
  }

  lemma {:induction false} FilterAppend<T>(a: seq<T>, b: seq<T>, p: T -> bool)
    ensures Filter(a + b, p) == Filter(a, p) + Filter(b, p)
  {
    if |a| > 0 {
      assert (a + b)[0] == a[0];
      assert (a + b)[1..] == a[1..] + b;
      FilterAppend(a[1..], b, p);
    } else {
      assert a + b == b;
    }
  }

  /** Filtering with a predicate every element satisfies keeps the whole sequence. */
  lemma {:induction false} FilterAll<T>(s: seq<T>, p: T -> bool)
    requires forall i | 0 <= i < |s| :: p(s[i])
    ensures Filter(s, p) == s
  {
    if |s| > 0 {
      FilterAll(s[1..], p);
    }
  }

  /** Filtering out exactly the element at `k` removes it and keeps the rest in order. */
  lemma {:induction false} FilterDropsOne<T>(s: seq<T>, k: nat, p: T -> bool)
    requires k < |s| && !p(s[k])
    requires forall i | 0 <= i < |s| && i != k :: p(s[i])
    ensures Filter(s, p) == s[..k] + s[k + 1..]
  {
    var tail := s[1..];
    assert Filter(s, p) == (if p(s[0]) then [s[0]] else []) + Filter(tail, p);
    if k == 0 {
      forall i | 0 <= i < |tail| ensures p(tail[i]) {
        assert tail[i] == s[i + 1];
      }
      FilterAll(tail, p);
      assert s[..k] + s[k + 1..] == tail;
    } else {
      forall i | 0 <= i < |tail| && i != k - 1 ensures p(tail[i]) {
        assert tail[i] == s[i + 1];
      }
      FilterDropsOne(tail, k - 1, p);
      var before, after := tail[..k - 1], tail[k..];
      assert p(s[0]);
      assert Filter(s, p) == [s[0]] + (before + after);
      assert [s[0]] + (before + after) == ([s[0]] + before) + after;
      assert [s[0]] + before == s[..k];
      assert after == s[k + 1..];
    }
  }

  /** Two predicates that agree on every element filter a sequence alike. */
  lemma {:induction false} FilterCongruent<T>(s: seq<T>, p: T -> bool, q: T -> bool)
    requires forall i | 0 <= i < |s| :: p(s[i]) == q(s[i])
    ensures Filter(s, p) == Filter(s, q)
  {
    if |s| > 0 {
      FilterCongruent(s[1..], p, q);
    }
  }

  /** `r` is `s` with some elements left out and the others kept in their order. */
  ghost predicate Subsequence<T>(r: seq<T>, s: seq<T>)
    decreases |s|
  {
    |r| == 0 || (|s| > 0 && ((r[0] == s[0] && Subsequence(r[1..], s[1..])) || Subsequence(r, s[1..])))
  }

  /**
   * What `s.filter(p)` returns, stated without computing it: the elements of
   * `s` that satisfy `p`, in their order in `s`, each as often as it occurs there.
   */
  ghost predicate Filtered<T(!new)>(r: seq<T>, s: seq<T>, p: T -> bool) {
    Subsequence(r, s) && forall x :: multiset(r)[x] == if p(x) then multiset(s)[x] else 0
  }

  /** A subsequence holds no element more often than the sequence it is taken from. */
  lemma {:induction false} SubsequenceMultiset<T>(r: seq<T>, s: seq<T>)
    requires Subsequence(r, s)
    ensures multiset(r) <= multiset(s)
    decreases |s|
  {
    if |r| > 0 {
      assert s == [s[0]] + s[1..];
      if r[0] == s[0] && Subsequence(r[1..], s[1..]) {
        SubsequenceMultiset(r[1..], s[1..]);
        assert r == [r[0]] + r[1..];
      } else {
        SubsequenceMultiset(r, s[1..]);
      }
    }
  }

  /** `Filter` meets its specification. */
  lemma {:induction false} FilterIsFiltered<T(!new)>(s: seq<T>, p: T -> bool)
    ensures Filtered(Filter(s, p), s, p)
  {
    if |s| > 0 {
      FilterIsFiltered(s[1..], p);
      var rest := Filter(s[1..], p);
      assert s == [s[0]] + s[1..];
      if p(s[0]) {
        assert Filter(s, p) == [s[0]] + rest;
        assert Filter(s, p)[1..] == rest;
      } else {
        assert Filter(s, p) == rest;
      }
    }
  }

  /** The specification determines the result: only `Filter(s, p)` meets it. */
  lemma {:induction false} FilteredIsFilter<T(!new)>(r: seq<T>, s: seq<T>, p: T -> bool)
    requires Filtered(r, s, p)
    ensures r == Filter(s, p)
    decreases |s|
  {
    if |s| == 0 {
      return;
    }
    var x := s[0];
    assert s == [x] + s[1..];
    if |r| == 0 {
      assert x in multiset(s) && multiset(r)[x] == 0;
      assert Filtered(r, s[1..], p);
      FilteredIsFilter(r, s[1..], p);
    } else if p(x) {
      if Subsequence(r, s[1..]) {
        SubsequenceMultiset(r, s[1..]);
      }
      assert multiset(r)[x] == multiset(s[1..])[x] + 1;
      assert r[0] == x && Subsequence(r[1..], s[1..]);
      assert r == [x] + r[1..];
      assert forall y :: multiset(r[1..])[y] == if p(y) then multiset(s[1..])[y] else 0 by {
        forall y ensures multiset(r[1..])[y] == if p(y) then multiset(s[1..])[y] else 0 {
          assert multiset(r)[y] == multiset(r[1..])[y] + (if y == x then 1 else 0);
          assert multiset(s)[y] == multiset(s[1..])[y] + (if y == x then 1 else 0);
        }
      }
      FilteredIsFilter(r[1..], s[1..], p);
    } else {
      assert r[0] != x by {
        assert r[0] in multiset(r);
      }
      assert forall y :: multiset(r)[y] == if p(y) then multiset(s[1..])[y] else 0 by {
        forall y ensures multiset(r)[y] == if p(y) then multiset(s[1..])[y] else 0 {
          assert multiset(s)[y] == multiset(s[1..])[y] + (if y == x then 1 else 0);
        }
      }
      FilteredIsFilter(r, s[1..], p);
    }
  }

  /** The elements a filter keeps and the ones its negation keeps together make up the sequence. */
  lemma {:induction false} CountPartition<T>(s: seq<T>, p: T -> bool, q: T -> bool)
    requires forall i | 0 <= i < |s| :: q(s[i]) == !p(s[i])
    ensures Count(s, p) + Count(s, q) == |s|
  {
    if |s| > 0 {
      CountPartition(s[1..], p, q);
    }
  }

  /** `s.filter(p).length` */
  function Count<T>(s: seq<T>, p: T -> bool): (n: nat)
    ensures n <= |s|
  {
    |Filter(s, p)|
  }

  /** `s.reduce((acc, x) => acc + f(x), 0)` */
  function SumBy<T>(s: seq<T>, f: T -> real): real
  {
    if |s| == 0 then 0.0 else f(s[0]) + SumBy(s[1..], f)
  }

  lemma {:induction false} SumByAppend<T>(a: seq<T>, b: seq<T>, f: T -> real)
    ensures SumBy(a + b, f) == SumBy(a, f) + SumBy(b, f)
  {
    if |a| > 0 {
      assert (a + b)[0] == a[0];
      assert (a + b)[1..] == a[1..] + b;
      SumByAppend(a[1..], b, f);
    } else {
      assert a + b == b;
    }
  }

  /** A sum of non-negative terms is non-negative. */
  lemma {:induction false} SumByNonNeg<T>(s: seq<T>, f: T -> real)
    requires forall i | 0 <= i < |s| :: f(s[i]) >= 0.0
    ensures SumBy(s, f) >= 0.0
  {
    if |s| > 0 {
      SumByNonNeg(s[1..], f);
    }
  }

  /** Removing the element at `k` removes one copy of it from the multiset. */
  lemma MultisetRemoveAt<T>(t: seq<T>, k: nat)
    requires k < |t|
    ensures multiset(t[..k] + t[k + 1..]) == multiset(t) - multiset{t[k]}
  {
    assert t == t[..k] + [t[k]] + t[k + 1..];
  }

  /** A sum is the term at `k` plus the sum of the others. */
  lemma SumByRemoveAt<T>(t: seq<T>, k: nat, f: T -> real)
    requires k < |t|
    ensures SumBy(t, f) == f(t[k]) + SumBy(t[..k] + t[k + 1..], f)
  {
    var a, b := t[..k], t[k + 1..];
    var mid := [t[k]] + b;
    assert t[k..] == mid;
    assert t == a + t[k..];
    SumByAppend(a, mid, f);
    assert mid[0] == t[k] && mid[1..] == b;
    assert SumBy(mid, f) == f(t[k]) + SumBy(b, f);
    SumByAppend(a, b, f);
  }

  /** Sums do not depend on the order of the terms. */
  lemma {:induction false} SumByPermutation<T>(s: seq<T>, t: seq<T>, f: T -> real)
    requires multiset(s) == multiset(t)
    ensures SumBy(s, f) == SumBy(t, f)
    decreases |s|
  {
    if |s| > 0 {
      var x := s[0];
      assert x in multiset(t);
      var k :| 0 <= k < |t| && t[k] == x;
      MultisetRemoveAt(t, k);
      assert s == [x] + s[1..];
      assert multiset(s[1..]) == multiset(s) - multiset{x};
      SumByPermutation(s[1..], t[..k] + t[k + 1..], f);
      SumByRemoveAt(t, k, f);
    } else {
      assert |t| == |multiset(t)| == 0;
    }
  }

  /** A sum splits into the part where `p` holds and the part where its negation `q` holds. */
  lemma {:induction false} SumByPartition<T>(s: seq<T>, f: T -> real, p: T -> bool, q: T -> bool)
    requires forall i | 0 <= i < |s| :: q(s[i]) == !p(s[i])
    ensures SumBy(s, f) == SumBy(Filter(s, p), f) + SumBy(Filter(s, q), f)
  {
    if |s| > 0 {
      SumByPartition(s[1..], f, p, q);
      SumByAppend(if p(s[0]) then [s[0]] else [], Filter(s[1..], p), f);
      SumByAppend(if q(s[0]) then [s[0]] else [], Filter(s[1..], q), f);
    }
  }

  /** Terms outside the filter that are zero do not change the sum. */
  lemma {:induction false} SumByDropZeros<T>(s: seq<T>, f: T -> real, p: T -> bool)
    requires forall i | 0 <= i < |s| :: !p(s[i]) ==> f(s[i]) == 0.0
    ensures SumBy(Filter(s, p), f) == SumBy(s, f)
  {
    if |s| > 0 {
      SumByDropZeros(s[1..], f, p);
      SumByAppend(if p(s[0]) then [s[0]] else [], Filter(s[1..], p), f);
    }
  }

  /** Two sequences that differ only at index `k` have sums differing by the change at `k`. */
  lemma SumByChangeAt<T>(c: seq<T>, r: seq<T>, k: nat, f: T -> real)
    requires |c| == |r| && k < |c|
    requires forall i | 0 <= i < |c| && i != k :: r[i] == c[i]
    ensures SumBy(r, f) == SumBy(c, f) + (f(r[k]) - f(c[k]))
  {
    assert r[..k] + r[k + 1..] == c[..k] + c[k + 1..];
    SumByRemoveAt(c, k, f);
    SumByRemoveAt(r, k, f);
  }

  /** Two element-wise equal-contributing sequences have equal sums. */
  lemma {:induction false} SumByCongruent<T, U>(s: seq<T>, f: T -> real, t: seq<U>, g: U -> real)
    requires |s| == |t|
    requires forall i | 0 <= i < |s| :: f(s[i]) == g(t[i])
    ensures SumBy(s, f) == SumBy(t, g)
  {
    if |s| > 0 {
      SumByCongruent(s[1..], f, t[1..], g);
    }
  }

  /** `s.slice(0, n)` */
  function Take<T>(s: seq<T>, n: nat): (r: seq<T>)
    ensures |r| <= n && |r| <= |s|
    ensures |r| == if |s| < n then |s| else n
    ensures r <= s
  {
    if |s| <= n then s else s[..n]
  }

  /** A prefix holds no element more often than the whole sequence. */
  lemma PrefixMultiset<T>(a: seq<T>, b: seq<T>)
    requires a <= b
    ensures multiset(a) <= multiset(b)
  {
    assert b == a + b[|a|..];
  }

  ghost predicate SortedDesc<T>(s: seq<T>, key: T -> real) {
    forall i, j | 0 <= i < j < |s| :: key(s[i]) >= key(s[j])
  }

  /** Inserts `x` into a list ordered by non-increasing key, before the first element whose key is not larger. */
  function InsertDesc<T>(x: T, s: seq<T>, key: T -> real): (r: seq<T>)
    requires SortedDesc(s, key)
    ensures SortedDesc(r, key)
    ensures multiset(r) == multiset(s) + multiset{x}
    ensures |r| == |s| + 1
  {
    if |s| == 0 || key(s[0]) <= key(x) then [x] + s
    else
      var tail := InsertDesc(x, s[1..], key);
      assert forall j | 0 <= j < |tail| :: key(tail[j]) <= key(s[0]) by {
        forall j | 0 <= j < |tail|
          ensures key(tail[j]) <= key(s[0])
        {
          assert tail[j] in multiset(tail);
          assert tail[j] == x || tail[j] in multiset(s[1..]);
          if tail[j] != x {
            var k :| 0 <= k < |s[1..]| && s[1..][k] == tail[j];
            assert s[k + 1] == tail[j];
          }
        }
      }
      assert s == [s[0]] + s[1..];
      [s[0]] + tail
  }

  /** `[...s].sort((a, b) => key(b) - key(a))`: a stable sort by non-increasing key. */
  function SortDesc<T>(s: seq<T>, key: T -> real): (r: seq<T>)
    ensures SortedDesc(r, key)
    ensures multiset(r) == multiset(s)
    ensures |r| == |s|
  {
    if |s| == 0 then []
    else
      assert s == [s[0]] + s[1..];
      InsertDesc(s[0], SortDesc(s[1..], key), key)
  }

  /** Sequences with the same multiset have the same elements. */
  lemma SameElements<T>(a: seq<T>, b: seq<T>)
    requires multiset(a) == multiset(b)
    ensures forall x | x in a :: x in b
    ensures forall x | x in b :: x in a
  {
    forall x | x in a ensures x in b {
      assert x in multiset(a);
    }
    forall x | x in b ensures x in a {
      assert x in multiset(b);
    }
  }

  /**
   * The first `n` elements of a list sorted by non-increasing key are the top
   * ones: any element of the input whose key exceeds the smallest key shown is
   * among those shown.
   */
  lemma TopOfSorted<T>(s: seq<T>, key: T -> real, n: nat)
    requires n > 0
    ensures var top := Take(SortDesc(s, key), n);
      forall x | x in s && |top| > 0 && key(x) > key(top[|top| - 1]) :: x in top
  {
    var sorted := SortDesc(s, key);
    SameElements(sorted, s);
    if n < |sorted| {
      var top := sorted[..n];
      forall x | x in s && key(x) > key(top[n - 1])
        ensures x in top
      {
        var j :| 0 <= j < |sorted| && sorted[j] == x;
        assert forall k | n <= k < |sorted| :: key(sorted[k]) <= key(top[n - 1]);
        assert top[j] == x;
      }
    }
  }
}
