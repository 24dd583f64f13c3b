/** Exact-arithmetic statistics over latencies: the running sum of
    `reduce((a, b) => a + b, 0)`, the mean, `Math.min`/`Math.max`, the ascending
    numeric sort and the median of a sorted list. Latencies are `real`s, so every
    sum and quotient here is exact where the script uses IEEE doubles. */
module Stats {
  import Seqs


  /** `s.reduce((a, b) => a + b, 0)`: the left-to-right sum starting from 0. */
  function Sum(s: seq<real>): real
    decreases |s|
  {
    if |s| == 0 then 0.0 else Sum(s[..|s| - 1]) + s[|s| - 1]
  }

  /** The arithmetic mean. */
  function Mean(s: seq<real>): real
    requires |s| > 0
  {
    Sum(s) / |s| as real
  }

  /** `Math.min(...s)`: the least element. */
  function Min(s: seq<real>): (m: real)
    requires |s| > 0
    ensures m in s
    ensures forall i :: 0 <= i < |s| ==> m <= s[i]
    decreases |s|
  {
    if |s| == 1 then s[0]
    else
      var m := Min(s[1..]);
      assert forall i :: 1 <= i < |s| ==> s[i] == s[1..][i - 1];
      if s[0] <= m then s[0] else m
  }

  /** `Math.max(...s)`: the greatest element. */
  function Max(s: seq<real>): (m: real)
    requires |s| > 0
    ensures m in s
    ensures forall i :: 0 <= i < |s| ==> s[i] <= m
    decreases |s|
  {
    if |s| == 1 then s[0]
    else
      var m := Max(s[1..]);
      assert forall i :: 1 <= i < |s| ==> s[i] == s[1..][i - 1];
      if m <= s[0] then s[0] else m
  }

  /** The sum of a concatenation is the sum of its parts. */
  lemma {:induction false} SumConcat(a: seq<real>, b: seq<real>)
    ensures Sum(a + b) == Sum(a) + Sum(b)
    decreases |b|
  {
    if |b| > 0 {
      var n := |b| - 1;
      assert (a + b)[..|a + b| - 1] == a + b[..n];
      SumConcat(a, b[..n]);
    } else {
      assert a + b == a;
    }
  }

  /** A sum does not depend on the order of its terms. */
  lemma {:induction false} SumPermutation(a: seq<real>, b: seq<real>)
    requires multiset(a) == multiset(b)
    ensures Sum(a) == Sum(b)
    decreases |a|
  {
    if |a| == 0 {
      assert |b| == |multiset(b)| == 0;
    } else {
      var n := |a| - 1;
      var x := a[n];
      assert a == a[..n] + [x];
      assert x in multiset(b);
      var k :| 0 <= k < |b| && b[k] == x;
      var rest := b[..k] + b[k + 1..];
      assert b == b[..k] + [x] + b[k + 1..];
      assert multiset(rest) == multiset(b) - multiset{x};
      assert multiset(a[..n]) == multiset(a) - multiset{x};
      SumPermutation(a[..n], rest);
      SumConcat(b[..k] + [x], b[k + 1..]);
      SumConcat(b[..k], [x]);
      SumConcat(b[..k], b[k + 1..]);
      assert Sum([x]) == Sum([x][..0]) + x;
    }
  }

  /** A sum of terms that are all at least `lo` is at least |s| times `lo`. */
  lemma {:induction false} SumAtLeast(s: seq<real>, lo: real)
    requires forall i :: 0 <= i < |s| ==> lo <= s[i]
    ensures |s| as real * lo <= Sum(s)
    decreases |s|
  {
    if |s| > 0 {
      var n := |s| - 1;
      SumAtLeast(s[..n], lo);
      assert (n + 1) as real * lo == n as real * lo + lo;
    }
  }

  /** A sum of terms that are all at most `hi` is at most |s| times `hi`. */
  lemma {:induction false} SumAtMost(s: seq<real>, hi: real)
    requires forall i :: 0 <= i < |s| ==> s[i] <= hi
    ensures Sum(s) <= |s| as real * hi
    decreases |s|
  {
    if |s| > 0 {
      var n := |s| - 1;
      SumAtMost(s[..n], hi);
      assert (n + 1) as real * hi == n as real * hi + hi;
    }
  }

  lemma QuotientBounds(x: real, n: real, lo: real, hi: real)
    requires n > 0.0 && n * lo <= x <= n * hi
    ensures lo <= x / n <= hi
  {
    assert x / n - lo == (x - n * lo) / n;
    assert hi - x / n == (n * hi - x) / n;
  }

  /** The mean of terms that all lie in [lo, hi] lies in [lo, hi]. */
  lemma MeanBetween(s: seq<real>, lo: real, hi: real)
    requires |s| > 0
    requires forall i :: 0 <= i < |s| ==> lo <= s[i] <= hi
    ensures lo <= Mean(s) <= hi
  {
    SumAtLeast(s, lo);
    SumAtMost(s, hi);
    QuotientBounds(Sum(s), |s| as real, lo, hi);
  }

  /** The mean lies between the least and the greatest element. */
  lemma MeanBounds(s: seq<real>)
    requires |s| > 0
    ensures Min(s) <= Mean(s) <= Max(s)
  {
    MeanBetween(s, Min(s), Max(s));
  }

  /** Two lists holding the same elements have the same least and greatest element. */
  lemma MinMaxPermutation(a: seq<real>, b: seq<real>)
    requires |a| > 0 && multiset(a) == multiset(b)
    ensures |b| > 0 && Min(a) == Min(b) && Max(a) == Max(b)
  {
    assert a[0] in multiset(b);
    assert Min(a) in multiset(b) && Min(b) in multiset(a);
    assert Max(a) in multiset(b) && Max(b) in multiset(a);
  }

  predicate Sorted(s: seq<real>) {
    forall i, j :: 0 <= i <= j < |s| ==> s[i] <= s[j]
  }

  /** Inserts `x` into the ascending list `s` before the first greater element. */
  function Insert(x: real, s: seq<real>): (r: seq<real>)
    requires Sorted(s)
    ensures Sorted(r)
    ensures multiset(r) == multiset(s) + multiset{x}
    decreases |s|
  {
    if |s| == 0 then [x]
    else if x <= s[0] then [x] + s
    else
      Seqs.HeadTail(s);
      SortedConsParts(s[0], s[1..]);
      var t := Insert(x, s[1..]);
      assert forall v :: v in t ==> s[0] <= v by {
        forall v | v in t ensures s[0] <= v {
          assert v in multiset(s[1..]) + multiset{x};
        }
      }
      SortedCons(s[0], t);
      [s[0]] + t
  }

  /** `s.sort((a, b) => a - b)`: the ascending permutation of `s`. */
  function SortAscending(s: seq<real>): (r: seq<real>)
    ensures Sorted(r)
    ensures multiset(r) == multiset(s)
    decreases |s|
  {
    if |s| == 0 then []
    else
      assert s == [s[0]] + s[1..];
      Insert(s[0], SortAscending(s[1..]))
  }

  /** The head of an ascending list is at most every element of it. */
  lemma SortedHeadIsLeast(s: seq<real>, x: real)
    requires Sorted(s) && x in multiset(s)
    ensures |s| > 0 && s[0] <= x
  {
    var k :| 0 <= k < |s| && s[k] == x;
  }

  lemma SortedTail(s: seq<real>)
    requires |s| > 0 && Sorted(s)
    ensures Sorted(s[1..])
  {
  }

  /** An element at most every element of an ascending list can go in front of it. */
  lemma SortedCons(h: real, s: seq<real>)
    requires Sorted(s) && forall v :: v in s ==> h <= v
    ensures Sorted([h] + s)
  {
    var r := [h] + s;
    forall i, j | 0 <= i <= j < |r|
      ensures r[i] <= r[j]
    {
      if i == 0 && j > 0 {
        assert r[j] == s[j - 1];
        assert s[j - 1] in s;
      }
    }
  }

  /** The head of an ascending list is at most everything after it, which ascends. */
  lemma SortedConsParts(h: real, s: seq<real>)
    requires Sorted([h] + s)
    ensures Sorted(s) && forall v :: v in s ==> h <= v
  {
    var r := [h] + s;
    assert forall i :: 0 <= i < |s| ==> s[i] == r[i + 1];
    forall v | v in s
      ensures h <= v
    {
      var k :| 0 <= k < |s| && s[k] == v;
      assert r[0] == h && r[k + 1] == v;
      assert r[0] <= r[k + 1];
    }
  }

  /** Removing the head of a list removes one copy of it from the multiset. */
  lemma MultisetTail(s: seq<real>)
    requires |s| > 0
    ensures multiset(s[1..]) == multiset(s) - multiset{s[0]}
  {
    assert s == [s[0]] + s[1..];
  }

  /** Two ascending arrangements of the same elements start with the same element
      and continue with ascending arrangements of the same elements. */
  lemma SortedSameHead(a: seq<real>, b: seq<real>)
    requires Sorted(a) && Sorted(b) && multiset(a) == multiset(b) && |a| > 0
    ensures |b| == |a| && a[0] == b[0]
    ensures Sorted(a[1..]) && Sorted(b[1..]) && multiset(a[1..]) == multiset(b[1..])
  {
    assert |b| == |multiset(b)| == |multiset(a)| == |a|;
    assert b[0] in multiset(a) && a[0] in multiset(b) by {
      assert b[0] in b && a[0] in a;
    }
    SortedHeadIsLeast(a, b[0]);
    SortedHeadIsLeast(b, a[0]);
    MultisetTail(a);
    MultisetTail(b);
    SortedTail(a);
    SortedTail(b);
  }

  lemma HeadTailEqual(a: seq<real>, b: seq<real>)
    requires |a| > 0 && |b| > 0 && a[0] == b[0] && a[1..] == b[1..]
    ensures a == b
  {
    assert a == [a[0]] + a[1..];
    assert b == [b[0]] + b[1..];
  }

  /** There is only one ascending arrangement of a list, so every correct sort agrees. */
  lemma {:induction false} SortedUnique(a: seq<real>, b: seq<real>)
    requires Sorted(a) && Sorted(b) && multiset(a) == multiset(b)
    ensures a == b
    decreases |a|
  {
    if |a| == 0 {
      assert |b| == |multiset(b)| == 0;
    } else {
      SortedSameHead(a, b);
      SortedUnique(a[1..], b[1..]);
      HeadTailEqual(a, b);
    }
  }

  /** The median of an ascending list: the middle element when the length is odd,
      the mean of the two middle elements when it is even. At least half of the
      elements lie at or below it and at least half at or above it. */
  function Median(s: seq<real>): (m: real)
    requires |s| > 0 && Sorted(s)
    ensures forall i :: 0 <= i < |s| - |s| / 2 ==> s[i] <= m
    ensures forall i :: |s| / 2 <= i < |s| ==> m <= s[i]
    ensures s[0] <= m <= s[|s| - 1]
  {
    var mid := |s| / 2;
    if |s| % 2 == 0 then (s[mid - 1] + s[mid]) / 2.0 else s[mid]
  }

  /** For an ascending list the least element is the first and the greatest the last. */
  lemma SortedExtremes(s: seq<real>)
    requires |s| > 0 && Sorted(s)
    ensures Min(s) == s[0] && Max(s) == s[|s| - 1]
  {
  }

  /** The two examples: the median of [1, 2, 3] is 2 and that of [1, 2, 3, 4] is 2.5. */
  lemma MedianExamples()
    ensures Median([1.0, 2.0, 3.0]) == 2.0
    ensures Median([1.0, 2.0, 3.0, 4.0]) == 2.5
  {
  }
}
