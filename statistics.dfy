/**
 * The `median` helper of sensors/ripe_atlas_polling.py: sort the values
 * ascending, then take the central element for an odd count or the mean of
 * the two central elements for an even count. RTTs are modelled as `real`.
 */
module Statistics {

  ghost predicate SortedAsc(s: seq<real>)
  {
    forall i, j :: 0 <= i < j < |s| ==> s[i] <= s[j]
  }

  /** Prefixing a lower bound of an ascending sequence keeps it ascending. */
  lemma ConsSorted(y: real, t: seq<real>)
    requires SortedAsc(t)
    requires forall k :: 0 <= k < |t| ==> y <= t[k]
    ensures SortedAsc([y] + t)
  {
    var r := [y] + t;
    forall i, j | 0 <= i < j < |r| ensures r[i] <= r[j] {
      assert r[j] == t[j - 1];
      if i > 0 {
        assert r[i] == t[i - 1];
      }
    }
  }

  /** A lower bound of every element is a lower bound of every permutation's elements. */
  lemma LowerBoundOfPermutation(y: real, t: seq<real>, u: seq<real>)
    requires multiset(t) == multiset(u)
    requires forall k :: 0 <= k < |u| ==> y <= u[k]
    ensures forall k :: 0 <= k < |t| ==> y <= t[k]
  {
    forall k | 0 <= k < |t| ensures y <= t[k] {
      assert t[k] in multiset(u);
      var m :| 0 <= m < |u| && u[m] == t[k];
    }
  }

  /** Inserts `x` into an ascending sequence, keeping it ascending. */
  function InsertSorted(x: real, s: seq<real>): (r: seq<real>)
    requires SortedAsc(s)
    ensures SortedAsc(r)
    ensures multiset(r) == multiset(s) + multiset{x}
  {
    if s == [] || x <= s[0] then
      ConsSorted(x, s);
      [x] + s
    else
      var tail := s[1..];
      assert s == [s[0]] + tail;
      var rest := InsertSorted(x, tail);
      assert multiset(tail + [x]) == multiset(tail) + multiset{x} == multiset(rest);
      assert forall k :: 0 <= k < |tail| ==> s[0] <= tail[k] by {
        forall k | 0 <= k < |tail| ensures s[0] <= tail[k] {
          assert tail[k] == s[k + 1];
        }
      }
      LowerBoundOfPermutation(s[0], rest, tail + [x]);
      ConsSorted(s[0], rest);
      [s[0]] + rest
  }

  /** Python's `sorted`, as an insertion sort: ascending and a permutation. */
  function Sort(s: seq<real>): (r: seq<real>)
    ensures SortedAsc(r)
    ensures multiset(r) == multiset(s)
  {
    if s == [] then []
    else
      assert s == [s[0]] + s[1..];
      InsertSorted(s[0], Sort(s[1..]))
  }

  /** Two ascending sequences holding the same values are the same sequence. */
  lemma {:induction false} SortedUnique(a: seq<real>, b: seq<real>)
    requires SortedAsc(a) && SortedAsc(b)
    requires multiset(a) == multiset(b)
    ensures a == b
  {
    if a == [] {
      assert |b| == |multiset(b)| == 0;
    } else {
      assert |b| == |multiset(b)| == |multiset(a)| == |a| > 0;
      assert a[0] in multiset(b);
      assert b[0] in multiset(a);
      assert a[0] == b[0] by {
        var j :| 0 <= j < |b| && b[j] == a[0];
        var i :| 0 <= i < |a| && a[i] == b[0];
        assert b[0] <= b[j] && a[0] <= a[i];
      }
      assert a == [a[0]] + a[1..];
      assert b == [b[0]] + b[1..];
      assert multiset(a[1..]) == multiset(a) - multiset{a[0]};
      assert multiset(b[1..]) == multiset(b) - multiset{b[0]};
      SortedUnique(a[1..], b[1..]);
    }
  }

  /** The middle of an already sorted, non-empty sequence. */
  function Middle(s: seq<real>): real
    requires |s| > 0
  {
    var half := |s| / 2;
    if |s| % 2 == 1 then s[half] else (s[half - 1] + s[half]) / 2.0
  }

  /**
   * `median(array)`. An empty input makes the source index `array[-1]` of an
   * empty list, which raises; callers model that as an error result.
   */
  function Median(xs: seq<real>): (m: real)
    requires |xs| > 0
    ensures |xs| % 2 == 1 ==> m in xs
  {
    var s := Sort(xs);
    assert |s| == |multiset(s)| == |multiset(xs)| == |xs|;
    assert s[|s| / 2] in multiset(xs);
    Middle(s)
  }

  /** The median is the middle of ANY ascending arrangement of the values. */
  lemma MedianOfSorted(xs: seq<real>, s: seq<real>)
    requires |xs| > 0
    requires SortedAsc(s) && multiset(s) == multiset(xs)
    ensures |s| == |xs|
    ensures Median(xs) == Middle(s)
  {
    assert |s| == |multiset(s)| == |multiset(xs)| == |xs|;
    SortedUnique(Sort(xs), s);
  }

  /** The median does not depend on the order of its input. */
  lemma MedianPermutationInvariant(xs: seq<real>, ys: seq<real>)
    requires |xs| > 0
    requires multiset(xs) == multiset(ys)
    ensures |ys| > 0
    ensures Median(xs) == Median(ys)
  {
    assert |ys| == |multiset(ys)| == |multiset(xs)| == |xs|;
    MedianOfSorted(ys, Sort(xs));
    MedianOfSorted(xs, Sort(xs));
  }

  /** An odd count: the median is the central element of the sorted values. */
  lemma MedianOddCount(xs: seq<real>, s: seq<real>)
    requires |xs| % 2 == 1
    requires SortedAsc(s) && multiset(s) == multiset(xs)
    ensures |s| == |xs| && Median(xs) == s[|s| / 2]
  {
    MedianOfSorted(xs, s);
  }

  /** An even count: the median is the mean of the two central sorted values. */
  lemma MedianEvenCount(xs: seq<real>, s: seq<real>)
    requires |xs| > 0 && |xs| % 2 == 0
    requires SortedAsc(s) && multiset(s) == multiset(xs)
    ensures |s| == |xs| && Median(xs) == (s[|s| / 2 - 1] + s[|s| / 2]) / 2.0
  {
    MedianOfSorted(xs, s);
  }

  /** A worked odd value: 10, 20 and 30, in any order, have median 20. */
  lemma MedianExampleOdd(xs: seq<real>)
    requires multiset(xs) == multiset{10.0, 20.0, 30.0}
    ensures Median(xs) == 20.0
  {
    var sorted := [10.0, 20.0, 30.0];
    assert SortedAsc(sorted);
    assert multiset(sorted) == multiset{10.0, 20.0, 30.0};
    assert |xs| == |multiset(xs)| == 3;
    MedianOddCount(xs, sorted);
  }

  /** A worked even value: 10, 20, 30 and 40, in any order, have median 25. */
  lemma MedianExampleEven(xs: seq<real>)
    requires multiset(xs) == multiset{10.0, 20.0, 30.0, 40.0}
    ensures Median(xs) == 25.0
  {
    var sorted := [10.0, 20.0, 30.0, 40.0];
    assert SortedAsc(sorted);
    assert multiset(sorted) == multiset{10.0, 20.0, 30.0, 40.0};
    assert |xs| == |multiset(xs)| == 4;
    MedianEvenCount(xs, sorted);
  }
}
