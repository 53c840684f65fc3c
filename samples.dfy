/**
 * The samples an aggregation pyramid is built from, the copy sorted by x that
 * the pyramid keeps, and the x-range scan over it (api.js, Aggregator constructor).
 */
module Samples {

  /** One point of the series: x orders the samples, y is the measured value. */
  datatype Sample = Sample(x: real, y: real)

  ghost predicate SortedByX(s: seq<Sample>) {
    forall i, j :: 0 <= i < j < |s| ==> s[i].x <= s[j].x
  }

  /** The y-values of `s`, in order. */
  function Ys(s: seq<Sample>): (r: seq<real>)
    ensures |r| == |s|
    ensures forall i :: 0 <= i < |s| ==> r[i] == s[i].y
  {
    if s == [] then [] else Ys(s[..|s| - 1]) + [s[|s| - 1].y]
  }

  /**
   * Places `e` in the sorted sequence `s` after every sample whose x is not
   * larger (so samples with equal x keep their input order).
   */
  function InsertByX(s: seq<Sample>, e: Sample): (r: seq<Sample>)
    requires SortedByX(s)
    ensures SortedByX(r)
    ensures multiset(r) == multiset(s) + multiset{e}
    ensures |r| == |s| + 1
  {
    if s == [] then [e]
    else if e.x < s[0].x then [e] + s
    else
      var rest := InsertByX(s[1..], e);
      LowerBoundCarries(s[1..], e, rest, s[0].x);
      assert s == [s[0]] + s[1..];
      [s[0]] + rest
  }

  /** A lower bound of `s` and of `e` bounds every element of a permutation of `s + [e]`. */
  lemma LowerBoundCarries(s: seq<Sample>, e: Sample, r: seq<Sample>, b: real)
    requires multiset(r) == multiset(s) + multiset{e}
    requires b <= e.x && forall k :: 0 <= k < |s| ==> b <= s[k].x
    ensures forall k :: 0 <= k < |r| ==> b <= r[k].x
  {
    forall k | 0 <= k < |r| ensures b <= r[k].x {
      assert r[k] in multiset(r);
      if r[k] != e {
        assert r[k] in multiset(s);
        var i :| 0 <= i < |s| && s[i] == r[k];
      }
    }
  }

  /**
   * The copy of the caller's samples that the pyramid keeps: sorted ascending
   * by x, holding exactly the same samples. The input is a value, so the
   * caller's array is left as it was (api.js copies it with `slice()` before
   * sorting).
   */
  function SortByX(s: seq<Sample>): (r: seq<Sample>)
    ensures SortedByX(r)
    ensures multiset(r) == multiset(s)
    ensures |r| == |s|
  {
    if s == [] then []
    else
      assert s == s[..|s| - 1] + [s[|s| - 1]];
      InsertByX(SortByX(s[..|s| - 1]), s[|s| - 1])
  }

  /** `lo` and `hi` bound every x of `xs` and both are attained. */
  ghost predicate IsXRange(xs: seq<Sample>, lo: real, hi: real) {
    && (forall i :: 0 <= i < |xs| ==> lo <= xs[i].x <= hi)
    && (exists i :: 0 <= i < |xs| && xs[i].x == lo)
    && (exists i :: 0 <= i < |xs| && xs[i].x == hi)
  }

  /**
   * The running min/max scan of the constructor. The source starts from
   * +Infinity / -Infinity; for a non-empty input, starting from the first
   * sample's x gives the same result, since min(+Infinity, v) == v.
   */
  method XRange(xs: seq<Sample>) returns (minX: real, maxX: real)
    requires |xs| > 0
    ensures IsXRange(xs, minX, maxX)
  {
    minX, maxX := xs[0].x, xs[0].x;
    var i := 0;
    while i < |xs|
      invariant 0 <= i <= |xs|
      invariant forall k :: 0 <= k < i ==> minX <= xs[k].x <= maxX
      invariant exists k :: 0 <= k < |xs| && xs[k].x == minX
      invariant exists k :: 0 <= k < |xs| && xs[k].x == maxX
    {
      minX := if xs[i].x < minX then xs[i].x else minX;
      maxX := if xs[i].x > maxX then xs[i].x else maxX;
      i := i + 1;
    }
  }

  /** Over sorted samples the range is the first and the last x. */
  lemma SortedRangeIsEnds(xs: seq<Sample>, lo: real, hi: real)
    requires SortedByX(xs) && IsXRange(xs, lo, hi)
    ensures lo == xs[0].x && hi == xs[|xs| - 1].x
  {
    var i :| 0 <= i < |xs| && xs[i].x == lo;
    var j :| 0 <= j < |xs| && xs[j].x == hi;
    assert xs[0].x <= xs[i].x;
    assert xs[j].x <= xs[|xs| - 1].x;
  }
}
