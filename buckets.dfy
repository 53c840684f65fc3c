/**
 * A bucket of the pyramid and the incremental-mean update that folds values
 * into it (api.js, `_seedBucket` and `_accumulateIntoBucket`).
 */
module Buckets {
  import opened Wrappers

  /**
   * `aggregation` is None (the source's `null`) until the first value is
   * folded in; `xStart` is the bucket's left edge.
   */
  datatype Bucket = Bucket(index: nat, level: nat, count: nat, aggregation: Option<real>, xStart: real)

  function Sum(ys: seq<real>): real {
    if ys == [] then 0.0 else Sum(ys[..|ys| - 1]) + ys[|ys| - 1]
  }

  function Mean(ys: seq<real>): real
    requires |ys| > 0
  {
    Sum(ys) / |ys| as real
  }

  /** The aggregation a bucket holding exactly `ys` has: null when empty, else their mean. */
  function MeanOrNull(ys: seq<real>): Option<real> {
    if ys == [] then None else Some(Mean(ys))
  }

  /** `b` is the bucket of the values `ys`: it counts them and holds their mean. */
  ghost predicate Holds(b: Bucket, ys: seq<real>) {
    b.count == |ys| && b.aggregation == MeanOrNull(ys)
  }

  /** JavaScript arithmetic reads `null` as 0. */
  function NumericValue(a: Option<real>): real {
    match a
    case None => 0.0
    case Some(v) => v
  }

  /**
   * `_accumulateIntoBucket(bucket, countOther, aggregationOther)`: the bucket
   * absorbs `countOther` values whose mean is `aggregationOther`; its count
   * grows by `countOther` and nothing but count and aggregation changes
   * (`AccumulatedWeights` states the new mean). With both counts zero the
   * source divides 0 by 0.
   */
  function Accumulated(b: Bucket, countOther: nat, aggregationOther: real): (r: Bucket)
    requires b.count + countOther > 0
    ensures r.count == b.count + countOther
    ensures r.aggregation.Some?
    ensures r.index == b.index && r.level == b.level && r.xStart == b.xStart
  {
    var total := b.count as real * NumericValue(b.aggregation) + countOther as real * aggregationOther;
    b.(aggregation := Some(total / (b.count + countOther) as real), count := b.count + countOther)
  }

  /**
   * The running-mean update keeps the weighted sum: the new aggregation times
   * the new count is the old weighted sum plus the absorbed one.
   */
  lemma AccumulatedWeights(b: Bucket, countOther: nat, aggregationOther: real)
    requires b.count + countOther > 0
    ensures var r := Accumulated(b, countOther, aggregationOther);
            r.count as real * r.aggregation.value
            == b.count as real * NumericValue(b.aggregation) + countOther as real * aggregationOther
  {
    var total := b.count as real * NumericValue(b.aggregation) + countOther as real * aggregationOther;
    var n := (b.count + countOther) as real;
    assert (total / n) * n == total;
  }

  /**
   * `_seedBucket(bucket, value)`: a null aggregation is first set to the
   * value, then one value is accumulated. The count grows by one, and for a
   * bucket that is empty or already has an aggregation, the weighted sum
   * grows by the value.
   */
  function SeededWith(b: Bucket, value: real): (r: Bucket)
    ensures r.count == b.count + 1 && r.aggregation.Some?
    ensures r.index == b.index && r.level == b.level && r.xStart == b.xStart
    ensures b.count == 0 || b.aggregation.Some? ==>
      r.count as real * r.aggregation.value == b.count as real * NumericValue(b.aggregation) + value
  {
    var primed := if b.aggregation.None? then b.(aggregation := Some(value)) else b;
    AccumulatedWeights(primed, 1, value);
    Accumulated(primed, 1, value)
  }

  lemma {:induction false} SumAppend(ys: seq<real>, zs: seq<real>)
    ensures Sum(ys + zs) == Sum(ys) + Sum(zs)
  {
    if zs != [] {
      assert (ys + zs)[..|ys + zs| - 1] == ys + zs[..|zs| - 1];
      SumAppend(ys, zs[..|zs| - 1]);
    } else {
      assert ys + zs == ys;
    }
  }

  lemma WeightedMean(ys: seq<real>)
    requires |ys| > 0
    ensures |ys| as real * Mean(ys) == Sum(ys)
  {
  }

  /**
   * Accumulating a bucket that holds `ys` with the count and mean of `zs` gives
   * the bucket that holds `ys + zs`: merging two buckets equals rescanning.
   */
  lemma AccumulateMerges(b: Bucket, ys: seq<real>, zs: seq<real>)
    requires Holds(b, ys) && |zs| > 0
    ensures Holds(Accumulated(b, |zs|, Mean(zs)), ys + zs)
  {
    SumAppend(ys, zs);
    WeightedMean(zs);
    if ys != [] {
      WeightedMean(ys);
    }
    var r := Accumulated(b, |zs|, Mean(zs));
    AccumulatedWeights(b, |zs|, Mean(zs));
    assert r.count as real * r.aggregation.value == Sum(ys + zs);
    DivideBack(r.count as real, r.aggregation.value, Sum(ys + zs));
  }

  lemma DivideBack(n: real, v: real, total: real)
    requires n > 0.0 && n * v == total
    ensures v == total / n
  {
  }

  /** Seeding a value into a bucket that holds `ys` gives the bucket that holds `ys + [y]`. */
  lemma SeedAppends(b: Bucket, ys: seq<real>, y: real)
    requires Holds(b, ys)
    ensures Holds(SeededWith(b, y), ys + [y])
  {
    var one := [y];
    assert one[..0] == [];
    assert Sum(one) == y;
    assert Mean(one) == y;
    AccumulateMerges(b, ys, one);
    if b.aggregation.None? {
      NullCheckIsRedundant(b, y);
    }
  }

  /**
   * The null check of `_seedBucket` changes nothing for an empty bucket: JavaScript
   * reads `0 * null` as 0, so accumulating directly gives the same bucket.
   */
  lemma NullCheckIsRedundant(b: Bucket, y: real)
    requires b.count == 0
    ensures SeededWith(b, y) == Accumulated(b, 1, y)
  {
    assert SeededWith(b, y).aggregation == Some(y) == Accumulated(b, 1, y).aggregation;
  }
}
