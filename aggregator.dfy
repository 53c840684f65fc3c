/**
 * The aggregation pyramid of api.js: class `Aggregator`. It keeps a sorted copy
 * of the samples, their x-range, the level metadata and one flat array of
 * buckets in which level l occupies slots 2^l - 1 .. 2^(l+1) - 2. The finest
 * level is seeded on construction; any other level is built the first time it
 * is painted.
 */
module Api {
  import opened Wrappers
  import opened Samples
  import opened Levels
  import opened Buckets
  import opened Seeding

  class Aggregator {
    var xyValues: seq<Sample>
    var minX: real
    var maxX: real
    var levelMeta: seq<LevelMeta>
    /** One slot per bucket of every level; None is a slot not yet built (`undefined`). */
    var buckets: array<Option<Bucket>>
    var level: int

    /** Samples, domain, level metadata and array size are as the constructor computes them. */
    ghost predicate Shaped()
      reads this
    {
      && |xyValues| > 0 && SortedByX(xyValues)
      && IsXRange(xyValues, minX, maxX)
      && |levelMeta| >= 1
      && (forall l :: 0 <= l < |levelMeta| ==> levelMeta[l] == MetaFor(l, minX, maxX))
      && buckets.Length == BucketArraySize(|levelMeta|)
    }

    /** Every level is either not built at all or holds exactly what seeding the samples gives. */
    ghost predicate Valid()
      reads this, buckets
    {
      && Shaped()
      && forall l :: 0 <= l < |levelMeta| ==>
           LevelUnset(buckets[..], levelMeta[l]) || LevelSeeded(buckets[..], xyValues, minX, levelMeta[l], l)
    }

    constructor(xyValues: seq<Sample>, levels: nat)
      requires |xyValues| > 0 && levels >= 1
      ensures Valid() && fresh(buckets)
      ensures multiset(this.xyValues) == multiset(xyValues)
      ensures |levelMeta| == levels && level == levels - 1
      ensures LevelSeeded(buckets[..], this.xyValues, minX, levelMeta[levels - 1], levels - 1)
      ensures forall l :: 0 <= l < levels - 1 ==> LevelUnset(buckets[..], levelMeta[l])
    {
      var sorted := SortByX(xyValues);
      var lo, hi := XRange(sorted);
      this.xyValues := sorted;
      minX, maxX := lo, hi;
      buckets := new Option<Bucket>[BucketArraySize(levels)](_ => None);
      levelMeta := [];
      level := levels - 1;
      new;
      assert forall k :: 0 <= k < buckets.Length ==> buckets[k] == None;
      InitializeLevelMeta(levels);
      LevelFitsArray(levels - 1, levels);
      InitializeBucketsForLevel(levels - 1);
      WidthSpansDomain(levels - 1, minX, maxX);
      Seed(levels - 1);
      OtherLevelsUnset(buckets[..], levels, levels - 1, minX, maxX);
    }

    /** `_initializeLevelMeta`: the running start index and bucket count give the closed form of every level. */
    method InitializeLevelMeta(levels: nat)
      modifies this`levelMeta
      ensures |levelMeta| == levels
      ensures forall l :: 0 <= l < levels ==> levelMeta[l] == MetaFor(l, minX, maxX)
    {
      levelMeta := [];
      var startIndex, numberOfBuckets := 0, 1;
      for l := 0 to levels
        invariant |levelMeta| == l
        invariant forall l' :: 0 <= l' < l ==> levelMeta[l'] == MetaFor(l', minX, maxX)
        invariant startIndex == StartIndex(l) && numberOfBuckets == NumberOfBuckets(l)
      {
        levelMeta := levelMeta + [LevelMeta(startIndex, numberOfBuckets, (maxX - minX) / numberOfBuckets as real)];
        startIndex := startIndex + numberOfBuckets;
        numberOfBuckets := numberOfBuckets * 2;
      }
    }

    /**
     * `_initializeBucketsForLevel`: writes a fresh bucket (count 0, null
     * aggregation, left edge minX + width * i) into each slot of the level and
     * into no other slot.
     */
    method InitializeBucketsForLevel(l: nat)
      requires l < |levelMeta| && LevelFits(buckets[..], levelMeta[l])
      modifies buckets
      ensures LevelFresh(buckets[..], minX, levelMeta[l], l)
      ensures forall k :: 0 <= k < buckets.Length && !(levelMeta[l].startIndex <= k < levelMeta[l].startIndex + levelMeta[l].numberOfBuckets) ==>
                buckets[k] == old(buckets[k])
    {
      var meta, lo, slots := levelMeta[l], minX, buckets;
      for i := 0 to meta.numberOfBuckets
        invariant forall j :: 0 <= j < i ==> slots[meta.startIndex + j] == Some(FreshBucket(lo, meta, l, j))
        invariant forall k :: 0 <= k < slots.Length && !(meta.startIndex <= k < meta.startIndex + i) ==>
                    slots[k] == old(slots[k])
      {
        var bucket := Bucket(meta.startIndex + i, l, 0, None, lo + meta.bucketWidth * i as real);
        assert bucket == FreshBucket(lo, meta, l, i);
        slots[meta.startIndex + i] := Some(bucket);
      }
    }

    /**
     * `_seed`: one forward scan over the sorted samples with a bucket cursor
     * that moves one bucket right whenever a sample lies beyond the current
     * bucket's right edge. The level ends up holding what `SeededBucket`
     * describes; no other slot changes.
     */
    method Seed(l: nat)
      requires l < |levelMeta| && Spans(levelMeta[l], minX, maxX)
      requires forall i :: 0 <= i < |xyValues| ==> xyValues[i].x <= maxX
      requires LevelFresh(buckets[..], minX, levelMeta[l], l)
      modifies buckets
      ensures LevelSeeded(buckets[..], xyValues, minX, levelMeta[l], l)
      ensures forall k :: 0 <= k < buckets.Length && !(levelMeta[l].startIndex <= k < levelMeta[l].startIndex + levelMeta[l].numberOfBuckets) ==>
                buckets[k] == old(buckets[k])
    {
      var meta, xs, lo := levelMeta[l], xyValues, minX;
      ghost var bs0 := buckets[..];
      var bucketIndex := meta.startIndex;
      var bucketEnd := lo + meta.bucketWidth;
      FirstRightEdge(lo, meta.bucketWidth);
      assert xs[..0] == [];
      for i := 0 to |xs|
        invariant bucketIndex == meta.startIndex + CursorAfter(xs[..i], lo, meta.bucketWidth)
        invariant bucketIndex < meta.startIndex + meta.numberOfBuckets
        invariant bucketEnd == RightEdge(bucketIndex - meta.startIndex, lo, meta.bucketWidth)
        invariant buckets[..] == SeedScan(bs0, xs[..i], lo, meta)
      {
        ghost var cursor := bucketIndex - meta.startIndex;
        ScanStep(bs0, xs, i, lo, maxX, meta, l);
        if xs[i].x > bucketEnd {
          NextRightEdge(cursor, lo, meta.bucketWidth);
          bucketEnd := bucketEnd + meta.bucketWidth;
          bucketIndex := bucketIndex + 1;
        }
        SeedBucket(bucketIndex, xs[i].y);
      }
      assert xs[..|xs|] == xs;
      SeedScanSeeds(bs0, xs, lo, meta, l);
    }

    /** `_seedBucket`: a null aggregation first takes the value, then one value is accumulated. */
    method SeedBucket(slot: nat, value: real)
      requires slot < buckets.Length && buckets[slot].Some?
      modifies buckets
      ensures buckets[..] == old(buckets[..])[slot := Some(SeededWith(old(buckets[slot].value), value))]
    {
      if buckets[slot].value.aggregation.None? {
        buckets[slot] := Some(buckets[slot].value.(aggregation := Some(value)));
      }
      AccumulateIntoBucket(slot, 1, value);
    }

    /** `_accumulateIntoBucket`: the running-mean update of one bucket. */
    method AccumulateIntoBucket(slot: nat, countOther: nat, aggregationOther: real)
      requires slot < buckets.Length && buckets[slot].Some?
      requires buckets[slot].value.count + countOther > 0
      modifies buckets
      ensures buckets[..] == old(buckets[..])[slot := Some(Accumulated(old(buckets[slot].value), countOther, aggregationOther))]
    {
      buckets[slot] := Some(Accumulated(buckets[slot].value, countOther, aggregationOther));
    }

    /** `setLevel`: records the level to paint; it is not checked here, only when painting. */
    method SetLevel(l: int)
      modifies this`level
      ensures level == l
    {
      level := l;
    }

    /**
     * The lazy materialisation at the start of `paint`: when the first slot of
     * the current level is empty, the level is built and seeded; otherwise
     * nothing changes, so a second call leaves the buckets as they are.
     */
    method Paint()
      requires Valid() && 0 <= level < |levelMeta|
      modifies buckets
      ensures Valid()
      ensures LevelSeeded(buckets[..], xyValues, minX, levelMeta[level], level)
      ensures buckets[levelMeta[level].startIndex].Some?
      ensures old(buckets[levelMeta[level].startIndex]).Some? ==> buckets[..] == old(buckets[..])
      ensures forall k :: 0 <= k < buckets.Length && !InLevel(k, level) ==> buckets[k] == old(buckets[k])
    {
      LevelsTileArray(|levelMeta|);
      var meta := levelMeta[level];
      if buckets[meta.startIndex].None? {
        InitializeBucketsForLevel(level);
        WidthSpansDomain(level, minX, maxX);
        Seed(level);
        forall l | 0 <= l < |levelMeta| && l != level
          ensures LevelUnset(buckets[..], levelMeta[l]) || LevelSeeded(buckets[..], xyValues, minX, levelMeta[l], l)
        {
          forall k | StartIndex(l) <= k < StartIndex(l) + NumberOfBuckets(l) ensures buckets[k] == old(buckets[k]) {
            if InLevel(k, level) {
              LevelsDisjoint(k, l, level);
            }
          }
          LevelStateFramed(old(buckets[..]), buckets[..], xyValues, minX, levelMeta[l], l);
        }
      }
      assert buckets[meta.startIndex] == Some(SeededBucket(xyValues, minX, meta, level, 0));
    }
  }

  /**
   * Painting twice in a row: the first paint leaves the current level seeded
   * (`once` is the array after it), and the second paint changes no bucket.
   */
  method PaintIsIdempotent(a: Aggregator) returns (once: seq<Option<Bucket>>)
    requires a.Valid() && 0 <= a.level < |a.levelMeta|
    modifies a.buckets
    ensures a.buckets[..] == once
    ensures LevelSeeded(once, a.xyValues, a.minX, a.levelMeta[a.level], a.level)
  {
    a.Paint();
    once := a.buckets[..];
    a.Paint();
  }
}
