/**
 * The seeding scan of api.js (`_seed`), stated over values: a cursor walks the
 * buckets of one level from left to right while the sorted samples are read
 * in order, and each sample is folded into the bucket under the cursor. The
 * cursor moves at most one bucket per sample, so a sample that follows a gap
 * wider than a bucket lands in a bucket to the left of the one its x lies in.
 */
module Seeding {
  import opened Wrappers
  import opened Samples
  import opened Levels
  import opened Buckets

  /**
   * Left edge of the bucket at offset `cursor`, reached by adding one width per
   * bucket as the scan does; `EdgeIsProduct` gives the closed form.
   */
  function LeftEdge(cursor: nat, minX: real, width: real): real {
    if cursor == 0 then minX else LeftEdge(cursor - 1, minX, width) + width
  }

  /** The left edge of bucket `cursor` is minX + cursor * width. */
  lemma {:induction false} EdgeIsProduct(cursor: nat, minX: real, width: real)
    ensures LeftEdge(cursor, minX, width) == minX + cursor as real * width
  {
    if cursor > 0 {
      EdgeIsProduct(cursor - 1, minX, width);
    }
  }

  /** Right edge of the bucket at offset `cursor`: the left edge of the next one. */
  function RightEdge(cursor: nat, minX: real, width: real): real {
    LeftEdge(cursor + 1, minX, width)
  }

  /**
   * The cursor rule: one bucket to the right when x lies beyond the right
   * edge of the current bucket, so the cursor never moves left or more than
   * one bucket.
   */
  function Step(cursor: nat, x: real, minX: real, width: real): (r: nat)
    ensures cursor <= r <= cursor + 1
  {
    if x > RightEdge(cursor, minX, width) then cursor + 1 else cursor
  }

  /** Moving the cursor one bucket right moves the edge by one width. */
  lemma FirstRightEdge(minX: real, width: real)
    ensures RightEdge(0, minX, width) == minX + width
  {
    assert LeftEdge(0, minX, width) == minX;
  }

  lemma NextRightEdge(cursor: nat, minX: real, width: real)
    ensures RightEdge(cursor + 1, minX, width) == RightEdge(cursor, minX, width) + width
  {
  }

  /** The cursor (a bucket offset within the level) once the samples `xs` have been read. */
  function CursorAfter(xs: seq<Sample>, minX: real, width: real): nat {
    if xs == [] then 0
    else Step(CursorAfter(xs[..|xs| - 1], minX, width), xs[|xs| - 1].x, minX, width)
  }

  /** The bucket offset sample i of `xs` is folded into. */
  function OffsetOf(xs: seq<Sample>, i: nat, minX: real, width: real): nat
    requires i < |xs|
  {
    CursorAfter(xs[..i + 1], minX, width)
  }

  /** The y-values the scan folds into bucket offset j, in scan order. */
  function FoldedInto(xs: seq<Sample>, minX: real, width: real, j: nat): seq<real> {
    if xs == [] then []
    else
      FoldedInto(xs[..|xs| - 1], minX, width, j)
      + (if CursorAfter(xs, minX, width) == j then [xs[|xs| - 1].y] else [])
  }

  /** Bucket j of a level as `_initializeBucketsForLevel` writes it. */
  function FreshBucket(minX: real, meta: LevelMeta, level: nat, j: nat): Bucket {
    Bucket(meta.startIndex + j, level, 0, None, minX + meta.bucketWidth * j as real)
  }

  /** Bucket j of a level once the samples `xs` have been seeded into fresh buckets. */
  function SeededBucket(xs: seq<Sample>, minX: real, meta: LevelMeta, level: nat, j: nat): Bucket {
    var ys := FoldedInto(xs, minX, meta.bucketWidth, j);
    Bucket(meta.startIndex + j, level, |ys|, MeanOrNull(ys), minX + meta.bucketWidth * j as real)
  }

  ghost predicate LevelFits(bs: seq<Option<Bucket>>, meta: LevelMeta) {
    meta.startIndex + meta.numberOfBuckets <= |bs|
  }

  /** No bucket of the level exists yet (the slots are `undefined`). */
  ghost predicate LevelUnset(bs: seq<Option<Bucket>>, meta: LevelMeta) {
    && LevelFits(bs, meta)
    && forall k :: meta.startIndex <= k < meta.startIndex + meta.numberOfBuckets ==> bs[k] == None
  }

  ghost predicate LevelFresh(bs: seq<Option<Bucket>>, minX: real, meta: LevelMeta, level: nat) {
    && LevelFits(bs, meta)
    && forall j :: 0 <= j < meta.numberOfBuckets ==>
         bs[meta.startIndex + j] == Some(FreshBucket(minX, meta, level, j))
  }

  ghost predicate LevelSeeded(bs: seq<Option<Bucket>>, xs: seq<Sample>, minX: real, meta: LevelMeta, level: nat) {
    && LevelFits(bs, meta)
    && forall j :: 0 <= j < meta.numberOfBuckets ==>
         bs[meta.startIndex + j] == Some(SeededBucket(xs, minX, meta, level, j))
  }

  /** Fresh buckets are the seeded buckets of no samples. */
  lemma FreshIsSeededWithNothing(minX: real, meta: LevelMeta, level: nat, j: nat)
    ensures FreshBucket(minX, meta, level, j) == SeededBucket([], minX, meta, level, j)
  {
  }

  /** Reading one more sample moves the cursor by one application of the cursor rule. */
  lemma CursorSnoc(xs: seq<Sample>, s: Sample, minX: real, width: real)
    ensures CursorAfter(xs + [s], minX, width) == Step(CursorAfter(xs, minX, width), s.x, minX, width)
  {
    assert (xs + [s])[..|xs|] == xs;
  }

  /** Reading one more sample: only the bucket under the new cursor grows (`CursorSnoc` gives that cursor). */
  lemma FoldedIntoSnoc(xs: seq<Sample>, s: Sample, minX: real, width: real, j: nat)
    ensures FoldedInto(xs + [s], minX, width, j)
            == FoldedInto(xs, minX, width, j)
               + (if CursorAfter(xs + [s], minX, width) == j then [s.y] else [])
  {
    assert (xs + [s])[..|xs|] == xs;
  }

  /** The cursor never moves left and moves at most one bucket per sample. */
  lemma CursorAdvancesByAtMostOne(xs: seq<Sample>, i: nat, minX: real, width: real)
    requires i + 1 < |xs|
    ensures OffsetOf(xs, i, minX, width) <= OffsetOf(xs, i + 1, minX, width) <= OffsetOf(xs, i, minX, width) + 1
  {
    assert xs[..i + 2][..i + 1] == xs[..i + 1];
  }

  /** A first sample no further right than minX + width goes into the first bucket. */
  lemma FirstSampleInFirstBucket(xs: seq<Sample>, minX: real, width: real)
    requires |xs| > 0 && xs[0].x <= minX + width
    ensures OffsetOf(xs, 0, minX, width) == 0
  {
    FirstRightEdge(minX, width);
    var first := xs[..1];
    assert first[..0] == [] && first[0] == xs[0];
    assert CursorAfter(first, minX, width) == Step(CursorAfter([], minX, width), xs[0].x, minX, width);
  }

  lemma StepStaysBelow(cursor: nat, x: real, minX: real, width: real, n: nat, maxX: real)
    requires cursor < n && width >= 0.0 && minX + n as real * width == maxX && x <= maxX
    ensures Step(cursor, x, minX, width) < n
  {
    if cursor + 1 == n {
      EdgeIsProduct(n, minX, width);
    }
  }

  /**
   * The cursor never runs past the last bucket of a level of n buckets of the
   * given width, because no x exceeds minX + n * width (that is maxX).
   */
  lemma {:induction false} CursorStaysInLevel(xs: seq<Sample>, minX: real, maxX: real, width: real, n: nat)
    requires n >= 1 && width >= 0.0 && minX + n as real * width == maxX
    requires forall i :: 0 <= i < |xs| ==> xs[i].x <= maxX
    ensures CursorAfter(xs, minX, width) < n
  {
    if xs != [] {
      CursorStaysInLevel(xs[..|xs| - 1], minX, maxX, width, n);
      StepStaysBelow(CursorAfter(xs[..|xs| - 1], minX, width), xs[|xs| - 1].x, minX, width, n, maxX);
    }
  }

  /**
   * Over sorted samples, once the cursor has left the first bucket, the last
   * sample read lies strictly right of the left edge of the cursor's bucket.
   */
  lemma {:induction false} CursorLeftEdge(xs: seq<Sample>, minX: real, width: real)
    requires SortedByX(xs)
    ensures CursorAfter(xs, minX, width) > 0 ==> xs[|xs| - 1].x > LeftEdge(CursorAfter(xs, minX, width), minX, width)
  {
    if xs != [] {
      var init := xs[..|xs| - 1];
      var c := CursorAfter(init, minX, width);
      if xs[|xs| - 1].x <= RightEdge(c, minX, width) && c > 0 {
        CursorLeftEdge(init, minX, width);
        assert xs[|xs| - 2] == init[|init| - 1];
      }
    }
  }

  /** Any sample folded into bucket j > 0 lies strictly right of that bucket's left edge, minX + j * width. */
  lemma FoldedRightOfLeftEdge(xs: seq<Sample>, i: nat, minX: real, width: real)
    requires SortedByX(xs) && i < |xs|
    ensures OffsetOf(xs, i, minX, width) > 0 ==> xs[i].x > LeftEdge(OffsetOf(xs, i, minX, width), minX, width)
    ensures OffsetOf(xs, i, minX, width) > 0 ==> xs[i].x > minX + OffsetOf(xs, i, minX, width) as real * width
  {
    CursorLeftEdge(xs[..i + 1], minX, width);
    EdgeIsProduct(OffsetOf(xs, i, minX, width), minX, width);
  }

  /** With a single bucket (level 0) every y-value is folded into it, in order. */
  lemma {:induction false} SingleBucketTakesAll(xs: seq<Sample>, minX: real, width: real)
    requires width >= 0.0
    requires forall i :: 0 <= i < |xs| ==> xs[i].x <= minX + width
    ensures FoldedInto(xs, minX, width, 0) == Ys(xs)
  {
    if xs != [] {
      SingleBucketTakesAll(xs[..|xs| - 1], minX, width);
      CursorStaysInLevel(xs, minX, minX + width, width, 1);
    }
  }

  /** Sum of the bucket counts |FoldedInto(xs, j)| over the first n offsets. */
  function CountsBelow(xs: seq<Sample>, minX: real, width: real, n: nat): nat {
    if n == 0 then 0 else CountsBelow(xs, minX, width, n - 1) + |FoldedInto(xs, minX, width, n - 1)|
  }

  lemma {:induction false} CountsBelowSnoc(xs: seq<Sample>, s: Sample, minX: real, width: real, n: nat)
    ensures CountsBelow(xs + [s], minX, width, n)
            == CountsBelow(xs, minX, width, n) + (if CursorAfter(xs + [s], minX, width) < n then 1 else 0)
  {
    if n > 0 {
      CountsBelowSnoc(xs, s, minX, width, n - 1);
      FoldedIntoSnoc(xs, s, minX, width, n - 1);
    }
  }

  /** Every sample is folded into exactly one of the n buckets: the counts add up to |xs|. */
  lemma {:induction false} EverySampleCountedOnce(xs: seq<Sample>, minX: real, maxX: real, width: real, n: nat)
    requires n >= 1 && width >= 0.0 && minX + n as real * width == maxX
    requires forall i :: 0 <= i < |xs| ==> xs[i].x <= maxX
    ensures CountsBelow(xs, minX, width, n) == |xs|
  {
    if xs != [] {
      var init, last := xs[..|xs| - 1], xs[|xs| - 1];
      assert xs == init + [last];
      EverySampleCountedOnce(init, minX, maxX, width, n);
      CountsBelowSnoc(init, last, minX, width, n);
      CursorStaysInLevel(init + [last], minX, maxX, width, n);
    } else {
      NothingCounted(minX, width, n);
    }
  }

  lemma {:induction false} NothingCounted(minX: real, width: real, n: nat)
    ensures CountsBelow([], minX, width, n) == 0
  {
    if n > 0 {
      NothingCounted(minX, width, n - 1);
    }
  }

  /** Sum of the counts of the buckets in slots lo .. hi - 1 (an empty slot counts 0). */
  function LevelCountSum(bs: seq<Option<Bucket>>, lo: nat, hi: nat): nat
    requires lo <= hi <= |bs|
    decreases hi - lo
  {
    if hi == lo then 0
    else LevelCountSum(bs, lo, hi - 1) + (match bs[hi - 1] case None => 0 case Some(b) => b.count)
  }

  lemma {:induction false} SeededCountsArePrefixCounts(bs: seq<Option<Bucket>>, xs: seq<Sample>, minX: real,
                                                       meta: LevelMeta, level: nat, m: nat)
    requires LevelSeeded(bs, xs, minX, meta, level) && m <= meta.numberOfBuckets
    ensures LevelCountSum(bs, meta.startIndex, meta.startIndex + m) == CountsBelow(xs, minX, meta.bucketWidth, m)
  {
    if m > 0 {
      SeededCountsArePrefixCounts(bs, xs, minX, meta, level, m - 1);
      assert bs[meta.startIndex + (m - 1)] == Some(SeededBucket(xs, minX, meta, level, m - 1));
    }
  }

  /**
   * Once a level of the pyramid over the samples `xs` (all within
   * [minX, maxX]) has been seeded, its bucket counts add up to the number of
   * samples.
   */
  lemma SeededLevelCountsAddUp(bs: seq<Option<Bucket>>, xs: seq<Sample>, minX: real, maxX: real, level: nat)
    requires minX <= maxX
    requires forall i :: 0 <= i < |xs| ==> xs[i].x <= maxX
    requires LevelSeeded(bs, xs, minX, MetaFor(level, minX, maxX), level)
    ensures LevelCountSum(bs, StartIndex(level), StartIndex(level) + NumberOfBuckets(level)) == |xs|
  {
    WidthSpansDomain(level, minX, maxX);
    SeededCountsAddUp(bs, xs, minX, maxX, MetaFor(level, minX, maxX), level);
  }

  lemma SeededCountsAddUp(bs: seq<Option<Bucket>>, xs: seq<Sample>, minX: real, maxX: real, meta: LevelMeta,
                          level: nat)
    requires Spans(meta, minX, maxX)
    requires forall i :: 0 <= i < |xs| ==> xs[i].x <= maxX
    requires LevelSeeded(bs, xs, minX, meta, level)
    ensures LevelCountSum(bs, meta.startIndex, meta.startIndex + meta.numberOfBuckets) == |xs|
  {
    SeededCountsArePrefixCounts(bs, xs, minX, meta, level, meta.numberOfBuckets);
    EverySampleCountedOnce(xs, minX, maxX, meta.bucketWidth, meta.numberOfBuckets);
  }

  /** A level has at least one bucket, its width is non-negative and its buckets together span exactly [minX, maxX]. */
  ghost predicate Spans(meta: LevelMeta, minX: real, maxX: real) {
    && meta.numberOfBuckets >= 1
    && meta.bucketWidth >= 0.0
    && minX + meta.numberOfBuckets as real * meta.bucketWidth == maxX
  }

  /** Every level of a pyramid over [minX, maxX] spans that domain. */
  lemma WidthSpansDomain(level: nat, minX: real, maxX: real)
    requires minX <= maxX
    ensures Spans(MetaFor(level, minX, maxX), minX, maxX)
  {
    LevelMetaLaws(level, minX, maxX);
  }

  /**
   * Level 0 is one bucket starting at minX that counts every sample and holds
   * the mean of all y-values.
   */
  lemma LevelZeroHoldsMeanOfAll(xs: seq<Sample>, minX: real, maxX: real)
    requires |xs| > 0 && minX <= maxX
    requires forall i :: 0 <= i < |xs| ==> xs[i].x <= maxX
    ensures SeededBucket(xs, minX, MetaFor(0, minX, maxX), 0, 0) == Bucket(0, 0, |xs|, Some(Mean(Ys(xs))), minX)
  {
    var meta := MetaFor(0, minX, maxX);
    assert meta.bucketWidth == maxX - minX;
    SingleBucketTakesAll(xs, minX, meta.bucketWidth);
  }

  /**
   * The cursor lags behind a gap: on level 2 of a pyramid over [0, 4] (four
   * buckets of width 1), the sample at x = 4 that follows the sample at x = 0
   * is folded into bucket 1, although it lies right of bucket 1's right edge.
   */
  lemma CursorLagsBehindGap()
    ensures var xs := [Sample(0.0, 0.0), Sample(4.0, 0.0)];
            var meta := MetaFor(2, 0.0, 4.0);
            && meta.bucketWidth == 1.0
            && OffsetOf(xs, 1, 0.0, meta.bucketWidth) == 1
            && xs[1].x > 0.0 + 2.0 * meta.bucketWidth
  {
    var xs := [Sample(0.0, 0.0), Sample(4.0, 0.0)];
    assert MetaFor(2, 0.0, 4.0).numberOfBuckets == 4;
    assert MetaFor(2, 0.0, 4.0).bucketWidth == 1.0;
    assert xs[..2] == xs && xs[..1] == [Sample(0.0, 0.0)] && xs[..1][..0] == [];
    assert CursorAfter(xs[..1], 0.0, 1.0) == 0;
    assert CursorAfter(xs, 0.0, 1.0) == Step(0, 4.0, 0.0, 1.0);
  }

  /**
   * Seeding one more sample into a level: the bucket under the cursor takes
   * its y-value, every other bucket of the level stays as it was.
   */
  lemma SeedStep(xs: seq<Sample>, s: Sample, minX: real, meta: LevelMeta, level: nat, j: nat)
    ensures CursorAfter(xs + [s], minX, meta.bucketWidth) == j ==>
              SeededWith(SeededBucket(xs, minX, meta, level, j), s.y) == SeededBucket(xs + [s], minX, meta, level, j)
    ensures CursorAfter(xs + [s], minX, meta.bucketWidth) != j ==>
              SeededBucket(xs, minX, meta, level, j) == SeededBucket(xs + [s], minX, meta, level, j)
  {
    FoldedIntoSnoc(xs, s, minX, meta.bucketWidth, j);
    if CursorAfter(xs + [s], minX, meta.bucketWidth) == j {
      SeedStepHit(xs, s, minX, meta, level, j);
    } else {
      assert FoldedInto(xs + [s], minX, meta.bucketWidth, j) == FoldedInto(xs, minX, meta.bucketWidth, j);
    }
  }

  lemma SeedStepHit(xs: seq<Sample>, s: Sample, minX: real, meta: LevelMeta, level: nat, j: nat)
    requires FoldedInto(xs + [s], minX, meta.bucketWidth, j) == FoldedInto(xs, minX, meta.bucketWidth, j) + [s.y]
    ensures SeededWith(SeededBucket(xs, minX, meta, level, j), s.y) == SeededBucket(xs + [s], minX, meta, level, j)
  {
    var ys := FoldedInto(xs, minX, meta.bucketWidth, j);
    var b := SeededBucket(xs, minX, meta, level, j);
    SeedAppends(b, ys, s.y);
  }

  /**
   * Seeding one more sample into a seeded level updates exactly the slot under
   * the cursor, and the level is then the seeded level of the longer prefix.
   */
  lemma SeedSlot(bs: seq<Option<Bucket>>, xs: seq<Sample>, s: Sample, minX: real, meta: LevelMeta, level: nat)
    requires LevelSeeded(bs, xs, minX, meta, level)
    requires CursorAfter(xs + [s], minX, meta.bucketWidth) < meta.numberOfBuckets
    ensures var slot := meta.startIndex + CursorAfter(xs + [s], minX, meta.bucketWidth);
            && bs[slot].Some?
            && LevelSeeded(bs[slot := Some(SeededWith(bs[slot].value, s.y))], xs + [s], minX, meta, level)
  {
    var cursor := CursorAfter(xs + [s], minX, meta.bucketWidth);
    var slot := meta.startIndex + cursor;
    assert bs[slot] == Some(SeededBucket(xs, minX, meta, level, cursor));
    var bs' := bs[slot := Some(SeededWith(bs[slot].value, s.y))];
    forall j | 0 <= j < meta.numberOfBuckets
      ensures bs'[meta.startIndex + j] == Some(SeededBucket(xs + [s], minX, meta, level, j))
    {
      SeedStep(xs, s, minX, meta, level, j);
    }
  }

  /**
   * The slots of a level once `_seed` has read the samples `xs`, starting from
   * the slots `bs0`: the bucket under the cursor takes each sample's y-value
   * in turn (a slot that holds no bucket is passed over).
   */
  function SeedScan(bs0: seq<Option<Bucket>>, xs: seq<Sample>, minX: real, meta: LevelMeta): (r: seq<Option<Bucket>>)
    ensures |r| == |bs0|
  {
    if xs == [] then bs0
    else
      var prev := SeedScan(bs0, xs[..|xs| - 1], minX, meta);
      var slot := meta.startIndex + CursorAfter(xs, minX, meta.bucketWidth);
      if slot < |prev| && prev[slot].Some? then prev[slot := Some(SeededWith(prev[slot].value, xs[|xs| - 1].y))]
      else prev
  }

  /**
   * Scanning the samples over a freshly initialised level leaves that level
   * seeded (every bucket holds the count and mean of the samples folded into
   * it) and every other slot as it was.
   */
  lemma {:induction false} SeedScanSeeds(bs0: seq<Option<Bucket>>, xs: seq<Sample>, minX: real, meta: LevelMeta,
                                         level: nat)
    requires LevelFresh(bs0, minX, meta, level)
    requires CursorAfter(xs, minX, meta.bucketWidth) < meta.numberOfBuckets
    ensures LevelSeeded(SeedScan(bs0, xs, minX, meta), xs, minX, meta, level)
    ensures forall k :: 0 <= k < |bs0| && !(meta.startIndex <= k < meta.startIndex + meta.numberOfBuckets) ==>
              SeedScan(bs0, xs, minX, meta)[k] == bs0[k]
  {
    if xs == [] {
      forall j: nat { FreshIsSeededWithNothing(minX, meta, level, j); }
    } else {
      var init, s := xs[..|xs| - 1], xs[|xs| - 1];
      assert xs == init + [s];
      CursorSnoc(init, s, minX, meta.bucketWidth);
      SeedScanSeeds(bs0, init, minX, meta, level);
      SeedSlot(SeedScan(bs0, init, minX, meta), init, s, minX, meta, level);
    }
  }

  /**
   * One iteration of the seeding scan: reading sample i moves the cursor by
   * the cursor rule, the cursor stays inside the level, the slot under it
   * holds a bucket, and that slot is the only one the scan changes.
   */
  lemma ScanStep(bs0: seq<Option<Bucket>>, xs: seq<Sample>, i: nat, minX: real, maxX: real, meta: LevelMeta,
                 level: nat)
    requires LevelFresh(bs0, minX, meta, level)
    requires i < |xs| && xs[i].x <= maxX
    requires Spans(meta, minX, maxX)
    requires CursorAfter(xs[..i], minX, meta.bucketWidth) < meta.numberOfBuckets
    ensures var cursor := Step(CursorAfter(xs[..i], minX, meta.bucketWidth), xs[i].x, minX, meta.bucketWidth);
            var prev := SeedScan(bs0, xs[..i], minX, meta);
            && cursor == CursorAfter(xs[..i + 1], minX, meta.bucketWidth)
            && cursor < meta.numberOfBuckets
            && prev[meta.startIndex + cursor].Some?
            && SeedScan(bs0, xs[..i + 1], minX, meta)
               == prev[meta.startIndex + cursor := Some(SeededWith(prev[meta.startIndex + cursor].value, xs[i].y))]
  {
    var before := xs[..i];
    assert xs[..i + 1] == before + [xs[i]];
    assert xs[..i + 1][..i] == before;
    CursorSnoc(before, xs[i], minX, meta.bucketWidth);
    StepStaysBelow(CursorAfter(before, minX, meta.bucketWidth), xs[i].x, minX, meta.bucketWidth,
                   meta.numberOfBuckets, maxX);
    SeedScanSeeds(bs0, before, minX, meta, level);
    var cursor := Step(CursorAfter(before, minX, meta.bucketWidth), xs[i].x, minX, meta.bucketWidth);
    assert SeedScan(bs0, before, minX, meta)[meta.startIndex + cursor]
           == Some(SeededBucket(before, minX, meta, level, cursor));
  }

  /** When every slot outside level l is empty, every other level of the array is unset. */
  lemma OtherLevelsUnset(bs: seq<Option<Bucket>>, levels: nat, l: nat, minX: real, maxX: real)
    requires l < levels && |bs| == BucketArraySize(levels)
    requires forall k :: 0 <= k < |bs| && !(MetaFor(l, minX, maxX).startIndex <= k < MetaFor(l, minX, maxX).startIndex + MetaFor(l, minX, maxX).numberOfBuckets) ==>
               bs[k] == None
    ensures forall l' :: 0 <= l' < levels && l' != l ==> LevelUnset(bs, MetaFor(l', minX, maxX))
  {
    LevelsTileArray(levels);
    forall l' | 0 <= l' < levels && l' != l
      ensures LevelUnset(bs, MetaFor(l', minX, maxX))
    {
      forall k | StartIndex(l') <= k < StartIndex(l') + NumberOfBuckets(l') ensures bs[k] == None {
        if InLevel(k, l) {
          LevelsDisjoint(k, l', l);
        }
      }
    }
  }

  /** Whether a level is unset or seeded depends only on its own slots. */
  lemma LevelStateFramed(bs: seq<Option<Bucket>>, bs': seq<Option<Bucket>>, xs: seq<Sample>, minX: real,
                         meta: LevelMeta, level: nat)
    requires |bs| == |bs'| && LevelFits(bs, meta)
    requires forall k :: meta.startIndex <= k < meta.startIndex + meta.numberOfBuckets ==> bs'[k] == bs[k]
    ensures LevelUnset(bs, meta) ==> LevelUnset(bs', meta)
    ensures LevelSeeded(bs, xs, minX, meta, level) ==> LevelSeeded(bs', xs, minX, meta, level)
  {
  }
}
