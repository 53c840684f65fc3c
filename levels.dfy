/**
 * Level metadata of the aggregation pyramid (api.js, `_initializeLevelMeta`):
 * level l holds 2^l buckets, starts at slot 2^l - 1 of the flat bucket array
 * and has width (maxX - minX) / 2^l. The levels tile the array of
 * 2 * 2^(levels-1) - 1 slots without overlap.
 */
module Levels {

  datatype LevelMeta = LevelMeta(startIndex: nat, numberOfBuckets: nat, bucketWidth: real)

  function Pow2(l: nat): (r: nat)
    ensures r >= 1
  {
    if l == 0 then 1 else 2 * Pow2(l - 1)
  }

  function StartIndex(l: nat): nat {
    Pow2(l) - 1
  }

  function NumberOfBuckets(l: nat): nat {
    Pow2(l)
  }

  /** The metadata of level l over the domain [minX, maxX], in closed form. */
  function MetaFor(l: nat, minX: real, maxX: real): LevelMeta {
    LevelMeta(StartIndex(l), NumberOfBuckets(l), (maxX - minX) / NumberOfBuckets(l) as real)
  }

  /** Size of the flat bucket array for `levels` levels, as the constructor computes it. */
  function BucketArraySize(levels: nat): nat
    requires levels >= 1
  {
    2 * Pow2(levels - 1) - 1
  }

  /** Slot k belongs to level l. */
  predicate InLevel(k: nat, l: nat) {
    StartIndex(l) <= k < StartIndex(l) + NumberOfBuckets(l)
  }

  /**
   * Consecutive levels are adjacent: level l + 1 starts right after the last
   * bucket of level l and has twice as many buckets, each half as wide; and
   * the widths of a level add up to the whole domain.
   */
  lemma LevelMetaLaws(l: nat, minX: real, maxX: real)
    ensures MetaFor(l + 1, minX, maxX).startIndex
            == MetaFor(l, minX, maxX).startIndex + MetaFor(l, minX, maxX).numberOfBuckets
    ensures MetaFor(l + 1, minX, maxX).numberOfBuckets == 2 * MetaFor(l, minX, maxX).numberOfBuckets
    ensures MetaFor(l + 1, minX, maxX).bucketWidth * 2.0 == MetaFor(l, minX, maxX).bucketWidth
    ensures MetaFor(l, minX, maxX).bucketWidth * MetaFor(l, minX, maxX).numberOfBuckets as real == maxX - minX
  {
    var d, n := maxX - minX, Pow2(l) as real;
    assert Pow2(l + 1) as real == 2.0 * n;
    WidthLaw(d, n);
    WidthLaw(d, 2.0 * n);
  }

  lemma WidthLaw(d: real, n: real)
    requires n > 0.0
    ensures (d / n) * n == d
    ensures (d / (2.0 * n)) * 2.0 == d / n
  {
  }

  lemma {:induction false} Pow2Monotone(a: nat, b: nat)
    requires a <= b
    ensures Pow2(a) <= Pow2(b)
  {
    if a < b {
      Pow2Monotone(a, b - 1);
    }
  }

  /** Two different levels never share a slot. */
  lemma LevelsDisjoint(k: nat, l1: nat, l2: nat)
    requires InLevel(k, l1) && InLevel(k, l2)
    ensures l1 == l2
  {
    if l1 < l2 {
      Pow2Monotone(l1 + 1, l2);
    } else if l2 < l1 {
      Pow2Monotone(l2 + 1, l1);
    }
  }

  /** The level a slot belongs to. */
  function LevelOf(k: nat): (l: nat)
    ensures InLevel(k, l)
    decreases k
  {
    if k == 0 then 0 else LevelOf((k - 1) / 2) + 1
  }

  /** Every level below `levels` lies inside the bucket array. */
  lemma LevelFitsArray(l: nat, levels: nat)
    requires l < levels
    ensures StartIndex(l) + NumberOfBuckets(l) <= BucketArraySize(levels)
  {
    Pow2Monotone(l + 1, levels);
  }

  /**
   * The levels 0 .. levels - 1 tile the bucket array exactly: every level lies
   * inside it, and every slot of it lies in exactly one of them.
   */
  lemma LevelsTileArray(levels: nat)
    requires levels >= 1
    ensures forall l :: 0 <= l < levels ==>
              StartIndex(l) + NumberOfBuckets(l) <= BucketArraySize(levels)
    ensures forall k :: 0 <= k < BucketArraySize(levels) ==> LevelOf(k) < levels
    ensures forall k, l :: 0 <= k < BucketArraySize(levels) && InLevel(k, l) ==> l == LevelOf(k)
  {
    forall l | 0 <= l < levels
      ensures StartIndex(l) + NumberOfBuckets(l) <= BucketArraySize(levels)
    {
      LevelFitsArray(l, levels);
    }
    forall k | 0 <= k < BucketArraySize(levels) ensures LevelOf(k) < levels {
      if LevelOf(k) >= levels {
        Pow2Monotone(levels, LevelOf(k));
      }
    }
    forall k, l | 0 <= k < BucketArraySize(levels) && InLevel(k, l) ensures l == LevelOf(k) {
      LevelsDisjoint(k, l, LevelOf(k));
    }
  }
}
