# drill: aggregation pyramid, worker queue and viewer helpers in Dafny

This project models the core of *drill*, a browser viewer that draws a long
(x, y) series as a line of bucket means at a chosen level of detail. It has
three parts.

- **The aggregation pyramid** (`api.js`, class `Aggregator`) is modelled by
  the modules `Samples`, `Levels`, `Buckets`, `Seeding` and `Api`.
  - The aggregator keeps a copy of the samples, sorted by x, and the x-range
    `[minX, maxX]`.
  - It keeps one flat array of `2·2^(levels−1) − 1` bucket slots. Level `l`
    occupies slots `2^l − 1 .. 2^(l+1) − 2`: `2^l` buckets, each
    `(maxX − minX)/2^l` wide.
  - The finest level is seeded on construction. Any other level is built the
    first time it is painted.
  - Seeding is one forward scan. A bucket cursor moves one bucket right
    whenever a sample lies beyond the current bucket's right edge. Each y-value
    is folded into the bucket under the cursor with a running-mean update.
  - The scan is specified by pure functions of the samples read so far:
    `CursorAfter`, `FoldedInto` and `SeededBucket`. The imperative `Seed`
    method is proved against them.
- **The single-in-flight request queue** (`index.js`, `promisifyWorker`) is
  modelled by the module `WorkerQueue`. Requests enter at the front of a list
  and leave from its back. At most one request is with the worker at a time.
  The worker, its promises and `setTimeout` become events. What the code hands
  to the worker and to the promises is kept in logs.
- **The viewer helpers** (`index.js`) are modelled by the modules `Events`,
  `Affine` and `Chart`:
  - the listener registry `Evented`;
  - the 1-D affine pixel↔world transformation with zoom about a fixed pixel;
  - `Map.getDomain`, the union of the layers' x-domains;
  - `Map._invalidate`, which coalesces frame requests;
  - `Histogram.setLevel`, which skips a level that was already asked for;
  - the `justifyLevel` clamp.

Numbers are exact `real`s. JavaScript's `null` is `None`, and an empty array
slot is `None`. A bucket object is a datatype value stored in its slot, so
changing its fields means writing the slot.

## Model

| member | source | states |
|---|---|---|
| Samples.SortByX | api.js:5-7 | the kept copy is sorted ascending by x and is a permutation of the input (same multiset, same length); the input is a value, so the caller's array is not changed |
| Samples.XRange | api.js:9-14 | for non-empty input, the scan returns a lower and an upper bound of every x, and both are attained by some sample |
| Samples.SortedRangeIsEnds | api.js:5-14 | over the sorted copy, minX is the first sample's x and maxX the last one's |
| Levels.LevelMetaLaws | api.js:33-46 | level l+1 starts right after the last slot of level l, has twice its buckets at half its width, and width·numberOfBuckets = maxX − minX |
| Levels.LevelFitsArray | api.js:16 | every level below `levels` lies inside the array of 2·2^(levels−1) − 1 slots |
| Levels.LevelsDisjoint | api.js:33-46 | no slot belongs to two levels |
| Levels.LevelsTileArray | api.js:16 | every level lies inside the array, and every slot lies in exactly one level below `levels` |
| Buckets.Accumulated | api.js:83-87 | `_accumulateIntoBucket` adds `countOther` to the count, leaves a non-null aggregation, and changes no other field |
| Buckets.AccumulatedWeights | api.js:84 | new count × new aggregation = old count × old aggregation (null read as 0) + countOther × aggregationOther |
| Buckets.SeededWith | api.js:75-80 | `_seedBucket`: the count grows by one, and the other fields stay. The aggregation is set, and for an empty bucket or one with an aggregation, the weighted sum grows by the value. SeedAppends gives the mean |
| Buckets.AccumulateMerges | api.js:83-87 | accumulating the count and mean of `zs` into the bucket of `ys` gives the bucket of `ys + zs`: count \|ys\|+\|zs\| and their mean |
| Buckets.SeedAppends | api.js:75-80 | `_seedBucket(b, y)` on the bucket of `ys` gives the bucket of `ys + [y]`, including on a null bucket, where it gives count 1 and aggregation y |
| Buckets.NullCheckIsRedundant | api.js:75-79 | on an empty bucket the null check does not change the result: accumulating directly gives the same bucket |
| Seeding.Step | api.js:66-69 | the cursor rule: for one sample, the cursor never moves left and moves at most one bucket. CursorAdvancesByAtMostOne lifts this to the whole scan |
| Seeding.EdgeIsProduct | api.js:64-67 | the `bucketEnd` reached by adding one width per step is minX + (cursor+1)·width |
| Seeding.CursorAdvancesByAtMostOne | api.js:66-69 | from one sample to the next the cursor never decreases and moves at most one bucket |
| Seeding.FirstSampleInFirstBucket | api.js:63-70 | a first sample at most minX + width goes into the first bucket |
| Seeding.CursorStaysInLevel | api.js:63-70 | with every x ≤ maxX = minX + n·width, the cursor stays below n, i.e. inside the level's slots |
| Seeding.FoldedRightOfLeftEdge | api.js:66-69 | over sorted samples, a sample folded into bucket j > 0 has x > minX + j·width |
| Seeding.CursorLagsBehindGap | api.js:66-69 | the cursor lags behind a gap: on level 2 over [0, 4], the sample at x = 4 after one at x = 0 goes into bucket 1, not bucket 3 |
| Seeding.SingleBucketTakesAll | api.js:60-71 | at level 0 every y-value is folded into the single bucket, in order |
| Seeding.LevelZeroHoldsMeanOfAll | api.js:60-87 | the seeded level-0 bucket starts at minX, counts every sample and holds the mean of all y-values |
| Seeding.EverySampleCountedOnce | api.js:65-71 | every sample is folded into exactly one of the level's n buckets: the per-bucket counts sum to the number of samples |
| Seeding.SeededLevelCountsAddUp | api.js:60-71 | once a level is seeded, the counts in its slots add up to the number of samples |
| Seeding.WidthSpansDomain | api.js:41 | every level has at least one bucket, a non-negative width, and n buckets that span exactly [minX, maxX] |
| Seeding.FreshIsSeededWithNothing | api.js:48-58 | a freshly initialised bucket is the seeded bucket of no samples |
| Seeding.SeedStep | api.js:70 | reading one more sample changes only the bucket under the cursor, which takes the sample's y-value |
| Seeding.SeedSlot | api.js:70 | seeding one more sample into a seeded level writes exactly the slot under the cursor and gives the seeded level of the longer prefix |
| Seeding.SeedScanSeeds | api.js:65-71 | the scan over freshly initialised slots leaves every bucket of the level holding the count and mean of the samples folded into it, and no slot outside the level changes |
| Seeding.ScanStep | api.js:65-70 | one iteration: the cursor follows the cursor rule, stays in the level, finds a bucket under it, and that slot is the only one updated |
| Seeding.OtherLevelsUnset | api.js:16-21 | when only level l has been written, every other level's slots are still empty |
| Api.Aggregator.constructor | api.js:3-30 | the sorted copy is a permutation of the input, the level metadata has `levels` entries, the level is `levels − 1`, that level is seeded and every coarser level is unset |
| Api.Aggregator.InitializeLevelMeta | api.js:33-46 | the running start index and bucket count give, for every level l, startIndex 2^l − 1, 2^l buckets and width (maxX − minX)/2^l |
| Api.Aggregator.InitializeBucketsForLevel | api.js:48-58 | each slot of the level holds a bucket with its index, count 0, null aggregation and xStart minX + width·i, and no other slot changes |
| Api.Aggregator.Seed | api.js:60-73 | the level ends up holding, in every bucket, the count and mean of the y-values the cursor scan folds into it, and no other slot changes |
| Api.Aggregator.SeedBucket | api.js:75-80 | only the given slot changes, to the seeded bucket |
| Api.Aggregator.AccumulateIntoBucket | api.js:83-87 | only the given slot changes, to the accumulated bucket |
| Api.Aggregator.SetLevel | api.js:89-91 | the current level becomes the argument, unchecked |
| Api.Aggregator.Paint | api.js:93-100 | afterwards the current level is seeded and the invariant holds; when its first slot was already filled nothing changes; slots of other levels never change |
| Api.PaintIsIdempotent | api.js:93-100 | a second paint leaves the buckets as the first paint left them, with the current level seeded |
| Events.IndexOf | index.js:18 | the position of the first occurrence of a callback, or −1 exactly when it is absent |
| Events.RemoveFirst | index.js:18-21 | an absent callback leaves the list unchanged. Otherwise the list loses exactly one copy of the callback: length − 1, multiset minus that callback |
| Events.RemoveFirstTakesOneCopy | index.js:13-22 | removal takes out exactly one copy, the first, and keeps the rest in order; an absent callback leaves the list unchanged |
| Events.RemoveUndoesAppend | index.js:6-22 | removing a callback that was just appended, and was not there before, restores the list |
| Events.DuplicateSurvivesOneRemoval | index.js:6-22 | a callback added twice is still registered after one removal |
| Events.Evented.constructor | index.js:2-4 | the registry starts empty |
| Events.Evented.AddEventListener | index.js:6-11 | the callback is appended to the name's list, which is created if missing; duplicates are kept and other names are unchanged |
| Events.Evented.RemoveEventListener | index.js:13-22 | an unknown name changes nothing; otherwise the first occurrence, if any, is removed, and other names are unchanged |
| Events.Evented.EmitEvent | index.js:24-33 | the listeners of the name are invoked once each, in registration order; an unknown name invokes none |
| Affine.Forward | index.js:50-52 | `forwardX`: with a non-zero scale, the world point is recovered from the pixel, (r − translate)/scale = x |
| Affine.Inverse | index.js:58-60 | `inverseX`: the result is the world point drawn at xP, r·scale + translate = xP |
| Affine.InverseLength | index.js:62-64 | `inverseXLength`: the result is the world length spanning xWidth pixels, r·scale = xWidth |
| Affine.AffineTransformation.ForwardX | index.js:50-52 | `forwardX` on the object's X coefficients, which can be undone with a non-zero scale |
| Affine.AffineTransformation.InverseX | index.js:58-60 | `inverseX` on the object's X coefficients: the world point drawn at xP |
| Affine.AffineTransformation.InverseXLength | index.js:62-64 | `inverseXLength` on the object's X scale: the world length spanning xWidth pixels |
| Affine.ForwardInverseRoundTrip | index.js:50-60 | with a non-zero scale, inverseX undoes forwardX and forwardX undoes inverseX |
| Affine.InverseLengthIsDifference | index.js:58-64 | inverseXLength(a − b) = inverseX(a) − inverseX(b) |
| Affine.ZoomFixesPoint | index.js:66-72 | after a zoom about xP, the world point that was under xP is drawn at xP again, and with a non-zero new scale xP converts back to it |
| Affine.DomainFillsWidth | index.js:81-95 | a scale of at least pixelWidth/(maxX − minX) makes the domain [minX, maxX] at least pixelWidth pixels wide |
| Affine.Max | index.js:88 | `Math.max` returns one of its arguments and is at least both |
| Affine.AffineTransformation.constructor | index.js:38-43 | the identity transformation: scales 1, translations 0 |
| Affine.AffineTransformation.ScaleOnX | index.js:66-72 | scaleX is multiplied by the factor, the world point under xP stays under xP, and the Y fields are untouched |
| Affine.AffineTransformation.SetTransformation | index.js:74-79 | all four coefficients are replaced, so forwardX(x) = x·scaleX + translateX |
| Affine.AffineTransformation.ScaleOnXRestrictByDomain | index.js:81-95 | scaleX = max(pixelWidth/(maxX − minX), scaleX·factor), the world point under xP stays fixed, and for minX < maxX the domain covers at least pixelWidth pixels |
| WorkerQueue.ReversedCons | index.js:358 | an `unshift`ed request comes out of the queue last |
| WorkerQueue.ReversedSnoc | index.js:336 | `pop` removes the request that comes out first |
| WorkerQueue.UnshiftPopIsFifo | index.js:332-358 | requests pushed with `unshift` and drained with `pop` leave in submission order |
| WorkerQueue.WorkerHandle.constructor | index.js:314-318 | the queue is empty and nothing is in flight, posted or settled |
| WorkerQueue.WorkerHandle.PostMessage | index.js:349-363 | the request goes to the front of the queue, one `doNext` is scheduled, and nothing is sent |
| WorkerQueue.WorkerHandle.DoNext | index.js:332-338 | with an empty queue or a request in flight nothing changes; otherwise the oldest request leaves the back of the queue, is in flight and is posted; whatever is in flight is the next request in submission order |
| WorkerQueue.WorkerHandle.Tick | index.js:360 | a scheduled `doNext` runs, with DoNext's effect. With an empty queue or a request in flight, nothing but the timer count changes. Otherwise the oldest request leaves the back of the queue, is in flight and is posted |
| WorkerQueue.WorkerHandle.OnMessage | index.js:320-324 | the in-flight request is resolved exactly once with the data, the slot is cleared and the next queued request is sent; with nothing in flight nothing changes |
| WorkerQueue.WorkerHandle.OnError | index.js:325-330 | as OnMessage, but the request is rejected |
| WorkerQueue.OneInFlightInOrder | index.js:311-363 | at most one posted message is unanswered, messages are posted in submission order, and the i-th settlement settles the i-th request |
| Chart.Histogram.constructor | index.js:219-242 | a fresh worker handle whose queue holds only the `create` request, with one `doNext` scheduled and the next id 1; no level, level count or results yet |
| Chart.Histogram.SetLevel | index.js:284-306 | asking again for the current level does nothing; otherwise the level is recorded, the `invalidate` listeners are invoked in order, and an `aggregate` request for that level over the whole domain is queued |
| Chart.Histogram.LevelsArrived | index.js:229-231 | a successful `create` records the level count and invokes the `invalidate` listeners |
| Chart.Histogram.CreateFailed | index.js:232-235 | a failed `create` marks the layer as failed |
| Chart.Histogram.ResultsArrived | index.js:297-299 | a successful `aggregate` replaces the results and invokes the `invalidate` listeners |
| Chart.Histogram.AggregateFailed | index.js:301-304 | a failed `aggregate` drops the results and invokes the `invalidate` listeners |
| Chart.Histogram.HasDomain | index.js:244-246 | `hasDomain`: true exactly when results have arrived, which is when the layer counts in its map's domain (AnyDomain of the layer alone) |
| Chart.Map.constructor | index.js:112-123 | no layers and no pending frame |
| Chart.Map.GetDomain | index.js:142-153 | when some layer has results, the union of their domains, both ends attained by a layer; otherwise {0, 0} |
| Chart.Map.Invalidate | index.js:186-191 | a frame is requested only when none is pending, so at most one frame is pending at a time |
| Chart.Map.Render | index.js:114-116 | the pending frame runs and clears the handle |
| Chart.Map.AddLayer | index.js:164-167 | the map's invalidation handler is appended to the layer's `invalidate` listeners and the layer is appended after the existing ones |
| Chart.InvalidationsCoalesce | index.js:186-191 | two invalidations before a frame runs leave exactly one frame pending |
| Chart.Round | index.js:381 | `Math.round`: the integer within half a unit below and above x + 0.5, with halves rounding up |
| Chart.JustifyLevel | index.js:379-382 | the result is at least 1 and, for a level count n ≥ 2, at most n − 1; it is the rounded value·n when that lies in range; with n ≤ 2 it is 1 |
| Chart.JustifyLevelMonotone | index.js:379-382 | moving the slider right never selects a coarser level |

## Left out

- worker.js is not part of this model. It does not implement the `create`/`aggregate` messages that index.js sends, so the worker's answers are inputs of the model.
- Drawing is not modelled: the canvas calls in `Aggregator.paint` and `Histogram.paint`, `Map._paint`, the `Map` constructor's DOM wiring, `resize` and the mouse-wheel handler.
- `requestAnimationFrame`, `Worker`, `setTimeout` and `Promise` are replaced by explicit events and logs: `Tick`, `OnMessage`/`OnError`, `Render`, `posted` and `settlements`. The promise continuations of `Histogram` are the methods `LevelsArrived`, `CreateFailed`, `ResultsArrived` and `AggregateFailed`.
- Timing with `Date.now`, `console` logging, `createSampleData` (it uses `Math.random`) and `terminate` (it names handlers that are not in its scope) are not modelled.
- IEEE floating point is not modelled. Numbers are exact reals, so there is no `Infinity`, no `NaN` and no rounding at maxX.
- Api.Aggregator.constructor: empty input and `levels < 1` are preconditions. In the source, empty input gives the bounds +Infinity and −Infinity, bucket widths of −Infinity and NaN left edges (api.js:41, 55), and does not throw, because the seeding loop does not run. `levels = 0` throws a TypeError, because `_initializeBucketsForLevel(-1)` reads `_levelMeta[-1]` (api.js:20-21, 49). A negative `levels` throws a RangeError, because the array length at api.js:16 is negative.
- Samples.XRange: the scan starts from the first sample's x instead of ±Infinity. This gives the same result on the non-empty input it is called with.
- Samples.SortByX: the sort is modelled as a stable insertion sort, but the contract does not state stability (`Array.prototype.sort` is stable). It states the order by x and the permutation. Bucket counts and means do not depend on the order of samples with equal x.
- Api.Aggregator.Seed: requires the level's slots to be freshly initialised and every x to be at most maxX. Both of its callers guarantee this. On an already seeded level the source would fold every sample in a second time.
- Api.Aggregator.Paint: requires the current level to be in range. In the source an out-of-range level makes `paint` throw a TypeError.
- Buckets.Accumulated: requires a positive total count. In the source, `0/0` gives NaN.
- Affine.AffineTransformation.ScaleOnX: requires a non-zero scale, because `inverseX` divides by it. Affine.AffineTransformation.ScaleOnXRestrictByDomain also requires `maxX ≠ minX`; in the source, the `{0, 0}` fallback domain of `getDomain` makes the minimum scale infinite. For the same reason `zoomOnX` is not modelled.
- `forwardXY`, `getScaleX`, `Map.setTransformation`, `getWorldXFrom`/`getWorldXTo` and `getLevels` are not modelled. They are one-line reads or forwards to modelled members.
- Events.Evented.EmitEvent: listeners are foreign code, so the model returns the sequence of listeners it invokes. A listener that changes the registry while it is being emitted is not modelled, and neither is the event payload.
- Bucket objects are values in their slots, so aliasing of a bucket object by a caller is not modelled.
- Events.Evented: the registry is a `map`, so a name is absent until it is registered. In the source `_e_listeners` is a plain object (index.js:3). A name inherited from `Object.prototype`, such as `toString`, tests as present at index.js:7, 14 and 26, and `addEventListener` then throws. The code only uses the name `invalidate`.
- Behaviour the code does not have, and so the model does not have either:
  - cancellation of queued requests;
  - a max reduction (it is commented out at api.js:86);
  - a last-bucket clamp for samples at maxX;
  - `InvalidInput`/`InvalidLevel` error results;
  - building coarser levels by merging finer ones. Each level is re-seeded from the samples.
- The code can fold a sample that follows a gap wider than a bucket into a bucket left of the one its x lies in. The model keeps this behaviour (`Seeding.CursorLagsBehindGap`).
