/**
 * The viewer side of index.js: a `Histogram` layer that asks its worker for
 * a level, the `Map` that collects the layers' domains and coalesces
 * repaint requests, and the `justifyLevel` clamp that turns the detail
 * slider into a level number. Drawing is not modelled; a layer's aggregated
 * result is reduced to the x-domain it covers.
 */
module Chart {
  import opened Wrappers
  import opened Events
  import opened WorkerQueue

  /** The x-domain of a layer's results (`results.minX`, `results.maxX`). */
  datatype Domain = Domain(min: real, max: real)

  /** The requests a histogram sends to its worker. */
  datatype Message =
    | Create(nrOfItems: int)
    | Aggregate(level: Option<int>, xFrom: Option<real>, xTo: Option<real>)

  /** What the worker answers or fails with. */
  datatype Reply = LevelsReply(levels: int) | ResultsReply(domain: Domain) | Failure

  /** The name under which layers announce that they need repainting. */
  const InvalidateEvent: string := "invalidate"

  class Histogram {
    const events: Evented<nat>
    const worker: WorkerHandle<Message, Reply>
    var level: Option<int>
    var levels: Option<int>
    var results: Option<Domain>
    var farked: bool

    ghost predicate Valid()
      reads this, worker
    {
      worker.Valid()
    }

    /** Creates the worker and queues the `create` request; nothing is known yet. */
    constructor(number: int)
      ensures Valid() && fresh(worker) && fresh(events)
      ensures worker.requestQueue == [QueueItem(0, Create(number))] && worker.inFlight == None
      ensures worker.posted == [] && worker.settlements == []
      ensures worker.pendingTimers == 1 && worker.nextId == 1
      ensures events.listeners == map[]
      ensures level == None && levels == None && results == None && !farked
    {
      events := new Evented();
      var handle := new WorkerHandle();
      worker := handle;
      new;
      var _ := worker.PostMessage(Create(number));
      level, levels, results, farked := None, None, None, false;
    }

    /** `hasDomain`: whether results have arrived, that is, whether the layer counts in its map's domain. */
    predicate HasDomain(): (r: bool)
      reads this
      ensures r <==> AnyDomain([this])
    {
      assert [this][0] == this;
      results.Some?
    }

    /**
     * `setLevel`: asking for the level already asked for does nothing.
     * Otherwise the level is recorded, the `invalidate` listeners are called
     * in order (`notified`), and an `aggregate` request for the whole domain
     * is queued.
     */
    method SetLevel(l: int) returns (notified: seq<nat>)
      requires Valid()
      modifies this, worker
      ensures Valid()
      ensures old(level) == Some(l) ==>
        && level == old(level) && notified == []
        && worker.requestQueue == old(worker.requestQueue) && worker.pendingTimers == old(worker.pendingTimers)
      ensures old(level) != Some(l) ==>
        && level == Some(l)
        && notified == ListenersOf(events.listeners, InvalidateEvent)
        && worker.requestQueue == [QueueItem(old(worker.nextId), Aggregate(Some(l), None, None))] + old(worker.requestQueue)
        && worker.pendingTimers == old(worker.pendingTimers) + 1
      ensures worker.inFlight == old(worker.inFlight) && worker.posted == old(worker.posted)
      ensures worker.settlements == old(worker.settlements)
      ensures levels == old(levels) && results == old(results) && farked == old(farked)
    {
      notified := [];
      if level == Some(l) {
        return;
      }
      level := Some(l);
      notified := events.EmitEvent(InvalidateEvent);
      var _ := worker.PostMessage(Aggregate(level, None, None));
    }

    /** The `create` request succeeded: the level count is known and listeners are told. */
    method LevelsArrived(n: int) returns (notified: seq<nat>)
      modifies this
      ensures levels == Some(n)
      ensures notified == ListenersOf(events.listeners, InvalidateEvent)
      ensures level == old(level) && results == old(results) && farked == old(farked)
    {
      levels := Some(n);
      notified := events.EmitEvent(InvalidateEvent);
    }

    /** The `create` request failed: the layer stops painting for good. */
    method CreateFailed()
      modifies this
      ensures farked
      ensures level == old(level) && levels == old(levels) && results == old(results)
    {
      farked := true;
    }

    /** An `aggregate` request succeeded: its results replace the old ones and listeners are told. */
    method ResultsArrived(d: Domain) returns (notified: seq<nat>)
      modifies this
      ensures results == Some(d) && HasDomain()
      ensures notified == ListenersOf(events.listeners, InvalidateEvent)
      ensures level == old(level) && levels == old(levels) && farked == old(farked)
    {
      results := Some(d);
      notified := events.EmitEvent(InvalidateEvent);
    }

    /** An `aggregate` request failed: the results are dropped and listeners are told. */
    method AggregateFailed() returns (notified: seq<nat>)
      modifies this
      ensures results == None && !HasDomain()
      ensures notified == ListenersOf(events.listeners, InvalidateEvent)
      ensures level == old(level) && levels == old(levels) && farked == old(farked)
    {
      results := None;
      notified := events.EmitEvent(InvalidateEvent);
    }
  }

  /** Whether some layer in `layers` has results. */
  ghost predicate AnyDomain(layers: seq<Histogram>)
    reads set h | h in layers
  {
    exists i :: 0 <= i < |layers| && layers[i].results.Some?
  }

  /**
   * `d` is the smallest domain containing every layer's domain, and both of
   * its ends are some layer's ends.
   */
  ghost predicate IsUnionDomain(layers: seq<Histogram>, d: Domain)
    reads set h | h in layers
  {
    && (forall i :: 0 <= i < |layers| && layers[i].results.Some? ==>
          d.min <= layers[i].results.value.min && layers[i].results.value.max <= d.max)
    && (exists i :: 0 <= i < |layers| && layers[i].results.Some? && d.min == layers[i].results.value.min)
    && (exists i :: 0 <= i < |layers| && layers[i].results.Some? && d.max == layers[i].results.value.max)
  }

  class Map {
    /** Stands for `this._invalidate.bind(this)`, the listener this map registers on its layers. */
    const invalidateHandler: nat
    var layers: seq<Histogram>
    /** The pending `requestAnimationFrame` handle, or -1 when none is pending. */
    var frameHandle: int
    /** The handle the next `requestAnimationFrame` returns. */
    var nextHandle: int
    var framesRequested: nat
    var framesRendered: nat

    /** At most one frame is pending, and it is the last one requested. */
    ghost predicate Valid()
      reads this
    {
      && nextHandle >= 1
      && (frameHandle == -1 || frameHandle == nextHandle - 1)
      && framesRequested == framesRendered + (if frameHandle == -1 then 0 else 1)
    }

    constructor(handler: nat)
      ensures Valid() && layers == [] && frameHandle == -1
      ensures framesRequested == 0 && framesRendered == 0
      ensures invalidateHandler == handler
    {
      invalidateHandler := handler;
      layers, frameHandle, nextHandle := [], -1, 1;
      framesRequested, framesRendered := 0, 0;
    }

    /**
     * `getDomain`: the union of the domains of the layers that have results,
     * or `{min: 0, max: 0}` when none has.
     */
    method GetDomain() returns (d: Domain)
      ensures AnyDomain(layers) ==> IsUnionDomain(layers, d)
      ensures !AnyDomain(layers) ==> d == Domain(0.0, 0.0)
    {
      var found := false;
      var minX, maxX := 0.0, 0.0;
      for i := 0 to |layers|
        invariant found <==> AnyDomain(layers[..i])
        invariant found ==> IsUnionDomain(layers[..i], Domain(minX, maxX))
      {
        var layer := layers[i];
        assert layers[..i + 1] == layers[..i] + [layer];
        if layer.HasDomain() {
          if !found || layer.results.value.min < minX {
            minX := layer.results.value.min;
          }
          if !found || layer.results.value.max > maxX {
            maxX := layer.results.value.max;
          }
          found := true;
          assert layers[..i + 1][i] == layer;
        }
      }
      assert layers[..|layers|] == layers;
      if !found {
        return Domain(0.0, 0.0);
      }
      d := Domain(minX, maxX);
    }

    /**
     * `_invalidate`: requests an animation frame unless one is already
     * pending, so any number of invalidations before a frame runs cost one
     * frame.
     */
    method Invalidate()
      requires Valid()
      modifies this
      ensures Valid()
      ensures frameHandle != -1
      ensures old(frameHandle) != -1 ==> frameHandle == old(frameHandle) && framesRequested == old(framesRequested)
      ensures old(frameHandle) == -1 ==> frameHandle == old(nextHandle) && framesRequested == old(framesRequested) + 1
      ensures nextHandle == old(nextHandle) + (if old(frameHandle) == -1 then 1 else 0)
      ensures framesRendered == old(framesRendered) && layers == old(layers)
    {
      if frameHandle != -1 {
        return;
      }
      frameHandle := nextHandle;
      nextHandle := nextHandle + 1;
      framesRequested := framesRequested + 1;
    }

    /** The requested frame runs (`_render`): the handle is cleared before painting. */
    method Render()
      requires Valid()
      requires frameHandle != -1
      modifies this
      ensures Valid()
      ensures frameHandle == -1 && framesRendered == old(framesRendered) + 1
      ensures framesRequested == old(framesRequested) && nextHandle == old(nextHandle) && layers == old(layers)
    {
      frameHandle := -1;
      framesRendered := framesRendered + 1;
    }

    /**
     * `addLayer`: the map's invalidation handler is appended to the layer's
     * `invalidate` listeners, and the layer is drawn after the existing ones.
     */
    method AddLayer(layer: Histogram)
      modifies this, layer.events
      ensures layers == old(layers) + [layer]
      ensures layer.events.listeners == old(layer.events.listeners)[InvalidateEvent :=
                ListenersOf(old(layer.events.listeners), InvalidateEvent) + [invalidateHandler]]
      ensures frameHandle == old(frameHandle) && nextHandle == old(nextHandle)
      ensures framesRequested == old(framesRequested) && framesRendered == old(framesRendered)
    {
      layer.events.AddEventListener(InvalidateEvent, invalidateHandler);
      layers := layers + [layer];
    }
  }

  /** Two invalidations before a frame runs request a single frame. */
  method InvalidationsCoalesce(m: Map)
    requires m.Valid()
    modifies m
    ensures m.Valid()
    ensures m.framesRequested <= old(m.framesRequested) + 1
    ensures m.framesRequested - m.framesRendered == 1
  {
    m.Invalidate();
    m.Invalidate();
  }

  /** `Math.round`: halves go up. */
  function Round(x: real): (r: int)
    ensures r as real <= x + 0.5 < r as real + 1.0
  {
    (x + 0.5).Floor
  }

  /** `levels - 1` and `value * levels` read a null level count as 0. */
  function LevelCount(levels: Option<int>): int {
    if levels.Some? then levels.value else 0
  }

  /**
   * `justifyLevel`: the slider position `value` scaled to the level count,
   * rounded, and clamped to `[1, levels - 1]`; the lower bound wins.
   */
  function JustifyLevel(value: real, levels: Option<int>): (r: int)
    ensures r >= 1
    ensures LevelCount(levels) >= 2 ==> r <= LevelCount(levels) - 1
    ensures 1 <= Round(value * LevelCount(levels) as real) <= LevelCount(levels) - 1 ==>
      r == Round(value * LevelCount(levels) as real)
    ensures LevelCount(levels) <= 2 ==> r == 1
  {
    var n := LevelCount(levels);
    var rounded := Round(value * n as real);
    var upper := if rounded <= n - 1 then rounded else n - 1;
    if 1 >= upper then 1 else upper
  }

  /** Rounding never reverses the order of two numbers. */
  lemma RoundMonotone(x: real, y: real)
    requires x <= y
    ensures Round(x) <= Round(y)
  {
  }

  /** Moving the slider right never selects a coarser level. */
  lemma {:induction false} JustifyLevelMonotone(v: real, w: real, levels: Option<int>)
    requires v <= w
    requires LevelCount(levels) >= 0
    ensures JustifyLevel(v, levels) <= JustifyLevel(w, levels)
  {
    var n := LevelCount(levels) as real;
    assert v * n <= w * n;
    RoundMonotone(v * n, w * n);
  }
}
