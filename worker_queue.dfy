/**
 * The request queue of index.js, `promisifyWorker`: requests wait in
 * `requestQueue`, newest at the front, and at most one of them, `inFlight`,
 * is with the worker at a time. The worker, its promises and `setTimeout`
 * are replaced by events: `PostMessage` is a caller's request, `Tick` a
 * scheduled `doNext` firing, `OnMessage`/`OnError` the worker answering.
 * What the code hands to the worker and to the promises is recorded in
 * `posted` and `settlements`.
 */
module WorkerQueue {
  import opened Wrappers

  /** A request; `id` is its position in submission order and stands for its promise. */
  datatype QueueItem<M> = QueueItem(id: nat, message: M)

  /** How a request's promise was settled. */
  datatype Settlement<D> = Resolved(id: nat, data: D) | Rejected(id: nat, error: D)

  function Reversed<T>(s: seq<T>): (r: seq<T>)
    ensures |r| == |s|
  {
    if s == [] then [] else Reversed(s[1..]) + [s[0]]
  }

  /** `unshift` then reverse: the new front element comes out last. */
  lemma ReversedCons<T>(x: T, s: seq<T>)
    ensures Reversed([x] + s) == Reversed(s) + [x]
  {
    assert ([x] + s)[1..] == s;
  }

  /** Reverse then take the front: `pop` removes the element that comes out first. */
  lemma {:induction false} ReversedSnoc<T>(s: seq<T>)
    requires s != []
    ensures Reversed(s) == [s[|s| - 1]] + Reversed(s[..|s| - 1])
  {
    if |s| > 1 {
      ReversedSnoc(s[1..]);
      assert s[1..][..|s[1..]| - 1] == s[..|s| - 1][1..];
      assert s[1..][|s[1..]| - 1] == s[|s| - 1];
      assert s[..|s| - 1][0] == s[0];
    } else {
      assert s[..|s| - 1] == [];
    }
  }

  /**
   * Requests leave a queue fed by `unshift` and drained by `pop` in the order
   * they entered it: draining the queue after pushing `items` one by one
   * yields `items`.
   */
  lemma {:induction false} UnshiftPopIsFifo<T>(items: seq<T>)
    ensures Reversed(UnshiftAll([], items)) == items
  {
    if items != [] {
      var init := items[..|items| - 1];
      UnshiftPopIsFifo(init);
      ReversedCons(items[|items| - 1], UnshiftAll([], init));
      assert init + [items[|items| - 1]] == items;
    }
  }

  /** The queue after `unshift`ing each of `items` in turn. */
  function UnshiftAll<T>(queue: seq<T>, items: seq<T>): (r: seq<T>)
    ensures |r| == |queue| + |items|
  {
    if items == [] then queue
    else [items[|items| - 1]] + UnshiftAll(queue, items[..|items| - 1])
  }

  class WorkerHandle<M, D> {
    var requestQueue: seq<QueueItem<M>>
    var inFlight: Option<QueueItem<M>>
    /** Messages handed to `worker.postMessage`, in order. */
    var posted: seq<M>
    /** Promise settlements, in order. */
    var settlements: seq<Settlement<D>>
    /** `doNext` calls scheduled with `setTimeout` and not yet run. */
    var pendingTimers: nat
    var nextId: nat
    /** Every request made, in order. */
    ghost var submitted: seq<QueueItem<M>>
    /** Every request sent to the worker, in order. */
    ghost var dispatched: seq<QueueItem<M>>

    /**
     * The queue holds exactly the requests not yet sent, oldest at the back;
     * requests are sent in the order they were made; every request sent is
     * settled before the next one is sent, in the same order.
     */
    ghost predicate Valid()
      reads this
    {
      && nextId == |submitted|
      && (forall i :: 0 <= i < |submitted| ==> submitted[i].id == i)
      && submitted == dispatched + Reversed(requestQueue)
      && |posted| == |dispatched|
      && (forall i :: 0 <= i < |posted| ==> posted[i] == dispatched[i].message)
      && |dispatched| == |settlements| + (if inFlight.Some? then 1 else 0)
      && (inFlight.Some? ==> inFlight.value == dispatched[|dispatched| - 1])
      && (forall i :: 0 <= i < |settlements| ==> settlements[i].id == dispatched[i].id)
    }

    constructor()
      ensures Valid()
      ensures requestQueue == [] && inFlight == None && posted == [] && settlements == []
      ensures pendingTimers == 0
    {
      requestQueue, inFlight, posted, settlements := [], None, [], [];
      pendingTimers, nextId := 0, 0;
      submitted, dispatched := [], [];
    }

    /**
     * `postMessage`: the request goes to the front of the queue and a
     * `doNext` is scheduled; nothing is sent yet.
     */
    method PostMessage(message: M) returns (id: nat)
      requires Valid()
      modifies this
      ensures Valid()
      ensures id == old(nextId) && submitted == old(submitted) + [QueueItem(id, message)]
      ensures requestQueue == [QueueItem(id, message)] + old(requestQueue)
      ensures pendingTimers == old(pendingTimers) + 1
      ensures inFlight == old(inFlight) && posted == old(posted) && settlements == old(settlements)
      ensures dispatched == old(dispatched)
    {
      id := nextId;
      var item := QueueItem(id, message);
      ReversedCons(item, requestQueue);
      requestQueue := [item] + requestQueue;
      pendingTimers := pendingTimers + 1;
      nextId := nextId + 1;
      submitted := submitted + [item];
    }

    /**
     * `doNext`: with an empty queue or a request in flight nothing happens;
     * otherwise the oldest request leaves the back of the queue and is sent.
     */
    method DoNext()
      requires Valid()
      modifies this
      ensures Valid()
      ensures old(requestQueue) == [] || old(inFlight).Some? ==>
        requestQueue == old(requestQueue) && inFlight == old(inFlight) && posted == old(posted) && dispatched == old(dispatched)
      ensures old(requestQueue) != [] && old(inFlight).None? ==>
        && requestQueue == old(requestQueue)[..|old(requestQueue)| - 1]
        && inFlight == Some(old(requestQueue)[|old(requestQueue)| - 1])
        && posted == old(posted) + [inFlight.value.message]
        && dispatched == old(dispatched) + [inFlight.value]
      ensures inFlight.Some? ==> inFlight.value == submitted[|dispatched| - 1]
      ensures settlements == old(settlements) && submitted == old(submitted)
      ensures pendingTimers == old(pendingTimers) && nextId == old(nextId)
    {
      if requestQueue == [] || inFlight.Some? {
        return;
      }
      var item := requestQueue[|requestQueue| - 1];
      ReversedSnoc(requestQueue);
      requestQueue := requestQueue[..|requestQueue| - 1];
      inFlight := Some(item);
      posted := posted + [item.message];
      dispatched := dispatched + [item];
    }

    /** A scheduled `doNext` runs. */
    method Tick()
      requires Valid()
      requires pendingTimers > 0
      modifies this
      ensures Valid()
      ensures pendingTimers == old(pendingTimers) - 1
      ensures old(requestQueue) == [] || old(inFlight).Some? ==>
        requestQueue == old(requestQueue) && inFlight == old(inFlight) && posted == old(posted) && dispatched == old(dispatched)
      ensures old(requestQueue) != [] && old(inFlight).None? ==>
        && requestQueue == old(requestQueue)[..|old(requestQueue)| - 1]
        && inFlight == Some(old(requestQueue)[|old(requestQueue)| - 1])
        && posted == old(posted) + [inFlight.value.message]
        && dispatched == old(dispatched) + [inFlight.value]
      ensures inFlight.Some? ==> inFlight.value == submitted[|dispatched| - 1]
      ensures settlements == old(settlements) && submitted == old(submitted) && nextId == old(nextId)
    {
      pendingTimers := pendingTimers - 1;
      DoNext();
    }

    /**
     * The worker answers with `data` (`onMessage`): the request in flight is
     * resolved once, the slot is cleared and the next request is sent. With
     * nothing in flight the handler throws a TypeError before changing
     * anything; `ok` is then false.
     */
    method OnMessage(data: D) returns (ok: bool)
      requires Valid()
      modifies this
      ensures Valid()
      ensures ok <==> old(inFlight).Some?
      ensures !ok ==>
        && requestQueue == old(requestQueue) && inFlight == old(inFlight) && posted == old(posted)
        && settlements == old(settlements) && dispatched == old(dispatched)
      ensures ok ==> settlements == old(settlements) + [Resolved(old(inFlight).value.id, data)]
      ensures ok && old(requestQueue) != [] ==>
        && inFlight == Some(old(requestQueue)[|old(requestQueue)| - 1])
        && requestQueue == old(requestQueue)[..|old(requestQueue)| - 1]
        && posted == old(posted) + [inFlight.value.message]
      ensures ok && old(requestQueue) == [] ==> inFlight == None && posted == old(posted)
      ensures submitted == old(submitted) && pendingTimers == old(pendingTimers)
    {
      if inFlight.None? {
        return false;
      }
      settlements := settlements + [Resolved(inFlight.value.id, data)];
      inFlight := None;
      DoNext();
      ok := true;
    }

    /** The worker reports an error (`onError`): as `OnMessage`, but the promise is rejected. */
    method OnError(error: D) returns (ok: bool)
      requires Valid()
      modifies this
      ensures Valid()
      ensures ok <==> old(inFlight).Some?
      ensures !ok ==>
        && requestQueue == old(requestQueue) && inFlight == old(inFlight) && posted == old(posted)
        && settlements == old(settlements) && dispatched == old(dispatched)
      ensures ok ==> settlements == old(settlements) + [Rejected(old(inFlight).value.id, error)]
      ensures ok && old(requestQueue) != [] ==>
        && inFlight == Some(old(requestQueue)[|old(requestQueue)| - 1])
        && requestQueue == old(requestQueue)[..|old(requestQueue)| - 1]
        && posted == old(posted) + [inFlight.value.message]
      ensures ok && old(requestQueue) == [] ==> inFlight == None && posted == old(posted)
      ensures submitted == old(submitted) && pendingTimers == old(pendingTimers)
    {
      if inFlight.None? {
        return false;
      }
      settlements := settlements + [Rejected(inFlight.value.id, error)];
      inFlight := None;
      DoNext();
      ok := true;
    }
  }

  /**
   * What `Valid` promises the caller: at most one request is with the worker
   * (every message sent but one has been answered), the requests go out in
   * the order they were made, and the i-th settlement settles the i-th request.
   */
  lemma {:induction false} OneInFlightInOrder<M, D>(h: WorkerHandle<M, D>)
    requires h.Valid()
    ensures |h.settlements| <= |h.posted| <= |h.settlements| + 1
    ensures h.dispatched == h.submitted[..|h.dispatched|]
    ensures forall i :: 0 <= i < |h.posted| ==> h.posted[i] == h.submitted[i].message
    ensures forall i :: 0 <= i < |h.settlements| ==> h.settlements[i].id == i
  {
    assert h.submitted == h.dispatched + Reversed(h.requestQueue);
    assert h.dispatched == h.submitted[..|h.dispatched|];
    forall i | 0 <= i < |h.settlements|
      ensures h.settlements[i].id == i
    {
      assert h.dispatched[i] == h.submitted[i];
    }
  }
}
