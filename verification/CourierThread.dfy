/**
 * The courier thread and the cancellation of pending orders as they run on the
 * queue itself, without interruption by other threads.
 */
module CourierThread {
  import opened OrderHeap
  import opened Shift

  class GlobalStats {
    var completed: int
    var cancelled: int
    var totalMs: int

    constructor ()
      ensures completed == cancelled == totalMs == 0
    {
      completed, cancelled, totalMs := 0, 0, 0;
    }
  }

  class CourierContext {
    var completed: int
    var timeMs: int

    constructor ()
      ensures completed == timeMs == 0
    {
      completed, timeMs := 0, 0;
    }

    /** What a courier does between two pops. */
    method Deliver(order: Order, gs: GlobalStats)
      modifies this, gs
      ensures gs.completed == old(gs.completed) + 1 && gs.cancelled == old(gs.cancelled)
      ensures gs.totalMs == old(gs.totalMs) + order.duration * UNIT_MS
      ensures completed == old(completed) + 1 && timeMs == old(timeMs) + order.duration * UNIT_MS
    {
      var durationMs := order.duration * UNIT_MS;
      gs.completed := gs.completed + 1;
      gs.totalMs := gs.totalMs + durationMs;
      completed := completed + 1;
      timeMs := timeMs + durationMs;
    }

    /** One turn of the courier's loop on a closed queue, after the orders already served. */
    method ServeOne(pq: PriorityQueue, gs: GlobalStats, ghost served: seq<Order>, ghost all: multiset<Order>)
      returns (ok: bool, order: Order)
      requires pq.Valid() && pq.shutdown && Served(served, pq.Orders(), all)
      modifies this, gs, pq`size, pq.heap
      ensures pq.Valid() && gs.cancelled == old(gs.cancelled)
      ensures !ok ==> Served(served, multiset{}, all) && pq.Orders() == multiset{}
      ensures ok ==> pq.size < old(pq.size) && Served(served + [order], pq.Orders(), all)
      ensures var n, ms := if ok then 1 else 0, if ok then order.duration * UNIT_MS else 0;
        && gs.completed == old(gs.completed) + n && gs.totalMs == old(gs.totalMs) + ms
        && completed == old(completed) + n && timeMs == old(timeMs) + ms
    {
      ghost var before := pq.Orders();
      ok, order := pq.PopBlocking();
      if ok {
        ServeNext(served, order, before, all);
        Deliver(order, gs);
      }
    }

    /** A courier alone with a closed queue delivers everything left in it, most urgent first. */
    method DeliverAll(pq: PriorityQueue, gs: GlobalStats) returns (served: seq<Order>)
      requires pq.Valid() && pq.shutdown
      modifies this, gs, pq`size, pq.heap
      ensures pq.Valid() && pq.Orders() == multiset{}
      ensures Sorted(served) && multiset(served) == old(pq.Orders())
      ensures gs.completed == old(gs.completed) + |served| && gs.cancelled == old(gs.cancelled)
      ensures gs.totalMs == old(gs.totalMs) + Durations(served)
      ensures completed == old(completed) + |served| && timeMs == old(timeMs) + Durations(served)
    {
      served := [];
      while true
        invariant pq.Valid() && pq.shutdown
        invariant Served(served, pq.Orders(), old(pq.Orders()))
        invariant gs.completed == old(gs.completed) + |served| && gs.cancelled == old(gs.cancelled)
        invariant gs.totalMs == old(gs.totalMs) + Durations(served)
        invariant completed == old(completed) + |served| && timeMs == old(timeMs) + Durations(served)
        decreases pq.size
      {
        var ok, order := ServeOne(pq, gs, served, old(pq.Orders()));
        if !ok {
          return;
        }
        OneMoreDuration(served, order);
        served := served + [order];
      }
    }
  }

  /** The orders served so far come first, in order; with the rest they are all there were. */
  ghost predicate Served(served: seq<Order>, rest: multiset<Order>, all: multiset<Order>) {
    Sorted(served) && NoneAfter(served, rest) && multiset(served) + rest == all
  }

  lemma ServeNext(served: seq<Order>, o: Order, rest: multiset<Order>, all: multiset<Order>)
    requires Served(served, rest, all) && o in rest && forall x | x in rest :: AtMost(o, x)
    ensures Served(served + [o], rest - multiset{o}, all)
  {
    AppendLeast(served, o, rest);
  }

  lemma OneMoreDuration(served: seq<Order>, o: Order)
    ensures Durations(served + [o]) == Durations(served) + o.duration * UNIT_MS
  {
    assert (served + [o])[..|served|] == served;
  }

  /** After a SIGINT the orders still queued are drained and counted as cancelled. */
  method HandleShutdownCancellations(pq: PriorityQueue, gs: GlobalStats, sigint: bool) returns (pending: seq<Order>)
    requires pq.Valid()
    modifies gs`cancelled, pq`size, pq.heap
    ensures pq.Valid() && Sorted(pending)
    ensures if sigint then multiset(pending) == old(pq.Orders()) && pq.Orders() == multiset{}
            else pending == [] && pq.Orders() == old(pq.Orders())
    ensures gs.cancelled == old(gs.cancelled) + |pending|
  {
    if !sigint {
      return [];
    }
    pending := pq.Drain();
    for i := 0 to |pending|
      invariant gs.cancelled == old(gs.cancelled) + i
      invariant pq.Valid() && pq.Orders() == multiset{}
    {
      gs.cancelled := gs.cancelled + 1;
    }
  }
}
