/** The stable priority queue of the backtest clock: time, then priority, then insertion order. */
module EventQueue {
  import opened Wrappers
  import opened Market

  datatype Scheduled<+E> = Scheduled(occurredAt: Time, priority: int, sequence: nat, event: E)

  /** The order the heap compares by; the event itself is not compared. */
  predicate Before<E>(a: Scheduled<E>, b: Scheduled<E>) {
    || a.occurredAt < b.occurredAt
    || (a.occurredAt == b.occurredAt && a.priority < b.priority)
    || (a.occurredAt == b.occurredAt && a.priority == b.priority && a.sequence < b.sequence)
  }

  /** `heapq` as a bag: the position of the entry that no other entry precedes. */
  method IndexOfFirst<E>(items: seq<Scheduled<E>>) returns (first: nat)
    requires items != []
    ensures first < |items|
    ensures forall i :: 0 <= i < |items| ==> !Before(items[i], items[first])
  {
    first := 0;
    for n := 1 to |items|
      invariant first < n
      invariant forall i :: 0 <= i < n ==> !Before(items[i], items[first])
    {
      if Before(items[n], items[first]) {
        first := n;
      }
    }
  }

  class EventQueue<E(!new)> {
    var heap: seq<Scheduled<E>>
    var nextSequence: nat
    var lastPoppedAt: Option<Time>

    /** Sequence numbers are unique and nothing waits behind the clock. */
    ghost predicate Valid()
      reads this
    {
      && (forall i, j :: 0 <= i < j < |heap| ==> heap[i].sequence != heap[j].sequence)
      && (forall i :: 0 <= i < |heap| ==> heap[i].sequence < nextSequence)
      && (lastPoppedAt.Some? ==> forall i :: 0 <= i < |heap| ==> lastPoppedAt.value <= heap[i].occurredAt)
    }

    constructor ()
      ensures Valid() && heap == [] && nextSequence == 0 && lastPoppedAt == None
    {
      heap, nextSequence, lastPoppedAt := [], 0, None;
    }

    method Push(event: E, occurredAt: Time, priority: int) returns (r: Result<Scheduled<E>, BacktestError>)
      requires Valid()
      modifies this
      ensures Valid() && lastPoppedAt == old(lastPoppedAt)
      ensures r.Err? <==> lastPoppedAt.Some? && occurredAt < lastPoppedAt.value
      ensures r.Err? ==> r.error == ScheduledInThePast && heap == old(heap) && nextSequence == old(nextSequence)
      ensures r.Ok? ==>
        && r.value == Scheduled(occurredAt, priority, old(nextSequence), event)
        && heap == old(heap) + [r.value] && nextSequence == old(nextSequence) + 1
    {
      if lastPoppedAt.Some? && occurredAt < lastPoppedAt.value {
        return Err(ScheduledInThePast);
      }
      var scheduled := Scheduled(occurredAt, priority, nextSequence, event);
      nextSequence := nextSequence + 1;
      heap := heap + [scheduled];
      return Ok(scheduled);
    }

    /** Removes the entry that precedes all others; the clock check can never fail. */
    method Pop() returns (r: Result<Scheduled<E>, BacktestError>)
      requires Valid()
      modifies this
      ensures Valid() && nextSequence == old(nextSequence)
      ensures r.Err? <==> old(heap) == []
      ensures r.Err? ==> r.error == QueueEmpty && heap == old(heap) && lastPoppedAt == old(lastPoppedAt)
      ensures r.Ok? ==>
        && lastPoppedAt == Some(r.value.occurredAt)
        && (old(lastPoppedAt).Some? ==> old(lastPoppedAt).value <= r.value.occurredAt)
        && (exists k :: 0 <= k < |old(heap)| && r.value == old(heap)[k] && heap == old(heap)[..k] + old(heap)[k + 1..])
        && (forall i :: 0 <= i < |heap| ==> Before(r.value, heap[i]))
    {
      if heap == [] {
        return Err(QueueEmpty);
      }
      var k := IndexOfFirst(heap);
      var scheduled := heap[k];
      if lastPoppedAt.Some? && scheduled.occurredAt < lastPoppedAt.value {
        return Err(ClockMovedBackwards);
      }
      ghost var before := heap;
      heap := heap[..k] + heap[k + 1..];
      lastPoppedAt := Some(scheduled.occurredAt);
      assert forall i :: 0 <= i < |heap| ==> heap[i] == before[if i < k then i else i + 1];
      assert forall i :: 0 <= i < |before| && i != k ==> Before(scheduled, before[i]);
      return Ok(scheduled);
    }
  }
}
