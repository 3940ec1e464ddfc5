/** The offer dispatcher: a bounded queue with bounded retries. */
module Dispatcher {

  datatype OfferEvent = OfferEvent(driver: string, rider: string, attempts: nat)

  const MAX_RETRIES := 3

  predicate HasRoom(queue: seq<OfferEvent>, capacity: nat) {
    |queue| < capacity
  }

  function Pushed(queue: seq<OfferEvent>, capacity: nat, ev: OfferEvent): seq<OfferEvent> {
    if HasRoom(queue, capacity) then queue + [ev] else queue
  }

  /** Whether an offer whose sending has failed goes back into the queue. */
  predicate GoesBack(queue: seq<OfferEvent>, capacity: nat, ev: OfferEvent) {
    ev.attempts + 1 < MAX_RETRIES && HasRoom(queue, capacity)
  }

  function Retried(queue: seq<OfferEvent>, capacity: nat, ev: OfferEvent): seq<OfferEvent> {
    if GoesBack(queue, capacity, ev) then queue + [ev.(attempts := ev.attempts + 1)] else queue
  }

  datatype RetryOutcome = Requeued | FailedPermanently | Dropped

  class AsyncDispatcher {
    var queue: seq<OfferEvent>
    const capacity: nat

    constructor (queueSize: nat)
      ensures queue == [] && capacity == queueSize
    {
      queue := [];
      capacity := queueSize;
    }

    /** Never blocks: a full queue is reported to the caller. */
    method EnqueueDriverOffer(driver: string, rider: string) returns (ok: bool)
      modifies this`queue
      ensures ok <==> |old(queue)| < capacity
      ensures queue == Pushed(old(queue), capacity, OfferEvent(driver, rider, 0))
      ensures queue == if ok then old(queue) + [OfferEvent(driver, rider, 0)] else old(queue)
      ensures |old(queue)| <= capacity ==> |queue| <= capacity
    {
      var event := OfferEvent(driver, rider, 0);
      if |queue| < capacity {
        queue := queue + [event];
        return true;
      }
      return false;
    }

    method Receive() returns (event: OfferEvent)
      requires queue != []
      modifies this`queue
      ensures [event] + queue == old(queue)
    {
      event := queue[0];
      queue := queue[1..];
    }

    /** What `handle` does after the sender has reported an error. */
    method Retry(event: OfferEvent) returns (outcome: RetryOutcome)
      modifies this`queue
      ensures outcome == FailedPermanently <==> event.attempts >= 2
      ensures outcome == Requeued <==> event.attempts < 2 && |old(queue)| < capacity
      ensures queue == Retried(old(queue), capacity, event)
      ensures queue == if outcome == Requeued then old(queue) + [event.(attempts := event.attempts + 1)] else old(queue)
    {
      var next := event.(attempts := event.attempts + 1);
      if next.attempts >= MAX_RETRIES {
        return FailedPermanently;
      }
      if |queue| < capacity {
        queue := queue + [next];
        return Requeued;
      }
      return Dropped;
    }
  }
}
