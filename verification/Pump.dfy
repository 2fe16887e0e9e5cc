/** The pump object: who owns a received event, and how it is acknowledged once. */
module Pump {
  import I = InboundSpec
  import opened InboundQueue

  /** One received event; its flag is set by the first of the callbacks that finish it. */
  class OwnedEvent {
    var finished: bool

    constructor ()
      ensures !finished
    {
      finished := false;
    }
  }

  class RuntimeEventPump {
    var eventsReceived: nat
    var eventsAcknowledged: nat
    var acknowledgementFailures: nat
    var discardedDuringShutdown: nat
    var currentOwned: int
    var stopRequested: bool
    var stopped: bool
    ghost var owned: set<OwnedEvent>      // every event ever taken
    ghost var released: set<OwnedEvent>   // those whose acknowledgement has run through

    ghost predicate Valid()
      reads this, owned
    {
      && released <= owned && (forall o <- released :: o.finished)
      && eventsReceived == |owned|
      && currentOwned == |owned| - |released|
      && eventsAcknowledged + acknowledgementFailures == |released|
    }

    constructor ()
      ensures Valid() && owned == {} && eventsReceived == 0 && !stopped && !stopRequested
    {
      eventsReceived, eventsAcknowledged, acknowledgementFailures, discardedDuringShutdown := 0, 0, 0, 0;
      currentOwned, stopRequested, stopped := 0, false, false;
      owned, released := {}, {};
    }

    method TakeOwnership() returns (event: OwnedEvent)
      requires Valid()
      modifies this
      ensures Valid() && fresh(event) && !event.finished && owned == old(owned) + {event} && released == old(released)
      ensures eventsReceived == old(eventsReceived) + 1 && currentOwned == old(currentOwned) + 1
      ensures stopped == old(stopped)
    {
      event := new OwnedEvent();
      eventsReceived, currentOwned := eventsReceived + 1, currentOwned + 1;
      owned := owned + {event};
    }

    /** The first block: only the first caller goes on to acknowledge. */
    method ClaimFinish(event: OwnedEvent, discarded: bool) returns (first: bool)
      requires Valid() && event in owned
      modifies event, `discardedDuringShutdown
      ensures Valid() && first == !old(event.finished) && event.finished
      ensures discardedDuringShutdown == old(discardedDuringShutdown) + if first && discarded then 1 else 0
    {
      first := !event.finished;
      if first {
        event.finished := true;
        if discarded {
          discardedDuringShutdown := discardedDuringShutdown + 1;
        }
      }
    }

    /** The last blocks: count the acknowledgement and give the event up. */
    method Release(event: OwnedEvent, acknowledged: bool)
      requires Valid() && event in owned && event.finished && event !in released
      modifies this
      ensures Valid() && owned == old(owned) && released == old(released) + {event}
      ensures currentOwned == old(currentOwned) - 1 && stopped == old(stopped)
      ensures eventsAcknowledged == old(eventsAcknowledged) + if acknowledged then 1 else 0
      ensures acknowledgementFailures == old(acknowledgementFailures) + if acknowledged then 0 else 1
    {
      if acknowledged {
        eventsAcknowledged := eventsAcknowledged + 1;
      } else {
        acknowledgementFailures := acknowledgementFailures + 1;
      }
      currentOwned := currentOwned - 1;
      released := released + {event};
    }

    /** Finish one owned event from whichever thread gets there first: the source hears of it at most once. A later
        caller changes nothing, whether the first one has already released the event or is still on its way there. */
    method FinishOwned(event: OwnedEvent, discarded: bool, source: InboundEventQueue)
      requires Valid() && event in owned && source.Valid()
      modifies this, event, source
      ensures Valid() && source.Valid() && event.finished && owned == old(owned) && stopped == old(stopped)
      ensures released == old(released) + if old(event.finished) then {} else {event}
      ensures source.model == if !old(event.finished) && old(source.model.inFlight) > 0 then I.TaskDone(old(source.model)) else old(source.model)
      ensures eventsAcknowledged
        == old(eventsAcknowledged) + if !old(event.finished) && old(source.model.inFlight) > 0 then 1 else 0
      ensures acknowledgementFailures
        == old(acknowledgementFailures) + if !old(event.finished) && old(source.model.inFlight) == 0 then 1 else 0
      ensures currentOwned == old(currentOwned) - if old(event.finished) then 0 else 1
    {
      var first := ClaimFinish(event, discarded);
      if first {
        var acknowledged := source.Acknowledge();
        Release(event, acknowledged);
      }
    }

    /** Drained means every received event has been acknowledged, or has failed to be, exactly once. */
    method IsDrained() returns (drained: bool)
      requires Valid()
      ensures drained ==> released == owned && eventsAcknowledged + acknowledgementFailures == eventsReceived
      ensures drained == (stopped && currentOwned == 0)
    {
      drained := stopped && currentOwned == 0;
      if drained {
        SameSize(released, owned);
      }
    }
  }

  lemma SameSize<T>(a: set<T>, b: set<T>)
    requires a <= b && |a| == |b|
    ensures a == b
  {
    assert |b - a| == |b| - |a|;
  }
}
