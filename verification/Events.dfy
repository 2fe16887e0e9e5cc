/** Inbound events and the two classifications the runtime applies to them. */
module Events {
  import opened Sequences

  /** The fields of a dial rotation that must agree before two rotations are merged. */
  datatype Dial = Dial(
    action: string,
    device: string,
    coordinates: (nat, nat),
    pressed: bool,
    controller: Option<string>)

  datatype Event =
    | DialRotate(context: string, dial: Dial, settings: string, ticks: int)
    | WillAppear(context: string)
    | WillDisappear(context: string)
    | ActionInput(context: string, name: string)
    | Broadcast(name: string)
    | Unknown(name: string)
    | Unrouted(name: string)  // a non-action event the route registry does not know
  {
    predicate IsAction() {
      DialRotate? || WillAppear? || WillDisappear? || ActionInput?
    }

    /** The route registry's ordering rule. */
    predicate IsGlobalBarrier() {
      WillAppear? || WillDisappear? || Broadcast? || Unknown?
    }

    /** What the scheduler runs exclusively: a global barrier, or anything that has no context. */
    predicate IsBarrier() {
      IsGlobalBarrier() || !IsAction()
    }

    /** The scheduler's key: None for a barrier. */
    function Key(): Option<string> {
      if IsBarrier() then None else Some(context)
    }

    /** The source queue's key, computed by different tests on the event class. */
    function CoalescingContext(): Option<string> {
      if WillAppear? || WillDisappear? then None
      else if IsAction() then Some(context)
      else None
    }
  }

  /** Event with its accounted size; the stamp is the identity of the queue entry that carries it. */
  datatype SizedEvent = SizedEvent(stamp: nat, event: Event, size: pos)

  ghost predicate Conflict(a: Event, b: Event) {
    a.Key().None? || b.Key().None? || a.Key() == b.Key()
  }

  /** Rotations and inputs of different contexts may overtake each other, and nothing else may. */
  lemma OnlyContextsSeparate(a: Event, b: Event)
    ensures !Conflict(a, b) <==> (a.DialRotate? || a.ActionInput?) && (b.DialRotate? || b.ActionInput?) && a.context != b.context
    ensures forall c :: a.Key() == Some(c) <==> (a.DialRotate? || a.ActionInput?) && a.context == c
  {
  }

  lemma SourceAndSchedulerAgreeOnBarriers(e: Event)
    ensures e.CoalescingContext() == e.Key()
  {
  }
}
