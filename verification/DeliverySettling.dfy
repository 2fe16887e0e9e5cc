/** Left to itself, the outbound path answers every handle and stops. */
module DeliverySettling {
  import opened Sequences
  import opened Completion
  import opened OutboundSpec
  import opened Delivery
  import opened DeliveryOwners
  import opened DeliveryTheorems
  import opened DeliveryProgress

  ghost predicate AllAnswered(d: System) {
    forall h :: 0 <= h < |d.handles| ==> d.handles[h] < |d.futures| && Answer(d, h).Some?
  }

  /** The runtime neither makes handles nor opens a closed queue. */
  lemma InternalStepKeeps(cfg: Config, d: System, d': System, step: Act, now: Time)
    requires Internal(step) && Acts(cfg, d, d', step, now)
    ensures d'.handles == d.handles && d'.queue.accepting == d.queue.accepting
  {
    hide IsRoll, Finish, Abort, Publish;
  }

  lemma {:induction false} OwnRunKeepsGood(cfg: Config, states: seq<System>, events: seq<TimedAct>)
    requires OnItsOwn(cfg, states, events) && Good(cfg, states[0])
    ensures var last := states[|events|];
      Good(cfg, last) && last.handles == states[0].handles && last.queue.accepting == states[0].queue.accepting
  {
    if |events| > 0 {
      var n := |events| - 1;
      hide Good, Acts, Internal;
      assert OnItsOwn(cfg, states[..n + 1], events[..n]);
      OwnRunKeepsGood(cfg, states[..n + 1], events[..n]);
      InternalStepKeeps(cfg, states[n], states[n + 1], events[n].step, events[n].now);
      StepKeepsGood(cfg, states[n], states[n + 1], events[n].step, events[n].now);
    }
  }

  lemma StuckMeansAnswered(cfg: Config, d: System, now: Time)
    requires Good(cfg, d) && !CanMove(cfg, d, now) && !Abandoned(d)
    ensures AllAnswered(d)
  {
    hide Good, CanMove, Answer;
    forall h | 0 <= h < |d.handles| ensures d.handles[h] < |d.futures| && Answer(d, h).Some? {
      HandleIsKnown(cfg, d, h);
      if Answer(d, h).None? {
        UnansweredCanMove(cfg, d, now, h);
      }
    }
  }

  /** From any reachable state, whatever the runtime does of its own accord, it makes a bounded number of steps; when
      it can make no more, every handle has been answered, and they are the handles there were. */
  lemma MaximalRunAnswersEverybody(cfg: Config, history: seq<System>, past: seq<TimedAct>, states: seq<System>, events: seq<TimedAct>, now: Time)
    requires Execution(cfg, history, past) && OnItsOwn(cfg, states, events) && states[0] == history[|past|]
    requires !CanMove(cfg, states[|events|], now) && !Abandoned(states[|events|])
    ensures |events| <= Work(states[0])
    ensures states[|events|].handles == states[0].handles && AllAnswered(states[|events|])
  {
    hide Good, Acts, CanMove, Work, AllAnswered;
    EveryStateIsGood(cfg, history, past, |past|);
    OwnRunKeepsGood(cfg, states, events);
    StepsAreBounded(cfg, states, events);
    WorkIsNatural(states[|events|]);
    StuckMeansAnswered(cfg, states[|events|], now);
  }

  lemma OneStepMore(cfg: Config, d: System, step: Act, now: Time, later: seq<System>, rest: seq<TimedAct>)
    requires OnItsOwn(cfg, later, rest) && Internal(step) && Acts(cfg, d, later[0], step, now)
    ensures OnItsOwn(cfg, [d] + later, [TimedAct(step, now)] + rest)
    ensures ([d] + later)[|rest| + 1] == later[|rest|]
  {
    hide Acts, Internal;
  }

  /** And it can always get there: from any reachable state with the queue closed, some bounded run of the runtime
      alone, even with the clock standing still, answers every handle. */
  lemma {:induction false} SomeRunAnswersEverybody(cfg: Config, d: System, now: Time) returns (states: seq<System>, events: seq<TimedAct>)
    requires Good(cfg, d) && !d.queue.accepting
    ensures OnItsOwn(cfg, states, events) && states[0] == d && |events| <= Work(d)
    ensures states[|events|].handles == d.handles && AllAnswered(states[|events|])
    decreases Work(d)
  {
    WorkIsNatural(d);
    if CanMove(cfg, d, now) {
      var step, d' :| Internal(step) && Acts(cfg, d, d', step, now);
      hide Good, Acts, CanMove, Work, AllAnswered, Internal;
      InternalStepsRunOut(cfg, d, d', step, now);
      InternalStepKeeps(cfg, d, d', step, now);
      StepKeepsGood(cfg, d, d', step, now);
      var later, rest := SomeRunAnswersEverybody(cfg, d', now);
      states, events := [d] + later, [TimedAct(step, now)] + rest;
      OneStepMore(cfg, d, step, now, later, rest);
    } else {
      StuckMeansAnswered(cfg, d, now);
      states, events := [d], [];
    }
  }
}
