/** What every run of the outbound path keeps, and what its handles are promised. */
module DeliveryTheorems {
  import opened Sequences
  import opened Completion
  import opened OutboundSpec
  import opened Delivery
  import opened DeliveryOwners

  // ---- Every reachable state is good ------------------------------------------------------

  lemma StartIsGood(cfg: Config)
    ensures Good(cfg, Start())
  {
    EmptyIsSound(cfg);
    hide Inv;
  }

  lemma StepKeepsNoOrphan(cfg: Config, d: System, d': System, step: Act, now: Time)
    requires InRange(d) && DutiesDecided(d) && NoOrphan(d) && Acts(cfg, d, d', step, now)
    requires |d.futures| <= |d'.futures| && (!step.SubmitStep? ==> |d'.futures| == |d.futures|)
    requires forall id :: 0 <= id < |d.futures| ==> Advances(d.futures[id], d'.futures[id])
    ensures NoOrphan(d')
  {
    hide Owned, Acts, InRange, DutiesDecided;
    forall id | 0 <= id < |d'.futures| && d'.futures[id].stage.Open? ensures Owned(d', id) {
      if id < |d.futures| {
        StepKeepsOwner(cfg, d, d', step, now, id);
      } else {
        StepKeepsOwner(cfg, d, d', step, now, id);
      }
    }
  }

  lemma OnlySubmissionsGrow(cfg: Config, d: System, d': System, step: Act, now: Time)
    requires Acts(cfg, d, d', step, now) && !step.SubmitStep?
    ensures |d'.futures| == |d.futures|
  {
    hide Send, IsFinish, IsRoll;
  }

  lemma StepKeepsGood(cfg: Config, d: System, d': System, step: Act, now: Time)
    requires Good(cfg, d) && Acts(cfg, d, d', step, now)
    ensures Good(cfg, d') && d.handles <= d'.handles && |d.futures| <= |d'.futures|
    ensures forall id :: 0 <= id < |d.futures| ==> Advances(d.futures[id], d'.futures[id])
  {
    hide Inv, InRange, AllSound, DutiesDecided, LateDecided, NoOrphan, Acts, Advances, Sound, Moves;
    QueueSteps(cfg, d, d', step, now);
    StepKeepsRange(cfg, d, d', step, now);
    StepEvolves(cfg, d, d', step, now);
    EvolutionIsSound(d, d', now);
    if !step.SubmitStep? {
      OnlySubmissionsGrow(cfg, d, d', step, now);
    }
    StepKeepsLateDecided(cfg, d, d', step, now);
    StepKeepsNoOrphan(cfg, d, d', step, now);
    DutiesStayDecided(cfg, d, d', step, now);
  }

  lemma DutiesStayDecided(cfg: Config, d: System, d': System, step: Act, now: Time)
    requires DutiesDecided(d) && AllSound(d) && Evolves(d, d', now) && Acts(cfg, d, d', step, now)
    ensures DutiesDecided(d')
  {
    hide Acts, AllSound, Evolves, Decided;
    forall duty <- d'.duties ensures Decided(duty, d'.futures) {
      StepKeepsDecided(cfg, d, d', step, now, duty);
    }
  }

  /** Every state but the first is reached by a step from a good one. */
  lemma Reached(cfg: Config, states: seq<System>, events: seq<TimedAct>, j: nat)
    requires Execution(cfg, states, events) && 0 < j < |states|
    requires Good(cfg, states[j - 1])
    ensures Good(cfg, states[j]) && states[j - 1].handles <= states[j].handles && |states[j - 1].futures| <= |states[j].futures|
    ensures forall id :: 0 <= id < |states[j - 1].futures| ==> Advances(states[j - 1].futures[id], states[j].futures[id])
  {
    hide Good, Acts, Advances;
    StepKeepsGood(cfg, states[j - 1], states[j], events[j - 1].step, events[j - 1].now);
  }

  lemma StartsAtStart(cfg: Config, states: seq<System>, events: seq<TimedAct>)
    requires Execution(cfg, states, events)
    ensures |states| > 0 && Good(cfg, states[0])
  {
    StartIsGood(cfg);
  }

  lemma {:induction false} EveryStateIsGood(cfg: Config, states: seq<System>, events: seq<TimedAct>, i: nat)
    requires Execution(cfg, states, events) && i < |states|
    ensures Good(cfg, states[i])
  {
    hide *;
    if i == 0 {
      StartsAtStart(cfg, states, events);
    } else {
      EveryStateIsGood(cfg, states, events, i - 1);
      Reached(cfg, states, events, i);
    }
  }

  lemma {:induction false} FuturesAdvance(cfg: Config, states: seq<System>, events: seq<TimedAct>, i: nat, j: nat, id: nat)
    requires Execution(cfg, states, events) && i <= j < |states| && id < |states[i].futures|
    ensures id < |states[j].futures| && Advances(states[i].futures[id], states[j].futures[id])
    decreases j - i
  {
    hide *;
    if i < j {
      FuturesAdvance(cfg, states, events, i, j - 1, id);
      EveryStateIsGood(cfg, states, events, j - 1);
      Reached(cfg, states, events, j);
      AdvancesTransitive(states[i].futures[id], states[j - 1].futures[id], states[j].futures[id]);
    } else {
      AdvancesReflexive(states[i].futures[id]);
    }
  }

  lemma {:induction false} HandlesPersist(cfg: Config, states: seq<System>, events: seq<TimedAct>, i: nat, j: nat)
    requires Execution(cfg, states, events) && i <= j < |states|
    ensures states[i].handles <= states[j].handles
    decreases j - i
  {
    hide *;
    if i < j {
      HandlesPersist(cfg, states, events, i, j - 1);
      EveryStateIsGood(cfg, states, events, j - 1);
      Reached(cfg, states, events, j);
    }
  }

  lemma HandleIsKnown(cfg: Config, d: System, h: nat)
    requires Good(cfg, d) && h < |d.handles|
    ensures d.handles[h] < |d.futures|
  {
    assert d.handles[h] in d.handles;
  }

  /** A handle names the same command for ever, and that command only ever moves forward. */
  lemma HandlesAdvance(cfg: Config, states: seq<System>, events: seq<TimedAct>, i: nat, j: nat, h: nat)
    requires Execution(cfg, states, events) && i <= j < |states| && h < |states[i].handles|
    ensures h < |states[j].handles| && states[j].handles[h] == states[i].handles[h]
    ensures states[i].handles[h] < |states[i].futures| && states[i].handles[h] < |states[j].futures|
    ensures Advances(states[i].futures[states[i].handles[h]], states[j].futures[states[i].handles[h]])
  {
    hide *;
    EveryStateIsGood(cfg, states, events, i);
    HandlesPersist(cfg, states, events, i, j);
    HandleIsKnown(cfg, states[i], h);
    FuturesAdvance(cfg, states, events, i, j, states[i].handles[h]);
  }

  function Answer(d: System, h: nat): Option<Outcome>
    requires h < |d.handles| && d.handles[h] < |d.futures|
  {
    var stage := d.futures[d.handles[h]].stage;
    if stage.Published? then Some(stage.outcome) else None
  }

  // ---- Exactly one terminal result ---------------------------------------------------------

  /** An answer, once given, is the answer for good; handles that share a command get the same one. */
  lemma AnswersAreFinal(cfg: Config, states: seq<System>, events: seq<TimedAct>, i: nat, j: nat, h: nat)
    requires Execution(cfg, states, events) && i <= j < |states| && h < |states[i].handles|
    ensures h < |states[j].handles| && states[i].handles[h] < |states[i].futures| && states[j].handles[h] < |states[j].futures|
    ensures Answer(states[i], h).Some? ==> Answer(states[j], h) == Answer(states[i], h)
    ensures forall g :: 0 <= g < |states[i].handles| && states[i].handles[g] == states[i].handles[h] ==>
              Answer(states[i], g) == Answer(states[i], h)
  {
    HandlesAdvance(cfg, states, events, i, j, h);
  }

  /** One completion is made terminal by one step and published by one step. */
  lemma AnsweredOnce(cfg: Config, states: seq<System>, events: seq<TimedAct>, i: nat, j: nat, id: nat)
    requires Execution(cfg, states, events) && i < j < |events|
    ensures !(events[i].step == Act.PublishStep(id) && events[j].step == Act.PublishStep(id))
    ensures !(events[i].step == Act.AbortStep(id) && events[j].step == Act.AbortStep(id))
    ensures id < |states[i].futures| && id < |states[i + 1].futures| && states[i + 1].futures[id].Terminal() ==>
              id < |states[j].futures| && states[j].futures[id].Terminal()
  {
    assert Acts(cfg, states[i], states[i + 1], events[i].step, events[i].now);
    assert Acts(cfg, states[j], states[j + 1], events[j].step, events[j].now);
    if id < |states[i + 1].futures| {
      FuturesAdvance(cfg, states, events, i + 1, j, id);
      EveryStateIsGood(cfg, states, events, j);
      EveryStateIsGood(cfg, states, events, i + 1);
      SpentSteps(cfg, states[i], states[i + 1], states[j], events[i].step, events[i].now, id);
    }
  }

  lemma SpentSteps(cfg: Config, d: System, d': System, later: System, step: Act, now: Time, id: nat)
    requires Acts(cfg, d, d', step, now) && id < |d'.futures| && id < |later.futures|
    requires AllSound(d') && AllSound(later) && Advances(d'.futures[id], later.futures[id])
    ensures step == Act.PublishStep(id) ==> later.futures[id].stage.Published?
    ensures step == Act.AbortStep(id) ==> later.futures[id].aborts >= 1 && !(later.futures[id].stage.Claimed? && later.futures[id].stage.abortDue)
  {
    assert later.futures[id] in later.futures;
  }

  /** The transport never begins a command after its cancellation or expiry, a begun command is never cancelled,
      and success is only ever recorded strictly before the deadline. */
  lemma NeverBegunAfterTheEnd(cfg: Config, states: seq<System>, events: seq<TimedAct>, i: nat, j: nat, id: nat)
    requires Execution(cfg, states, events) && i <= j < |states| && id < |states[i].futures|
    ensures id < |states[j].futures|
    ensures var f, f' := states[i].futures[id], states[j].futures[id];
      && (f.Terminal() && !f.sending ==> !f'.sending)
      && (f.sending && f'.Terminal() ==> !f'.stage.outcome.Cancelled?)
      && (f'.Terminal() && f'.stage.outcome.Succeeded? ==> f'.deadline.None? || f'.stage.at < f'.deadline.value)
  {
    FuturesAdvance(cfg, states, events, i, j, id);
    EveryStateIsGood(cfg, states, events, j);
    assert states[j].futures[id] in states[j].futures;
  }

  /** Every step that lets the transport begin finds the command open and its deadline ahead. */
  lemma BeginsOnlyLiveCommands(cfg: Config, d: System, d': System, step: Act, now: Time, id: nat)
    requires Acts(cfg, d, d', step, now) && id < |d.futures| && id < |d'.futures|
    requires !d.futures[id].sending && d'.futures[id].sending
    ensures step == BeginStep(id) && id in d.transport && !d.futures[id].Terminal()
    ensures d.futures[id].deadline.Some? ==> now < d.futures[id].deadline.value
  {
    hide Send, IsFinish, IsRoll;
  }

  /** A command that has begun by some time was begun by the transport's guard at a time its deadline was ahead and
      nobody had cancelled, expired or finished it. */
  lemma {:induction false} BegunByTheGuard(cfg: Config, states: seq<System>, events: seq<TimedAct>, i: nat, id: nat) returns (k: nat)
    requires Execution(cfg, states, events) && i < |states| && id < |states[i].futures| && states[i].futures[id].sending
    ensures k < i && events[k].step == BeginStep(id) && id < |states[k].futures| && id in states[k].transport
    ensures !states[k].futures[id].Terminal()
    ensures states[k].futures[id].deadline.Some? ==> events[k].now < states[k].futures[id].deadline.value
  {
    hide Acts;
    assert i > 0;
    if id < |states[i - 1].futures| && states[i - 1].futures[id].sending {
      k := BegunByTheGuard(cfg, states, events, i - 1, id);
    } else {
      k := i - 1;
      NewCommandsHaveNotBegun(cfg, states[k], states[i], events[k].step, events[k].now, id);
      BeginsOnlyLiveCommands(cfg, states[k], states[i], events[k].step, events[k].now, id);
    }
  }

  lemma NewCommandsHaveNotBegun(cfg: Config, d: System, d': System, step: Act, now: Time, id: nat)
    requires Acts(cfg, d, d', step, now) && id < |d'.futures| && d'.futures[id].sending
    ensures id < |d.futures|
  {
    hide Send, IsFinish, IsRoll, Failures, Dismissals, RemoveAt, LateResult;
  }

  lemma NobodyOwns(d: System, id: nat)
    requires d.queue.queue == [] && (d.writer.Idle? || d.writer.Exited?) && d.pending == {} && d.duties == []
    ensures !Owned(d, id)
  {
  }

  /** Nothing left to do anywhere means every accepted handle has been answered. */
  lemma SettledMeansAnswered(cfg: Config, states: seq<System>, events: seq<TimedAct>, i: nat, h: nat)
    requires Execution(cfg, states, events) && i < |states| && h < |states[i].handles|
    requires states[i].queue.queue == [] && (states[i].writer.Idle? || states[i].writer.Exited?)
    requires states[i].pending == {} && states[i].duties == [] && forall f <- states[i].futures :: !f.stage.Claimed?
    ensures states[i].handles[h] < |states[i].futures| && Answer(states[i], h).Some?
  {
    EveryStateIsGood(cfg, states, events, i);
    var d := states[i];
    HandleIsKnown(cfg, d, h);
    var id := d.handles[h];
    NobodyOwns(d, id);
    hide Owned;
    assert d.futures[id] in d.futures && !d.futures[id].stage.Open?;
  }
}
