/** Which answer a handle gets: what decided it, and where a success comes from. */
module DeliveryAnswers {
  import opened Sequences
  import opened Completion
  import opened OutboundSpec
  import opened Delivery
  import opened DeliveryOwners
  import opened DeliveryTheorems

  predicate Missed(f: Future, now: Time) {
    f.deadline.Some? && f.deadline.value <= now
  }

  /** A cancellation before the send, a finish somebody owed, or the writer's finding that the deadline had passed: the
      outcome of each. */
  ghost predicate DecidedBy(d: System, step: Act, now: Time, id: nat, outcome: Outcome)
    requires id < |d.futures|
  {
    match step
    case CancelStep(h) => h < |d.handles| && d.handles[h] == id && !d.futures[id].sending && outcome == Cancelled
    case FinishCommandStep(k) =>
      && k < |d.duties| && d.duties[k].FinishCommand? && d.duties[k].id == id
      && outcome == if Missed(d.futures[id], now) then DeadlineExceeded else d.duties[k].outcome
    case HandOverStep(handover) =>
      handover.TooLate? && d.writer.Watched? && d.writer.id == id && Missed(d.futures[id], now) && outcome == DeadlineExceeded
    case _ => false
  }

  lemma OpenIsDecided(cfg: Config, d: System, d': System, step: Act, now: Time, id: nat)
    requires Acts(cfg, d, d', step, now) && id < |d.futures| && id < |d'.futures|
    requires d.futures[id].stage.Open? && Sound(d.futures[id]) && d'.futures[id].Terminal()
    ensures DecidedBy(d, step, now, id, d'.futures[id].stage.outcome)
  {
    hide Sound, Send, Decide, Finish, Cancel, StartSend, Acts;
    if !TouchesFutures(step) {
      OthersTouchNoFuture(cfg, d, d', step, now);
    } else {
      FutureStepDecides(cfg, d, d', step, now, id);
    }
  }

  lemma FutureStepDecides(cfg: Config, d: System, d': System, step: Act, now: Time, id: nat)
    requires Acts(cfg, d, d', step, now) && TouchesFutures(step) && id < |d.futures| && id < |d'.futures|
    requires d.futures[id].stage.Open? && Sound(d.futures[id]) && d'.futures[id].Terminal()
    ensures DecidedBy(d, step, now, id, d'.futures[id].stage.outcome)
  {
    hide Sound, Send, Decide, Finish, Cancel, StartSend;
    CancelDecides(d.futures[id], now);
    SendAndPublicationDecideNothing(d.futures[id], now);
    FinishDecides(d.futures[id], DeadlineExceeded, now);
    if step.FinishCommandStep? {
      FinishDecides(d.futures[id], d.duties[step.k].outcome, now);
    }
  }

  lemma NewcomersAreOpen(cfg: Config, d: System, d': System, step: Act, now: Time, id: nat)
    requires DutiesDecided(d) && Acts(cfg, d, d', step, now) && |d.futures| <= id < |d'.futures|
    ensures d'.futures[id].stage.Open?
  {
    hide DutiesDecided, Acts, Moves;
    StepEvolves(cfg, d, d', step, now);
  }

  /** Every decided command has one deciding step, and the answer is what that step brings. */
  lemma {:induction false} AnswerIsDecided(cfg: Config, states: seq<System>, events: seq<TimedAct>, n: nat, id: nat) returns (k: nat)
    requires Execution(cfg, states, events) && n < |states| && id < |states[n].futures| && states[n].futures[id].Terminal()
    ensures k < n && id < |states[k].futures| && states[k].futures[id].stage.Open?
    ensures id < |states[k + 1].futures| && states[k + 1].futures[id].Terminal()
    ensures DecidedBy(states[k], events[k].step, events[k].now, id, states[n].futures[id].stage.outcome)
  {
    hide Acts, Good, Advances, DecidedBy;
    assert n > 0;
    var i := n - 1;
    EveryStateIsGood(cfg, states, events, i);
    GoodParts(cfg, states[i]);
    if id >= |states[i].futures| {
      NewcomersAreOpen(cfg, states[i], states[n], events[i].step, events[i].now, id);
    } else if states[i].futures[id].Terminal() {
      k := AnswerIsDecided(cfg, states, events, i, id);
      FuturesAdvance(cfg, states, events, i, n, id);
      OutcomeStays(states[i].futures[id], states[n].futures[id]);
    } else {
      k := i;
      assert states[i].futures[id] in states[i].futures;
      OpenIsDecided(cfg, states[i], states[n], events[i].step, events[i].now, id);
    }
  }

  lemma GoodParts(cfg: Config, d: System)
    requires Good(cfg, d)
    ensures AllSound(d) && DutiesDecided(d)
  {
  }

  lemma OutcomeStays(f: Future, f': Future)
    requires Advances(f, f') && f.Terminal()
    ensures f'.Terminal() && f'.stage.outcome == f.stage.outcome
  {
  }

  // ---- Where a success comes from ----------------------------------------------------------

  /** Every success under way or answered is about a command whose frame has been written. */
  ghost predicate SuccessesWritten(d: System, written: set<nat>) {
    && (forall duty <- d.duties :: !duty.ReportFinished? && duty.outcome.Succeeded? ==> duty.id in written)
    && (forall id :: 0 <= id < |d.futures| && d.futures[id].Terminal() && d.futures[id].stage.outcome.Succeeded? ==> id in written)
  }

  /** The commands whose frames the transport has reported as written so far. */
  function Written(events: seq<TimedAct>): set<nat> {
    set event <- events | event.step.ConcludeStep? && event.step.outcome.Succeeded? :: event.step.id
  }

  lemma DutySuccess(cfg: Config, d: System, d': System, step: Act, now: Time, written: set<nat>, duty: Duty)
    requires SuccessesWritten(d, written) && Acts(cfg, d, d', step, now) && duty in d'.duties
    requires !duty.ReportFinished? && duty.outcome.Succeeded?
    ensures duty.id in written || step == ConcludeStep(duty.id, Succeeded)
  {
    hide Acts;
    if duty !in d.duties {
      if Discharges(step) {
        DischargedOutcome(cfg, d, d', step, now, duty);
      } else {
        NewSuccess(cfg, d, d', step, now, written, duty);
      }
    }
  }

  /** A discharged duty hands its own outcome on. */
  lemma DischargedOutcome(cfg: Config, d: System, d': System, step: Act, now: Time, duty: Duty)
    requires Acts(cfg, d, d', step, now) && Discharges(step) && duty in d'.duties && duty !in d.duties
    ensures exists x <- d.duties :: !x.ReportFinished? && x.id == duty.id && x.outcome == duty.outcome
  {
    hide IsFinish, Finish;
    assert d.duties[step.k] in d.duties;
    assert forall x <- RemoveAt(d.duties, step.k) :: x in d.duties;
    hide RemoveAt;
  }

  lemma NewSuccess(cfg: Config, d: System, d': System, step: Act, now: Time, written: set<nat>, duty: Duty)
    requires SuccessesWritten(d, written) && Acts(cfg, d, d', step, now) && !Discharges(step)
    requires duty in d'.duties && duty !in d.duties && !duty.ReportFinished? && duty.outcome.Succeeded?
    ensures duty.id in written || step == ConcludeStep(duty.id, Succeeded)
  {
    if !step.ReadLateStep? {
      OnlyTheTransportSucceeds(cfg, d, d', step, now, duty);
    }
    hide DoSubmit, DoPublish, DoFallDue, DoDiscard, DoEncode, DoWatch, DoHandOver, DoCrash, DoFailPending, DoBegin, DoConclude;
    hide DoCancel, DoAbort, DoStopQueue, DoReceive, DoSkip, DoEnrol, DoRequestStop, DoExit;
  }

  lemma OnlyTheTransportSucceeds(cfg: Config, d: System, d': System, step: Act, now: Time, duty: Duty)
    requires Acts(cfg, d, d', step, now) && !Discharges(step) && !step.ReadLateStep?
    requires duty in d'.duties && duty !in d.duties && !duty.ReportFinished? && duty.outcome.Succeeded?
    ensures step == ConcludeStep(duty.id, Succeeded)
  {
    hide Send, Decide, Receive, Discard, ForgetDeadline, IsRoll, Cancel, StartSend, Finish, Publish, Abort, Stop, LateResult;
  }

  lemma FutureSuccess(cfg: Config, d: System, d': System, step: Act, now: Time, written: set<nat>, id: nat)
    requires SuccessesWritten(d, written) && AllSound(d) && DutiesDecided(d) && Acts(cfg, d, d', step, now)
    requires id < |d'.futures| && d'.futures[id].Terminal() && d'.futures[id].stage.outcome.Succeeded?
    ensures id in written
  {
    hide DutiesDecided, AllSound, Acts, Moves;
    StepEvolves(cfg, d, d', step, now);
    if id >= |d.futures| {
      NewcomersAreOpen(cfg, d, d', step, now, id);
    } else {
      SoundAt(d, id);
      if d.futures[id].Terminal() {
        MovesKeepOutcome(d.futures[id], d'.futures[id], now);
      } else {
        OpenIsDecided(cfg, d, d', step, now, id);
        assert step.FinishCommandStep? && d.duties[step.k] in d.duties;
      }
    }
  }

  lemma SoundAt(d: System, id: nat)
    requires AllSound(d) && id < |d.futures|
    ensures Sound(d.futures[id])
  {
  }

  lemma MovesKeepOutcome(f: Future, f': Future, now: Time)
    requires Moves(f, f', now) && Sound(f) && f.Terminal()
    ensures f'.Terminal() && f'.stage.outcome == f.stage.outcome
  {
    if f' != f {
      var step :| Completion.Next(f, f', step, now);
      StepKeepsSound(f, f', step, now);
    }
  }

  lemma StepKeepsSuccesses(cfg: Config, d: System, d': System, step: Act, now: Time, written: set<nat>, written': set<nat>)
    requires SuccessesWritten(d, written) && AllSound(d) && DutiesDecided(d) && Acts(cfg, d, d', step, now)
    requires written <= written' && forall id :: step == ConcludeStep(id, Succeeded) ==> id in written'
    ensures SuccessesWritten(d', written')
  {
    hide Acts, AllSound, DutiesDecided;
    forall duty <- d'.duties | !duty.ReportFinished? && duty.outcome.Succeeded? ensures duty.id in written' {
      DutySuccess(cfg, d, d', step, now, written, duty);
    }
    forall id | 0 <= id < |d'.futures| && d'.futures[id].Terminal() && d'.futures[id].stage.outcome.Succeeded? ensures id in written' {
      FutureSuccess(cfg, d, d', step, now, written, id);
    }
  }

  lemma {:induction false} RunKeepsSuccesses(cfg: Config, states: seq<System>, events: seq<TimedAct>, n: nat)
    requires Execution(cfg, states, events) && n < |states|
    ensures SuccessesWritten(states[n], Written(events[..n]))
  {
    hide Acts, Good, SuccessesWritten;
    if n == 0 {
      NoSuccessAtStart();
    } else {
      var i := n - 1;
      RunKeepsSuccesses(cfg, states, events, i);
      EveryStateIsGood(cfg, states, events, i);
      GoodParts(cfg, states[i]);
      assert events[..n] == events[..i] + [events[i]];
      assert events[i] in events[..n];
      StepKeepsSuccesses(cfg, states[i], states[n], events[i].step, events[i].now, Written(events[..i]), Written(events[..n]));
    }
  }

  lemma NoSuccessAtStart()
    ensures SuccessesWritten(Start(), Written([]))
  {
  }

  /** Over every run a handle is answered with success exactly when the finish that decided its command brought a
      success before the deadline; then the transport had begun the send and reported the frame as written. */
  lemma SucceededExactlyWhenWritten(cfg: Config, states: seq<System>, events: seq<TimedAct>, n: nat, h: nat) returns (k: nat)
    requires Execution(cfg, states, events) && n < |states| && h < |states[n].handles|
    requires states[n].handles[h] < |states[n].futures| && Answer(states[n], h).Some?
    ensures k < n && states[n].handles[h] < |states[k].futures| && states[k].futures[states[n].handles[h]].stage.Open?
    ensures var d, id, now := states[k], states[n].handles[h], events[k].now;
      && DecidedBy(d, events[k].step, now, id, Answer(states[n], h).value)
      && (Answer(states[n], h) == Some(Succeeded) <==>
            events[k].step.FinishCommandStep? && d.duties[events[k].step.k].outcome.Succeeded? && !Missed(d.futures[id], now))
    ensures Answer(states[n], h) == Some(Succeeded) ==>
      exists j: nat :: j < n && events[j].step == ConcludeStep(states[n].handles[h], Succeeded)
        && states[n].handles[h] < |states[j].futures| && states[j].futures[states[n].handles[h]].sending
  {
    var id := states[n].handles[h];
    k := AnswerIsDecided(cfg, states, events, n, id);
    RunKeepsSuccesses(cfg, states, events, n);
    if Answer(states[n], h) == Some(Succeeded) {
      assert id in Written(events[..n]);
      var event :| event in events[..n] && event.step == ConcludeStep(id, Succeeded);
      var j: nat :| j < n && events[..n][j] == event;
      assert Acts(cfg, states[j], states[j + 1], events[j].step, events[j].now);
      assert events[j].step == ConcludeStep(id, Succeeded);
    }
  }
}
