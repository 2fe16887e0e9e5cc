/** Deadlines over every run: each is watched until its command is decided, an overdue command can be expired by the
    watch alone, and nobody is told of a missed deadline before some clock reading has reached it. */
module DeliveryDeadlines {
  import opened Sequences
  import opened Completion
  import opened OutboundSpec
  import opened Delivery
  import opened DeliveryOwners
  import opened DeliveryTheorems
  import opened DeliveryAnswers

  // ---- Every deadline is watched ---------------------------------------------------------

  /** The watch holds the deadline of an undecided command, or has found it due and owes the command its end. */
  ghost predicate WatchedOver(d: System, id: nat)
    requires id < |d.futures|
  {
    d.futures[id].stage.Open? && d.futures[id].deadline.Some? ==>
      || (id in d.queue.deadlines && d.queue.deadlines[id] == d.futures[id].deadline.value)
      || FinishCommand(id, DeadlineExceeded) in d.duties
  }

  /** What the watch holds are deadlines of commands. */
  ghost predicate TrueDeadlines(d: System) {
    forall id <- d.queue.deadlines :: id < |d.futures| && d.futures[id].deadline == Some(d.queue.deadlines[id])
  }

  lemma SendWatches(cfg: Config, q: Outbound, command: Command, deadline: Option<Time>, open: bool)
    ensures Send(cfg, q, command, deadline, open).deadlines ==
      if Decide(cfg, q, command, deadline, open).Enqueued? && deadline.Some? then q.deadlines[q.enqueued := deadline.value] else q.deadlines
    ensures var verdict := Decide(cfg, q, command, deadline, open); verdict.Enqueued? ==> verdict.id == q.enqueued
  {
  }

  lemma FinishWatches(q: Outbound, id: nat, q': Outbound)
    requires IsFinish(q, id, q')
    ensures q'.deadlines == q.deadlines - {id}
  {
  }

  /** A submission starts the watch over its own command. */
  lemma SubmissionIsWatched(cfg: Config, d: System, d': System, step: Act, now: Time, id: nat)
    requires Acts(cfg, d, d', step, now) && step.SubmitStep? && Placed(d) && id < |d'.futures|
    requires id < |d.futures| ==> WatchedOver(d, id)
    ensures WatchedOver(d', id)
  {
    SendWatches(cfg, d.queue, step.command, step.deadline, TailOpen(d));
    hide Send, Decide;
  }

  /** Any other step that takes a deadline off the watch has found it due, or reports a command that is decided. */
  lemma WatchIsKept(cfg: Config, d: System, d': System, step: Act, now: Time, id: nat)
    requires Acts(cfg, d, d', step, now) && !step.SubmitStep? && id in d.queue.deadlines
    ensures
      || (id in d'.queue.deadlines && d'.queue.deadlines[id] == d.queue.deadlines[id])
      || (step == FallDueStep(id) && d.queue.deadlines[id] <= now && FinishCommand(id, DeadlineExceeded) in d'.duties)
      || (step.ReportFinishedStep? && ReportFinished(id) in d.duties)
  {
    hide Cancel, StartSend, Finish, Publish, Abort, IsRoll, IsFinish;
    if step.ReportFinishedStep? {
      FinishWatches(d.queue, d.duties[step.k].id, d'.queue);
      assert d.duties[step.k] in d.duties;
    }
  }

  /** A finish that is owed stays owed until it is made, and then the command is decided. */
  lemma OwedIsKept(cfg: Config, d: System, d': System, step: Act, now: Time, id: nat)
    requires Acts(cfg, d, d', step, now) && FinishCommand(id, DeadlineExceeded) in d.duties
    ensures FinishCommand(id, DeadlineExceeded) in d'.duties || (id < |d'.futures| && d'.futures[id].Terminal())
  {
    hide Send, Decide, Cancel, StartSend, Finish, Publish, Abort, IsRoll, IsFinish, RemoveAt, LateResult;
    var j :| 0 <= j < |d.duties| && d.duties[j] == FinishCommand(id, DeadlineExceeded);
    if Discharges(step) {
      if step.k == j {
        FinishedIsTerminal(d.futures[id], now);
      } else {
        StaysInLine(d.duties, step.k, j);
      }
    }
  }

  lemma FinishedIsTerminal(f: Future, now: Time)
    ensures Finish(f, DeadlineExceeded, now).Terminal()
  {
  }

  lemma StaysInLine(duties: seq<Duty>, k: nat, j: nat)
    requires k < |duties| && j < |duties| && j != k
    ensures duties[j] in RemoveAt(duties, k)
  {
    assert RemoveAt(duties, k)[if j < k then j else j - 1] == duties[j];
  }

  lemma StepKeepsWatch(cfg: Config, d: System, d': System, step: Act, now: Time, id: nat)
    requires Good(cfg, d) && Acts(cfg, d, d', step, now) && id < |d'.futures|
    requires id < |d.futures| ==> WatchedOver(d, id)
    ensures WatchedOver(d', id)
  {
    hide Acts, Sound, Moves, Inv, NoOrphan, LateDecided, DutiesKnown;
    if step.SubmitStep? {
      SubmissionIsWatched(cfg, d, d', step, now, id);
    } else {
      OnlySubmissionsGrow(cfg, d, d', step, now);
      StepKeepsGood(cfg, d, d', step, now);
      if FinishCommand(id, DeadlineExceeded) in d.duties {
        OwedIsKept(cfg, d, d', step, now, id);
      } else if id in d.queue.deadlines {
        WatchIsKept(cfg, d, d', step, now, id);
        if ReportFinished(id) in d.duties {
          assert Decided(ReportFinished(id), d.futures);
        }
      }
    }
  }

  lemma {:induction false} DeadlinesAreWatched(cfg: Config, states: seq<System>, events: seq<TimedAct>, n: nat, id: nat)
    requires Execution(cfg, states, events) && n < |states| && id < |states[n].futures|
    ensures WatchedOver(states[n], id)
  {
    hide Acts, Good, WatchedOver;
    if n > 0 {
      if id < |states[n - 1].futures| {
        DeadlinesAreWatched(cfg, states, events, n - 1, id);
      }
      EveryStateIsGood(cfg, states, events, n - 1);
      StepKeepsWatch(cfg, states[n - 1], states[n], events[n - 1].step, events[n - 1].now, id);
    }
  }

  /** In every reachable state an undecided command whose deadline has passed can be decided as a missed deadline by the
      watch alone, whatever the writer and the transport are doing: in one step, or in two. */
  lemma OverdueCanExpire(cfg: Config, states: seq<System>, events: seq<TimedAct>, n: nat, id: nat, now: Time)
    returns (due: System, k: nat, ended: System)
    requires Execution(cfg, states, events) && n < |states| && id < |states[n].futures|
    requires states[n].futures[id].stage.Open? && states[n].futures[id].deadline.Some? && states[n].futures[id].deadline.value <= now
    ensures due == states[n] || Acts(cfg, states[n], due, FallDueStep(id), now)
    ensures Acts(cfg, due, ended, FinishCommandStep(k), now)
    ensures id < |ended.futures| && ended.futures[id].stage.Claimed? && ended.futures[id].stage.outcome == DeadlineExceeded
  {
    var d := states[n];
    DeadlinesAreWatched(cfg, states, events, n, id);
    EveryStateIsGood(cfg, states, events, n);
    hide Good, Execution;
    if FinishCommand(id, DeadlineExceeded) in d.duties {
      due := d;
    } else {
      due := d.(queue := ForgetDeadline(d.queue, id), duties := d.duties + [FinishCommand(id, DeadlineExceeded)]);
      assert due.duties[|d.duties|] == FinishCommand(id, DeadlineExceeded);
    }
    k :| 0 <= k < |due.duties| && due.duties[k] == FinishCommand(id, DeadlineExceeded);
    ended := due.(futures := due.futures[id := Finish(due.futures[id], DeadlineExceeded, now)], duties := RemoveAt(due.duties, k));
  }

  // ---- Nobody is late before its time ----------------------------------------------------

  predicate Overdue(f: Future, clock: set<Time>) {
    exists t <- clock :: f.deadline.Some? && f.deadline.value <= t
  }

  /** A missed deadline that is owed, under way or answered is one that some clock reading has reached. */
  ghost predicate LateOnlyAfter(d: System, clock: set<Time>) {
    && (forall duty <- d.duties :: !duty.ReportFinished? && duty.outcome.DeadlineExceeded? ==>
          duty.id < |d.futures| && Overdue(d.futures[duty.id], clock))
    && (forall id :: 0 <= id < |d.futures| && d.futures[id].Terminal() && d.futures[id].stage.outcome.DeadlineExceeded? ==>
          Overdue(d.futures[id], clock))
  }

  function Clock(events: seq<TimedAct>): set<Time> {
    set event <- events :: event.now
  }

  predicate TouchesQueue(step: Act) {
    step.SubmitStep? || step.ReportFinishedStep? || step.FallDueStep? || step.StopQueueStep? || step.DiscardStep? || step.ReceiveStep?
  }

  lemma OthersKeepQueue(cfg: Config, d: System, d': System, step: Act, now: Time)
    requires Acts(cfg, d, d', step, now) && !TouchesQueue(step)
    ensures d'.queue == d.queue
  {
    hide Cancel, StartSend, Finish, Publish, Abort, IsRoll;
  }

  /** Submissions alone put deadlines on the watch. */
  lemma NothingElseIsWatched(cfg: Config, d: System, d': System, step: Act, now: Time)
    requires Acts(cfg, d, d', step, now) && !step.SubmitStep?
    ensures d'.queue.deadlines.Keys <= d.queue.deadlines.Keys && forall id <- d'.queue.deadlines :: d'.queue.deadlines[id] == d.queue.deadlines[id]
  {
    hide IsFinish;
    if step.ReportFinishedStep? {
      FinishWatches(d.queue, d.duties[step.k].id, d'.queue);
    } else if !TouchesQueue(step) {
      hide Acts;
      OthersKeepQueue(cfg, d, d', step, now);
    }
  }

  lemma SubmissionHasItsDeadline(cfg: Config, d: System, d': System, step: Act, now: Time)
    requires Placed(d) && Acts(cfg, d, d', step, now) && step.SubmitStep? && TrueDeadlines(d)
    ensures TrueDeadlines(d')
  {
    SendWatches(cfg, d.queue, step.command, step.deadline, TailOpen(d));
    hide Send, Decide;
  }

  lemma StepKeepsDeadlines(cfg: Config, d: System, d': System, step: Act, now: Time)
    requires Good(cfg, d) && Acts(cfg, d, d', step, now) && TrueDeadlines(d)
    ensures TrueDeadlines(d')
  {
    hide Inv, Acts, Sound, DutiesKnown, NoOrphan;
    if step.SubmitStep? {
      SubmissionHasItsDeadline(cfg, d, d', step, now);
    } else {
      StepKeepsGood(cfg, d, d', step, now);
      NothingElseIsWatched(cfg, d, d', step, now);
    }
  }

  lemma OverdueLater(f: Future, f': Future, clock: set<Time>, clock': set<Time>)
    requires Overdue(f, clock) && f'.deadline == f.deadline && clock <= clock'
    ensures Overdue(f', clock')
  {
    var t :| t in clock && f.deadline.Some? && f.deadline.value <= t;
    assert t in clock';
  }

  /** A new duty to report a missed deadline comes from the watch or the transport, which have looked at the clock, from a
      duty that is passed on, or from a command that has been told so. */
  lemma LateDuty(cfg: Config, d: System, d': System, step: Act, now: Time, clock: set<Time>, duty: Duty)
    requires LateOnlyAfter(d, clock) && TrueDeadlines(d) && Acts(cfg, d, d', step, now) && now in clock
    requires duty in d'.duties && !duty.ReportFinished? && duty.outcome.DeadlineExceeded?
    ensures duty.id < |d.futures| && Overdue(d.futures[duty.id], clock)
  {
    hide Acts, TrueDeadlines, Overdue;
    if duty !in d.duties {
      if Discharges(step) {
        DischargedOutcome(cfg, d, d', step, now, duty);
      } else {
        NewLateness(cfg, d, d', step, now, duty);
        ReadLateness(d, step, now, clock, duty);
      }
    }
  }

  /** Where a duty about a missed deadline starts. */
  ghost predicate Noticed(d: System, step: Act, now: Time, id: nat) {
    if step == FallDueStep(id) then id in d.queue.deadlines && d.queue.deadlines[id] <= now
    else
      id < |d.futures|
      && (d.futures[id].Expired(now) || (d.futures[id].Terminal() && d.futures[id].stage.outcome.DeadlineExceeded?))
  }

  lemma NewLateness(cfg: Config, d: System, d': System, step: Act, now: Time, duty: Duty)
    requires Acts(cfg, d, d', step, now) && !Discharges(step) && duty in d'.duties && duty !in d.duties
    requires !duty.ReportFinished? && duty.outcome.DeadlineExceeded?
    ensures Noticed(d, step, now, duty.id)
  {
    hide Acts, Noticed;
    if step.PublishStep? || step.WatchStep? || step.ReadLateStep? {
      LatenessRead(cfg, d, d', step, now, duty);
    } else {
      LatenessFound(cfg, d, d', step, now, duty);
    }
  }

  lemma LatenessRead(cfg: Config, d: System, d': System, step: Act, now: Time, duty: Duty)
    requires Acts(cfg, d, d', step, now) && (step.PublishStep? || step.WatchStep? || step.ReadLateStep?)
    requires duty in d'.duties && duty !in d.duties && !duty.ReportFinished? && duty.outcome.DeadlineExceeded?
    ensures Noticed(d, step, now, duty.id)
  {
    hide Publish;
  }

  lemma LatenessFound(cfg: Config, d: System, d': System, step: Act, now: Time, duty: Duty)
    requires Acts(cfg, d, d', step, now) && !Discharges(step) && !step.PublishStep? && !step.WatchStep? && !step.ReadLateStep?
    requires duty in d'.duties && duty !in d.duties && !duty.ReportFinished? && duty.outcome.DeadlineExceeded?
    ensures Noticed(d, step, now, duty.id)
  {
    hide Send, Decide, Receive, Discard, IsRoll, Cancel, StartSend, Finish, Abort, Stop, ForgetDeadline;
  }

  lemma ReadLateness(d: System, step: Act, now: Time, clock: set<Time>, duty: Duty)
    requires LateOnlyAfter(d, clock) && TrueDeadlines(d) && now in clock && Noticed(d, step, now, duty.id)
    ensures duty.id < |d.futures| && Overdue(d.futures[duty.id], clock)
  {
  }

  lemma LateAnswer(cfg: Config, d: System, d': System, step: Act, now: Time, clock: set<Time>, id: nat)
    requires LateOnlyAfter(d, clock) && AllSound(d) && DutiesDecided(d) && Acts(cfg, d, d', step, now) && now in clock
    requires id < |d'.futures| && d'.futures[id].Terminal() && d'.futures[id].stage.outcome.DeadlineExceeded?
    ensures id < |d.futures| && Overdue(d.futures[id], clock)
  {
    hide DutiesDecided, AllSound, Acts, Moves;
    StepEvolves(cfg, d, d', step, now);
    if id >= |d.futures| {
      NewcomersAreOpen(cfg, d, d', step, now, id);
    } else {
      SoundAt(d, id);
      if d.futures[id].Terminal() {
        MovesKeepOutcome(d.futures[id], d'.futures[id], now);
      } else {
        OpenIsDecided(cfg, d, d', step, now, id);
        if !Missed(d.futures[id], now) {
          assert d.duties[step.k] in d.duties;
        }
      }
    }
  }

  lemma OverdueStays(cfg: Config, d: System, d': System, step: Act, now: Time, clock: set<Time>, id: nat)
    requires Good(cfg, d) && Acts(cfg, d, d', step, now) && id < |d.futures| && Overdue(d.futures[id], clock)
    ensures id < |d'.futures| && Overdue(d'.futures[id], clock)
  {
    hide Good, Acts, Overdue;
    StepKeepsGood(cfg, d, d', step, now);
    OverdueLater(d.futures[id], d'.futures[id], clock, clock);
  }

  lemma StepKeepsLateness(cfg: Config, d: System, d': System, step: Act, now: Time, clock: set<Time>)
    requires Good(cfg, d) && Acts(cfg, d, d', step, now) && TrueDeadlines(d) && LateOnlyAfter(d, clock) && now in clock
    ensures LateOnlyAfter(d', clock)
  {
    GoodParts(cfg, d);
    hide Good, Acts, TrueDeadlines, AllSound, DutiesDecided, Overdue;
    forall duty <- d'.duties | !duty.ReportFinished? && duty.outcome.DeadlineExceeded?
      ensures duty.id < |d'.futures| && Overdue(d'.futures[duty.id], clock)
    {
      LateDuty(cfg, d, d', step, now, clock, duty);
      OverdueStays(cfg, d, d', step, now, clock, duty.id);
    }
    forall id | 0 <= id < |d'.futures| && d'.futures[id].Terminal() && d'.futures[id].stage.outcome.DeadlineExceeded?
      ensures Overdue(d'.futures[id], clock)
    {
      LateAnswer(cfg, d, d', step, now, clock, id);
      OverdueStays(cfg, d, d', step, now, clock, id);
    }
  }

  lemma LatenessGrows(d: System, clock: set<Time>, clock': set<Time>)
    requires LateOnlyAfter(d, clock) && clock <= clock'
    ensures LateOnlyAfter(d, clock')
  {
    hide Overdue;
    forall f: Future | Overdue(f, clock) ensures Overdue(f, clock') {
      OverdueLater(f, f, clock, clock');
    }
  }

  lemma NothingIsLateAtStart()
    ensures LateOnlyAfter(Start(), {}) && TrueDeadlines(Start())
  {
  }

  lemma {:induction false} RunKeepsLateness(cfg: Config, states: seq<System>, events: seq<TimedAct>, n: nat)
    requires Execution(cfg, states, events) && n < |states|
    ensures LateOnlyAfter(states[n], Clock(events[..n])) && TrueDeadlines(states[n])
  {
    hide Acts, Good, LateOnlyAfter, TrueDeadlines;
    if n == 0 {
      NothingIsLateAtStart();
      assert Clock(events[..0]) == {};
    } else {
      var i := n - 1;
      RunKeepsLateness(cfg, states, events, i);
      EveryStateIsGood(cfg, states, events, i);
      assert events[..n] == events[..i] + [events[i]];
      assert events[i] in events[..n];
      LatenessGrows(states[i], Clock(events[..i]), Clock(events[..n]));
      StepKeepsLateness(cfg, states[i], states[n], events[i].step, events[i].now, Clock(events[..n]));
      StepKeepsDeadlines(cfg, states[i], states[n], events[i].step, events[i].now);
    }
  }

  /** Over every run a handle is told of a missed deadline only if its command has one and the clock has been read at or
      after it before; a command without a deadline never expires. */
  lemma LateAnswersAreLate(cfg: Config, states: seq<System>, events: seq<TimedAct>, n: nat, h: nat)
    requires Execution(cfg, states, events) && n < |states| && h < |states[n].handles|
    requires states[n].handles[h] < |states[n].futures| && Answer(states[n], h) == Some(DeadlineExceeded)
    ensures var f := states[n].futures[states[n].handles[h]];
      f.deadline.Some? && exists i: nat :: i < n && f.deadline.value <= events[i].now
  {
    RunKeepsLateness(cfg, states, events, n);
    var f := states[n].futures[states[n].handles[h]];
    assert Overdue(f, Clock(events[..n]));
    var event :| event in events[..n] && f.deadline.value <= event.now;
    var i: nat :| i < n && events[..n][i] == event;
    assert events[i].now == event.now;
  }
}
