/** What holds in every state of every run of the inbound pipeline. */
module PipelineTheorems {
  import opened Sequences
  import opened Events
  import opened Handlers
  import opened S = SchedulerSpec
  import I = InboundSpec
  import opened Pipeline
  import opened PipelineOrder
  import opened PipelineStore
  import opened PipelineAcks
  import opened PipelineBounds
  import opened PipelineProgress
  import opened SchedulerLaws

  ghost predicate SourceGood<V>(cfg: Setup<V>, s: System<V>, m: Event -> int) {
    I.Inv(cfg.source, s.src) && I.Account(s.src, m)
  }

  ghost predicate Good<V>(cfg: Setup<V>, s: System<V>, m: Event -> int) {
    && SourceGood(cfg, s, m)
    && Linked(cfg, s) && Ordered(Line(s)) && Accounted(s)
    && InHands(s) && Balanced(s)
    && Room(cfg, s) && Published(cfg, s) && Reflected(cfg, s)
  }

  ghost predicate Behaviour<V>(cfg: Setup<V>, states: seq<System<V>>, steps: seq<Step>) {
    && |states| == |steps| + 1 && states[0] == Start(cfg)
    && forall i :: 0 <= i < |steps| ==> Next(cfg, states[i], states[i + 1], steps[i])
  }

  lemma SourceStartsGood<V>(cfg: Setup<V>, m: Event -> int)
    ensures SourceGood(cfg, Start(cfg), m)
  {
  }

  lemma StartIsLinked<V>(cfg: Setup<V>)
    ensures Linked(cfg, Start(cfg)) && Room(cfg, Start(cfg)) && Reflected(cfg, Start(cfg))
  {
    NothingRunning(cfg.handlers, cfg.initial, cfg.initial);
  }

  lemma StartIsOrdered<V>(cfg: Setup<V>)
    ensures Ordered(Line(Start(cfg))) && Accounted(Start(cfg)) && Published(cfg, Start(cfg))
  {
    assert Line(Start(cfg)) == [] && Received(Start(cfg)) == [];
  }

  lemma StartIsBalanced<V>(cfg: Setup<V>)
    ensures InHands(Start(cfg)) && Balanced(Start(cfg))
  {
    var s := Start(cfg);
    assert Items(s.running) == [];
    assert PartsOf(s) == Parts({}, {}, {}, {}, {}, {});
    assert Unacknowledged(s.owned) == {};
  }

  lemma StartIsGood<V>(cfg: Setup<V>, m: Event -> int)
    ensures Good(cfg, Start(cfg), m)
  {
    hide Start, SourceGood, Linked, Ordered, Accounted, InHands, Balanced, Room, Published, Reflected;
    SourceStartsGood(cfg, m);
    StartIsLinked(cfg);
    StartIsOrdered(cfg);
    StartIsBalanced(cfg);
  }

  lemma SourceStaysGood<V>(cfg: Setup<V>, s: System<V>, s': System<V>, step: Step, m: Event -> int)
    requires SourceGood(cfg, s, m) && I.Additive(m) && Next(cfg, s, s', step)
    requires step.TaskDone? ==> s.src.inFlight > 0
    ensures SourceGood(cfg, s', m)
    ensures step.Source? ==> I.StampsSound(s'.src) && I.Evolves(s.src, s'.src)
    ensures step.Source? ==> s'.src.delivered == s.src.delivered && s'.src.inFlight == s.src.inFlight
  {
    match step
    case Source(step) =>
      I.StepKeeps(cfg.source, s.src, s'.src, step, m);
      I.ProducersDeliverNothing(cfg.source, s.src, s'.src, step);
    case Select(k) => I.ReceiveKeeps(cfg.source, s.src, k, m);
    case TaskDone(x) => I.StepKeeps(cfg.source, s.src, s'.src, I.TaskDoneStep, m);
    case _ => assert s'.src == s.src;
  }

  lemma StepStaysInOrder<V>(cfg: Setup<V>, s: System<V>, s': System<V>, step: Step)
    requires Linked(cfg, s) && Ordered(Line(s)) && Accounted(s) && Next(cfg, s, s', step)
    requires step.Source? ==> I.StampsSound(s'.src) && I.Evolves(s.src, s'.src) && s'.src.delivered == s.src.delivered
    ensures Ordered(Line(s')) && Accounted(s')
  {
    if step.Source? {
      SourceKeepsInOrder(cfg, s, s', step.step);
    } else {
      StepKeepsLine(cfg, s, s', step);
      StepKeepsAccount(cfg, s, s', step);
    }
  }

  lemma StepStaysGood<V>(cfg: Setup<V>, s: System<V>, s': System<V>, step: Step, m: Event -> int)
    requires Good(cfg, s, m) && I.Additive(m) && Next(cfg, s, s', step)
    ensures Good(cfg, s', m)
  {
    hide SourceGood, Linked, Ordered, Accounted, InHands, Balanced, Room, Published, Reflected, Next;
    TaskDoneIsDue(cfg, s, s', step);
    SourceStaysGood(cfg, s, s', step, m);
    StepKeepsLinks(cfg, s, s', step);
    StepStaysInOrder(cfg, s, s', step);
    StepKeepsHands(cfg, s, s', step);
    StepKeepsBalance(cfg, s, s', step);
    StepKeepsRoom(cfg, s, s', step);
    StepKeepsPublished(cfg, s, s', step);
    StepReflected(cfg, s, s', step);
  }

  /** The source never sees an acknowledgement it does not expect. */
  lemma TaskDoneIsDue<V>(cfg: Setup<V>, s: System<V>, s': System<V>, step: Step)
    requires Balanced(s) && Next(cfg, s, s', step)
    ensures step.TaskDone? ==> s.src.inFlight > 0
  {
    if step.TaskDone? {
      TaskDoneKeepsBalance(s, s', step.stamp);
    }
  }

  lemma {:induction false} EveryStateIsGood<V>(cfg: Setup<V>, states: seq<System<V>>, steps: seq<Step>, n: nat, m: Event -> int)
    requires Behaviour(cfg, states, steps) && n < |states| && I.Additive(m)
    ensures Good(cfg, states[n], m)
  {
    hide Good, Next, Start;
    if n == 0 {
      StartIsGood(cfg, m);
    } else {
      EveryStateIsGood(cfg, states, steps, n - 1, m);
      StepStaysGood(cfg, states[n - 1], states[n], steps[n - 1], m);
    }
  }

  lemma RunIsGood<V>(cfg: Setup<V>, states: seq<System<V>>, steps: seq<Step>, n: nat)
    requires Behaviour(cfg, states, steps) && n < |states|
    ensures Good(cfg, states[n], I.TicksOf(""))
  {
    I.TicksAreAdditive("");
    EveryStateIsGood(cfg, states, steps, n, I.TicksOf(""));
  }

  // ---- Order -----------------------------------------------------------------------------

  /** Whenever no callback is running, the shared state is what the finished events produce one after
      the other in source order, however their callbacks overlapped. */
  lemma SequentialEquivalence<V>(cfg: Setup<V>, states: seq<System<V>>, steps: seq<Step>, n: nat)
    requires Behaviour(cfg, states, steps) && n < |states| && states[n].running == []
    ensures states[n].store == cfg.handlers.Fold(InSourceOrder(states[n].log), cfg.initial)
  {
    var s := states[n];
    RunIsGood(cfg, states, steps, n);
    NothingRunning(cfg.handlers, cfg.handlers.Fold(s.log, cfg.initial), s.store);
    LogInOrder(s);
    OrderedRunEqualsSourceOrder(cfg.handlers, s.log, cfg.initial);
  }

  /** A drained run that discarded nothing executed exactly the delivered events, with the effect of
      folding the handlers over them in source order. */
  lemma DrainedRunEqualsFold<V>(cfg: Setup<V>, states: seq<System<V>>, steps: seq<Step>, n: nat)
    requires Behaviour(cfg, states, steps) && n < |states|
    requires Quiescent(states[n]) && states[n].lost == []
    ensures multiset(states[n].log) == multiset(states[n].src.delivered)
    ensures states[n].store == cfg.handlers.Fold(InSourceOrder(states[n].src.delivered), cfg.initial)
  {
    var s := states[n];
    RunIsGood(cfg, states, steps, n);
    SequentialEquivalence(cfg, states, steps, n);
    DrainedLog(s);
  }

  lemma DrainedLog<V>(s: System<V>)
    requires Accounted(s) && Quiescent(s) && s.lost == []
    ensures multiset(s.log) == multiset(s.src.delivered)
    ensures InSourceOrder(s.log) == InSourceOrder(s.src.delivered)
  {
    assert Items(s.running) == [];
    assert Received(s) == s.log;
    DistinctPrefix(Received(s), s.src.entries);
    DistinctIsUnordered(s.log, s.src.delivered);
    SourceOrderIgnoresListing(s.log, s.src.delivered);
  }

  /** While a callback runs, every earlier event it conflicts with has finished, and no other callback
      it conflicts with is running; in the finish order conflicting events stand in source order. */
  lemma ConflictOrder<V>(cfg: Setup<V>, states: seq<System<V>>, steps: seq<Step>, n: nat)
    requires Behaviour(cfg, states, steps) && n < |states|
    ensures var s := states[n];
      && Ordered(s.log)
      && IndependentRuns(s.running)
      && forall r <- s.running, x <- Line(s) ::
           Conflict(x.event, r.item.event) && x.stamp < r.item.stamp ==> x in s.log
  {
    hide Behaviour, Linked, Ordered, Accounted, InHands, Balanced, Room, Published, Reflected, IndependentRuns, Line, Conflict;
    var s := states[n];
    RunIsGood(cfg, states, steps, n);
    LinkedRunsAreIndependent(cfg, s);
    LogInOrder(s);
    forall r <- s.running, x <- Line(s) | Conflict(x.event, r.item.event) && x.stamp < r.item.stamp
      ensures x in s.log
    {
      var i :| 0 <= i < |s.running| && s.running[i] == r;
      EarlierConflictFinished(cfg, s, i, x);
    }
  }

  lemma LogInOrder<V>(s: System<V>)
    requires Ordered(Line(s))
    ensures Ordered(s.log)
  {
    assert forall i :: 0 <= i < |s.log| ==> s.log[i] == Line(s)[i];
  }

  lemma EarlierConflictFinished<V>(cfg: Setup<V>, s: System<V>, i: nat, x: SizedEvent)
    requires Linked(cfg, s) && Ordered(Line(s)) && i < |s.running| && x in Line(s)
    requires Conflict(x.event, s.running[i].item.event) && x.stamp < s.running[i].item.stamp
    ensures x in s.log
  {
    hide Linked;
    var l, n := Line(s), |s.log|;
    var k: nat :| k < |l| && l[k] == x;
    LineHolds(s, k);
    LineHolds(s, n + i);
    if n <= k < n + |s.running| && k != n + i {
      RunningIndependent(cfg, s, k - n, i);
    }
    hide Line;
  }

  /** The line begins with the finished events, then come the running ones. */
  lemma LineHolds<V>(s: System<V>, k: nat)
    requires k < |Line(s)|
    ensures |s.log| + |s.running| <= |Line(s)|
    ensures k < |s.log| ==> Line(s)[k] == s.log[k]
    ensures |s.log| <= k < |s.log| + |s.running| ==> Line(s)[k] == s.running[k - |s.log|].item
  {
  }

  /** Nothing else runs beside a barrier. */
  lemma BarriersRunAlone<V>(cfg: Setup<V>, states: seq<System<V>>, steps: seq<Step>, n: nat, r: nat)
    requires Behaviour(cfg, states, steps) && n < |states| && r < |states[n].running|
    requires states[n].running[r].item.event.IsBarrier()
    ensures |states[n].running| == 1
    ensures forall x <- Line(states[n]) :: x.stamp < states[n].running[r].item.stamp ==> x in states[n].log
  {
    var s := states[n];
    ConflictOrder(cfg, states, steps, n);
    assert s.running[r] in s.running;
    if |s.running| > 1 {
      var other := if r == 0 then 1 else 0;
      RunIsGood(cfg, states, steps, n);
      RunningIndependent(cfg, s, other, r);
    }
  }

  // ---- Retention, acknowledgement, conservation ------------------------------------------

  /** Limits of the composed pipeline: source, scheduler, pool and one handoff. A context has one pending or running
      work, or no more than every worker could have without exceeding the limit. */
  lemma RetentionBound<V>(cfg: Setup<V>, states: seq<System<V>>, steps: seq<Step>, n: nat)
    requires Behaviour(cfg, states, steps) && n < |states|
    ensures var s, c := states[n], cfg.sched;
      && s.src.inFlight <= c.pendingLimit + c.workers + 1
      && |s.src.entries| + s.src.inFlight <= cfg.source.queueLimit + c.pendingLimit + c.workers + 1
      && (forall ctx :: ContextWork(s.sched, ctx) <= c.ContextLimit())
      && (forall ctx :: Works(s.sched, ctx) <= 1 || Works(s.sched, ctx) * c.workers <= c.pendingLimit)
      && (s.pump.Holding? ==> AdmissionOf(c, s.sched, s.pump.item) != MustWait)
  {
    var s := states[n];
    RunIsGood(cfg, states, steps, n);
    UnacknowledgedAreRetained(cfg, s);
    forall ctx ensures Works(s.sched, ctx) <= 1 || Works(s.sched, ctx) * cfg.sched.workers <= cfg.sched.pendingLimit {
      ShareIsKept(cfg, s, ctx);
    }
    hide Works;
  }

  lemma ShareIsKept<V>(cfg: Setup<V>, s: System<V>, ctx: string)
    requires Linked(cfg, s) && Room(cfg, s)
    ensures Works(s.sched, ctx) <= 1 || Works(s.sched, ctx) * cfg.sched.workers <= cfg.sched.pendingLimit
  {
    WorksAreCounted(cfg.sched, s.sched, ctx);
    hide S.Inv, ContextWork, Works, S.Config.ContextLimit, RunsActive;
    ShareIs(cfg.sched, Works(s.sched, ctx));
  }

  /** The pump's record of an event only moves forward. */
  lemma PhasesAdvance<V>(cfg: Setup<V>, s: System<V>, s': System<V>, step: Step, x: nat)
    requires Accounted(s) && InHands(s) && Next(cfg, s, s', step) && IsAcknowledged(s, x)
    ensures IsAcknowledged(s', x)
  {
    if step.Select? {
      SelectedIsFresh(s, step.k);
      assert s'.owned == s.owned[s.src.entries[step.k].stamp := Held];
    } else if !step.Mark? && !step.TaskDone? && !step.Release? {
      OthersKeepPhases(cfg, s, s', step);
    }
  }

  predicate IsAcknowledged<V>(s: System<V>, x: nat) {
    x in s.owned && (s.owned[x] == Acknowledged || s.owned[x] == Released)
  }

  lemma AcknowledgedStep<V>(cfg: Setup<V>, states: seq<System<V>>, steps: seq<Step>, i: nat, x: nat)
    requires Behaviour(cfg, states, steps) && i < |steps| && IsAcknowledged(states[i], x)
    ensures IsAcknowledged(states[i + 1], x)
  {
    RunIsGood(cfg, states, steps, i);
    hide Accounted, InHands, IsAcknowledged, Next, Start;
    PhasesAdvance(cfg, states[i], states[i + 1], steps[i], x);
  }

  lemma {:induction false} AcknowledgedStays<V>(cfg: Setup<V>, states: seq<System<V>>, steps: seq<Step>, i: nat, j: nat, x: nat)
    requires Behaviour(cfg, states, steps) && i <= j < |states| && IsAcknowledged(states[i], x)
    ensures IsAcknowledged(states[j], x)
    decreases j
  {
    hide IsAcknowledged, Next, Start;
    if i < j {
      AcknowledgedStays(cfg, states, steps, i, j - 1, x);
      AcknowledgedStep(cfg, states, steps, j - 1, x);
    }
  }

  lemma TaskDoneAcknowledges<V>(cfg: Setup<V>, states: seq<System<V>>, steps: seq<Step>, i: nat, x: nat)
    requires Behaviour(cfg, states, steps) && i < |steps| && steps[i] == TaskDone(x)
    ensures !IsAcknowledged(states[i], x) && IsAcknowledged(states[i + 1], x) && states[i].src.inFlight > 0
  {
    hide Linked, Ordered, Line, Accounted, InHands, Room, Published, Reflected, Balanced, SourceGood, Start;
    RunIsGood(cfg, states, steps, i);
    TaskDoneIsDue(cfg, states[i], states[i + 1], steps[i]);
    assert DoTaskDone(states[i], states[i + 1], x);
  }

  /** Every received event is acknowledged at most once, and no acknowledgement is in excess. */
  lemma AcknowledgedAtMostOnce<V>(cfg: Setup<V>, states: seq<System<V>>, steps: seq<Step>, i: nat, j: nat, x: nat)
    requires Behaviour(cfg, states, steps) && i < |steps| && j < |steps|
    requires steps[i] == TaskDone(x) && steps[j] == TaskDone(x)
    ensures i == j && states[i].src.inFlight > 0
  {
    assert |states| == |steps| + 1;
    hide Behaviour, IsAcknowledged;
    TaskDoneAcknowledges(cfg, states, steps, i, x);
    TaskDoneAcknowledges(cfg, states, steps, j, x);
    if i < j {
      AcknowledgedStays(cfg, states, steps, i + 1, j, x);
    } else if j < i {
      AcknowledgedStays(cfg, states, steps, j + 1, i, x);
    }
  }

  /** Once nothing is left to do, every received event has been acknowledged. */
  lemma DrainedMeansAcknowledged<V>(cfg: Setup<V>, states: seq<System<V>>, steps: seq<Step>, n: nat)
    requires Behaviour(cfg, states, steps) && n < |states| && Quiescent(states[n])
    ensures states[n].src.inFlight == 0 && |states[n].src.delivered| == states[n].src.acknowledged
  {
    hide Behaviour, Linked, Ordered, Line, Accounted, InHands, Room, Published, Reflected, Balanced, Quiescent;
    RunIsGood(cfg, states, steps, n);
    NothingUnacknowledged(states[n]);
  }

  lemma NothingUnacknowledged<V>(s: System<V>)
    requires Quiescent(s) && Balanced(s)
    ensures s.src.inFlight == 0
  {
    assert Unacknowledged(s.owned) == {};
  }

  /** End to end: every additive quantity submitted to the source, such as the ticks of one dial, is
      executed, still on its way, or in an event dropped at a known place. */
  lemma EndToEndConservation<V>(cfg: Setup<V>, states: seq<System<V>>, steps: seq<Step>, n: nat, m: Event -> int)
    requires Behaviour(cfg, states, steps) && n < |states| && I.Additive(m)
    ensures var s, e := states[n], I.OfEntry(m);
      Sum(m, s.src.submitted) ==
        Sum(e, s.log) + Sum(e, Items(s.running)) + Sum(e, s.sched.pending) + Sum(e, s.pump.Carried())
        + Sum(e, s.stranded) + Sum(e, s.lost) + Sum(e, s.src.entries)
        + Sum(m, s.src.waiting) + Sum(m, s.src.evicted) + Sum(m, s.src.refused) + Sum(m, s.src.discarded)
  {
    var s, e := states[n], I.OfEntry(m);
    EveryStateIsGood(cfg, states, steps, n, m);
    SumUnordered(e, Received(s), s.src.delivered);
    var a := s.log + Items(s.running);
    var b := a + s.sched.pending;
    var c := b + s.pump.Carried();
    SumConcat(e, s.log, Items(s.running));
    SumConcat(e, a, s.sched.pending);
    SumConcat(e, b, s.pump.Carried());
    SumConcat(e, c, s.stranded);
    SumConcat(e, c + s.stranded, s.lost);
  }

  // ---- Termination -----------------------------------------------------------------------

  /** No reachable state is stuck before everything received has been finished and acknowledged. */
  lemma NoStall<V(!new)>(cfg: Setup<V>, states: seq<System<V>>, steps: seq<Step>, n: nat)
    requires Behaviour(cfg, states, steps) && n < |states|
    ensures Quiescent(states[n]) || Enabled(cfg, states[n])
  {
    RunIsGood(cfg, states, steps, n);
    NeverStalls(cfg, states[n]);
  }

  /** From any point of a run, at most Work internal steps follow before the environment must act. */
  lemma {:induction false} InternalStepsRunOut<V>(cfg: Setup<V>, states: seq<System<V>>, steps: seq<Step>, i: nat, j: nat)
    requires Behaviour(cfg, states, steps) && i <= j < |states|
    requires forall k :: i <= k < j ==> !steps[k].External()
    ensures j - i <= Work(cfg, states[i]) - Work(cfg, states[j])
    ensures j - i <= Work(cfg, states[i])
    decreases j
  {
    WorkIsBounded(cfg, states[j]);
    if i < j {
      InternalStepsRunOut(cfg, states, steps, i, j - 1);
      RunIsGood(cfg, states, steps, j - 1);
      StepWorks(cfg, states[j - 1], states[j], steps[j - 1]);
    }
  }
}
