/** Retention: how much the pipeline holds, and why a selected event never waits for the scheduler. */
module PipelineBounds {
  import opened Sequences
  import opened Events
  import opened S = SchedulerSpec
  import I = InboundSpec
  import opened Pipeline
  import opened PipelineAcks

  /** The pump's event was selected with room for it, and works finishing since only made more. */
  ghost predicate HandoffFits(cfg: S.Config, s: Scheduler, w: SizedEvent) {
    s.accepting ==>
      && AdmissionOf(cfg, s, w) != MustWait
      && (!w.event.IsBarrier() ==> ContextWork(s, w.event.context) < cfg.ContextLimit())
  }

  ghost predicate WithinBudgets(cfg: S.Config, s: Scheduler) {
    forall c :: ContextWork(s, c) <= cfg.ContextLimit()
  }

  ghost predicate Room<V>(cfg: Setup<V>, s: System<V>) {
    && |s.sched.pending| + |s.stranded| <= cfg.sched.pendingLimit
    && WithinBudgets(cfg.sched, s.sched)
    && (s.pump.Holding? ==> HandoffFits(cfg.sched, s.sched, s.pump.item))
  }

  lemma SelectionFits(cfg: S.Config, s: Scheduler, source: seq<SizedEvent>, k: nat)
    requires s.started && k < |source| && IsSelection(cfg, s, source, Index(k))
    ensures HandoffFits(cfg, s, source[k])
  {
  }

  lemma TakeKeepsRoom<V>(cfg: Setup<V>, s: System<V>, s': System<V>, t: Thread, i: nat)
    requires Linked(cfg, s) && Room(cfg, s) && DoTake(cfg, s, s', t, i)
    ensures Room(cfg, s')
  {
    assert Takeable(s.sched, i);
    hide S.Inv, IsTake, Takeable, ContextWork, Take;
    forall c ensures ContextWork(s'.sched, c) == ContextWork(s.sched, c) {
      TakeKeepsContextWork(cfg.sched, s.sched, t, i, c);
    }
    TakeShrinks(s.sched, t, i);
  }

  lemma TakeShrinks(s: Scheduler, t: Thread, i: nat)
    requires i < |s.pending|
    requires s.pending[i].event.Key().Some? ==> s.pending[i].event.Key().value in s.pendingByContext
    ensures var r := Take(s, t, i);
      && |r.pending| == |s.pending| - 1 && r.pendingBytes < s.pendingBytes
      && r.accepting == s.accepting && r.started == s.started
  {
  }

  lemma FinishKeepsRoom<V>(cfg: Setup<V>, s: System<V>, s': System<V>, r: nat)
    requires Linked(cfg, s) && Room(cfg, s) && DoFinish(cfg, s, s', r)
    ensures Room(cfg, s')
  {
    hide S.Inv, ContextWork;
    forall c ensures ContextWork(s'.sched, c) <= ContextWork(s.sched, c) {
      FinishLowersContextWork(cfg.sched, s.sched, s.running[r].thread, c);
    }
  }

  lemma DiscardKeepsRoom<V>(cfg: Setup<V>, s: System<V>, s': System<V>)
    requires Linked(cfg, s) && Room(cfg, s) && DoDiscard(s, s')
    ensures Room(cfg, s')
  {
    hide S.Inv, ContextWork;
    forall c ensures ContextWork(s'.sched, c) <= ContextWork(s.sched, c) {
      DiscardLowersContextWork(cfg.sched, s.sched, c);
    }
  }

  lemma SubmitKeepsRoom<V>(cfg: Setup<V>, s: System<V>, s': System<V>)
    requires Linked(cfg, s) && Room(cfg, s) && DoSubmit(cfg, s, s')
    ensures Room(cfg, s')
  {
    assert s.sched.accepting ==> s.stranded == [];
    assert |Submit(cfg.sched, s.sched, s.pump.item).pending| <= cfg.sched.pendingLimit by {
      SubmitKeepsInv(cfg.sched, s.sched, s.pump.item);
    }
    hide S.Inv, ContextWork;
    forall c ensures ContextWork(s'.sched, c) <= cfg.sched.ContextLimit() {
      SubmitRaisesContextWork(cfg.sched, s.sched, s.pump.item, c);
    }
  }

  lemma OthersKeepRoom<V>(cfg: Setup<V>, s: System<V>, s': System<V>, step: Step)
    requires Room(cfg, s) && Next(cfg, s, s', step)
    requires !step.Select? && !step.SubmitHeld? && !step.TakeWork? && !step.FinishWork? && !step.Discard?
    ensures Room(cfg, s')
  {
    OthersKeepScheduler(cfg, s, s', step);
    hide Next;
    assert forall c :: ContextWork(s'.sched, c) == ContextWork(s.sched, c);
  }

  lemma OthersKeepScheduler<V>(cfg: Setup<V>, s: System<V>, s': System<V>, step: Step)
    requires Next(cfg, s, s', step)
    requires !step.Select? && !step.SubmitHeld? && !step.TakeWork? && !step.FinishWork? && !step.Discard?
    ensures s'.sched.pending == s.sched.pending && s'.sched.pendingBytes == s.sched.pendingBytes && s'.sched.started == s.sched.started
    ensures s'.sched.pendingByContext == s.sched.pendingByContext && s'.sched.activeContexts == s.sched.activeContexts
    ensures s'.sched.accepting ==> s.sched.accepting
    ensures |s'.stranded| <= |s.stranded| && (s'.pump == s.pump || !s'.pump.Holding?)
  {
    hide I.Next, DoSelect, DoSubmit, DoTake, DoFinish, DoDiscard, RemoveAt;
    if step.ReleaseStranded? {
      OneFewer(s.stranded, step.i);
    }
  }

  lemma OneFewer(works: seq<SizedEvent>, i: nat)
    ensures i < |works| ==> |RemoveAt(works, i)| == |works| - 1
  {
  }

  lemma StepKeepsRoom<V>(cfg: Setup<V>, s: System<V>, s': System<V>, step: Step)
    requires Linked(cfg, s) && Room(cfg, s) && Next(cfg, s, s', step)
    ensures Room(cfg, s')
  {
    hide Room, Linked, DoSelect, DoSubmit, DoTake, DoFinish, DoDiscard;
    match step
    case Select(k) => SelectKeepsRoom(cfg, s, s', k);
    case SubmitHeld => SubmitKeepsRoom(cfg, s, s');
    case TakeWork(t, i) => TakeKeepsRoom(cfg, s, s', t, i);
    case FinishWork(r) => FinishKeepsRoom(cfg, s, s', r);
    case Discard => DiscardKeepsRoom(cfg, s, s');
    case _ => OthersKeepRoom(cfg, s, s', step);
  }

  lemma SelectKeepsRoom<V>(cfg: Setup<V>, s: System<V>, s': System<V>, k: nat)
    requires Linked(cfg, s) && Room(cfg, s) && DoSelect(cfg, s, s', k)
    ensures Room(cfg, s')
  {
    SelectionFits(cfg.sched, s.sched, s.src.entries, k);
  }

  // ---- The bound -------------------------------------------------------------------------

  lemma {:induction false} StampsCardinality(es: seq<SizedEvent>)
    ensures |Stamps(es)| <= |es|
  {
    if es != [] {
      StampsCardinality(es[1..]);
      assert es == [es[0]] + es[1..];
      StampsConcat([es[0]], es[1..]);
      assert Stamps(es) == Stamps(es[1..]) + {es[0].stamp};
    }
  }

  lemma SubsetCardinality(a: set<nat>, b: set<nat>)
    requires a <= b
    ensures |a| <= |b|
  {
    assert b == a + (b - a);
  }

  /** Received events not yet acknowledged: pending, running, and one in the pump's hands. */
  lemma UnacknowledgedAreRetained<V>(cfg: Setup<V>, s: System<V>)
    requires Linked(cfg, s) && InHands(s) && Balanced(s) && Room(cfg, s)
    ensures s.src.inFlight <= cfg.sched.pendingLimit + cfg.sched.workers + 1
    ensures s.src.inFlight <= |s.sched.pending| + |s.stranded| + |s.running| + if s.pump.Idle? then 0 else 1
  {
    var held := if s.pump.Idle? then {} else {s.pump.item.stamp};
    ActiveWithinPool(cfg.sched, s.sched);
    hide S.Inv, WithinBudgets, HandoffFits, IsSelection;
    assert |s.running| == |s.sched.active|;
    hide RunsActive;
    UnacknowledgedAreKept(s);
    SubsetCardinality(Unacknowledged(s.owned), PartsOf(s).Kept() + held);
    KeptCardinality(s, held);
    hide InHands, Parts.Kept;
  }

  lemma UnacknowledgedAreKept<V>(s: System<V>)
    requires InHands(s)
    ensures Unacknowledged(s.owned) <= PartsOf(s).Kept() + if s.pump.Idle? then {} else {s.pump.item.stamp}
  {
    hide Staged, Stamps;
  }

  lemma KeptCardinality<V>(s: System<V>, held: set<nat>)
    ensures |PartsOf(s).Kept() + held| <= |s.sched.pending| + |s.stranded| + |s.running| + |held|
  {
    StampsCardinality(s.sched.pending);
    StampsCardinality(s.stranded);
    StampsCardinality(Items(s.running));
    hide Stamps;
    var p := PartsOf(s);
    UnionCardinality(p.running, p.pending);
    UnionCardinality(p.running + p.pending, p.stranded);
    UnionCardinality(p.Kept(), held);
  }

  lemma UnionCardinality(a: set<nat>, b: set<nat>)
    ensures |a + b| <= |a| + |b|
  {
    assert a + b == a + (b - a);
    SubsetCardinality(b - a, b);
  }
}
