/** No stall: whatever is left to do, some internal step can do it, and only finitely many are left. */
module PipelineProgress {
  import opened Sequences
  import opened Events
  import opened Handlers
  import opened S = SchedulerSpec
  import I = InboundSpec
  import opened Pipeline
  import opened PipelineAcks
  import opened PipelineBounds

  // ---- A callback publishes after its last access ----------------------------------------

  lemma RunStamp(running: seq<Running>, r: Running)
    requires r in running
    ensures r.item.stamp in Stamps(Items(running))
  {
    var i :| 0 <= i < |running| && running[i] == r;
    assert Items(running)[i] == r.item;
  }

  lemma RunsDistinct<V>(s: System<V>, i: nat, j: nat)
    requires Accounted(s) && i < |s.running| && j < |s.running| && i != j
    ensures s.running[i].item.stamp != s.running[j].item.stamp
  {
    var l := Received(s) + s.src.entries;
    assert l[|s.log| + i] == s.running[i].item && l[|s.log| + j] == s.running[j].item;
  }

  lemma DoneElsewhere<V>(cfg: Setup<V>, s: System<V>, s': System<V>, x: nat)
    requires Published(cfg, s) && s'.running == s.running && s'.done == s.done + {x}
    requires x !in Stamps(Items(s.running))
    ensures Published(cfg, s')
  {
    forall r <- s.running ensures r.item.stamp != x { RunStamp(s.running, r); }
  }

  lemma TakePublished<V>(cfg: Setup<V>, s: System<V>, s': System<V>, t: Thread, i: nat)
    requires InHands(s) && Published(cfg, s) && DoTake(cfg, s, s', t, i)
    ensures Published(cfg, s')
  {
    hide IsTake;
    StampAt(s.sched.pending, i);
    forall r <- s'.running ensures r in s.running || r == Running(t, s.sched.pending[i], 0) {
    }
  }

  lemma AccessPublished<V>(cfg: Setup<V>, s: System<V>, s': System<V>, r: nat)
    requires Published(cfg, s) && DoAccess(cfg, s, s', r)
    ensures Published(cfg, s')
  {
    forall q <- s'.running ensures q in s.running || q == s'.running[r] {
      var j :| 0 <= j < |s'.running| && s'.running[j] == q;
      assert j != r ==> q == s.running[j];
    }
    assert s.running[r] in s.running;
  }

  lemma PublishPublished<V>(cfg: Setup<V>, s: System<V>, s': System<V>, r: nat)
    requires Accounted(s) && Published(cfg, s) && DoPublish(cfg, s, s', r)
    ensures Published(cfg, s')
  {
    forall q <- s.running ensures q == s.running[r] || q.item.stamp != s.running[r].item.stamp {
      var j :| 0 <= j < |s.running| && s.running[j] == q;
      if j != r { RunsDistinct(s, j, r); }
    }
  }

  lemma FinishPublished<V>(cfg: Setup<V>, s: System<V>, s': System<V>, r: nat)
    requires Published(cfg, s) && DoFinish(cfg, s, s', r)
    ensures Published(cfg, s')
  {
    forall q <- s'.running ensures q in s.running {
      var j :| 0 <= j < |s'.running| && s'.running[j] == q;
      assert q == s.running[if j < r then j else j + 1];
    }
  }

  lemma TerminationPublished<V>(cfg: Setup<V>, s: System<V>, s': System<V>)
    requires Accounted(s) && InHands(s) && Published(cfg, s) && (DoSubmit(cfg, s, s') || DoAbandon(s, s'))
    ensures Published(cfg, s')
  {
    PartsAreDisjoint(s);
    hide Accounted;
    if s'.done != s.done {
      DoneElsewhere(cfg, s, s', s.pump.item.stamp);
    }
  }

  lemma StrandedPublished<V>(cfg: Setup<V>, s: System<V>, s': System<V>, i: nat)
    requires Accounted(s) && Published(cfg, s) && DoPublishStranded(s, s', i)
    ensures Published(cfg, s')
  {
    PartsAreDisjoint(s);
    StampAt(s.stranded, i);
    hide Accounted;
    DoneElsewhere(cfg, s, s', s.stranded[i].stamp);
  }

  lemma StepKeepsPublished<V>(cfg: Setup<V>, s: System<V>, s': System<V>, step: Step)
    requires Accounted(s) && InHands(s) && Published(cfg, s) && Next(cfg, s, s', step)
    ensures Published(cfg, s')
  {
    hide Accounted, InHands, Published, Terminated, Finish, Take;
    hide DoSubmit, DoTake, DoAccess, DoPublish, DoFinish, DoPublishStranded;
    match step
    case SubmitHeld => TerminationPublished(cfg, s, s');
    case AbandonHeld => TerminationPublished(cfg, s, s');
    case TakeWork(t, i) => TakePublished(cfg, s, s', t, i);
    case Access(r) => AccessPublished(cfg, s, s', r);
    case Publish(r) => PublishPublished(cfg, s, s', r);
    case FinishWork(r) => FinishPublished(cfg, s, s', r);
    case PublishStranded(i) => StrandedPublished(cfg, s, s', i);
    case _ => SamePublished(cfg, s, s');
  }

  lemma SamePublished<V>(cfg: Setup<V>, s: System<V>, s': System<V>)
    requires Published(cfg, s) && s'.running == s.running && s'.done == s.done
    ensures Published(cfg, s')
  {
  }

  // ---- Something can always be done ------------------------------------------------------

  ghost predicate Quiescent<V>(s: System<V>) {
    && s.pump.Idle? && s.running == [] && s.sched.pending == [] && s.stranded == []
    && (forall x <- s.owned :: s.owned[x] == Released)
    && (s.src.entries == [] || s.stopRequested)
  }

  ghost predicate Enabled<V(!new)>(cfg: Setup<V>, s: System<V>) {
    exists step: Step, s': System<V> :: !step.External() && Next(cfg, s, s', step)
  }

  /** A finished completion is one step of its callback away from being released, or already is. */
  lemma CallbackAdvances<V(!new)>(cfg: Setup<V>, s: System<V>, x: nat)
    requires x in s.owned && x in s.done && (x in s.attached || (s.pump.Acking? && s.pump.item.stamp == x))
    ensures s.owned[x] == Released || Enabled(cfg, s)
  {
    match s.owned[x]
    case Held => assert Next(cfg, s, s.(owned := s.owned[x := Marked]), Mark(x));
    case Marked => assert Next(cfg, s, s.(owned := s.owned[x := Acknowledged], src := I.TaskDone(s.src)), TaskDone(x));
    case Acknowledged => assert Next(cfg, s, s.(owned := s.owned[x := Released]), Release(x));
    case Released =>
  }

  /** A held event was selected because it fits, so its submission never waits. */
  lemma HeldAdvances<V(!new)>(cfg: Setup<V>, s: System<V>)
    requires Room(cfg, s) && s.pump.Holding?
    ensures Enabled(cfg, s)
  {
    hide Submit, WithinBudgets, Terminated;
    var w, t := s.pump.item, s.(sched := Submit(cfg.sched, s.sched, s.pump.item));
    assert AdmissionOf(cfg.sched, s.sched, w) != MustWait;
    var s' := if AdmissionOf(cfg.sched, s.sched, w) == Admitted then t.(pump := Registering(w)) else Terminated(t, w);
    assert Next(cfg, s, s', SubmitHeld);
  }

  lemma PumpAdvances<V(!new)>(cfg: Setup<V>, s: System<V>)
    requires InHands(s) && Room(cfg, s) && !s.pump.Idle?
    ensures Enabled(cfg, s)
  {
    hide Room, PartsOf, Staged, Parts.Kept;
    var w := s.pump.item;
    match s.pump
    case Holding(_) =>
      HeldAdvances(cfg, s);
    case Registering(_) =>
      assert Next(cfg, s, if w.stamp in s.done then s.(pump := Acking(w)) else s.(pump := Idle, attached := s.attached + {w.stamp}), Register);
    case Acking(_) =>
      CallbackAdvances(cfg, s, w.stamp);
      if s.owned[w.stamp] == Released {
        assert Next(cfg, s, s.(pump := Idle), LeaveAcking);
      }
  }

  lemma FinishEnabled<V(!new)>(cfg: Setup<V>, s: System<V>, r: nat)
    requires r < |s.running| && CallbackReturned(s, s.running[r].item.stamp)
    requires s.running[r].pc == cfg.handlers.length(s.running[r].item.event) && s.running[r].thread in s.sched.active
    ensures Enabled(cfg, s)
  {
    var run := s.running[r];
    var s' := s.(sched := Finish(s.sched, run.thread), running := RemoveAt(s.running, r), log := s.log + [run.item]);
    assert Next(cfg, s, s', FinishWork(r));
  }

  lemma UnpublishedAdvances<V(!new)>(cfg: Setup<V>, s: System<V>, r: nat)
    requires r < |s.running| && s.running[r].item.stamp !in s.done
    requires s.running[r].pc <= cfg.handlers.length(s.running[r].item.event)
    ensures Enabled(cfg, s)
  {
    var run := s.running[r];
    if run.pc < cfg.handlers.length(run.item.event) {
      var s' := s.(running := s.running[r := run.(pc := run.pc + 1)], store := cfg.handlers.Access(run.item.event, run.pc, s.store));
      assert Next(cfg, s, s', Access(r));
    } else {
      assert Next(cfg, s, s.(done := s.done + {run.item.stamp}), Publish(r));
    }
  }

  lemma RunningAdvances<V(!new)>(cfg: Setup<V>, s: System<V>)
    requires Linked(cfg, s) && InHands(s) && Published(cfg, s) && s.running != []
    ensures Enabled(cfg, s)
  {
    var x := s.running[0].item.stamp;
    assert s.running[0] in s.running;
    assert s.running[0].thread in s.sched.active;
    hide Linked, Enabled;
    if x !in s.done {
      UnpublishedAdvances(cfg, s, 0);
    } else {
      if x in s.attached {
        CallbackAdvances(cfg, s, x);
      }
      if x !in s.attached || s.owned[x] == Released {
        FinishEnabled(cfg, s, 0);
      }
    }
  }

  lemma StrandedIsOwned<V>(s: System<V>)
    requires InHands(s) && s.stranded != []
    ensures s.stranded[0].stamp in s.owned
  {
    StampAt(s.stranded, 0);
    hide Covered, Stamps;
  }

  lemma StrandedAdvance<V(!new)>(cfg: Setup<V>, s: System<V>)
    requires InHands(s) && s.stranded != []
    ensures Enabled(cfg, s)
  {
    hide InHands, Terminalize, RemoveAt;
    var w := s.stranded[0];
    StrandedIsOwned(s);
    if w.stamp !in s.done {
      assert Next(cfg, s, s.(done := s.done + {w.stamp}), PublishStranded(0));
    } else {
      if w.stamp in s.attached {
        CallbackAdvances(cfg, s, w.stamp);
      }
      if w.stamp !in s.attached || s.owned[w.stamp] == Released {
        assert Next(cfg, s, s.(sched := Terminalize(s.sched), stranded := RemoveAt(s.stranded, 0), lost := s.lost + [w]), ReleaseStranded(0));
      }
    }
  }

  lemma PendingAdvances<V(!new)>(cfg: Setup<V>, s: System<V>)
    requires Linked(cfg, s) && s.running == [] && s.sched.pending != []
    ensures Enabled(cfg, s)
  {
    FirstIsTakeable(cfg, s);
    hide Linked, IsTake, Take;
    assert Next(cfg, s, s.(sched := Take(s.sched, 0, 0), running := s.running + [Running(0, s.sched.pending[0], 0)]), TakeWork(0, 0));
  }

  lemma FirstIsTakeable<V>(cfg: Setup<V>, s: System<V>)
    requires Linked(cfg, s) && s.running == [] && s.sched.pending != []
    ensures s.sched.active == map[] && IsTake(s.sched, Some(0)) && 0 < cfg.sched.workers
    ensures s.sched.pending[0].event.Key().Some? ==> s.sched.pending[0].event.Key().value in s.sched.pendingByContext
  {
    assert s.sched.active == map[];
    if !s.sched.pending[0].event.IsBarrier() && s.sched.pending[0].event.context in s.sched.activeContexts {
      assert false;
    }
    assert Takeable(s.sched, 0);
    CountsDropped(s.sched.pendingByContext, s.sched.pending, 0);
  }

  /** An idle scheduler admits the source head whatever its size. */
  lemma IdleSchedulerSelectsHead(cfg: S.Config, s: Scheduler, source: seq<SizedEvent>)
    requires S.Inv(cfg, s) && s.started && s.pending == [] && s.active == map[] && source != []
    ensures IsSelection(cfg, s, source, Index(0))
  {
    assert s.accepting ==> Selectable(cfg, s, source, 0);
  }

  lemma SourceAdvances<V(!new)>(cfg: Setup<V>, s: System<V>)
    requires Linked(cfg, s) && s.running == [] && s.sched.pending == [] && s.pump.Idle?
    requires s.src.entries != [] && !s.stopRequested
    ensures Enabled(cfg, s)
  {
    assert s.sched.active == map[];
    IdleSchedulerSelectsHead(cfg.sched, s.sched, s.src.entries);
    var w := s.src.entries[0];
    assert Next(cfg, s, s.(src := I.Receive(s.src, 0), pump := Holding(w), owned := s.owned[w.stamp := Held]), Select(0));
  }

  /** In every state some internal step is possible, unless everything received has been released. */
  lemma NeverStalls<V(!new)>(cfg: Setup<V>, s: System<V>)
    requires Linked(cfg, s) && InHands(s) && Room(cfg, s) && Published(cfg, s)
    ensures Quiescent(s) || Enabled(cfg, s)
  {
    if !s.pump.Idle? {
      PumpAdvances(cfg, s);
    } else if s.running != [] {
      RunningAdvances(cfg, s);
    } else if s.stranded != [] {
      StrandedAdvance(cfg, s);
    } else if s.sched.pending != [] {
      PendingAdvances(cfg, s);
    } else if s.src.entries != [] && !s.stopRequested {
      SourceAdvances(cfg, s);
    } else if x :| x in s.owned && s.owned[x] != Released {
      CallbackAdvances(cfg, s, x);
    }
  }

  // ---- Only finitely many internal steps are left ----------------------------------------

  function QueuedWork<V>(h: Handlers<V>): SizedEvent -> int {
    (e: SizedEvent) => h.length(e.event) + 12
  }

  function PendingWork<V>(h: Handlers<V>): SizedEvent -> int {
    (e: SizedEvent) => h.length(e.event) + 3
  }

  function RunningWork<V>(h: Handlers<V>): Running -> int {
    (r: Running) => if r.pc <= h.length(r.item.event) then h.length(r.item.event) - r.pc + 1 else 1
  }

  function PumpWork<V>(h: Handlers<V>, p: Pump): int {
    match p
    case Idle => 0
    case Holding(w) => h.length(w.event) + 6
    case Registering(_) => 2
    case Acking(_) => 1
  }

  function AckWork(owned: map<nat, Phase>): int {
    3 * |InPhase(owned, Held)| + 2 * |InPhase(owned, Marked)| + |InPhase(owned, Acknowledged)|
  }

  /** A bound on the internal steps still to come. */
  function Work<V>(cfg: Setup<V>, s: System<V>): int {
    Sum(QueuedWork(cfg.handlers), s.src.entries) + PumpWork(cfg.handlers, s.pump)
    + Sum(PendingWork(cfg.handlers), s.sched.pending) + Sum(RunningWork(cfg.handlers), s.running)
    + |s.stranded| + |s.owned.Keys - s.done| + AckWork(s.owned)
  }

  lemma WorkIsBounded<V>(cfg: Setup<V>, s: System<V>)
    ensures 0 <= Work(cfg, s)
  {
    var h := cfg.handlers;
    forall x <- s.src.entries ensures 0 <= QueuedWork(h)(x) { var n: nat := h.length(x.event); }
    forall x <- s.sched.pending ensures 0 <= PendingWork(h)(x) { var n: nat := h.length(x.event); }
    SumBounds(QueuedWork(h), s.src.entries);
    SumBounds(PendingWork(h), s.sched.pending);
    SumBounds(RunningWork(h), s.running);
    assert s.pump.Holding? ==> 0 <= PumpWork(h, s.pump) by {
      if s.pump.Holding? { var n: nat := h.length(s.pump.item.event); }
    }
  }

  lemma UnfinishedShrinks(keys: set<nat>, done: set<nat>, x: nat)
    requires x in keys && x !in done
    ensures |keys - (done + {x})| == |keys - done| - 1
  {
    assert keys - done == (keys - (done + {x})) + {x};
  }

  lemma AckWorkShrinks(owned: map<nat, Phase>, x: nat, p: Phase)
    requires x in owned
    requires match owned[x] case Held => p == Marked case Marked => p == Acknowledged case Acknowledged => p == Released case Released => false
    ensures AckWork(owned[x := p]) < AckWork(owned)
    ensures owned[x := p].Keys == owned.Keys
  {
    PhaseMoves(owned, x, p);
  }

  lemma AckWorkEntered(owned: map<nat, Phase>, x: nat)
    requires x !in owned
    ensures AckWork(owned[x := Held]) == AckWork(owned) + 3
    ensures owned[x := Held].Keys == owned.Keys + {x}
  {
    PhaseEntered(owned, x, Held);
  }

  lemma SelectWorks<V>(cfg: Setup<V>, s: System<V>, s': System<V>, k: nat)
    requires Accounted(s) && InHands(s) && DoSelect(cfg, s, s', k)
    ensures Work(cfg, s') < Work(cfg, s)
  {
    hide Accounted, InHands, IsSelection, AckWork, Sum, RemoveAt, QueuedWork, PumpWork;
    var w := s.src.entries[k];
    SelectedIsFresh(s, k);
    SumRemoveAt(QueuedWork(cfg.handlers), s.src.entries, k);
    AckWorkEntered(s.owned, w.stamp);
    OneMoreUnfinished(s.owned.Keys, s.done, w.stamp);
    SelectionCosts(cfg.handlers, w);
  }

  lemma SelectionCosts<V>(h: Handlers<V>, w: SizedEvent)
    ensures QueuedWork(h)(w) == PumpWork(h, Holding(w)) + 6 && PumpWork(h, Idle) == 0
  {
  }

  lemma OneMoreUnfinished(keys: set<nat>, done: set<nat>, x: nat)
    requires x !in keys && x !in done
    ensures |keys + {x} - done| == |keys - done| + 1
  {
    assert keys + {x} - done == (keys - done) + {x};
  }

  lemma HeldIsUnfinished<V>(s: System<V>)
    requires InHands(s) && s.pump.Holding?
    ensures s.pump.item.stamp in s.owned && s.pump.item.stamp !in s.done
  {
    hide PartsOf, Staged, Parts.Kept;
  }

  lemma SubmissionCosts<V>(h: Handlers<V>, w: SizedEvent)
    ensures PendingWork(h)(w) + PumpWork(h, Registering(w)) < PumpWork(h, Holding(w))
    ensures PumpWork(h, Registering(w)) <= PumpWork(h, Holding(w))
  {
  }

  lemma TerminationWorks<V>(cfg: Setup<V>, s: System<V>, w: SizedEvent)
    requires w.stamp in s.owned && w.stamp !in s.done && s.pump == Holding(w)
    ensures Work(cfg, Terminated(s, w)) < Work(cfg, s)
  {
    hide Sum, AckWork, PumpWork, QueuedWork, PendingWork, RunningWork;
    UnfinishedShrinks(s.owned.Keys, s.done, w.stamp);
    SubmissionCosts(cfg.handlers, w);
  }

  lemma AdmissionWorks<V>(cfg: Setup<V>, s: System<V>, w: SizedEvent)
    requires s.pump == Holding(w) && AdmissionOf(cfg.sched, s.sched, w) == Admitted
    ensures Work(cfg, s.(sched := Submit(cfg.sched, s.sched, w), pump := Registering(w))) < Work(cfg, s)
  {
    hide Sum, AckWork, PumpWork, QueuedWork, PendingWork, RunningWork, AdmissionOf, Added;
    SumAppend(PendingWork(cfg.handlers), s.sched.pending, w);
    SubmissionCosts(cfg.handlers, w);
  }

  lemma RefusalKeepsWork<V>(cfg: Setup<V>, s: System<V>, w: SizedEvent)
    requires AdmissionOf(cfg.sched, s.sched, w) != Admitted
    ensures Work(cfg, s.(sched := Submit(cfg.sched, s.sched, w))) == Work(cfg, s)
  {
    assert Submit(cfg.sched, s.sched, w).pending == s.sched.pending;
    hide Submit, Sum, AckWork, PumpWork, QueuedWork, PendingWork, RunningWork, AdmissionOf;
  }

  lemma SubmitWorks<V>(cfg: Setup<V>, s: System<V>, s': System<V>)
    requires InHands(s) && DoSubmit(cfg, s, s')
    ensures Work(cfg, s') < Work(cfg, s)
  {
    hide Work, InHands, Submit, AdmissionOf, Terminated;
    var w, t := s.pump.item, s.(sched := Submit(cfg.sched, s.sched, s.pump.item));
    HeldIsUnfinished(s);
    if AdmissionOf(cfg.sched, s.sched, w) == Admitted {
      AdmissionWorks(cfg, s, w);
    } else {
      RefusalKeepsWork(cfg, s, w);
      TerminationWorks(cfg, t, w);
    }
  }

  lemma TakeWorks<V>(cfg: Setup<V>, s: System<V>, s': System<V>, t: Thread, i: nat)
    requires DoTake(cfg, s, s', t, i)
    ensures Work(cfg, s') < Work(cfg, s)
  {
    hide IsTake, Sum, AckWork, PumpWork, QueuedWork;
    SumRemoveAt(PendingWork(cfg.handlers), s.sched.pending, i);
    SumAppend(RunningWork(cfg.handlers), s.running, Running(t, s.sched.pending[i], 0));
    var n: nat := cfg.handlers.length(s.sched.pending[i].event);
  }

  lemma AccessWorks<V>(cfg: Setup<V>, s: System<V>, s': System<V>, r: nat)
    requires DoAccess(cfg, s, s', r)
    ensures Work(cfg, s') < Work(cfg, s)
  {
    hide Sum, AckWork, PumpWork, QueuedWork, PendingWork;
    SumUpdate(RunningWork(cfg.handlers), s.running, r, s'.running[r]);
  }

  lemma PublishWorks<V>(cfg: Setup<V>, s: System<V>, s': System<V>, r: nat)
    requires InHands(s) && DoPublish(cfg, s, s', r)
    ensures Work(cfg, s') < Work(cfg, s)
  {
    hide Sum, AckWork, PumpWork, QueuedWork, PendingWork, RunningWork;
    RunStamp(s.running, s.running[r]);
    UnfinishedShrinks(s.owned.Keys, s.done, s.running[r].item.stamp);
  }

  lemma FinishWorks<V>(cfg: Setup<V>, s: System<V>, s': System<V>, r: nat)
    requires DoFinish(cfg, s, s', r)
    ensures Work(cfg, s') < Work(cfg, s)
  {
    hide Sum, AckWork, PumpWork, QueuedWork, PendingWork;
    SumRemoveAt(RunningWork(cfg.handlers), s.running, r);
  }

  lemma StrandedWorks<V>(cfg: Setup<V>, s: System<V>, s': System<V>, i: nat)
    requires InHands(s) && (DoPublishStranded(s, s', i) || DoReleaseStranded(s, s', i))
    ensures Work(cfg, s') < Work(cfg, s)
  {
    StampAt(s.stranded, i);
    if DoPublishStranded(s, s', i) {
      UnfinishedShrinks(s.owned.Keys, s.done, s.stranded[i].stamp);
    }
  }

  lemma PhaseWorks<V>(cfg: Setup<V>, s: System<V>, s': System<V>, x: nat)
    requires DoMark(s, s', x) || DoTaskDone(s, s', x) || DoRelease(s, s', x)
    ensures Work(cfg, s') < Work(cfg, s)
  {
    AckWorkShrinks(s.owned, x, s'.owned[x]);
  }

  lemma StepWorks<V>(cfg: Setup<V>, s: System<V>, s': System<V>, step: Step)
    requires Accounted(s) && InHands(s) && Next(cfg, s, s', step) && !step.External()
    ensures Work(cfg, s') < Work(cfg, s)
  {
    hide Accounted, InHands, Work, Terminated;
    hide DoSource, DoSelect, DoSubmit, DoRegister, DoLeaveAcking, DoMark, DoTaskDone, DoRelease, DoTake, DoAccess;
    hide DoPublish, DoFinish, DoDiscard, DoPublishStranded, DoReleaseStranded;
    match step
    case Select(k) => SelectWorks(cfg, s, s', k);
    case SubmitHeld => SubmitWorks(cfg, s, s');
    case AbandonHeld =>
      HeldIsUnfinished(s);
      TerminationWorks(cfg, s, s.pump.item);
    case Register => PumpWorks(cfg, s, s');
    case LeaveAcking => PumpWorks(cfg, s, s');
    case Mark(x) => PhaseWorks(cfg, s, s', x);
    case TaskDone(x) => PhaseWorks(cfg, s, s', x);
    case Release(x) => PhaseWorks(cfg, s, s', x);
    case TakeWork(t, i) => TakeWorks(cfg, s, s', t, i);
    case Access(r) => AccessWorks(cfg, s, s', r);
    case Publish(r) => PublishWorks(cfg, s, s', r);
    case FinishWork(r) => FinishWorks(cfg, s, s', r);
    case PublishStranded(i) => StrandedWorks(cfg, s, s', i);
    case ReleaseStranded(i) => StrandedWorks(cfg, s, s', i);
    case _ =>
  }

  lemma PumpMoves<V>(cfg: Setup<V>, s: System<V>, p: Pump, attached: set<nat>)
    ensures Work(cfg, s.(pump := p, attached := attached)) == Work(cfg, s) - PumpWork(cfg.handlers, s.pump) + PumpWork(cfg.handlers, p)
  {
    hide PumpWork, Sum, AckWork, QueuedWork, PendingWork, RunningWork;
  }

  lemma PumpWorks<V>(cfg: Setup<V>, s: System<V>, s': System<V>)
    requires DoRegister(s, s') || DoLeaveAcking(s, s')
    ensures Work(cfg, s') < Work(cfg, s)
  {
    hide Work;
    PumpMoves(cfg, s, s'.pump, s'.attached);
    assert s' == s.(pump := s'.pump, attached := s'.attached);
  }

  // ---- After the source stopped, the environment makes no more work ------------------------

  lemma {:induction false} SumOfSome(m: SizedEvent -> int, works: seq<SizedEvent>)
    requires forall w <- works :: 1 <= m(w)
    ensures |works| <= Sum(m, works)
  {
    if works != [] {
      assert works == [works[0]] + works[1..];
      SumOfSome(m, works[1..]);
    }
  }

  lemma ClosedSourceNeedsNoWork<V>(cfg: Setup<V>, s: System<V>, s': System<V>, step: I.Step)
    requires DoSource(cfg, s, s', step) && !s.src.accepting
    ensures Work(cfg, s') <= Work(cfg, s)
  {
    forall w <- s.src.entries ensures 1 <= QueuedWork(cfg.handlers)(w) { var n: nat := cfg.handlers.length(w.event); }
    SumOfSome(QueuedWork(cfg.handlers), s.src.entries);
  }

  lemma DiscardNeedsNoWork<V>(cfg: Setup<V>, s: System<V>, s': System<V>)
    requires DoDiscard(s, s')
    ensures Work(cfg, s') <= Work(cfg, s)
  {
    forall w <- s.sched.pending ensures 1 <= PendingWork(cfg.handlers)(w) { var n: nat := cfg.handlers.length(w.event); }
    SumOfSome(PendingWork(cfg.handlers), s.sched.pending);
  }
}
