/** Ownership through the pipeline: acknowledgement, retention and context budgets. */
module PipelineAcks {
  import opened Sequences
  import opened Events
  import opened Handlers
  import opened S = SchedulerSpec
  import opened Pipeline

  // ---- Acknowledgement -------------------------------------------------------------------

  function InPhase(owned: map<nat, Phase>, p: Phase): set<nat> {
    set x | x in owned && owned[x] == p
  }

  function Unacknowledged(owned: map<nat, Phase>): set<nat> {
    InPhase(owned, Held) + InPhase(owned, Marked)
  }

  function Stamps(es: seq<SizedEvent>): set<nat> {
    set e | e in es :: e.stamp
  }

  /** The stamps of the received events, by where the event is. */
  datatype Parts = Parts(log: set<nat>, running: set<nat>, pending: set<nat>, carried: set<nat>, stranded: set<nat>, lost: set<nat>)
  {
    function All(): set<nat> { log + running + pending + carried + stranded + lost }

    /** Those the scheduler still answers for. */
    function Kept(): set<nat> { running + pending + stranded }

    ghost predicate Disjoint() {
      && log !! running && (log + running) !! pending
      && (log + running + pending) !! carried
      && (log + running + pending + carried) !! stranded
      && (log + running + pending + carried + stranded) !! lost
    }
  }

  function PartsOf<V>(s: System<V>): Parts {
    Parts(Stamps(s.log), Stamps(Items(s.running)), Stamps(s.sched.pending), Stamps(s.pump.Carried()),
          Stamps(s.stranded), Stamps(s.lost))
  }

  /** Which completions are finished, event by event. */
  ghost predicate Staged(p: Parts, owned: map<nat, Phase>, attached: set<nat>, done: set<nat>) {
    && owned.Keys == p.All()
    && done <= owned.Keys && attached <= owned.Keys
    && p.pending !! done
    && (forall x <- owned :: owned[x] != Held ==> x in done)
  }

  /** Whoever must still acknowledge an event keeps hold of it. */
  ghost predicate Covered(p: Parts, pump: Pump, owned: map<nat, Phase>, attached: set<nat>, done: set<nat>) {
    && (pump.Holding? ==> p.carried == {pump.item.stamp} && p.carried !! done && p.carried !! attached)
    && (!pump.Holding? ==> p.carried == {})
    && (!pump.Idle? ==> pump.item.stamp in owned)
    && (pump.Registering? && pump.item.stamp !in done ==> pump.item.stamp in p.Kept())
    && (pump.Acking? ==> pump.item.stamp in done)
    && (forall x <- owned :: owned[x] == Held || owned[x] == Marked ==> pump.Has(x) || x in p.Kept())
    && (forall x <- owned :: x in attached || owned[x] == Released || pump.Has(x))
  }

  ghost predicate InHands<V>(s: System<V>) {
    && Staged(PartsOf(s), s.owned, s.attached, s.done)
    && Covered(PartsOf(s), s.pump, s.owned, s.attached, s.done)
  }

  /** A callback is published once it has made all its accesses. */
  ghost predicate Published<V>(cfg: Setup<V>, s: System<V>) {
    forall r <- s.running ::
      && r.pc <= cfg.handlers.length(r.item.event)
      && (r.item.stamp in s.done ==> r.pc == cfg.handlers.length(r.item.event))
  }

  ghost predicate Balanced<V>(s: System<V>) {
    s.src.inFlight == |Unacknowledged(s.owned)|
  }

  lemma StampAt(es: seq<SizedEvent>, i: nat)
    requires i < |es|
    ensures es[i].stamp in Stamps(es)
  {
  }

  /** Two positions of a distinct listing, or one in each of its parts, carry different stamps. */
  lemma PartsDiffer(a: seq<SizedEvent>, b: seq<SizedEvent>)
    requires Distinct(a + b)
    ensures Stamps(a) !! Stamps(b)
  {
    forall x <- a, y <- b ensures x.stamp != y.stamp {
      var i :| 0 <= i < |a| && a[i] == x;
      var j :| 0 <= j < |b| && b[j] == y;
      assert (a + b)[i] == x && (a + b)[|a| + j] == y;
    }
  }

  lemma StampsConcat(a: seq<SizedEvent>, b: seq<SizedEvent>)
    ensures Stamps(a + b) == Stamps(a) + Stamps(b)
  {
    assert forall e :: e in a + b <==> e in a || e in b;
  }

  lemma StampsRemoved(q: seq<SizedEvent>, i: nat)
    requires i < |q|
    ensures Stamps(q) == Stamps(RemoveAt(q, i)) + {q[i].stamp}
  {
    assert q == q[..i] + [q[i]] + q[i + 1..];
    StampsConcat(q[..i] + [q[i]], q[i + 1..]);
    StampsConcat(q[..i], [q[i]]);
    StampsConcat(q[..i], q[i + 1..]);
  }

  lemma DistinctPrefix(a: seq<SizedEvent>, b: seq<SizedEvent>)
    requires Distinct(a + b)
    ensures Distinct(a) && Distinct(b) && Stamps(a) !! Stamps(b)
  {
    assert forall i :: 0 <= i < |a| ==> a[i] == (a + b)[i];
    assert forall i :: 0 <= i < |b| ==> b[i] == (a + b)[|a| + i];
    PartsDiffer(a, b);
  }

  lemma PartsAreDisjoint<V>(s: System<V>)
    requires Accounted(s)
    ensures PartsOf(s).Disjoint()
    ensures PartsOf(s).All() !! Stamps(s.src.entries)
  {
    var a := s.log;
    var b := a + Items(s.running);
    var c := b + s.sched.pending;
    var d := c + s.pump.Carried();
    var e := d + s.stranded;
    DistinctPrefix(e + s.lost, s.src.entries);
    DistinctPrefix(e, s.lost);
    DistinctPrefix(d, s.stranded);
    DistinctPrefix(c, s.pump.Carried());
    DistinctPrefix(b, s.sched.pending);
    DistinctPrefix(a, Items(s.running));
    StampsConcat(e, s.lost);
    StampsConcat(d, s.stranded);
    StampsConcat(c, s.pump.Carried());
    StampsConcat(b, s.sched.pending);
    StampsConcat(a, Items(s.running));
  }

  // ---- Counting acknowledgements ---------------------------------------------------------

  lemma PhaseMoves(owned: map<nat, Phase>, x: nat, p: Phase)
    requires x in owned && owned[x] != p
    ensures forall q :: InPhase(owned[x := p], q) == if q == p then InPhase(owned, q) + {x} else InPhase(owned, q) - {x}
  {
    var owned' := owned[x := p];
    forall q ensures InPhase(owned', q) == if q == p then InPhase(owned, q) + {x} else InPhase(owned, q) - {x} {
      forall y ensures y in InPhase(owned', q) <==> y in (if q == p then InPhase(owned, q) + {x} else InPhase(owned, q) - {x}) {
      }
    }
  }

  lemma PhaseEntered(owned: map<nat, Phase>, x: nat, p: Phase)
    requires x !in owned
    ensures forall q :: InPhase(owned[x := p], q) == if q == p then InPhase(owned, q) + {x} else InPhase(owned, q)
  {
    var owned' := owned[x := p];
    forall q ensures InPhase(owned', q) == if q == p then InPhase(owned, q) + {x} else InPhase(owned, q) {
      forall y ensures y in InPhase(owned', q) <==> y in (if q == p then InPhase(owned, q) + {x} else InPhase(owned, q)) {
      }
    }
  }

  lemma HeldEntered(owned: map<nat, Phase>, x: nat)
    requires x !in owned
    ensures |Unacknowledged(owned[x := Held])| == |Unacknowledged(owned)| + 1
  {
    PhaseEntered(owned, x, Held);
    assert Unacknowledged(owned[x := Held]) == Unacknowledged(owned) + {x};
  }

  lemma SelectedIsFresh<V>(s: System<V>, k: nat)
    requires Accounted(s) && InHands(s) && k < |s.src.entries|
    ensures s.src.entries[k].stamp !in s.owned && s.src.entries[k].stamp !in s.done && s.src.entries[k].stamp !in s.attached
  {
    PartsAreDisjoint(s);
    StampAt(s.src.entries, k);
  }

  lemma SelectKeepsBalance<V>(cfg: Setup<V>, s: System<V>, s': System<V>, k: nat)
    requires Accounted(s) && InHands(s) && Balanced(s) && DoSelect(cfg, s, s', k)
    ensures Balanced(s')
  {
    var x := s.src.entries[k].stamp;
    SelectedIsFresh(s, k);
    hide Accounted, InHands, IsSelection, Unacknowledged;
    HeldEntered(s.owned, x);
  }

  lemma TaskDoneKeepsBalance<V>(s: System<V>, s': System<V>, x: nat)
    requires Balanced(s) && DoTaskDone(s, s', x)
    ensures Balanced(s') && s.src.inFlight > 0
  {
    PhaseMoves(s.owned, x, Acknowledged);
    assert x in Unacknowledged(s.owned);
    assert Unacknowledged(s'.owned) == Unacknowledged(s.owned) - {x};
  }

  lemma MarkKeepsBalance<V>(s: System<V>, s': System<V>, x: nat)
    requires Balanced(s) && (DoMark(s, s', x) || DoRelease(s, s', x))
    ensures Balanced(s')
  {
    StillCounted(s.owned, x, s'.owned[x]);
    hide Unacknowledged;
  }

  /** Marking an event and releasing it leave the unacknowledged events the same. */
  lemma StillCounted(owned: map<nat, Phase>, x: nat, p: Phase)
    requires x in owned && ((owned[x] == Held && p == Marked) || (owned[x] == Acknowledged && p == Released))
    ensures Unacknowledged(owned[x := p]) == Unacknowledged(owned)
  {
    PhaseMoves(owned, x, p);
  }

  lemma OthersKeepPhases<V>(cfg: Setup<V>, s: System<V>, s': System<V>, step: Step)
    requires Next(cfg, s, s', step) && !step.Select? && !step.Mark? && !step.TaskDone? && !step.Release?
    ensures s'.owned == s.owned
    ensures !step.Source? ==> s'.src == s.src
  {
  }

  /** The counts of the source and of the pump move together. */
  lemma StepKeepsBalance<V>(cfg: Setup<V>, s: System<V>, s': System<V>, step: Step)
    requires Accounted(s) && InHands(s) && Balanced(s) && Next(cfg, s, s', step)
    requires step.Source? ==> s'.src.inFlight == s.src.inFlight
    ensures Balanced(s')
  {
    hide Accounted, InHands;
    if step.Select? {
      SelectKeepsBalance(cfg, s, s', step.k);
    } else if step.TaskDone? {
      TaskDoneKeepsBalance(s, s', step.stamp);
    } else if step.Mark? || step.Release? {
      MarkKeepsBalance(s, s', step.stamp);
    } else {
      OthersKeepPhases(cfg, s, s', step);
    }
  }

  // ---- Every event stays in someone's hands ----------------------------------------------

  lemma SelectKeepsHands<V>(cfg: Setup<V>, s: System<V>, s': System<V>, k: nat)
    requires Accounted(s) && InHands(s) && DoSelect(cfg, s, s', k)
    ensures InHands(s')
  {
    hide IsSelection, Accounted, Staged, Covered;
    SelectedIsFresh(s, k);
    SelectedParts(cfg, s, s', k);
    hide PartsOf;
    SelectKeepsCover(PartsOf(s), s.owned, s.attached, s.done, s.src.entries[k]);
  }

  lemma SelectKeepsCover(p: Parts, owned: map<nat, Phase>, attached: set<nat>, done: set<nat>, w: SizedEvent)
    requires Staged(p, owned, attached, done) && Covered(p, Idle, owned, attached, done)
    requires w.stamp !in owned && w.stamp !in done && w.stamp !in attached
    ensures Staged(p.(carried := {w.stamp}), owned[w.stamp := Held], attached, done)
    ensures Covered(p.(carried := {w.stamp}), Holding(w), owned[w.stamp := Held], attached, done)
  {
    assert p.(carried := {w.stamp}).All() == p.All() + {w.stamp};
    assert p.(carried := {w.stamp}).Kept() == p.Kept();
    hide Parts.All, Parts.Kept;
  }

  lemma SelectedParts<V>(cfg: Setup<V>, s: System<V>, s': System<V>, k: nat)
    requires DoSelect(cfg, s, s', k)
    ensures PartsOf(s') == PartsOf(s).(carried := {s.src.entries[k].stamp}) && PartsOf(s).carried == {}
  {
    hide IsSelection;
  }

  lemma TerminationKeepsHands<V>(s: System<V>, w: SizedEvent)
    requires PartsOf(s).Disjoint() && InHands(s) && s.pump == Holding(w)
    ensures InHands(Terminated(s, w))
  {
    var s' := Terminated(s, w);
    StampsConcat(s.lost, [w]);
    assert PartsOf(s') == PartsOf(s).(carried := {}, lost := PartsOf(s).lost + {w.stamp});
  }

  lemma SubmitKeepsHands<V>(cfg: Setup<V>, s: System<V>, s': System<V>)
    requires PartsOf(s).Disjoint() && InHands(s) && DoSubmit(cfg, s, s')
    ensures InHands(s')
  {
    var w, t := s.pump.item, s.(sched := Submit(cfg.sched, s.sched, s.pump.item));
    if AdmissionOf(cfg.sched, s.sched, w) == Admitted {
      StampsConcat(s.sched.pending, [w]);
      assert PartsOf(s') == PartsOf(s).(carried := {}, pending := PartsOf(s).pending + {w.stamp});
    } else {
      assert PartsOf(t) == PartsOf(s);
      TerminationKeepsHands(t, w);
    }
  }

  /** Moving works within the scheduler changes nobody's duties. */
  lemma RegroupedHands<V>(s: System<V>, s': System<V>)
    requires InHands(s)
    requires PartsOf(s').All() == PartsOf(s).All() && PartsOf(s').Kept() == PartsOf(s).Kept()
    requires PartsOf(s').carried == PartsOf(s).carried && PartsOf(s').pending <= PartsOf(s).pending
    requires s'.pump == s.pump && s'.owned == s.owned && s'.attached == s.attached && s'.done == s.done
    ensures InHands(s')
  {
  }

  lemma PartsOfTake<V>(cfg: Setup<V>, s: System<V>, s': System<V>, t: Thread, i: nat)
    requires DoTake(cfg, s, s', t, i)
    ensures var x, p, p' := s.sched.pending[i].stamp, PartsOf(s), PartsOf(s');
      p' == p.(pending := p'.pending, running := p.running + {x}) && p.pending == p'.pending + {x}
  {
    hide IsTake;
    StampsRemoved(s.sched.pending, i);
    assert Items(s'.running) == Items(s.running) + [s.sched.pending[i]];
    StampsConcat(Items(s.running), [s.sched.pending[i]]);
  }

  lemma TakeKeepsHands<V>(cfg: Setup<V>, s: System<V>, s': System<V>, t: Thread, i: nat)
    requires InHands(s) && DoTake(cfg, s, s', t, i)
    ensures InHands(s')
  {
    PartsOfTake(cfg, s, s', t, i);
    hide IsTake, InHands;
    RegroupedHands(s, s');
  }

  lemma FinishKeepsHands<V>(cfg: Setup<V>, s: System<V>, s': System<V>, r: nat)
    requires InHands(s) && DoFinish(cfg, s, s', r)
    ensures InHands(s')
  {
    PartsOfFinish(cfg, s, s', r);
    hide PartsOf, Staged, Covered;
    DischargeKeepsCover(PartsOf(s), PartsOf(s'), s.pump, s.owned, s.attached, s.done, s.running[r].item.stamp);
  }

  lemma PartsOfFinish<V>(cfg: Setup<V>, s: System<V>, s': System<V>, r: nat)
    requires DoFinish(cfg, s, s', r)
    ensures var x, p, p' := s.running[r].item.stamp, PartsOf(s), PartsOf(s');
      p' == p.(running := p'.running, log := p.log + {x}) && p.running == p'.running + {x}
  {
    RunningItems(s.running, r);
    hide Finish;
    StampsRemoved(Items(s.running), r);
    StampsConcat(s.log, [s.running[r].item]);
    hide Items, RemoveAt;
  }

  /** The scheduler need not answer any longer for an event whose callback has run through. */
  lemma DischargeKeepsCover(p: Parts, p': Parts, pump: Pump, owned: map<nat, Phase>, attached: set<nat>, done: set<nat>, x: nat)
    requires Staged(p, owned, attached, done) && Covered(p, pump, owned, attached, done)
    requires p'.All() == p.All() && p'.carried == p.carried && p'.pending == p.pending && p.Kept() == p'.Kept() + {x}
    requires x in done && (x in attached ==> x in owned && owned[x] == Released)
    ensures Staged(p', owned, attached, done) && Covered(p', pump, owned, attached, done)
  {
    hide Parts.All, Parts.Kept;
  }

  lemma DiscardKeepsHands<V>(s: System<V>, s': System<V>)
    requires InHands(s) && DoDiscard(s, s')
    ensures InHands(s')
  {
    StampsConcat(s.stranded, s.sched.pending);
    assert PartsOf(s') == PartsOf(s).(pending := {}, stranded := PartsOf(s).stranded + PartsOf(s).pending);
  }

  lemma ReleaseStrandedKeepsHands<V>(s: System<V>, s': System<V>, i: nat)
    requires InHands(s) && DoReleaseStranded(s, s', i)
    ensures InHands(s')
  {
    var w, p, p' := s.stranded[i], PartsOf(s), PartsOf(s');
    StampsRemoved(s.stranded, i);
    StampsConcat(s.lost, [w]);
    assert p' == p.(stranded := p'.stranded, lost := p.lost + {w.stamp});
    assert p.stranded == p'.stranded + {w.stamp};
    hide PartsOf, Staged, Covered;
    DischargeKeepsCover(p, p', s.pump, s.owned, s.attached, s.done, w.stamp);
  }

  /** Finishing the completion of a work that is running or stranded. */
  lemma PublishKeepsHands<V>(cfg: Setup<V>, s: System<V>, s': System<V>, i: nat)
    requires PartsOf(s).Disjoint() && InHands(s)
    requires DoPublish(cfg, s, s', i) || DoPublishStranded(s, s', i)
    ensures InHands(s')
  {
    if DoPublish(cfg, s, s', i) {
      StampAt(Items(s.running), i);
    } else {
      StampAt(s.stranded, i);
    }
    assert PartsOf(s') == PartsOf(s);
  }

  lemma PumpKeepsHands<V>(s: System<V>, s': System<V>)
    requires InHands(s) && (DoRegister(s, s') || DoLeaveAcking(s, s'))
    ensures InHands(s')
  {
    assert PartsOf(s') == PartsOf(s);
    hide PartsOf;
    PumpKeepsCover(PartsOf(s), s.pump, s'.pump, s.owned, s.attached, s'.attached, s.done);
    hide Staged, Covered;
  }

  lemma PumpKeepsCover(p: Parts, pump: Pump, pump': Pump, owned: map<nat, Phase>, attached: set<nat>, attached': set<nat>, done: set<nat>)
    requires Staged(p, owned, attached, done) && Covered(p, pump, owned, attached, done)
    requires match pump
      case Registering(w) =>
        if w.stamp in done then pump' == Acking(w) && attached' == attached
        else pump' == Idle && attached' == attached + {w.stamp}
      case Acking(w) => w.stamp in owned && owned[w.stamp] == Released && pump' == Idle && attached' == attached
      case _ => false
    ensures Staged(p, owned, attached', done) && Covered(p, pump', owned, attached', done)
  {
    hide Parts.All, Parts.Kept;
  }

  lemma PhaseKeepsHands<V>(s: System<V>, s': System<V>, x: nat)
    requires InHands(s) && (DoMark(s, s', x) || DoTaskDone(s, s', x) || DoRelease(s, s', x))
    ensures InHands(s')
  {
    SameParts(s, s');
    hide PartsOf;
    PhaseKeepsCover(PartsOf(s), s.pump, s.owned, s.attached, s.done, x, s'.owned[x]);
    hide Staged, Covered;
  }

  lemma SameParts<V>(s: System<V>, s': System<V>)
    requires s'.log == s.log && s'.running == s.running && s'.sched == s.sched && s'.pump == s.pump
    requires s'.stranded == s.stranded && s'.lost == s.lost
    ensures PartsOf(s') == PartsOf(s)
  {
  }

  lemma PhaseKeepsCover(p: Parts, pump: Pump, owned: map<nat, Phase>, attached: set<nat>, done: set<nat>, x: nat, next: Phase)
    requires Staged(p, owned, attached, done) && Covered(p, pump, owned, attached, done) && x in owned
    requires match owned[x] case Held => next == Marked && x in done case Marked => next == Acknowledged case _ => next == Released
    ensures Staged(p, owned[x := next], attached, done) && Covered(p, pump, owned[x := next], attached, done)
  {
    assert owned[x := next].Keys == owned.Keys;
    hide Parts.All, Parts.Kept;
  }

  lemma OthersKeepHands<V>(cfg: Setup<V>, s: System<V>, s': System<V>, step: Step)
    requires InHands(s) && Next(cfg, s, s', step)
    requires step.Source? || step.Access? || step.StopScheduler? || step.RequestStop?
    ensures InHands(s')
  {
    if step.Access? {
      assert Items(s'.running) == Items(s.running);
    }
    assert PartsOf(s') == PartsOf(s);
  }

  lemma StepKeepsHands<V>(cfg: Setup<V>, s: System<V>, s': System<V>, step: Step)
    requires Accounted(s) && InHands(s) && Next(cfg, s, s', step)
    ensures InHands(s')
  {
    hide Accounted, InHands, Parts.Disjoint, PartsOf, Terminated;
    hide DoSource, DoSelect, DoSubmit, DoRegister, DoLeaveAcking, DoMark, DoTaskDone, DoRelease, DoTake, DoAccess;
    hide DoPublish, DoFinish, DoDiscard, DoPublishStranded, DoReleaseStranded;
    PartsAreDisjoint(s);
    match step
    case Select(k) => SelectKeepsHands(cfg, s, s', k);
    case SubmitHeld => SubmitKeepsHands(cfg, s, s');
    case AbandonHeld => TerminationKeepsHands(s, s.pump.item);
    case Register => PumpKeepsHands(s, s');
    case LeaveAcking => PumpKeepsHands(s, s');
    case Mark(x) => PhaseKeepsHands(s, s', x);
    case TaskDone(x) => PhaseKeepsHands(s, s', x);
    case Release(x) => PhaseKeepsHands(s, s', x);
    case TakeWork(t, i) => TakeKeepsHands(cfg, s, s', t, i);
    case Publish(r) => PublishKeepsHands(cfg, s, s', r);
    case FinishWork(r) => FinishKeepsHands(cfg, s, s', r);
    case Discard => DiscardKeepsHands(s, s');
    case PublishStranded(i) => PublishKeepsHands(cfg, s, s', i);
    case ReleaseStranded(i) => ReleaseStrandedKeepsHands(s, s', i);
    case _ => OthersKeepHands(cfg, s, s', step);
  }
}
