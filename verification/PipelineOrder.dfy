/** Order through the pipeline: conflict order, exclusive barriers and equivalence to a sequential run. */
module PipelineOrder {
  import opened Sequences
  import opened Events
  import opened Handlers
  import opened S = SchedulerSpec
  import I = InboundSpec
  import opened Pipeline

  // ---- The links between the callbacks and the scheduler ---------------------------------

  lemma RunsStarted(running: seq<Running>, active: map<Thread, SizedEvent>, t: Thread, w: SizedEvent)
    requires RunsActive(running, active) && t !in active
    ensures RunsActive(running + [Running(t, w, 0)], active[t := w])
  {
    assert active[t := w].Keys == active.Keys + {t};
  }

  lemma RunsFinished(running: seq<Running>, active: map<Thread, SizedEvent>, r: nat)
    requires RunsActive(running, active) && r < |running|
    ensures RunsActive(RemoveAt(running, r), active - {running[r].thread})
  {
    var t, rest := running[r].thread, RemoveAt(running, r);
    assert (active - {t}).Keys == active.Keys - {t};
    assert forall j :: 0 <= j < |rest| ==> rest[j] == running[if j < r then j else j + 1];
  }

  lemma StepKeepsLinks<V>(cfg: Setup<V>, s: System<V>, s': System<V>, step: Step)
    requires Linked(cfg, s) && Next(cfg, s, s', step)
    ensures Linked(cfg, s')
  {
    hide Linked, DoSubmit, DoTake, DoFinish, DoAccess, DoDiscard, DoReleaseStranded, IsTake, IsSelection;
    match step
    case SubmitHeld => SubmitKeepsLinks(cfg, s, s');
    case TakeWork(t, i) => TakeKeepsLinks(cfg, s, s', t, i);
    case FinishWork(r) => FinishKeepsLinks(cfg, s, s', r);
    case Access(r) => AccessKeepsLinks(cfg, s, s', r);
    case Discard => DiscardKeepsLinks(cfg, s, s');
    case StopScheduler => StopKeepsLinks(cfg, s);
    case ReleaseStranded(i) => ReleaseKeepsLinks(cfg, s, s', i);
    case _ => OthersKeepLinks(cfg, s, s');
  }

  lemma OthersKeepLinks<V>(cfg: Setup<V>, s: System<V>, s': System<V>)
    requires Linked(cfg, s) && s'.sched == s.sched && s'.running == s.running && s'.stranded == s.stranded
    ensures Linked(cfg, s')
  {
  }

  lemma SubmitKeepsLinks<V>(cfg: Setup<V>, s: System<V>, s': System<V>)
    requires Linked(cfg, s) && DoSubmit(cfg, s, s')
    ensures Linked(cfg, s')
  {
    hide S.Inv, RunsActive;
    SubmitKeepsInv(cfg.sched, s.sched, s.pump.item);
  }

  lemma DiscardKeepsLinks<V>(cfg: Setup<V>, s: System<V>, s': System<V>)
    requires Linked(cfg, s) && DoDiscard(s, s')
    ensures Linked(cfg, s')
  {
    hide S.Inv, RunsActive;
    DiscardKeepsInv(cfg.sched, s.sched);
  }

  lemma StopKeepsLinks<V>(cfg: Setup<V>, s: System<V>)
    requires Linked(cfg, s)
    ensures Linked(cfg, s.(sched := StopAccepting(s.sched)))
  {
    hide S.Inv, RunsActive;
    StopKeepsInv(cfg.sched, s.sched);
  }

  lemma ReleaseKeepsLinks<V>(cfg: Setup<V>, s: System<V>, s': System<V>, i: nat)
    requires Linked(cfg, s) && DoReleaseStranded(s, s', i)
    ensures Linked(cfg, s')
  {
    hide S.Inv, RunsActive;
    TerminalizeKeepsInv(cfg.sched, s.sched);
  }

  lemma TakeKeepsLinks<V>(cfg: Setup<V>, s: System<V>, s': System<V>, t: Thread, i: nat)
    requires Linked(cfg, s) && DoTake(cfg, s, s', t, i)
    ensures Linked(cfg, s')
  {
    hide S.Inv, RunsActive;
    TakeKeepsInv(cfg.sched, s.sched, t, i);
    RunsStarted(s.running, s.sched.active, t, s.sched.pending[i]);
  }

  lemma FinishKeepsLinks<V>(cfg: Setup<V>, s: System<V>, s': System<V>, r: nat)
    requires Linked(cfg, s) && DoFinish(cfg, s, s', r)
    ensures Linked(cfg, s')
  {
    hide S.Inv, RunsActive;
    FinishKeepsInv(cfg.sched, s.sched, s.running[r].thread);
    RunsFinished(s.running, s.sched.active, r);
    FinishedItem(s.running, s.sched.active, r);
  }

  lemma FinishedItem(running: seq<Running>, active: map<Thread, SizedEvent>, r: nat)
    requires RunsActive(running, active) && r < |running|
    ensures running[r].thread in active && active[running[r].thread] == running[r].item
  {
  }

  lemma AccessKeepsLinks<V>(cfg: Setup<V>, s: System<V>, s': System<V>, r: nat)
    requires Linked(cfg, s) && DoAccess(cfg, s, s', r)
    ensures Linked(cfg, s') && Items(s'.running) == Items(s.running)
  {
    hide S.Inv;
  }

  /** Running callbacks belong to pairwise different contexts, and a barrier runs alone. */
  lemma RunningIndependent<V>(cfg: Setup<V>, s: System<V>, i: nat, j: nat)
    requires Linked(cfg, s) && i < |s.running| && j < |s.running| && i != j
    ensures !Conflict(s.running[i].item.event, s.running[j].item.event)
  {
    assert s.running[i].thread != s.running[j].thread;
  }

  // ---- The line stays in order -----------------------------------------------------------

  lemma LineSelected(front: seq<SizedEvent>, q: seq<SizedEvent>, k: nat)
    requires Ordered(front + q) && k < |q|
    requires forall j: nat :: j < k ==> !Conflict(q[j].event, q[k].event)
    ensures Ordered(front + [q[k]] + RemoveAt(q, k))
  {
    assert front + q == front + q[..k] + [q[k]] + q[k + 1..];
    MoveEarlier(front, q[..k], q[k], q[k + 1..]);
    assert front + [q[k]] + RemoveAt(q, k) == front + [q[k]] + q[..k] + q[k + 1..];
  }

  lemma LineOfSelect<V>(cfg: Setup<V>, s: System<V>, s': System<V>, k: nat)
    requires Ordered(Line(s)) && DoSelect(cfg, s, s', k)
    ensures Ordered(Line(s'))
  {
    var front := s.log + Items(s.running) + s.sched.pending;
    assert Line(s) == front + s.src.entries;
    LineSelected(front, s.src.entries, k);
  }

  lemma LineOfTermination<V>(s: System<V>, w: SizedEvent)
    requires Ordered(Line(s)) && s.pump == Holding(w)
    ensures Ordered(Line(Terminated(s, w)))
  {
    var front := s.log + Items(s.running) + s.sched.pending;
    DropKeepsOrder(front, [w], s.src.entries);
    assert Line(Terminated(s, w)) == front + s.src.entries;
  }

  lemma LineOfSubmit<V>(cfg: Setup<V>, s: System<V>, s': System<V>)
    requires Ordered(Line(s)) && DoSubmit(cfg, s, s')
    ensures Ordered(Line(s'))
  {
    var w, t := s.pump.item, s.(sched := Submit(cfg.sched, s.sched, s.pump.item));
    if AdmissionOf(cfg.sched, s.sched, w) == Admitted {
      assert Line(s') == Line(s);
    } else {
      assert Line(t) == Line(s);
      LineOfTermination(t, w);
    }
  }

  lemma LineOfTake<V>(cfg: Setup<V>, s: System<V>, s': System<V>, t: Thread, i: nat)
    requires Linked(cfg, s) && Ordered(Line(s)) && DoTake(cfg, s, s', t, i)
    ensures Ordered(Line(s'))
  {
    var p, front, back := s.sched.pending, s.log + Items(s.running), s.pump.Carried() + s.src.entries;
    TakenOvertakesIndependents(cfg, s, i);
    OneMoreItem(s.running, Running(t, p[i], 0));
    hide Linked, Ordered, IsTake, Conflict, Items, RemoveAt;
    ConcatAssociates(front + p, s.pump.Carried(), s.src.entries);
    LineTaken(front, p, i, back);
    Regrouped(s.log, Items(s.running), p[i], RemoveAt(p, i), s.pump.Carried(), s.src.entries);
  }

  lemma OneMoreItem(running: seq<Running>, r: Running)
    ensures Items(running + [r]) == Items(running) + [r.item]
  {
  }

  lemma Regrouped(log: seq<SizedEvent>, items: seq<SizedEvent>, x: SizedEvent, rest: seq<SizedEvent>, carried: seq<SizedEvent>, entries: seq<SizedEvent>)
    ensures log + (items + [x]) + rest + carried + entries == (log + items) + [x] + rest + (carried + entries)
  {
    ConcatAssociates(log, items, [x]);
    ConcatAssociates(log + items + [x] + rest, carried, entries);
  }

  lemma TakenOvertakesIndependents<V>(cfg: Setup<V>, s: System<V>, i: nat)
    requires Linked(cfg, s) && IsTake(s.sched, Some(i))
    ensures forall j: nat :: j < i ==> !Conflict(s.sched.pending[j].event, s.sched.pending[i].event)
  {
    forall j: nat | j < i ensures !Conflict(s.sched.pending[j].event, s.sched.pending[i].event) {
      assert !Takeable(s.sched, j);
    }
  }

  lemma LineTaken(front: seq<SizedEvent>, p: seq<SizedEvent>, i: nat, back: seq<SizedEvent>)
    requires Ordered(front + p + back) && i < |p|
    requires forall j: nat :: j < i ==> !Conflict(p[j].event, p[i].event)
    ensures Ordered(front + [p[i]] + RemoveAt(p, i) + back)
  {
    assert front + p + back == front + p[..i] + [p[i]] + (p[i + 1..] + back);
    MoveEarlier(front, p[..i], p[i], p[i + 1..] + back);
    assert front + [p[i]] + RemoveAt(p, i) + back == front + [p[i]] + p[..i] + (p[i + 1..] + back);
  }

  lemma LineOfFinish<V>(cfg: Setup<V>, s: System<V>, s': System<V>, r: nat)
    requires Linked(cfg, s) && Ordered(Line(s)) && DoFinish(cfg, s, s', r)
    ensures Ordered(Line(s'))
  {
    var items, back := Items(s.running), s.sched.pending + s.pump.Carried() + s.src.entries;
    RunningItems(s.running, r);
    forall j: nat | j < r ensures !Conflict(items[j].event, items[r].event) {
      RunningIndependent(cfg, s, j, r);
    }
    hide Linked, Ordered, Conflict, Items, RemoveAt;
    Gathered(s.log + items, s.sched.pending, s.pump.Carried(), s.src.entries);
    LineTaken(s.log, items, r, back);
    Gathered(s.log + [items[r]] + RemoveAt(items, r), s.sched.pending, s.pump.Carried(), s.src.entries);
  }

  lemma Gathered(front: seq<SizedEvent>, pending: seq<SizedEvent>, carried: seq<SizedEvent>, entries: seq<SizedEvent>)
    ensures front + pending + carried + entries == front + (pending + carried + entries)
  {
    ConcatAssociates(front, pending, carried);
    ConcatAssociates(front, pending + carried, entries);
  }

  lemma LineOfDiscard<V>(s: System<V>, s': System<V>)
    requires Ordered(Line(s)) && DoDiscard(s, s')
    ensures Ordered(Line(s'))
  {
    var front, back := s.log + Items(s.running), s.pump.Carried() + s.src.entries;
    assert Line(s) == front + s.sched.pending + back;
    assert Line(s') == front + back;
    DropKeepsOrder(front, s.sched.pending, back);
  }

  // ---- Every event stays accounted for ---------------------------------------------------

  /** Moving events between the parts changes no total. */
  lemma MovesKeepAccount<V>(s: System<V>, s': System<V>)
    requires Accounted(s)
    requires I.StampsSound(s'.src) && s'.src.nextStamp == s.src.nextStamp
    requires multiset(Received(s')) + multiset(s'.src.entries) == multiset(Received(s)) + multiset(s.src.entries)
    requires multiset(Received(s')) == multiset(s'.src.delivered)
    ensures Accounted(s')
  {
    var a, b := Received(s) + s.src.entries, Received(s') + s'.src.entries;
    assert multiset(a) == multiset(b);
    DistinctIsUnordered(a, b);
    forall e <- Received(s') ensures e.stamp < s'.src.nextStamp {
      assert e in multiset(a);
      assert e in Received(s) || e in s.src.entries;
    }
  }

  function Total<V>(s: System<V>): multiset<SizedEvent> {
    multiset(s.log) + multiset(Items(s.running)) + multiset(s.sched.pending) + multiset(s.pump.Carried())
    + multiset(s.stranded) + multiset(s.lost)
  }

  lemma TotalIsReceived<V>(s: System<V>)
    ensures multiset(Received(s)) == Total(s)
  {
  }

  lemma RemovedOne<T>(q: seq<T>, i: nat)
    requires i < |q|
    ensures multiset(q) == multiset(RemoveAt(q, i)) + multiset{q[i]}
  {
    assert q == q[..i] + [q[i]] + q[i + 1..];
  }

  /** A step inside the pump and the scheduler loses nothing. */
  lemma InnerMovesKeepAccount<V>(s: System<V>, s': System<V>)
    requires Accounted(s) && Total(s') == Total(s)
    requires s'.src.entries == s.src.entries && s'.src.nextStamp == s.src.nextStamp && s'.src.delivered == s.src.delivered
    ensures Accounted(s')
  {
    TotalIsReceived(s);
    TotalIsReceived(s');
    MovesKeepAccount(s, s');
  }

  lemma SelectKeepsAccount<V>(cfg: Setup<V>, s: System<V>, s': System<V>, k: nat)
    requires Accounted(s) && DoSelect(cfg, s, s', k)
    ensures Accounted(s')
  {
    hide IsSelection;
    RemovedOne(s.src.entries, k);
    TotalIsReceived(s);
    TotalIsReceived(s');
    I.RemoveKeepsStamps(s.src, k);
    MovesKeepAccount(s, s');
  }

  lemma TakeKeepsAccount<V>(cfg: Setup<V>, s: System<V>, s': System<V>, t: Thread, i: nat)
    requires Accounted(s) && DoTake(cfg, s, s', t, i)
    ensures Accounted(s')
  {
    hide Accounted, IsTake;
    RemovedOne(s.sched.pending, i);
    assert Items(s'.running) == Items(s.running) + [s.sched.pending[i]];
    InnerMovesKeepAccount(s, s');
  }

  lemma FinishKeepsAccount<V>(cfg: Setup<V>, s: System<V>, s': System<V>, r: nat)
    requires Accounted(s) && DoFinish(cfg, s, s', r)
    ensures Accounted(s')
  {
    hide Accounted;
    RunningItems(s.running, r);
    RemovedOne(Items(s.running), r);
    InnerMovesKeepAccount(s, s');
  }

  lemma TerminationKeepsAccount<V>(s: System<V>, w: SizedEvent)
    requires Accounted(s) && s.pump == Holding(w)
    ensures Accounted(Terminated(s, w))
  {
    hide Accounted;
    InnerMovesKeepAccount(s, Terminated(s, w));
  }

  lemma SubmissionKeepsTotal<V>(cfg: Setup<V>, s: System<V>, w: SizedEvent)
    requires s.pump == Holding(w)
    ensures var t := s.(sched := Submit(cfg.sched, s.sched, w));
      Total(if AdmissionOf(cfg.sched, s.sched, w) == Admitted then t.(pump := Registering(w)) else t) == Total(s)
  {
    hide AdmissionOf, Added, Items;
  }

  lemma SubmitKeepsAccount<V>(cfg: Setup<V>, s: System<V>, s': System<V>)
    requires Accounted(s) && DoSubmit(cfg, s, s')
    ensures Accounted(s')
  {
    hide Accounted, Total, Submit, AdmissionOf, Terminated;
    var w, t := s.pump.item, s.(sched := Submit(cfg.sched, s.sched, s.pump.item));
    SubmissionKeepsTotal(cfg, s, w);
    if AdmissionOf(cfg.sched, s.sched, w) == Admitted {
      InnerMovesKeepAccount(s, s');
    } else {
      InnerMovesKeepAccount(s, t);
      TerminationKeepsAccount(t, w);
    }
  }

  lemma StrandedKeepAccount<V>(s: System<V>, s': System<V>, i: nat)
    requires Accounted(s) && (DoDiscard(s, s') || DoReleaseStranded(s, s', i))
    ensures Accounted(s')
  {
    hide Accounted;
    if i < |s.stranded| {
      RemovedOne(s.stranded, i);
    }
    InnerMovesKeepAccount(s, s');
  }

  /** Steps that move no event. */
  ghost predicate MovesNothing<V>(s: System<V>, s': System<V>) {
    && s'.log == s.log && Items(s'.running) == Items(s.running) && s'.sched.pending == s.sched.pending
    && s'.pump.Carried() == s.pump.Carried() && s'.stranded == s.stranded && s'.lost == s.lost
    && s'.src.entries == s.src.entries && s'.src.nextStamp == s.src.nextStamp && s'.src.delivered == s.src.delivered
  }

  predicate Moves(step: Step) {
    step.Source? || step.Select? || step.SubmitHeld? || step.AbandonHeld? || step.TakeWork? || step.FinishWork?
    || step.Discard? || step.ReleaseStranded?
  }

  lemma OthersMoveNothing<V>(cfg: Setup<V>, s: System<V>, s': System<V>, step: Step)
    requires Next(cfg, s, s', step) && !Moves(step)
    ensures MovesNothing(s, s')
  {
    hide DoSource, DoSelect, DoSubmit, DoAbandon, DoTake, DoFinish, DoDiscard, DoReleaseStranded;
    if step.Access? {
      AccessMovesNothing(cfg, s, s', step.r);
    }
    hide Items;
  }

  lemma AccessMovesNothing<V>(cfg: Setup<V>, s: System<V>, s': System<V>, r: nat)
    requires DoAccess(cfg, s, s', r)
    ensures MovesNothing(s, s')
  {
    assert Items(s'.running) == Items(s.running);
  }

  lemma OthersKeepAccount<V>(s: System<V>, s': System<V>)
    requires Accounted(s) && MovesNothing(s, s')
    ensures Accounted(s')
  {
    hide Accounted;
    InnerMovesKeepAccount(s, s');
  }

  lemma StepKeepsAccount<V>(cfg: Setup<V>, s: System<V>, s': System<V>, step: Step)
    requires Accounted(s) && Next(cfg, s, s', step) && !step.Source?
    ensures Accounted(s')
  {
    hide Accounted, MovesNothing;
    if !Moves(step) {
      OthersMoveNothing(cfg, s, s', step);
      OthersKeepAccount(s, s');
    }
    match step
    case Select(k) => SelectKeepsAccount(cfg, s, s', k);
    case SubmitHeld => SubmitKeepsAccount(cfg, s, s');
    case AbandonHeld => TerminationKeepsAccount(s, s.pump.item);
    case TakeWork(t, i) => TakeKeepsAccount(cfg, s, s', t, i);
    case FinishWork(r) => FinishKeepsAccount(cfg, s, s', r);
    case Discard => StrandedKeepAccount(s, s', 0);
    case ReleaseStranded(i) => StrandedKeepAccount(s, s', i);
    case _ =>
  }

  /** A source step changes the tail of the line only. */
  lemma SourceKeepsInOrder<V>(cfg: Setup<V>, s: System<V>, s': System<V>, step: I.Step)
    requires InOrder(s) && DoSource(cfg, s, s', step)
    requires I.StampsSound(s'.src) && I.Evolves(s.src, s'.src) && s'.src.delivered == s.src.delivered
    ensures InOrder(s')
  {
    hide I.Next;
    var front := s.log + Items(s.running) + s.sched.pending + s.pump.Carried();
    SourceKeepsOrder(front, Received(s), s.src, s'.src);
  }

  lemma StepKeepsLine<V>(cfg: Setup<V>, s: System<V>, s': System<V>, step: Step)
    requires Linked(cfg, s) && Ordered(Line(s)) && Next(cfg, s, s', step) && !step.Source?
    ensures Ordered(Line(s'))
  {
    hide Ordered, Linked, Line, MovesNothing, Terminated;
    hide DoSource, DoSelect, DoSubmit, DoTake, DoFinish, DoDiscard;
    if !Moves(step) {
      OthersMoveNothing(cfg, s, s', step);
      SameLine(s, s');
    }
    match step
    case Select(k) => LineOfSelect(cfg, s, s', k);
    case SubmitHeld => LineOfSubmit(cfg, s, s');
    case AbandonHeld => LineOfTermination(s, s.pump.item);
    case TakeWork(t, i) => LineOfTake(cfg, s, s', t, i);
    case FinishWork(r) => LineOfFinish(cfg, s, s', r);
    case Discard => LineOfDiscard(s, s');
    case ReleaseStranded(i) => LineOfRelease(s, s', i);
    case _ =>
  }

  lemma SameLine<V>(s: System<V>, s': System<V>)
    requires MovesNothing(s, s')
    ensures Line(s') == Line(s)
  {
  }

  lemma LineOfRelease<V>(s: System<V>, s': System<V>, i: nat)
    requires DoReleaseStranded(s, s', i)
    ensures Line(s') == Line(s)
  {
  }
}
