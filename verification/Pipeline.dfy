/** The composed inbound pipeline: source queue, single pump, scheduler and running callbacks.
    Every lock-protected block of the three objects is one step; any enabled step may come next. */
module Pipeline {
  import opened Sequences
  import opened Events
  import opened Handlers
  import opened S = SchedulerSpec
  import I = InboundSpec

  /** How far the pump's own bookkeeping of a received event has come. */
  datatype Phase = Held | Marked | Acknowledged | Released

  /** The pump thread, and the event it is concerned with. */
  datatype Pump = Idle | Holding(item: SizedEvent) | Registering(item: SizedEvent) | Acking(item: SizedEvent) {
    predicate Has(stamp: nat) { !Idle? && item.stamp == stamp }

    function Carried(): seq<SizedEvent> { if Holding? then [item] else [] }
  }

  /** A worker inside a callback, with the number of accesses it has made. */
  datatype Running = Running(thread: Thread, item: SizedEvent, pc: nat)

  datatype Setup<!V> = Setup(source: I.Config, sched: S.Config, handlers: Handlers<V>, initial: Store<V>)

  datatype System<V> = System(
    src: I.Inbound,
    pump: Pump,
    sched: Scheduler,
    running: seq<Running>,
    stranded: seq<SizedEvent>,   // discarded works whose completion is still owed
    log: seq<SizedEvent>,        // finished callbacks, in finish order
    lost: seq<SizedEvent>,       // received events terminated without running
    store: Store<V>,
    owned: map<nat, Phase>,      // by stamp: every received event
    attached: set<nat>,          // completions carrying the pump's callback
    done: set<nat>,              // finished completions
    stopRequested: bool)

  function Items(running: seq<Running>): seq<SizedEvent> {
    seq(|running|, (i: int) requires 0 <= i < |running| => running[i].item)
  }

  function Start<V>(cfg: Setup<V>): System<V> {
    System(I.Initial, Idle, S.Initial.(started := true), [], [], [], [], cfg.initial, map[], {}, {}, false)
  }

  datatype Step =
    | Source(step: I.Step)
    | Select(k: nat)
    | SubmitHeld
    | AbandonHeld
    | Register
    | LeaveAcking
    | Mark(stamp: nat)
    | TaskDone(stamp: nat)
    | Release(stamp: nat)
    | TakeWork(thread: Thread, i: nat)
    | Access(r: nat)
    | Publish(r: nat)
    | FinishWork(r: nat)
    | StopScheduler
    | Discard
    | PublishStranded(i: nat)
    | ReleaseStranded(i: nat)
    | RequestStop
  {
    /** Steps of the environment: submissions to the source and requests to stop. */
    predicate External() {
      Source? || StopScheduler? || Discard? || RequestStop?
    }
  }

  /** A finished completion releases its work once the callback it carries has run through. */
  predicate CallbackReturned<V>(s: System<V>, stamp: nat) {
    stamp in s.done && (stamp in s.attached ==> stamp in s.owned && s.owned[stamp] == Released)
  }

  // ---- The steps -------------------------------------------------------------------------

  ghost predicate DoSource<V>(cfg: Setup<V>, s: System<V>, s': System<V>, step: I.Step) {
    && !step.ReceiveStep? && !step.TaskDoneStep?
    && I.Next(cfg.source, s.src, s'.src, step)
    && s' == s.(src := s'.src)
  }

  /** The pump selects under both locks and takes ownership of the event. It looks at its stop flag in an earlier
      block, so a stop requested since does not keep it from this step, nor from the submission. */
  ghost predicate DoSelect<V>(cfg: Setup<V>, s: System<V>, s': System<V>, k: nat) {
    && s.pump.Idle? && k < |s.src.entries|
    && IsSelection(cfg.sched, s.sched, s.src.entries, Index(k))
    && s' == s.(src := I.Receive(s.src, k), pump := Holding(s.src.entries[k]), owned := s.owned[s.src.entries[k].stamp := Held])
  }

  ghost predicate DoSubmit<V>(cfg: Setup<V>, s: System<V>, s': System<V>) {
    && s.pump.Holding?
    && var w, a := s.pump.item, AdmissionOf(cfg.sched, s.sched, s.pump.item);
    && a != MustWait
    && s' == if a == Admitted then s.(sched := Submit(cfg.sched, s.sched, w), pump := Registering(w))
             else Terminated(s.(sched := Submit(cfg.sched, s.sched, w)), w)
  }

  ghost predicate DoAbandon<V>(s: System<V>, s': System<V>) {
    s.pump.Holding? && s.stopRequested && s' == Terminated(s, s.pump.item)
  }

  ghost predicate DoRegister<V>(s: System<V>, s': System<V>) {
    && s.pump.Registering?
    && s' == if s.pump.item.stamp in s.done then s.(pump := Acking(s.pump.item))
             else s.(pump := Idle, attached := s.attached + {s.pump.item.stamp})
  }

  ghost predicate DoLeaveAcking<V>(s: System<V>, s': System<V>) {
    && s.pump.Acking? && s.pump.item.stamp in s.owned && s.owned[s.pump.item.stamp] == Released
    && s' == s.(pump := Idle)
  }

  /** The first block of the pump's finish routine; it does nothing for an event already marked. */
  ghost predicate DoMark<V>(s: System<V>, s': System<V>, stamp: nat) {
    && stamp in s.owned && s.owned[stamp] == Held && stamp in s.done
    && (stamp in s.attached || (s.pump.Acking? && s.pump.item.stamp == stamp))
    && s' == s.(owned := s.owned[stamp := Marked])
  }

  ghost predicate DoTaskDone<V>(s: System<V>, s': System<V>, stamp: nat) {
    && stamp in s.owned && s.owned[stamp] == Marked
    && s' == s.(owned := s.owned[stamp := Acknowledged], src := I.TaskDone(s.src))
  }

  ghost predicate DoRelease<V>(s: System<V>, s': System<V>, stamp: nat) {
    && stamp in s.owned && s.owned[stamp] == Acknowledged
    && s' == s.(owned := s.owned[stamp := Released])
  }

  ghost predicate DoTake<V>(cfg: Setup<V>, s: System<V>, s': System<V>, t: Thread, i: nat) {
    && i < |s.sched.pending| && IsTake(s.sched, Some(i)) && t < cfg.sched.workers && t !in s.sched.active
    && (s.sched.pending[i].event.Key().Some? ==> s.sched.pending[i].event.Key().value in s.sched.pendingByContext)
    && s' == s.(sched := Take(s.sched, t, i), running := s.running + [Running(t, s.sched.pending[i], 0)])
  }

  ghost predicate DoAccess<V>(cfg: Setup<V>, s: System<V>, s': System<V>, r: nat) {
    && r < |s.running| && s.running[r].item.stamp !in s.done
    && var run := s.running[r];
    && run.pc < cfg.handlers.length(run.item.event)
    && s' == s.(running := s.running[r := run.(pc := run.pc + 1)],
                store := cfg.handlers.Access(run.item.event, run.pc, s.store))
  }

  ghost predicate DoPublish<V>(cfg: Setup<V>, s: System<V>, s': System<V>, r: nat) {
    && r < |s.running| && s.running[r].item.stamp !in s.done
    && s.running[r].pc == cfg.handlers.length(s.running[r].item.event)
    && s' == s.(done := s.done + {s.running[r].item.stamp})
  }

  ghost predicate DoFinish<V>(cfg: Setup<V>, s: System<V>, s': System<V>, r: nat) {
    && r < |s.running| && CallbackReturned(s, s.running[r].item.stamp)
    && s.running[r].pc == cfg.handlers.length(s.running[r].item.event)
    && s.running[r].thread in s.sched.active
    && s' == s.(sched := Finish(s.sched, s.running[r].thread), running := RemoveAt(s.running, r),
                log := s.log + [s.running[r].item])
  }

  ghost predicate DoDiscard<V>(s: System<V>, s': System<V>) {
    && !s.sched.accepting
    && s' == s.(sched := S.DiscardPending(s.sched), stranded := s.stranded + s.sched.pending)
  }

  ghost predicate DoPublishStranded<V>(s: System<V>, s': System<V>, i: nat) {
    && i < |s.stranded| && s.stranded[i].stamp !in s.done
    && s' == s.(done := s.done + {s.stranded[i].stamp})
  }

  ghost predicate DoReleaseStranded<V>(s: System<V>, s': System<V>, i: nat) {
    && i < |s.stranded| && CallbackReturned(s, s.stranded[i].stamp)
    && s' == s.(sched := Terminalize(s.sched), stranded := RemoveAt(s.stranded, i), lost := s.lost + [s.stranded[i]])
  }

  ghost predicate Next<V>(cfg: Setup<V>, s: System<V>, s': System<V>, step: Step) {
    match step
    case Source(step) => DoSource(cfg, s, s', step)
    case Select(k) => DoSelect(cfg, s, s', k)
    case SubmitHeld => DoSubmit(cfg, s, s')
    case AbandonHeld => DoAbandon(s, s')
    case Register => DoRegister(s, s')
    case LeaveAcking => DoLeaveAcking(s, s')
    case Mark(stamp) => DoMark(s, s', stamp)
    case TaskDone(stamp) => DoTaskDone(s, s', stamp)
    case Release(stamp) => DoRelease(s, s', stamp)
    case TakeWork(t, i) => DoTake(cfg, s, s', t, i)
    case Access(r) => DoAccess(cfg, s, s', r)
    case Publish(r) => DoPublish(cfg, s, s', r)
    case FinishWork(r) => DoFinish(cfg, s, s', r)
    case StopScheduler => s' == s.(sched := StopAccepting(s.sched))
    case Discard => DoDiscard(s, s')
    case PublishStranded(i) => DoPublishStranded(s, s', i)
    case ReleaseStranded(i) => DoReleaseStranded(s, s', i)
    case RequestStop => s' == s.(stopRequested := true)
  }

  /** The held event gets a finished completion without entering the scheduler. */
  function Terminated<V>(s: System<V>, w: SizedEvent): System<V> {
    s.(pump := Registering(w), done := s.done + {w.stamp}, lost := s.lost + [w])
  }

  // ---- Order -----------------------------------------------------------------------------

  /** Everything not yet finished stands behind everything finished, each part in its own order. */
  function Line<V>(s: System<V>): seq<SizedEvent> {
    s.log + Items(s.running) + s.sched.pending + s.pump.Carried() + s.src.entries
  }

  function Received<V>(s: System<V>): seq<SizedEvent> {
    s.log + Items(s.running) + s.sched.pending + s.pump.Carried() + s.stranded + s.lost
  }

  /** The callbacks running are exactly the scheduler's active works. */
  ghost predicate RunsActive(running: seq<Running>, active: map<Thread, SizedEvent>) {
    && |running| == |active|
    && (forall i :: 0 <= i < |running| ==> running[i].thread in active && active[running[i].thread] == running[i].item)
    && (forall i, j :: 0 <= i < j < |running| ==> running[i].thread != running[j].thread)
  }

  ghost predicate Linked<V>(cfg: Setup<V>, s: System<V>) {
    && S.Inv(cfg.sched, s.sched) && s.sched.started
    && s.sched.terminalizing == |s.stranded|
    && RunsActive(s.running, s.sched.active)
  }

  /** Received events and queued ones all have different stamps. */
  ghost predicate Accounted<V>(s: System<V>) {
    && I.StampsSound(s.src)
    && Distinct(Received(s) + s.src.entries)
    && (forall e <- Received(s) :: e.stamp < s.src.nextStamp)
    && multiset(Received(s)) == multiset(s.src.delivered)
  }

  ghost predicate InOrder<V>(s: System<V>) {
    Ordered(Line(s)) && Accounted(s)
  }

  lemma RunningItems(running: seq<Running>, r: nat)
    requires r < |running|
    ensures Items(RemoveAt(running, r)) == RemoveAt(Items(running), r)
    ensures Items(running)[r] == running[r].item
  {
  }

  lemma {:induction false} DistinctOccurOnce(a: seq<SizedEvent>, x: SizedEvent)
    requires Distinct(a)
    ensures multiset(a)[x] <= 1
  {
    if a != [] {
      DistinctOccurOnce(a[1..], x);
      assert a == [a[0]] + a[1..];
      if a[0] == x {
        forall y <- a[1..] ensures y != x {
          var i :| 0 <= i < |a[1..]| && a[1..][i] == y;
          assert a[i + 1] == y;
        }
        assert multiset(a[1..])[x] == 0;
      }
    }
  }

  /** Distinctness does not depend on the order of a listing. */
  lemma DistinctIsUnordered(a: seq<SizedEvent>, b: seq<SizedEvent>)
    requires Distinct(a) && multiset(a) == multiset(b)
    ensures Distinct(b)
  {
    forall i, j | 0 <= i < j < |b| ensures b[i].stamp != b[j].stamp {
      var x, y := b[i], b[j];
      assert b == b[..i] + [x] + b[i + 1..j] + [y] + b[j + 1..];
      assert multiset(b) == multiset(b[..i]) + multiset{x} + multiset(b[i + 1..j]) + multiset{y} + multiset(b[j + 1..]);
      DistinctOccurOnce(a, x);
      assert x in multiset(a) && y in multiset(a);
      var p :| 0 <= p < |a| && a[p] == x;
      var q :| 0 <= q < |a| && a[q] == y;
      assert p != q;
    }
  }

  /** A source step changes the tail of the line only, by fresh events and by entries of unchanged key. */
  lemma SourceKeepsOrder(front: seq<SizedEvent>, received: seq<SizedEvent>, a: I.Inbound, b: I.Inbound)
    requires I.StampsSound(a) && I.StampsSound(b) && I.Evolves(a, b)
    requires Ordered(front + a.entries) && Distinct(received + a.entries)
    requires forall e <- front :: e in received
    requires forall e <- received :: e.stamp < a.nextStamp
    ensures Ordered(front + b.entries) && Distinct(received + b.entries)
  {
    forall e <- b.entries, f <- received ensures e.stamp != f.stamp {
      if e.stamp < a.nextStamp {
        var o :| o in a.entries && o.stamp == e.stamp;
        DistinctAcross(received, a.entries, f, o);
      }
    }
    assert Sorted(b.entries);
    DistinctConcat(received, a.entries, b.entries);
    hide Distinct;
    forall e <- b.entries, f <- front | Conflict(f.event, e.event) ensures f.stamp < e.stamp {
      if e.stamp < a.nextStamp {
        var o :| o in a.entries && o.stamp == e.stamp && o.event.Key() == e.event.Key();
        OrderedAcross(front, a.entries, f, o);
      }
    }
    hide Ordered, Sorted;
    OrderedConcat(front, a.entries, b.entries);
  }

  lemma DistinctAcross(front: seq<SizedEvent>, back: seq<SizedEvent>, f: SizedEvent, b: SizedEvent)
    requires Distinct(front + back) && f in front && b in back
    ensures f.stamp != b.stamp
  {
    var p :| 0 <= p < |front| && front[p] == f;
    var q :| 0 <= q < |back| && back[q] == b;
    assert (front + back)[p] == f && (front + back)[|front| + q] == b;
  }

  lemma OrderedAcross(front: seq<SizedEvent>, back: seq<SizedEvent>, f: SizedEvent, b: SizedEvent)
    requires Ordered(front + back) && f in front && b in back
    ensures Conflict(f.event, b.event) ==> f.stamp < b.stamp
  {
    var p :| 0 <= p < |front| && front[p] == f;
    var q :| 0 <= q < |back| && back[q] == b;
    assert (front + back)[p] == f && (front + back)[|front| + q] == b;
  }

  lemma OrderedConcat(front: seq<SizedEvent>, a: seq<SizedEvent>, b: seq<SizedEvent>)
    requires Ordered(front + a) && Sorted(b)
    requires forall e <- b, f <- front :: Conflict(f.event, e.event) ==> f.stamp < e.stamp
    ensures Ordered(front + b)
  {
    var l := front + b;
    forall i, j | 0 <= i < j < |l| && Conflict(l[i].event, l[j].event) ensures l[i].stamp < l[j].stamp {
      if j < |front| {
        assert l[i] == (front + a)[i] && l[j] == (front + a)[j];
      } else if i < |front| {
        assert l[j] in b && l[i] in front;
      }
    }
  }

  lemma DistinctConcat(front: seq<SizedEvent>, a: seq<SizedEvent>, b: seq<SizedEvent>)
    requires Distinct(front + a) && Sorted(b)
    requires forall e <- b, f <- front :: f.stamp != e.stamp
    ensures Distinct(front + b)
  {
    var l := front + b;
    forall i, j | 0 <= i < j < |l| ensures l[i].stamp != l[j].stamp {
      if j < |front| {
        assert l[i] == (front + a)[i] && l[j] == (front + a)[j];
      } else if i < |front| {
        assert l[j] in b && l[i] in front;
      }
    }
  }
}
