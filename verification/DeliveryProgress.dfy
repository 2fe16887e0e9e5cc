/** The outbound path cannot stall: while a handle is unanswered somebody can move, and the moves run out. */
module DeliveryProgress {
  import opened Sequences
  import opened Completion
  import opened OutboundSpec
  import opened Delivery
  import opened DeliveryOwners
  import opened DeliveryTheorems

  /** What the runtime does of its own accord: not a caller's request, a shutdown request or a fault. */
  predicate Internal(step: Act) {
    !step.SubmitStep? && !step.CancelStep? && !step.StopQueueStep? && !step.RequestStopStep? && !step.CrashStep?
  }

  ghost predicate CanMove(cfg: Config, d: System, now: Time) {
    exists step, d' :: Internal(step) && Acts(cfg, d, d', step, now)
  }

  /** The writer has ended while the queue still accepts: only the shutdown of the queue can go on. */
  predicate Abandoned(d: System) {
    d.writer.Exited? && d.queue.accepting && d.queue.queue != []
  }

  lemma EnabledBy(cfg: Config, d: System, d': System, step: Act, now: Time)
    requires Internal(step) && Acts(cfg, d, d', step, now)
    ensures CanMove(cfg, d, now)
  {
  }

  lemma ClaimedCanMove(cfg: Config, d: System, now: Time, id: nat)
    requires Known(d, id) && d.futures[id].stage.Claimed?
    ensures CanMove(cfg, d, now)
  {
    hide CanMove;
    var f := d.futures[id];
    if f.stage.abortDue {
      EnabledBy(cfg, d, d.(futures := d.futures[id := Abort(f)]), Act.AbortStep(id), now);
    } else {
      var more := if id in d.watched && EndsReceipt(f.stage.outcome) then [FinishReceipt(id, f.stage.outcome)] else [];
      EnabledBy(cfg, d, d.(futures := d.futures[id := Publish(f)], duties := d.duties + [ReportFinished(id)] + more), Act.PublishStep(id), now);
    }
  }

  lemma DutyCanMove(cfg: Config, d: System, now: Time, kind: Kind, id: nat)
    requires InRange(d) && Owes(d.duties, kind, id)
    ensures CanMove(cfg, d, now)
  {
    hide CanMove;
    var k :| 0 <= k < |d.duties| && Is(d.duties[k], kind, id);
    var duty := d.duties[k];
    assert duty in d.duties;
    var rest := RemoveAt(d.duties, k);
    match kind {
      case ForCommand =>
        EnabledBy(cfg, d, d.(futures := d.futures[id := Finish(d.futures[id], duty.outcome, now)], duties := rest), FinishCommandStep(k), now);
      case ForReceipt =>
        EnabledBy(cfg, d, if d.receipts[id].Finished? then d.(duties := rest)
                       else d.(receipts := d.receipts[id := Finished(duty.outcome)], duties := rest + [CompleteReceipt(id, duty.outcome)]),
               FinishReceiptStep(k), now);
      case ForCallback =>
        EnabledBy(cfg, d, if id in d.pending then d.(pending := d.pending - {id}, duties := rest + [FinishCommand(id, duty.outcome)])
                       else d.(duties := rest),
               CompleteReceiptStep(k), now);
    }
  }

  lemma WriterCanMove(cfg: Config, d: System, now: Time)
    requires InRange(d) && LateDecided(d) && !d.writer.Exited? && (d.writer.Idle? ==> d.queue.queue != [])
    ensures CanMove(cfg, d, now)
  {
    hide CanMove, DutiesKnown;
    if d.writer.Idle? {
      EnabledBy(cfg, d, d.(queue := Receive(d.queue), writer := Received(d.queue.queue[0].id)), Act.ReceiveStep, now);
      return;
    }
    var id := d.writer.id;
    var stage := d.futures[id].stage;
    match d.writer {
      case Received(_) =>
        EnabledBy(cfg, d, if stage.Published? then d.(writer := Idle) else d.(writer := Encoded(id)),
               if stage.Published? then SkipStep else EncodeStep(true), now);
      case Encoded(_) =>
        EnabledBy(cfg, d, if stage.Published? then d.(writer := Idle)
                       else d.(writer := Enrolled(id), receipts := d.receipts[id := Unfinished], pending := d.pending + {id}),
               if stage.Published? then SkipStep else EnrolStep, now);
      case Enrolled(_) =>
        var more := if stage.Published? && EndsReceipt(stage.outcome) then [FinishReceipt(id, stage.outcome)] else [];
        EnabledBy(cfg, d, d.(writer := Watched(id), watched := d.watched + {id}, duties := d.duties + more), WatchStep, now);
      case Watched(_) => HandOverCanMove(cfg, d, now);
      case Late(_, own) => LateCanMove(cfg, d, now);
    }
  }

  lemma HandOverCanMove(cfg: Config, d: System, now: Time)
    requires InRange(d) && d.writer.Watched?
    ensures CanMove(cfg, d, now)
  {
    hide CanMove, DutiesKnown;
    var id := d.writer.id;
    if d.receipts[id].Finished? {
      assert d.duties + [] == d.duties;
      EnabledBy(cfg, d, d.(writer := Idle), HandOverStep(AlreadyFinished), now);
    } else if d.futures[id].Expired(now) {
      var f := d.futures[id];
      EnabledBy(cfg, d, d.(writer := Late(id, !f.Terminal()), futures := d.futures[id := Finish(f, DeadlineExceeded, now)]), HandOverStep(TooLate), now);
    } else {
      assert d.duties + [] == d.duties;
      EnabledBy(cfg, d, d.(writer := Idle, transport := d.transport + {id}), HandOverStep(Delivery.Accepted), now);
    }
  }

  lemma LateCanMove(cfg: Config, d: System, now: Time)
    requires LateDecided(d) && d.writer.Late?
    ensures CanMove(cfg, d, now)
  {
    hide CanMove;
    var id := d.writer.id;
    if d.writer.own && !d.futures[id].stage.Published? {
      ClaimedCanMove(cfg, d, now, id);
    } else {
      EnabledBy(cfg, d, d.(writer := Idle, duties := d.duties + [FinishReceipt(id, LateResult(d.futures[id]))]), ReadLateStep, now);
    }
  }

  lemma QueueCanMove(cfg: Config, d: System, now: Time)
    requires InRange(d) && LateDecided(d) && d.queue.queue != [] && !Abandoned(d)
    ensures CanMove(cfg, d, now)
  {
    hide CanMove, InRange, LateDecided;
    if d.writer.Exited? {
      EnabledBy(cfg, d, d.(queue := Discard(d.queue), duties := d.duties + Dismissals(d.queue.queue)), Act.DiscardStep, now);
    } else {
      WriterCanMove(cfg, d, now);
    }
  }

  /** The transport ends every attempt it has taken on, by a disconnect if by nothing else. */
  lemma TransportCanMove(cfg: Config, d: System, now: Time, id: nat)
    requires InRange(d) && id in d.transport
    ensures CanMove(cfg, d, now)
  {
    hide CanMove;
    var outcome := Failed("disconnected");
    EnabledBy(cfg, d, d.(transport := d.transport - {id}, duties := d.duties + [FinishReceipt(id, outcome)]), ConcludeStep(id, outcome), now);
  }

  /** No stall: an unanswered handle leaves some step of the runtime enabled, at any time. */
  lemma UnansweredCanMove(cfg: Config, d: System, now: Time, h: nat)
    requires Good(cfg, d) && h < |d.handles| && d.handles[h] < |d.futures| && Answer(d, h).None? && !Abandoned(d)
    ensures CanMove(cfg, d, now)
  {
    var id := d.handles[h];
    hide CanMove, Inv, AllSound, DutiesDecided, LateDecided, InRange;
    if d.futures[id].stage.Claimed? {
      ClaimedCanMove(cfg, d, now, id);
    } else {
      assert Owned(d, id);
      OwnerCanMove(cfg, d, now, id);
    }
  }

  lemma OwnerCanMove(cfg: Config, d: System, now: Time, id: nat)
    requires InRange(d) && LateDecided(d) && Owned(d, id) && !Abandoned(d)
    ensures CanMove(cfg, d, now)
  {
    hide CanMove, InRange, LateDecided, Owes;
    if Owes(d.duties, ForCommand, id) {
      DutyCanMove(cfg, d, now, ForCommand, id);
    } else if Queued(d.queue, id) {
      QueueCanMove(cfg, d, now);
    } else if d.writer.Prepares(id) || d.writer.Enrols(id) {
      WriterCanMove(cfg, d, now);
    } else if d.receipts[id].Finished? {
      DutyCanMove(cfg, d, now, ForCallback, id);
    } else if id in d.transport {
      TransportCanMove(cfg, d, now, id);
    } else {
      DutyCanMove(cfg, d, now, ForReceipt, id);
    }
  }

  // ---- The moves run out -----------------------------------------------------------------

  function FutureWork(f: Future): nat {
    match f.stage
    case Open => if f.sending then 6 else 7
    case Claimed(_, _, abortDue) => if abortDue then 6 else 5
    case Published(_, _) => 0
  }

  function DutyWork(duty: Duty): nat {
    match duty
    case FinishCommand(_, _) => 1
    case CompleteReceipt(_, _) => 2
    case FinishReceipt(_, _) => 3
    case ReportFinished(_) => 1
  }

  function WriterWork(writer: Writer): nat {
    match writer
    case Idle => 1
    case Received(_) => 15
    case Encoded(_) => 14
    case Enrolled(_) => 11
    case Watched(_) => 7
    case Late(_, _) => 5
    case Exited => 0
  }

  function FuturesWork(futures: seq<Future>): int { Sum((f: Future) => FutureWork(f), futures) }

  function DutiesWork(duties: seq<Duty>): int { Sum((duty: Duty) => DutyWork(duty), duties) }

  /** An upper bound on the steps the runtime still has to take. */
  function Work(d: System): int {
    16 * |d.queue.queue| + 2 * |d.queue.deadlines| + WriterWork(d.writer) + 2 * |d.pending| + 4 * |d.transport|
    + FuturesWork(d.futures) + DutiesWork(d.duties)
  }

  lemma FuturesWorkUpdate(futures: seq<Future>, id: nat, f: Future)
    requires id < |futures|
    ensures FuturesWork(futures[id := f]) == FuturesWork(futures) - FutureWork(futures[id]) + FutureWork(f)
  {
    SumUpdate((g: Future) => FutureWork(g), futures, id, f);
  }

  lemma DutiesWorkConcat(duties: seq<Duty>, more: seq<Duty>)
    ensures DutiesWork(duties + more) == DutiesWork(duties) + DutiesWork(more)
  {
    SumConcat((duty: Duty) => DutyWork(duty), duties, more);
  }

  lemma DutiesWorkRemove(duties: seq<Duty>, k: nat)
    requires k < |duties|
    ensures DutiesWork(RemoveAt(duties, k)) == DutiesWork(duties) - DutyWork(duties[k])
  {
    SumRemoveAt((duty: Duty) => DutyWork(duty), duties, k);
  }

  lemma DutiesWorkOne(duty: Duty)
    ensures DutiesWork([duty]) == DutyWork(duty)
    ensures DutiesWork([]) == 0
  {
    SumAppend((d: Duty) => DutyWork(d), [], duty);
    assert [] + [duty] == [duty];
  }

  lemma {:induction false} DutiesWorkUnit(duties: seq<Duty>)
    requires forall duty <- duties :: duty.FinishCommand?
    ensures DutiesWork(duties) == |duties|
  {
    if duties != [] {
      DutiesWorkUnit(duties[1..]);
    }
  }

  lemma {:induction false} WorkIsNatural(d: System)
    ensures Work(d) >= 0
  {
    SumBounds((f: Future) => FutureWork(f), d.futures);
    SumBounds((duty: Duty) => DutyWork(duty), d.duties);
  }

  lemma AbortWorks(d: System, d': System, id: nat)
    requires DoAbort(d, d', id)
    ensures Work(d') < Work(d)
  {
    FuturesWorkUpdate(d.futures, id, d'.futures[id]);
    hide FuturesWork, DutiesWork, WriterWork;
  }

  lemma PublishWorks(d: System, d': System, id: nat)
    requires DoPublish(d, d', id)
    ensures Work(d') < Work(d)
  {
    var outcome := d.futures[id].stage.outcome;
    var report, more := [ReportFinished(id)], if id in d.watched && EndsReceipt(outcome) then [FinishReceipt(id, outcome)] else [];
    FuturesWorkUpdate(d.futures, id, d'.futures[id]);
    DutiesWorkConcat(d.duties + report, more);
    DutiesWorkConcat(d.duties, report);
    DutiesWorkOne(ReportFinished(id));
    DutiesWorkOne(FinishReceipt(id, outcome));
    hide FuturesWork, DutiesWork, WriterWork;
  }

  lemma FinishCommandWorks(d: System, d': System, k: nat, now: Time)
    requires DoFinishCommand(d, d', k, now)
    ensures Work(d') < Work(d)
  {
    FuturesWorkUpdate(d.futures, d.duties[k].id, d'.futures[d.duties[k].id]);
    DutiesWorkRemove(d.duties, k);
    hide FuturesWork, DutiesWork, WriterWork;
  }

  lemma FinishReceiptWorks(d: System, d': System, k: nat)
    requires DoFinishReceipt(d, d', k)
    ensures Work(d') < Work(d)
  {
    var duty := d.duties[k];
    DutiesWorkRemove(d.duties, k);
    DutiesWorkOne(CompleteReceipt(duty.id, duty.outcome));
    DutiesWorkConcat(RemoveAt(d.duties, k), [CompleteReceipt(duty.id, duty.outcome)]);
    hide FuturesWork, DutiesWork, WriterWork;
  }

  lemma CompleteReceiptWorks(d: System, d': System, k: nat)
    requires DoCompleteReceipt(d, d', k)
    ensures Work(d') < Work(d)
  {
    var duty := d.duties[k];
    DutiesWorkRemove(d.duties, k);
    DutiesWorkOne(FinishCommand(duty.id, duty.outcome));
    DutiesWorkConcat(RemoveAt(d.duties, k), [FinishCommand(duty.id, duty.outcome)]);
    hide FuturesWork, DutiesWork, WriterWork;
  }

  lemma WatchShrinks(deadlines: map<nat, Time>, id: nat)
    ensures |deadlines - {id}| == |deadlines| - if id in deadlines then 1 else 0
  {
    assert (deadlines - {id}).Keys == deadlines.Keys - {id};
  }

  lemma ReportWorks(d: System, d': System, k: nat)
    requires DoReportFinished(d, d', k)
    ensures Work(d') < Work(d)
  {
    DutiesWorkRemove(d.duties, k);
    WatchShrinks(d.queue.deadlines, d.duties[k].id);
    FinishShrinks(d.queue, d'.queue, d.duties[k].id);
    hide FuturesWork, DutiesWork, WriterWork, IsFinish;
  }

  lemma FinishShrinks(q: Outbound, q': Outbound, id: nat)
    requires IsFinish(q, id, q')
    ensures |q'.queue| <= |q.queue| && q'.deadlines == q.deadlines - {id}
  {
  }

  lemma FallDueWorks(d: System, d': System, id: nat, now: Time)
    requires DoFallDue(d, d', id, now)
    ensures Work(d') < Work(d)
  {
    WatchShrinks(d.queue.deadlines, id);
    DutiesWorkConcat(d.duties, [FinishCommand(id, DeadlineExceeded)]);
    DutiesWorkOne(FinishCommand(id, DeadlineExceeded));
    hide FuturesWork, DutiesWork, WriterWork;
  }

  lemma DiscardWorks(d: System, d': System)
    requires DoDiscard(d, d')
    ensures Work(d') < Work(d)
  {
    DutiesWorkConcat(d.duties, Dismissals(d.queue.queue));
    DutiesWorkUnit(Dismissals(d.queue.queue));
    hide FuturesWork, DutiesWork, WriterWork;
  }

  lemma FailPendingWorks(d: System, d': System, roll: seq<nat>)
    requires DoFailPending(d, d', roll)
    ensures Work(d') < Work(d)
  {
    DutiesWorkConcat(d.duties, Failures(roll));
    DutiesWorkUnit(Failures(roll));
    hide FuturesWork, DutiesWork, WriterWork;
  }

  lemma AddOne<T>(s: set<T>, x: T)
    ensures |s + {x}| <= |s| + 1
  {
    if x in s {
      assert s + {x} == s;
    }
  }

  lemma WriterWorks(d: System, d': System, step: Act, now: Time)
    requires (step.ReadLateStep? && DoReadLate(d, d')) || (step.ReceiveStep? && DoReceive(d, d')) || (step.SkipStep? && DoSkip(d, d')) || (step.EncodeStep? && DoEncode(d, d', step.succeeds))
      || (step.EnrolStep? && DoEnrol(d, d')) || (step.WatchStep? && DoWatch(d, d')) || (step.ExitStep? && DoExit(d, d'))
    ensures Work(d') < Work(d)
  {
    hide FuturesWork, DutiesWork;
    if !d.writer.Idle? {
      var id := d.writer.id;
      AddOne(d.pending, id);
      var more := if |d'.duties| > |d.duties| then [d'.duties[|d.duties|]] else [];
      assert d'.duties == d.duties + more;
      DutiesWorkConcat(d.duties, more);
      DutiesWorkOne(if more == [] then ReportFinished(id) else more[0]);
    }
  }

  lemma HandOverWorks(d: System, d': System, handover: Handover, now: Time)
    requires DoHandOver(d, d', handover, now)
    ensures Work(d') < Work(d)
  {
    hide FuturesWork, DutiesWork;
    var id := d.writer.id;
    if handover.TooLate? {
      FuturesWorkUpdate(d.futures, id, d'.futures[id]);
      hide Finish;
      ExpiringWorks(d.futures[id], now);
    } else {
      AddOne(d.transport, id);
      var more := d'.duties[|d.duties|..];
      assert d'.duties == d.duties + more;
      DutiesWorkConcat(d.duties, more);
      DutiesWorkOne(if more == [] then ReportFinished(id) else more[0]);
    }
  }

  lemma ExpiringWorks(f: Future, now: Time)
    ensures FutureWork(Finish(f, DeadlineExceeded, now)) <= FutureWork(f)
  {
  }

  lemma BeginWorks(d: System, d': System, id: nat, now: Time)
    requires DoBegin(d, d', id, now)
    ensures Work(d') < Work(d)
  {
    FuturesWorkUpdate(d.futures, id, d'.futures[id]);
    DutiesWorkConcat(d.duties, [FinishCommand(id, DeadlineExceeded)]);
    DutiesWorkOne(FinishCommand(id, DeadlineExceeded));
    hide FuturesWork, DutiesWork, WriterWork;
  }

  lemma ConcludeWorks(d: System, d': System, id: nat, outcome: Outcome)
    requires DoConclude(d, d', id, outcome)
    ensures Work(d') < Work(d)
  {
    DutiesWorkConcat(d.duties, [FinishReceipt(id, outcome)]);
    DutiesWorkOne(FinishReceipt(id, outcome));
    hide FuturesWork, DutiesWork, WriterWork;
  }

  /** Every step the runtime takes of its own accord uses up work, so only finitely many follow each other. */
  lemma InternalStepsRunOut(cfg: Config, d: System, d': System, step: Act, now: Time)
    requires Internal(step) && Acts(cfg, d, d', step, now)
    ensures 0 <= Work(d') < Work(d)
  {
    WorkIsNatural(d');
    hide Work, DoAbort, DoPublish, DoFinishCommand, DoFinishReceipt, DoCompleteReceipt, DoReportFinished, DoFallDue, DoDiscard;
    hide DoReceive, DoSkip, DoEncode, DoEnrol, DoWatch, DoHandOver, DoReadLate, DoExit, DoFailPending, DoBegin, DoConclude;
    match step {
      case AbortStep(id) => AbortWorks(d, d', id);
      case PublishStep(id) => PublishWorks(d, d', id);
      case FinishCommandStep(k) => FinishCommandWorks(d, d', k, now);
      case FinishReceiptStep(k) => FinishReceiptWorks(d, d', k);
      case CompleteReceiptStep(k) => CompleteReceiptWorks(d, d', k);
      case ReportFinishedStep(k) => ReportWorks(d, d', k);
      case FallDueStep(id) => FallDueWorks(d, d', id, now);
      case DiscardStep => DiscardWorks(d, d');
      case HandOverStep(handover) => HandOverWorks(d, d', handover, now);
      case FailPendingStep(roll) => FailPendingWorks(d, d', roll);
      case BeginStep(id) => BeginWorks(d, d', id, now);
      case ConcludeStep(id, outcome) => ConcludeWorks(d, d', id, outcome);
      case _ => WriterWorks(d, d', step, now);
    }
  }

  ghost predicate OnItsOwn(cfg: Config, states: seq<System>, events: seq<TimedAct>) {
    && |states| == |events| + 1
    && forall i :: 0 <= i < |events| ==> Internal(events[i].step) && Acts(cfg, states[i], states[i + 1], events[i].step, events[i].now)
  }

  /** Left to itself, the runtime makes at most `Work` steps before every handle is answered. */
  lemma {:induction false} StepsAreBounded(cfg: Config, states: seq<System>, events: seq<TimedAct>)
    requires OnItsOwn(cfg, states, events)
    ensures |events| <= Work(states[0]) - Work(states[|events|])
  {
    if |events| > 0 {
      var n := |events| - 1;
      hide Work, Acts, Internal;
      assert OnItsOwn(cfg, states[..n + 1], events[..n]);
      StepsAreBounded(cfg, states[..n + 1], events[..n]);
      InternalStepsRunOut(cfg, states[n], states[n + 1], events[n].step, events[n].now);
    }
  }
}
