/** No accepted command is ever orphaned: whatever races, some party is bound to answer it. */
module DeliveryOwners {
  import opened Sequences
  import opened Completion
  import opened OutboundSpec
  import opened Delivery

  // ---- Duties ----------------------------------------------------------------------------

  datatype Kind = ForCommand | ForReceipt | ForCallback

  predicate Is(duty: Duty, kind: Kind, id: nat) {
    duty.id == id &&
    match kind
    case ForCommand => duty.FinishCommand?
    case ForReceipt => duty.FinishReceipt?
    case ForCallback => duty.CompleteReceipt?
  }

  ghost predicate Owes(duties: seq<Duty>, kind: Kind, id: nat) {
    exists k :: 0 <= k < |duties| && Is(duties[k], kind, id)
  }

  lemma OwesAppend(duties: seq<Duty>, more: seq<Duty>, kind: Kind, id: nat)
    ensures Owes(duties, kind, id) || Owes(more, kind, id) ==> Owes(duties + more, kind, id)
  {
    if k :| 0 <= k < |duties| && Is(duties[k], kind, id) {
      assert Is((duties + more)[k], kind, id);
    } else if k :| 0 <= k < |more| && Is(more[k], kind, id) {
      assert Is((duties + more)[|duties| + k], kind, id);
    }
  }

  lemma OwesRemove(duties: seq<Duty>, k: nat, kind: Kind, id: nat)
    requires k < |duties| && !Is(duties[k], kind, id)
    ensures Owes(duties, kind, id) ==> Owes(RemoveAt(duties, k), kind, id)
  {
    if j :| 0 <= j < |duties| && Is(duties[j], kind, id) {
      assert Is(RemoveAt(duties, k)[if j < k then j else j - 1], kind, id);
    }
  }

  lemma OwesOne(duty: Duty, kind: Kind, id: nat)
    requires Is(duty, kind, id)
    ensures Owes([duty], kind, id)
  {
    assert Is([duty][0], kind, id);
  }

  // ---- Ranges ----------------------------------------------------------------------------

  ghost predicate DutiesKnown(duties: seq<Duty>, bound: nat, receipts: set<nat>) {
    forall duty <- duties :: duty.id < bound && (duty.FinishReceipt? ==> duty.id in receipts)
  }

  ghost predicate InRange(d: System) {
    Placed(d) && DutiesKnown(d.duties, |d.futures|, d.receipts.Keys)
  }

  ghost predicate Placed(d: System) {
    && |d.futures| == d.queue.enqueued
    && (d.writer.Idle? || d.writer.Exited? || Known(d, d.writer.id))
    && (d.writer.Enrolled? || d.writer.Watched? || d.writer.Late? ==> d.writer.id in d.receipts)
    && (forall id <- d.handles :: Known(d, id))
    && (forall id <- d.receipts :: Known(d, id))
    && d.watched <= d.receipts.Keys && d.pending <= d.receipts.Keys && d.transport <= d.receipts.Keys
  }

  // ---- Futures ---------------------------------------------------------------------------

  ghost predicate AllSound(d: System) {
    forall f <- d.futures :: Sound(f)
  }

  /** Only a terminal completion is reported to the queue, or finished with the cancellation error. */
  predicate Decided(duty: Duty, futures: seq<Future>) {
    duty.ReportFinished? || duty.outcome.Cancelled? ==> duty.id < |futures| && futures[duty.id].Terminal()
  }

  ghost predicate DutiesDecided(d: System) {
    forall duty <- d.duties :: Decided(duty, d.futures)
  }

  /** A command the writer has found expired is decided. */
  ghost predicate LateDecided(d: System) {
    d.writer.Late? ==> Known(d, d.writer.id) && d.futures[d.writer.id].Terminal()
  }

  /** One completion takes one of its own steps, or stays as it is. */
  ghost predicate Moves(f: Future, f': Future, now: Time) {
    f' == f || exists step :: Completion.Next(f, f', step, now)
  }

  ghost predicate Evolves(d: System, d': System, now: Time) {
    && |d.futures| <= |d'.futures|
    && (forall id :: 0 <= id < |d.futures| ==> Moves(d.futures[id], d'.futures[id], now))
    && (forall id :: |d.futures| <= id < |d'.futures| ==> Sound(d'.futures[id]) && !d'.futures[id].Terminal())
    && d.handles <= d'.handles
  }

  // ---- Owners ----------------------------------------------------------------------------

  ghost predicate ReceiptOwned(d: System, id: nat) {
    && id in d.pending && id in d.receipts
    && if d.receipts[id].Finished? then Owes(d.duties, ForCallback, id)
       else d.writer.Enrols(id) || id in d.transport || Owes(d.duties, ForReceipt, id)
  }

  /** Who will finish a command that is not terminal yet. */
  ghost predicate Owned(d: System, id: nat) {
    || Queued(d.queue, id)
    || d.writer.Prepares(id)
    || Owes(d.duties, ForCommand, id)
    || ReceiptOwned(d, id)
  }

  ghost predicate NoOrphan(d: System) {
    forall id :: 0 <= id < |d.futures| && d.futures[id].stage.Open? ==> Owned(d, id)
  }

  ghost predicate Good(cfg: Config, d: System) {
    Inv(cfg, d.queue) && InRange(d) && AllSound(d) && DutiesDecided(d) && LateDecided(d) && NoOrphan(d)
  }

  // ---- The queue component ---------------------------------------------------------------

  /** Every step of the machine is a step of the queue's own specification, or leaves the queue alone. */
  lemma QueueSteps(cfg: Config, d: System, d': System, step: Act, now: Time)
    requires Inv(cfg, d.queue) && Acts(cfg, d, d', step, now)
    ensures Inv(cfg, d'.queue)
    ensures d'.queue == d.queue || exists s :: OutboundSpec.Next(cfg, d.queue, d'.queue, s)
  {
    hide Inv, Send, Decide, Receive, Discard, Stop, ForgetDeadline, IsFinish, IsRoll, Finish, Cancel, StartSend, Publish, Abort;
    var s: OutboundSpec.Step;
    match step {
      case SubmitStep(command, deadline) => s := SendStep(command, deadline, TailOpen(d));
      case ReportFinishedStep(k) => s := FinishedStep(d.duties[k].id);
      case FallDueStep(id) => s := DueStep(id);
      case StopQueueStep => s := StopStep;
      case DiscardStep => s := OutboundSpec.DiscardStep;
      case ReceiveStep => s := OutboundSpec.ReceiveStep;
      case _ => return;
    }
    assert OutboundSpec.Next(cfg, d.queue, d'.queue, s);
    StepKeepsInv(cfg, d.queue, d'.queue, s);
  }

  lemma FinishKeepsNumbering(q: Outbound, q': Outbound, id: nat)
    requires IsFinish(q, id, q')
    ensures q'.enqueued == q.enqueued
  {
  }

  // ---- Ranges are kept -------------------------------------------------------------------

  lemma DutiesStayKnown(duties: seq<Duty>, bound: nat, receipts: set<nat>, bound': nat, receipts': set<nat>)
    requires DutiesKnown(duties, bound, receipts) && bound <= bound' && receipts <= receipts'
    ensures DutiesKnown(duties, bound', receipts')
  {
  }

  lemma DutiesGrowKnown(duties: seq<Duty>, more: seq<Duty>, bound: nat, receipts: set<nat>)
    requires DutiesKnown(duties, bound, receipts) && DutiesKnown(more, bound, receipts)
    ensures DutiesKnown(duties + more, bound, receipts)
  {
  }

  lemma DutiesShrinkKnown(duties: seq<Duty>, k: nat, bound: nat, receipts: set<nat>)
    requires DutiesKnown(duties, bound, receipts) && k < |duties|
    ensures DutiesKnown(RemoveAt(duties, k), bound, receipts) && DutiesKnown([duties[k]], bound, receipts)
  {
    assert duties[k] in duties;
    assert forall duty <- RemoveAt(duties, k) :: duty in duties;
  }

  lemma {:induction false} QueuedIdsKnown(cfg: Config, d: System)
    requires Inv(cfg, d.queue) && InRange(d)
    ensures forall e <- d.queue.queue :: Known(d, e.id)
    ensures forall id <- d.queue.deadlines :: Known(d, id)
    ensures DutiesKnown(Dismissals(d.queue.queue), |d.futures|, d.receipts.Keys)
  {
    hide Faithful, Bounded, Counted;
    forall e <- d.queue.queue ensures Known(d, e.id) {
      assert e in Line(d.queue);
    }
    forall duty <- Dismissals(d.queue.queue) ensures duty.id < |d.futures| && !duty.FinishReceipt? {
      var i :| 0 <= i < |d.queue.queue| && duty == Dismissals(d.queue.queue)[i];
      assert d.queue.queue[i] in d.queue.queue;
    }
  }

  lemma SubmitKeepsRange(cfg: Config, d: System, d': System, command: Command, deadline: Option<Time>)
    requires Inv(cfg, d.queue) && InRange(d) && DoSubmit(cfg, d, d', command, deadline)
    ensures InRange(d')
  {
    hide DutiesKnown, Inv, Decide, Send, Placed;
    var queue, verdict := Send(cfg, d.queue, command, deadline, TailOpen(d)), Decide(cfg, d.queue, command, deadline, TailOpen(d));
    SendNumbers(cfg, d.queue, command, deadline, TailOpen(d));
    match verdict {
      case Joined(id) =>
        QueuedIdsKnown(cfg, d);
        HandleKeepsPlaces(d, queue, id);
      case Enqueued(id) =>
        NewcomerKeepsPlaces(d, queue, Fresh(deadline));
        DutiesStayKnown(d.duties, |d.futures|, d.receipts.Keys, |d'.futures|, d.receipts.Keys);
      case _ => QueueKeepsPlaces(d, queue);
    }
  }

  /** A joined command is a queued one, and an enqueued command takes the next number. */
  lemma SendNumbers(cfg: Config, q: Outbound, command: Command, deadline: Option<Time>, tailOpen: bool)
    ensures var queue, verdict := Send(cfg, q, command, deadline, tailOpen), Decide(cfg, q, command, deadline, tailOpen);
      && (verdict.Joined? ==> exists e <- q.queue :: e.id == verdict.id)
      && (verdict.Enqueued? ==> verdict.id == q.enqueued)
      && queue.enqueued == q.enqueued + if verdict.Enqueued? then 1 else 0
  {
    if q.queue != [] {
      assert q.queue[|q.queue| - 1] in q.queue;
    }
  }

  lemma QueueKeepsPlaces(d: System, queue: Outbound)
    requires Placed(d) && queue.enqueued == d.queue.enqueued
    ensures Placed(d.(queue := queue))
  {
  }

  lemma HandleKeepsPlaces(d: System, queue: Outbound, id: nat)
    requires Placed(d) && Known(d, id) && queue.enqueued == d.queue.enqueued
    ensures Placed(d.(queue := queue, handles := d.handles + [id]))
  {
  }

  lemma NewcomerKeepsPlaces(d: System, queue: Outbound, f: Future)
    requires Placed(d) && queue.enqueued == d.queue.enqueued + 1
    ensures d.queue.enqueued == |d.futures|
    ensures Placed(d.(queue := queue, handles := d.handles + [|d.futures|], futures := d.futures + [f]))
  {
  }

  lemma DutyStepKeepsRange(d: System, d': System, k: nat, now: Time)
    requires InRange(d)
    requires DoFinishCommand(d, d', k, now) || DoFinishReceipt(d, d', k) || DoCompleteReceipt(d, d', k) || DoReportFinished(d, d', k)
    ensures InRange(d')
  {
    DutiesShrinkKnown(d.duties, k, |d.futures|, d.receipts.Keys);
    if DoReportFinished(d, d', k) {
      FinishKeepsNumbering(d.queue, d'.queue, d.duties[k].id);
    }
  }

  lemma NoDutyKnown(bound: nat, receipts: set<nat>)
    ensures DutiesKnown([], bound, receipts)
  {
  }

  lemma RollKnown(d: System, roll: seq<nat>)
    requires Placed(d) && IsRoll(d.pending, roll)
    ensures DutiesKnown(Failures(roll), |d.futures|, d.receipts.Keys)
  {
    forall duty <- Failures(roll) ensures duty.id < |d.futures| && !duty.FinishReceipt? {
      var i :| 0 <= i < |roll| && duty == Failures(roll)[i];
      assert roll[i] in roll;
    }
  }

  /** Steps that add duties: what they add is about known commands. */
  lemma AddedDutiesKnown(cfg: Config, d: System, d': System, step: Act, now: Time) returns (more: seq<Duty>)
    requires Inv(cfg, d.queue) && InRange(d) && Acts(cfg, d, d', step, now) && !Discharges(step) && !step.SubmitStep?
    ensures d'.duties == d.duties + more && DutiesKnown(more, |d.futures|, d.receipts.Keys)
  {
    QueuedIdsKnown(cfg, d);
    hide Inv, DutiesKnown, Known;
    var n, r := |d.futures|, d.receipts.Keys;
    NoDutyKnown(n, r);
    more := if |d.duties| <= |d'.duties| then d'.duties[|d.duties|..] else [];
    match step {
      case PublishStep(id) => AddedByPublish(d, d', id);
      case FallDueStep(id) => AddedByDue(d, d', id, now);
      case DiscardStep =>
      case EncodeStep(_) => AddedByWriter(cfg, d, d', step, now);
      case WatchStep => AddedByWriter(cfg, d, d', step, now);
      case HandOverStep(_) => AddedByWriter(cfg, d, d', step, now);
      case ReadLateStep => AddedByWriter(cfg, d, d', step, now);
      case CrashStep => AddedByWriter(cfg, d, d', step, now);
      case FailPendingStep(roll) => RollKnown(d, roll);
      case BeginStep(id) => AddedByTransport(cfg, d, d', step, now);
      case ConcludeStep(id, _) => AddedByTransport(cfg, d, d', step, now);
      case _ =>
    }
  }

  predicate Discharges(step: Act) {
    step.FinishCommandStep? || step.FinishReceiptStep? || step.CompleteReceiptStep? || step.ReportFinishedStep?
  }

  lemma AddedByPublish(d: System, d': System, id: nat)
    requires Placed(d) && DoPublish(d, d', id)
    ensures |d'.duties| >= |d.duties| && d'.duties == d.duties + d'.duties[|d.duties|..]
    ensures DutiesKnown(d'.duties[|d.duties|..], |d.futures|, d.receipts.Keys)
  {
  }

  lemma AddedByDue(d: System, d': System, id: nat, now: Time)
    requires Placed(d) && DoFallDue(d, d', id, now) && Known(d, id)
    ensures |d'.duties| >= |d.duties| && d'.duties == d.duties + d'.duties[|d.duties|..]
    ensures DutiesKnown(d'.duties[|d.duties|..], |d.futures|, d.receipts.Keys)
  {
  }

  lemma AddedByWriter(cfg: Config, d: System, d': System, step: Act, now: Time)
    requires Placed(d) && Acts(cfg, d, d', step, now)
    requires step.EncodeStep? || step.WatchStep? || step.HandOverStep? || step.ReadLateStep? || step.CrashStep?
    ensures |d'.duties| >= |d.duties| && d'.duties == d.duties + d'.duties[|d.duties|..]
    ensures DutiesKnown(d'.duties[|d.duties|..], |d.futures|, d.receipts.Keys)
  {
  }

  lemma AddedByTransport(cfg: Config, d: System, d': System, step: Act, now: Time)
    requires Placed(d) && Acts(cfg, d, d', step, now) && (step.BeginStep? || step.ConcludeStep?)
    ensures |d'.duties| >= |d.duties| && d'.duties == d.duties + d'.duties[|d.duties|..]
    ensures DutiesKnown(d'.duties[|d.duties|..], |d.futures|, d.receipts.Keys)
  {
  }

  predicate ByWriter(step: Act) {
    step.ReceiveStep? || step.SkipStep? || step.EncodeStep? || step.EnrolStep? || step.WatchStep? || step.HandOverStep? || step.ReadLateStep?
  }

  predicate ByCompletion(step: Act) {
    step.CancelStep? || step.AbortStep? || step.PublishStep? || step.BeginStep? || step.ConcludeStep?
  }

  lemma WriterKeepsPlaces(cfg: Config, d: System, d': System, step: Act, now: Time)
    requires Placed(d) && Acts(cfg, d, d', step, now) && ByWriter(step)
    requires forall e <- d.queue.queue :: Known(d, e.id)
    ensures Placed(d') && |d'.futures| == |d.futures| && d.receipts.Keys <= d'.receipts.Keys
  {
    assert step.ReceiveStep? ==> d.queue.queue[0] in d.queue.queue;
  }

  lemma CompletionKeepsPlaces(cfg: Config, d: System, d': System, step: Act, now: Time)
    requires Placed(d) && Acts(cfg, d, d', step, now) && ByCompletion(step)
    ensures Placed(d') && |d'.futures| == |d.futures| && d.receipts.Keys <= d'.receipts.Keys
  {
  }

  lemma OthersKeepPlaces(cfg: Config, d: System, d': System, step: Act, now: Time)
    requires Placed(d) && Acts(cfg, d, d', step, now)
    requires !ByWriter(step) && !ByCompletion(step) && !Discharges(step) && !step.SubmitStep?
    ensures Placed(d') && |d'.futures| == |d.futures| && d.receipts.Keys <= d'.receipts.Keys
  {
  }

  lemma StepKeepsRange(cfg: Config, d: System, d': System, step: Act, now: Time)
    requires Inv(cfg, d.queue) && InRange(d) && Acts(cfg, d, d', step, now)
    ensures InRange(d')
  {
    if step.SubmitStep? {
      SubmitKeepsRange(cfg, d, d', step.command, step.deadline);
    } else if Discharges(step) {
      DutyStepKeepsRange(d, d', step.k, now);
    } else {
      hide Inv, DutiesKnown, Placed, Acts;
      QueuedIdsKnown(cfg, d);
      if ByWriter(step) {
        WriterKeepsPlaces(cfg, d, d', step, now);
      } else if ByCompletion(step) {
        CompletionKeepsPlaces(cfg, d, d', step, now);
      } else {
        OthersKeepPlaces(cfg, d, d', step, now);
      }
      var more := AddedDutiesKnown(cfg, d, d', step, now);
      DutiesGrowKnown(d.duties, more, |d.futures|, d.receipts.Keys);
      DutiesStayKnown(d'.duties, |d.futures|, d.receipts.Keys, |d'.futures|, d'.receipts.Keys);
    }
  }

  // ---- Futures evolve legally ------------------------------------------------------------

  lemma SubmitEvolves(cfg: Config, d: System, d': System, command: Command, deadline: Option<Time>, now: Time)
    requires DoSubmit(cfg, d, d', command, deadline)
    ensures Evolves(d, d', now)
  {
    hide Send;
  }

  lemma OneMoves(d: System, d': System, id: nat, step: Completion.Step, now: Time)
    requires Known(d, id) && d'.handles == d.handles && |d'.futures| == |d.futures|
    requires d'.futures == d.futures[id := d'.futures[id]] && Completion.Next(d.futures[id], d'.futures[id], step, now)
    ensures Evolves(d, d', now)
  {
  }

  lemma NoneMoves(d: System, d': System, now: Time)
    requires d'.handles == d.handles && d'.futures == d.futures
    ensures Evolves(d, d', now)
  {
  }

  predicate TouchesFutures(step: Act) {
    || step.SubmitStep? || step.CancelStep? || step.AbortStep? || step.PublishStep? || step.FinishCommandStep? || step.BeginStep?
    || step.HandOverStep?
  }

  lemma OthersTouchNoFuture(cfg: Config, d: System, d': System, step: Act, now: Time)
    requires Acts(cfg, d, d', step, now) && !TouchesFutures(step)
    ensures d'.handles == d.handles && d'.futures == d.futures
  {
  }

  lemma StepEvolves(cfg: Config, d: System, d': System, step: Act, now: Time)
    requires DutiesDecided(d) && Acts(cfg, d, d', step, now)
    ensures Evolves(d, d', now)
  {
    hide Evolves, DutiesDecided, DoSubmit, DoCancel, DoAbort, DoPublish, DoFinishCommand, DoBegin, DoHandOver;
    if !TouchesFutures(step) {
      OthersTouchNoFuture(cfg, d, d', step, now);
      NoneMoves(d, d', now);
      return;
    }
    match step {
      case SubmitStep(command, deadline) => SubmitEvolves(cfg, d, d', command, deadline, now);
      case CancelStep(handle) => CancelEvolves(d, d', handle, now);
      case AbortStep(id) => PublicationEvolves(d, d', id, now);
      case PublishStep(id) => PublicationEvolves(d, d', id, now);
      case FinishCommandStep(k) => FinishEvolves(d, d', k, now);
      case BeginStep(id) => BeginEvolves(d, d', id, now);
      case HandOverStep(handover) => HandOverEvolves(d, d', handover, now);
    }
  }

  lemma CancelEvolves(d: System, d': System, handle: nat, now: Time)
    requires DoCancel(d, d', handle, now)
    ensures Evolves(d, d', now)
  {
    OneMoves(d, d', d.handles[handle], Completion.CancelStep, now);
  }

  lemma PublicationEvolves(d: System, d': System, id: nat, now: Time)
    requires DoAbort(d, d', id) || DoPublish(d, d', id)
    ensures Evolves(d, d', now)
  {
    OneMoves(d, d', id, if DoAbort(d, d', id) then Completion.AbortStep else Completion.PublishStep, now);
  }

  lemma FinishEvolves(d: System, d': System, k: nat, now: Time)
    requires DutiesDecided(d) && DoFinishCommand(d, d', k, now)
    ensures Evolves(d, d', now)
  {
    var duty := d.duties[k];
    assert duty in d.duties;
    if !duty.outcome.Cancelled? {
      assert Completion.Next(d.futures[duty.id], d'.futures[duty.id], Completion.FinishStep(duty.outcome), now);
    }
  }

  lemma BeginEvolves(d: System, d': System, id: nat, now: Time)
    requires DoBegin(d, d', id, now)
    ensures Evolves(d, d', now)
  {
    if d'.futures != d.futures {
      assert Completion.Next(d.futures[id], d'.futures[id], Completion.StartStep, now);
    }
  }

  lemma HandOverEvolves(d: System, d': System, handover: Handover, now: Time)
    requires DoHandOver(d, d', handover, now)
    ensures Evolves(d, d', now)
  {
    var id := d.writer.id;
    if handover.TooLate? {
      hide Finish;
      OneMoves(d, d', id, Completion.FinishStep(DeadlineExceeded), now);
    } else {
      NoneMoves(d, d', now);
    }
  }

  lemma MoveIsSound(f: Future, f': Future, now: Time)
    requires Sound(f) && Moves(f, f', now)
    ensures Sound(f') && Advances(f, f')
  {
    if f' != f {
      var step :| Completion.Next(f, f', step, now);
      StepKeepsSound(f, f', step, now);
    }
  }

  lemma EvolutionIsSound(d: System, d': System, now: Time)
    requires AllSound(d) && Evolves(d, d', now)
    ensures AllSound(d')
    ensures forall id :: 0 <= id < |d.futures| ==> Advances(d.futures[id], d'.futures[id])
  {
    forall id | 0 <= id < |d.futures| ensures Advances(d.futures[id], d'.futures[id]) && Sound(d'.futures[id]) {
      assert d.futures[id] in d.futures;
      MoveIsSound(d.futures[id], d'.futures[id], now);
    }
  }

  // ---- Duties speak of decided completions --------------------------------------------------

  lemma StepKeepsDecided(cfg: Config, d: System, d': System, step: Act, now: Time, duty: Duty)
    requires DutiesDecided(d) && AllSound(d) && Evolves(d, d', now) && Acts(cfg, d, d', step, now) && duty in d'.duties
    ensures Decided(duty, d'.futures)
  {
    EvolutionIsSound(d, d', now);
    hide AllSound, Evolves, Decide, Send, IsFinish, Advances, IsRoll;
    if duty !in d.duties {
      NewDutyDecided(cfg, d, d', step, now, duty);
    } else if duty.ReportFinished? || duty.outcome.Cancelled? {
      TerminalStays(d, d', duty.id);
    }
  }

  lemma StepKeepsLateDecided(cfg: Config, d: System, d': System, step: Act, now: Time)
    requires LateDecided(d) && AllSound(d) && Evolves(d, d', now) && Acts(cfg, d, d', step, now)
    ensures LateDecided(d')
  {
    EvolutionIsSound(d, d', now);
    hide AllSound, Evolves, Decide, Send, IsFinish, Advances, IsRoll;
    if step.HandOverStep? {
    } else if d'.writer.Late? {
      LateStays(cfg, d, d', step, now);
      TerminalStays(d, d', d.writer.id);
    }
  }

  lemma LateStays(cfg: Config, d: System, d': System, step: Act, now: Time)
    requires Acts(cfg, d, d', step, now) && !step.HandOverStep? && d'.writer.Late?
    ensures d'.writer == d.writer
  {
  }

  lemma TerminalStays(d: System, d': System, id: nat)
    requires Known(d, id) && d.futures[id].Terminal()
    requires forall i :: 0 <= i < |d.futures| ==> i < |d'.futures| && Advances(d.futures[i], d'.futures[i])
    ensures Known(d', id) && d'.futures[id].Terminal()
  {
  }

  /** A new duty names a cancellation or a publication only when a completion, or another duty, already did. */
  lemma NewDutyDecided(cfg: Config, d: System, d': System, step: Act, now: Time, duty: Duty)
    requires DutiesDecided(d) && Acts(cfg, d, d', step, now) && duty in d'.duties && duty !in d.duties
    ensures Decided(duty, d'.futures)
  {
    hide DutiesDecided, Decided;
    match step {
      case PublishStep(id) => PublishedDutyDecided(d, d', id, duty);
      case WatchStep => WatchedDutyDecided(d, d', duty);
      case FinishReceiptStep(k) => PassedDutyDecided(d, d', k, duty);
      case CompleteReceiptStep(k) => PassedDutyDecided(d, d', k, duty);
      case FinishCommandStep(k) => NothingAdded(d, d', k, duty);
      case ReportFinishedStep(k) => NothingAdded(d, d', k, duty);
      case _ => PlainDutyDecided(cfg, d, d', step, now, duty);
    }
  }

  lemma PublishedDutyDecided(d: System, d': System, id: nat, duty: Duty)
    requires DoPublish(d, d', id) && duty in d'.duties && duty !in d.duties
    ensures Decided(duty, d'.futures)
  {
  }

  lemma WatchedDutyDecided(d: System, d': System, duty: Duty)
    requires DoWatch(d, d') && duty in d'.duties && duty !in d.duties
    ensures Decided(duty, d'.futures)
  {
  }

  lemma PassedDutyDecided(d: System, d': System, k: nat, duty: Duty)
    requires DutiesDecided(d) && (DoFinishReceipt(d, d', k) || DoCompleteReceipt(d, d', k))
    requires duty in d'.duties && duty !in d.duties
    ensures Decided(duty, d'.futures)
  {
    assert d.duties[k] in d.duties;
    assert forall other <- RemoveAt(d.duties, k) :: other in d.duties;
  }

  lemma NothingAdded(d: System, d': System, k: nat, duty: Duty)
    requires k < |d.duties| && d'.duties == RemoveAt(d.duties, k) && duty !in d.duties
    ensures duty !in d'.duties
  {
  }

  lemma PlainDutyDecided(cfg: Config, d: System, d': System, step: Act, now: Time, duty: Duty)
    requires Acts(cfg, d, d', step, now) && !Discharges(step) && !step.PublishStep? && !step.WatchStep?
    requires duty in d'.duties && duty !in d.duties
    ensures Decided(duty, d'.futures)
  {
    hide Send, Decide, Receive, Discard, ForgetDeadline, IsRoll, Cancel, StartSend;
  }

  // ---- Owners are kept -------------------------------------------------------------------

  lemma SendKeepsQueued(cfg: Config, q: Outbound, command: Command, deadline: Option<Time>, open: bool, id: nat)
    ensures Queued(q, id) ==> Queued(Send(cfg, q, command, deadline, open), id)
    ensures Decide(cfg, q, command, deadline, open) == Enqueued(id) ==> Queued(Send(cfg, q, command, deadline, open), id)
  {
    var q' := Send(cfg, q, command, deadline, open);
    if i: nat :| IsQueuedAt(q, id, i) {
      assert IsQueuedAt(q', id, i);
    }
    if Decide(cfg, q, command, deadline, open) == Enqueued(id) {
      assert IsQueuedAt(q', id, |q.queue|);
    }
  }

  lemma FinishKeepsQueued(q: Outbound, q': Outbound, gone: nat, id: nat)
    requires IsFinish(q, gone, q') && gone != id && Queued(q, id)
    ensures Queued(q', id)
  {
    var j: nat :| IsQueuedAt(q, id, j);
    if Queued(q, gone) {
      var i: nat :| IsQueuedAt(q, gone, i) && q' == ForgetDeadline(Withdraw(q, i), gone);
      hide IsFinish, Queued;
      assert q'.queue == RemoveAt(q.queue, i);
      assert IsQueuedAt(q', id, if j < i then j else j - 1);
    } else {
      assert IsQueuedAt(q', id, j);
    }
  }

  lemma ReceiveKeepsQueued(q: Outbound, id: nat)
    requires q.queue != [] && Queued(q, id) && q.queue[0].id != id
    ensures Queued(Receive(q), id)
  {
    var j: nat :| IsQueuedAt(q, id, j);
    assert IsQueuedAt(Receive(q), id, j - 1);
  }

  lemma SameQueueSameQueued(q: Outbound, q': Outbound, id: nat)
    requires q'.queue == q.queue
    ensures Queued(q, id) ==> Queued(q', id)
  {
    if i: nat :| IsQueuedAt(q, id, i) {
      assert IsQueuedAt(q', id, i);
    }
  }

  lemma DiscardedIsDismissed(q: Outbound, id: nat)
    requires Queued(q, id)
    ensures Owes(Dismissals(q.queue), ForCommand, id)
  {
    var j: nat :| IsQueuedAt(q, id, j);
    assert Is(Dismissals(q.queue)[j], ForCommand, id);
  }

  lemma RollIsFailed(pending: set<nat>, roll: seq<nat>, id: nat)
    requires IsRoll(pending, roll) && id in pending
    ensures Owes(Failures(roll), ForCommand, id)
  {
    var j: nat :| j < |roll| && roll[j] == id;
    assert Is(Failures(roll)[j], ForCommand, id);
  }

  /** A step that only adds duties and moves no other owner keeps every owner. */
  lemma GrowthKeepsOwner(d: System, d': System, more: seq<Duty>, id: nat)
    requires Owned(d, id) && d'.duties == d.duties + more
    requires Queued(d.queue, id) ==> Queued(d'.queue, id)
    requires d.writer.Prepares(id) ==> d'.writer.Prepares(id)
    requires d.writer.Enrols(id) ==> d'.writer.Enrols(id)
    requires id in d.pending ==> id in d'.pending
    requires id in d.transport ==> id in d'.transport
    requires id in d.receipts ==> id in d'.receipts && d'.receipts[id] == d.receipts[id]
    ensures Owned(d', id)
  {
    hide Owes, Queued;
    OwesAppend(d.duties, more, ForCommand, id);
    OwesAppend(d.duties, more, ForReceipt, id);
    OwesAppend(d.duties, more, ForCallback, id);
  }

  /** A duty about another command can be discharged without touching this one's owner. */
  lemma OtherDutyKeepsOwner(d: System, d': System, k: nat, more: seq<Duty>, id: nat)
    requires Owned(d, id) && k < |d.duties| && d.duties[k].id != id && d'.duties == RemoveAt(d.duties, k) + more
    requires Queued(d.queue, id) ==> Queued(d'.queue, id)
    requires d'.writer == d.writer && d'.transport == d.transport
    requires id in d.pending ==> id in d'.pending
    requires id in d.receipts ==> id in d'.receipts && d'.receipts[id] == d.receipts[id]
    ensures Owned(d', id)
  {
    hide Owes, Queued;
    OwesRemove(d.duties, k, ForCommand, id);
    OwesRemove(d.duties, k, ForReceipt, id);
    OwesRemove(d.duties, k, ForCallback, id);
    OwesAppend(RemoveAt(d.duties, k), more, ForCommand, id);
    OwesAppend(RemoveAt(d.duties, k), more, ForReceipt, id);
    OwesAppend(RemoveAt(d.duties, k), more, ForCallback, id);
  }

  lemma SubmitKeepsOwner(cfg: Config, d: System, d': System, command: Command, deadline: Option<Time>, id: nat)
    requires DoSubmit(cfg, d, d', command, deadline) && |d.futures| == d.queue.enqueued && id < |d'.futures|
    requires id < |d.futures| ==> Owned(d, id)
    ensures Owned(d', id)
  {
    SendKeepsQueued(cfg, d.queue, command, deadline, TailOpen(d), id);
    hide Send, Queued, Owes, TailOpen;
    if id < |d.futures| {
      assert d'.duties == d.duties + [];
      GrowthKeepsOwner(d, d', [], id);
    }
  }

  lemma CompletionKeepsOwner(d: System, d': System, act: Act, now: Time, id: nat)
    requires Owned(d, id)
    requires (act.CancelStep? && DoCancel(d, d', act.handle, now)) || (act.AbortStep? && DoAbort(d, d', act.id)) || (act.PublishStep? && DoPublish(d, d', act.id))
    ensures Owned(d', id)
  {
    hide Owes, Queued, Owned;
    var more := d'.duties[|d.duties|..];
    assert d'.duties == d.duties + more;
    GrowthKeepsOwner(d, d', more, id);
  }

  lemma FinishCommandKeepsOwner(d: System, d': System, k: nat, now: Time, id: nat)
    requires DoFinishCommand(d, d', k, now) && Owned(d, id) && Known(d, id) && d'.futures[id].stage.Open?
    ensures Owned(d', id)
  {
    hide Owes, Queued, Owned;
    assert d.duties[k].id != id;
    assert d'.duties == RemoveAt(d.duties, k) + [];
    OtherDutyKeepsOwner(d, d', k, [], id);
  }

  lemma FinishReceiptKeepsOwner(d: System, d': System, k: nat, id: nat)
    requires DoFinishReceipt(d, d', k) && Owned(d, id)
    ensures Owned(d', id)
  {
    hide Owes, Queued;
    var duty := d.duties[k];
    var rest := RemoveAt(d.duties, k);
    var more := if d.receipts[duty.id].Finished? then [] else [CompleteReceipt(duty.id, duty.outcome)];
    assert d'.duties == rest + more;
    if duty.id != id {
      hide Owned;
      OtherDutyKeepsOwner(d, d', k, more, id);
    } else {
      OwesRemove(d.duties, k, ForCommand, id);
      OwesRemove(d.duties, k, ForCallback, id);
      OwesAppend(rest, more, ForCommand, id);
      OwesAppend(rest, more, ForCallback, id);
      if more != [] {
        OwesOne(more[0], ForCallback, id);
      }
    }
  }

  lemma CompleteReceiptKeepsOwner(d: System, d': System, k: nat, id: nat)
    requires DoCompleteReceipt(d, d', k) && Owned(d, id)
    ensures Owned(d', id)
  {
    hide Owes, Queued;
    var duty := d.duties[k];
    var rest := RemoveAt(d.duties, k);
    var more := if duty.id in d.pending then [FinishCommand(duty.id, duty.outcome)] else [];
    assert d'.duties == rest + more;
    if duty.id != id {
      hide Owned;
      OtherDutyKeepsOwner(d, d', k, more, id);
    } else {
      OwesRemove(d.duties, k, ForCommand, id);
      OwesAppend(rest, more, ForCommand, id);
      if more != [] {
        OwesOne(more[0], ForCommand, id);
      }
    }
  }

  lemma ReportKeepsOwner(d: System, d': System, k: nat, id: nat)
    requires DoReportFinished(d, d', k) && Owned(d, id) && DutiesDecided(d) && Known(d, id) && d.futures[id].stage.Open?
    ensures Owned(d', id)
  {
    assert d.duties[k] in d.duties;
    assert Decided(d.duties[k], d.futures);
    assert d.duties[k].id != id;
    if Queued(d.queue, id) {
      FinishKeepsQueued(d.queue, d'.queue, d.duties[k].id, id);
    }
    hide Owes, Queued, Owned, IsFinish, DutiesDecided;
    assert d'.duties == RemoveAt(d.duties, k) + [];
    OtherDutyKeepsOwner(d, d', k, [], id);
  }

  lemma DiscardKeepsOwner(d: System, d': System, id: nat)
    requires DoDiscard(d, d') && Owned(d, id)
    ensures Owned(d', id)
  {
    hide Owes;
    var more := Dismissals(d.queue.queue);
    if Queued(d.queue, id) {
      DiscardedIsDismissed(d.queue, id);
      OwesAppend(d.duties, more, ForCommand, id);
    } else {
      hide Owned, Queued, Dismissals;
      GrowthKeepsOwner(d, d', more, id);
    }
  }

  lemma FallDueKeepsOwner(d: System, d': System, due: nat, now: Time, id: nat)
    requires DoFallDue(d, d', due, now) && Owned(d, id)
    ensures Owned(d', id)
  {
    SameQueueSameQueued(d.queue, d'.queue, id);
    hide Owes, Owned, Queued;
    GrowthKeepsOwner(d, d', [FinishCommand(due, DeadlineExceeded)], id);
  }

  lemma QuietKeepsOwner(d: System, d': System, id: nat)
    requires (DoStopQueue(d, d') || DoRequestStop(d, d') || DoExit(d, d')) && Owned(d, id)
    ensures Owned(d', id)
  {
    SameQueueSameQueued(d.queue, d'.queue, id);
    hide Owes, Owned, Queued;
    assert d'.duties == d.duties + [];
    GrowthKeepsOwner(d, d', [], id);
  }

  lemma ReceiveKeepsOwner(d: System, d': System, id: nat)
    requires DoReceive(d, d') && Owned(d, id)
    ensures Owned(d', id)
  {
    if d.queue.queue[0].id != id {
      if Queued(d.queue, id) {
        ReceiveKeepsQueued(d.queue, id);
      }
      hide Owes, Owned, Queued, Receive;
      assert d'.duties == d.duties + [];
      GrowthKeepsOwner(d, d', [], id);
    }
  }

  lemma SkipKeepsOwner(d: System, d': System, id: nat)
    requires DoSkip(d, d') && Owned(d, id) && Known(d, id) && d.futures[id].stage.Open?
    ensures Owned(d', id)
  {
    hide Owes, Owned, Queued;
    assert d'.duties == d.duties + [];
    GrowthKeepsOwner(d, d', [], id);
  }

  lemma EncodeKeepsOwner(d: System, d': System, succeeds: bool, id: nat)
    requires DoEncode(d, d', succeeds) && Owned(d, id)
    ensures Owned(d', id)
  {
    hide Owes, Queued;
    var more := if succeeds then [] else [FinishCommand(d.writer.id, Failed("serialization"))];
    assert d'.duties == d.duties + more;
    if d.writer.id == id {
      OwesAppend(d.duties, more, ForCommand, id);
      if !succeeds {
        OwesOne(more[0], ForCommand, id);
      }
    } else {
      hide Owned;
      GrowthKeepsOwner(d, d', more, id);
    }
  }

  lemma EnrolKeepsOwner(d: System, d': System, id: nat)
    requires DoEnrol(d, d') && Owned(d, id)
    ensures Owned(d', id)
  {
    hide Owes, Queued;
    if d.writer.id != id {
      hide Owned;
      assert d'.duties == d.duties + [];
      GrowthKeepsOwner(d, d', [], id);
    }
  }

  lemma WatchKeepsOwner(d: System, d': System, id: nat)
    requires DoWatch(d, d') && Owned(d, id)
    ensures Owned(d', id)
  {
    hide Owes, Queued, Owned;
    GrowthKeepsOwner(d, d', d'.duties[|d.duties|..], id);
  }

  lemma HandOverKeepsOwner(d: System, d': System, handover: Handover, now: Time, id: nat)
    requires DoHandOver(d, d', handover, now) && Owned(d, id) && Known(d, id) && Known(d', id) && d'.futures[id].stage.Open?
    ensures Owned(d', id)
  {
    hide Owes, Queued;
    var more := d'.duties[|d.duties|..];
    assert d'.duties == d.duties + more;
    if d.writer.id != id {
      hide Owned;
      GrowthKeepsOwner(d, d', more, id);
    } else {
      OwesAppend(d.duties, more, ForCommand, id);
      OwesAppend(d.duties, more, ForReceipt, id);
      OwesAppend(d.duties, more, ForCallback, id);
      match handover {
        case Refused(reason) => OwesOne(more[0], ForReceipt, id);
        case _ =>
      }
    }
  }

  lemma ReadLateKeepsOwner(d: System, d': System, id: nat)
    requires DoReadLate(d, d') && Owned(d, id)
    ensures Owned(d', id)
  {
    hide Owes, Queued, Owned;
    GrowthKeepsOwner(d, d', d'.duties[|d.duties|..], id);
  }

  lemma CrashKeepsOwner(d: System, d': System, id: nat)
    requires DoCrash(d, d') && Owned(d, id)
    ensures Owned(d', id)
  {
    hide Owes, Queued;
    var duty := FinishCommand(d.writer.id, Failed("writer failed"));
    if d.writer.id == id {
      OwesOne(duty, ForCommand, id);
      OwesAppend(d.duties, [duty], ForCommand, id);
    } else {
      hide Owned;
      GrowthKeepsOwner(d, d', [duty], id);
    }
  }

  lemma FailPendingKeepsOwner(d: System, d': System, roll: seq<nat>, id: nat)
    requires DoFailPending(d, d', roll) && Owned(d, id)
    ensures Owned(d', id)
  {
    hide Owes, Queued;
    OwesAppend(d.duties, Failures(roll), ForCommand, id);
    if id in d.pending {
      RollIsFailed(d.pending, roll, id);
    }
  }

  lemma BeginKeepsOwner(d: System, d': System, begun: nat, now: Time, id: nat)
    requires DoBegin(d, d', begun, now) && Owned(d, id) && Known(d, id) && d.futures[id].stage.Open?
    ensures Owned(d', id)
  {
    hide Owes, Queued;
    var more := d'.duties[|d.duties|..];
    assert d'.duties == d.duties + more;
    if begun != id || d'.transport == d.transport {
      hide Owned;
      GrowthKeepsOwner(d, d', more, id);
    } else if d.receipts[id].Finished? {
      assert d'.duties == d.duties;
    } else {
      OwesOne(more[0], ForCommand, id);
      OwesAppend(d.duties, more, ForCommand, id);
    }
  }

  lemma ConcludeKeepsOwner(d: System, d': System, concluded: nat, outcome: Outcome, id: nat)
    requires DoConclude(d, d', concluded, outcome) && Owned(d, id)
    ensures Owned(d', id)
  {
    hide Owes, Queued;
    var more := [FinishReceipt(concluded, outcome)];
    if concluded != id {
      hide Owned;
      GrowthKeepsOwner(d, d', more, id);
    } else {
      OwesOne(more[0], ForReceipt, id);
      OwesAppend(d.duties, more, ForReceipt, id);
      OwesAppend(d.duties, more, ForCommand, id);
      OwesAppend(d.duties, more, ForCallback, id);
    }
  }

  /** Whatever the step, a command that is still open afterwards still has somebody to answer it. */
  lemma StepKeepsOwner(cfg: Config, d: System, d': System, step: Act, now: Time, id: nat)
    requires InRange(d) && DutiesDecided(d) && Acts(cfg, d, d', step, now)
    requires id < |d'.futures| && d'.futures[id].stage.Open?
    requires id < |d.futures| ==> d.futures[id].stage.Open? && Owned(d, id)
    requires !step.SubmitStep? ==> |d'.futures| == |d.futures|
    ensures Owned(d', id)
  {
    hide Owned, DutiesDecided, DutiesKnown, DoSubmit, DoCancel, DoAbort, DoPublish, DoFinishCommand, DoFinishReceipt;
    hide DoCompleteReceipt, DoReportFinished, DoFallDue, DoStopQueue, DoDiscard, DoReceive, DoSkip, DoEncode, DoEnrol;
    hide DoWatch, DoHandOver, DoReadLate, DoRequestStop, DoExit, DoCrash, DoFailPending, DoBegin, DoConclude;
    match step {
      case SubmitStep(command, deadline) => SubmitKeepsOwner(cfg, d, d', command, deadline, id);
      case CancelStep(handle) => CompletionKeepsOwner(d, d', step, now, id);
      case AbortStep(_) => CompletionKeepsOwner(d, d', step, now, id);
      case PublishStep(_) => CompletionKeepsOwner(d, d', step, now, id);
      case FinishCommandStep(k) => FinishCommandKeepsOwner(d, d', k, now, id);
      case FinishReceiptStep(k) => FinishReceiptKeepsOwner(d, d', k, id);
      case CompleteReceiptStep(k) => CompleteReceiptKeepsOwner(d, d', k, id);
      case ReportFinishedStep(k) => ReportKeepsOwner(d, d', k, id);
      case FallDueStep(due) => FallDueKeepsOwner(d, d', due, now, id);
      case StopQueueStep => QuietKeepsOwner(d, d', id);
      case DiscardStep => DiscardKeepsOwner(d, d', id);
      case ReceiveStep => ReceiveKeepsOwner(d, d', id);
      case SkipStep => SkipKeepsOwner(d, d', id);
      case EncodeStep(succeeds) => EncodeKeepsOwner(d, d', succeeds, id);
      case EnrolStep => EnrolKeepsOwner(d, d', id);
      case WatchStep => WatchKeepsOwner(d, d', id);
      case HandOverStep(handover) => HandOverKeepsOwner(d, d', handover, now, id);
      case ReadLateStep => ReadLateKeepsOwner(d, d', id);
      case RequestStopStep => QuietKeepsOwner(d, d', id);
      case ExitStep => QuietKeepsOwner(d, d', id);
      case CrashStep => CrashKeepsOwner(d, d', id);
      case FailPendingStep(roll) => FailPendingKeepsOwner(d, d', roll, id);
      case BeginStep(begun) => BeginKeepsOwner(d, d', begun, now, id);
      case ConcludeStep(concluded, outcome) => ConcludeKeepsOwner(d, d', concluded, outcome, id);
    }
  }
}
