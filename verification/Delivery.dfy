/** The outbound path as one machine: callers, the queue, its deadline watch, the writer, the transport's
    receipts and every thread that still owes somebody a call. Each step is one lock-protected block. */
module Delivery {
  import opened Sequences
  import opened Completion
  import opened OutboundSpec

  /** Where the writer thread stands inside one iteration of its loop. */
  datatype Writer =
    | Idle
    | Received(id: nat)      // taken from the queue
    | Encoded(id: nat)       // serialized
    | Enrolled(id: nat)      // its receipt is pending
    | Watched(id: nat)       // its completion also watches the receipt
    | Late(id: nat, own: bool)  // found expired, by this thread or another; its result is still to be read
    | Exited
  {
    predicate Prepares(i: nat) { (Received? || Encoded?) && id == i }

    predicate Enrols(i: nat) { (Enrolled? || Watched?) && id == i }
  }

  datatype Receipt = Unfinished | Finished(outcome: Outcome)

  /** A call some thread has committed to make once it has left the lock it holds. */
  datatype Duty =
    | FinishCommand(id: nat, outcome: Outcome)   // completion._finish
    | FinishReceipt(id: nat, outcome: Outcome)   // receipt._finish
    | CompleteReceipt(id: nat, outcome: Outcome) // the receipt's callback
    | ReportFinished(id: nat)                    // the queue's completion callback

  /** Commands, completions and receipts share one number: an entry's place in the order of queueing. */
  datatype System = System(
    queue: Outbound,
    futures: seq<Future>,
    handles: seq<nat>,
    writer: Writer,
    receipts: map<nat, Receipt>,
    pending: set<nat>,
    watched: set<nat>,
    transport: set<nat>,
    duties: seq<Duty>,
    stopRequested: bool)

  function Start(): System {
    System(Empty(), [], [], Idle, map[], {}, {}, {}, [], false)
  }

  predicate Known(d: System, id: nat) {
    id < |d.futures|
  }

  predicate TailOpen(d: System) {
    d.queue.queue != [] &&
    var tail := d.queue.queue[|d.queue.queue| - 1].id;
    Known(d, tail) && !d.futures[tail].Terminal()
  }

  /** Failures by which the completion itself ends a pending receipt. */
  predicate EndsReceipt(outcome: Outcome) {
    outcome.Cancelled? || outcome.DeadlineExceeded?
  }

  // ---- Callers ---------------------------------------------------------------------------

  ghost predicate DoSubmit(cfg: Config, d: System, d': System, command: Command, deadline: Option<Time>) {
    var queue := Send(cfg, d.queue, command, deadline, TailOpen(d));
    match Decide(cfg, d.queue, command, deadline, TailOpen(d))
    case Joined(id) => d' == d.(queue := queue, handles := d.handles + [id])
    case Enqueued(id) => d' == d.(queue := queue, handles := d.handles + [id], futures := d.futures + [Fresh(deadline)])
    case _ => d' == d.(queue := queue)
  }

  ghost predicate DoCancel(d: System, d': System, handle: nat, now: Time) {
    && handle < |d.handles| && Known(d, d.handles[handle])
    && var id := d.handles[handle];
    && d' == d.(futures := d.futures[id := Cancel(d.futures[id], now)])
  }

  // ---- Publication -----------------------------------------------------------------------

  ghost predicate DoAbort(d: System, d': System, id: nat) {
    && Known(d, id) && d.futures[id].stage.Claimed? && d.futures[id].stage.abortDue
    && d' == d.(futures := d.futures[id := Abort(d.futures[id])])
  }

  /** Publishing runs the callbacks: the queue's, and the writer's if it watches this completion. */
  ghost predicate DoPublish(d: System, d': System, id: nat) {
    && Known(d, id) && d.futures[id].stage.Claimed? && !d.futures[id].stage.abortDue
    && var outcome := d.futures[id].stage.outcome;
    && d' == d.(
      futures := d.futures[id := Publish(d.futures[id])],
      duties := d.duties + [ReportFinished(id)] + if id in d.watched && EndsReceipt(outcome) then [FinishReceipt(id, outcome)] else [])
  }

  // ---- Duties ----------------------------------------------------------------------------

  ghost predicate DoFinishCommand(d: System, d': System, k: nat, now: Time) {
    && k < |d.duties| && d.duties[k].FinishCommand? && Known(d, d.duties[k].id)
    && var duty := d.duties[k];
    && d' == d.(futures := d.futures[duty.id := Finish(d.futures[duty.id], duty.outcome, now)], duties := RemoveAt(d.duties, k))
  }

  ghost predicate DoFinishReceipt(d: System, d': System, k: nat) {
    && k < |d.duties| && d.duties[k].FinishReceipt? && d.duties[k].id in d.receipts
    && var duty := d.duties[k];
    && d' == if d.receipts[duty.id].Finished? then d.(duties := RemoveAt(d.duties, k))
             else d.(receipts := d.receipts[duty.id := Finished(duty.outcome)],
                     duties := RemoveAt(d.duties, k) + [CompleteReceipt(duty.id, duty.outcome)])
  }

  ghost predicate DoCompleteReceipt(d: System, d': System, k: nat) {
    && k < |d.duties| && d.duties[k].CompleteReceipt?
    && var duty := d.duties[k];
    && d' == if duty.id in d.pending
             then d.(pending := d.pending - {duty.id}, duties := RemoveAt(d.duties, k) + [FinishCommand(duty.id, duty.outcome)])
             else d.(duties := RemoveAt(d.duties, k))
  }

  ghost predicate DoReportFinished(d: System, d': System, k: nat) {
    && k < |d.duties| && d.duties[k].ReportFinished?
    && IsFinish(d.queue, d.duties[k].id, d'.queue)
    && d' == d.(queue := d'.queue, duties := RemoveAt(d.duties, k))
  }

  // ---- The deadline watch and shutdown of the queue ---------------------------------------

  ghost predicate DoFallDue(d: System, d': System, id: nat, now: Time) {
    && id in d.queue.deadlines && d.queue.deadlines[id] <= now
    && d' == d.(queue := ForgetDeadline(d.queue, id), duties := d.duties + [FinishCommand(id, DeadlineExceeded)])
  }

  ghost predicate DoStopQueue(d: System, d': System) {
    d' == d.(queue := Stop(d.queue))
  }

  function Dismissals(entries: seq<Entry>): seq<Duty> {
    seq(|entries|, i requires 0 <= i < |entries| => FinishCommand(entries[i].id, Failed("discarded during shutdown")))
  }

  ghost predicate DoDiscard(d: System, d': System) {
    && !d.queue.accepting && d.queue.queue != []
    && d' == d.(queue := Discard(d.queue), duties := d.duties + Dismissals(d.queue.queue))
  }

  // ---- The writer ------------------------------------------------------------------------

  ghost predicate DoReceive(d: System, d': System) {
    && d.writer.Idle? && d.queue.queue != []
    && d' == d.(queue := Receive(d.queue), writer := Received(d.queue.queue[0].id))
  }

  /** A completion found done before its receipt is pending ends the iteration. */
  ghost predicate DoSkip(d: System, d': System) {
    && (d.writer.Received? || d.writer.Encoded?)
    && Known(d, d.writer.id) && d.futures[d.writer.id].stage.Published?
    && d' == d.(writer := Idle)
  }

  ghost predicate DoEncode(d: System, d': System, succeeds: bool) {
    && d.writer.Received? && Known(d, d.writer.id) && !d.futures[d.writer.id].stage.Published?
    && var id := d.writer.id;
    && d' == if succeeds then d.(writer := Encoded(id))
             else d.(writer := Idle, duties := d.duties + [FinishCommand(id, Failed("serialization"))])
  }

  ghost predicate DoEnrol(d: System, d': System) {
    && d.writer.Encoded? && Known(d, d.writer.id) && !d.futures[d.writer.id].stage.Published?
    && var id := d.writer.id;
    && d' == d.(writer := Enrolled(id), receipts := d.receipts[id := Unfinished], pending := d.pending + {id})
  }

  /** Register the completion's callback; on a published completion it runs at once. */
  ghost predicate DoWatch(d: System, d': System) {
    && d.writer.Enrolled? && Known(d, d.writer.id)
    && var id := d.writer.id; var stage := d.futures[id].stage;
    && d' == d.(writer := Watched(id), watched := d.watched + {id},
                duties := d.duties + if stage.Published? && EndsReceipt(stage.outcome) then [FinishReceipt(id, stage.outcome)] else [])
  }

  datatype Handover = AlreadyFinished | TooLate | Accepted | Refused(reason: string) | RaisedWhenDone

  /** Offer the frame to the transport queue, or expire a command whose deadline has passed. */
  ghost predicate DoHandOver(d: System, d': System, handover: Handover, now: Time) {
    && d.writer.Watched? && Known(d, d.writer.id) && d.writer.id in d.receipts
    && var id := d.writer.id; var f := d.futures[id]; var finished := d.receipts[id].Finished?;
    && (handover.AlreadyFinished? <==> finished)
    && (!finished ==> (handover.TooLate? <==> f.Expired(now)))
    && (handover.RaisedWhenDone? ==> f.stage.Published? && EndsReceipt(f.stage.outcome))
    && d' == if handover.TooLate? then d.(writer := Late(id, !f.Terminal()), futures := d.futures[id := Finish(f, DeadlineExceeded, now)])
             else d.(writer := Idle,
                     transport := if handover.Accepted? then d.transport + {id} else d.transport,
                     duties := d.duties + match handover
                       case Refused(reason) => [FinishReceipt(id, Failed(reason))]
                       case _ => [])
  }

  /** What the writer reads from the completion of an expired command: its result, or a timeout where another thread
      has decided it and not yet published. Its own decision it has published itself. */
  function LateResult(f: Future): Outcome {
    if f.stage.Published? then f.stage.outcome else Failed("not completed before the timeout")
  }

  ghost predicate DoReadLate(d: System, d': System) {
    && d.writer.Late? && Known(d, d.writer.id)
    && var f := d.futures[d.writer.id];
    && f.Terminal() && (d.writer.own ==> f.stage.Published?)
    && d' == d.(writer := Idle, duties := d.duties + [FinishReceipt(d.writer.id, LateResult(f))])
  }

  ghost predicate DoRequestStop(d: System, d': System) {
    d' == d.(stopRequested := true)
  }

  ghost predicate IsRoll(pending: set<nat>, roll: seq<nat>) {
    && (forall id :: id in roll <==> id in pending)
    && |roll| == |pending|
  }

  function Failures(roll: seq<nat>): seq<Duty> {
    seq(|roll|, i requires 0 <= i < |roll| => FinishCommand(roll[i], Failed("writer stopped")))
  }

  /** The loop ends between iterations: asked to stop, or the queue is closed and empty. */
  ghost predicate DoExit(d: System, d': System) {
    && d.writer.Idle? && (d.stopRequested || (!d.queue.accepting && d.queue.queue == []))
    && d' == d.(writer := Exited)
  }

  /** An unexpected failure fails the command in hand and ends the loop as if a stop had been asked for. */
  ghost predicate DoCrash(d: System, d': System) {
    && !d.writer.Idle? && !d.writer.Exited?
    && d' == d.(writer := Exited, stopRequested := true, duties := d.duties + [FinishCommand(d.writer.id, Failed("writer failed"))])
  }

  /** Fail every pending receipt's command: at the end of a requested stop, and on every later stop. */
  ghost predicate DoFailPending(d: System, d': System, roll: seq<nat>) {
    && d.writer.Exited? && d.stopRequested && IsRoll(d.pending, roll) && d.pending != {}
    && d' == d.(pending := {}, duties := d.duties + Failures(roll))
  }

  // ---- The transport ---------------------------------------------------------------------

  /** The guard the transport calls before it writes a frame. A refused or finished frame is dropped; an
      expired one is also expired by the thread that asked. */
  ghost predicate DoBegin(d: System, d': System, id: nat, now: Time) {
    && id in d.transport && id in d.receipts && Known(d, id) && !d.futures[id].sending
    && var f := d.futures[id];
    && d' == if d.receipts[id].Finished? || f.Terminal() then d.(transport := d.transport - {id})
             else if f.Expired(now) then
               d.(transport := d.transport - {id}, duties := d.duties + [FinishCommand(id, DeadlineExceeded)])
             else d.(futures := d.futures[id := StartSend(f, now)])
  }

  /** The attempt ends: written after a begun send, or failed at any point, a disconnect included. */
  ghost predicate DoConclude(d: System, d': System, id: nat, outcome: Outcome) {
    && id in d.transport && Known(d, id)
    && (outcome.Failed? || (outcome.Succeeded? && d.futures[id].sending))
    && d' == d.(transport := d.transport - {id}, duties := d.duties + [FinishReceipt(id, outcome)])
  }

  // ---- Runs ------------------------------------------------------------------------------

  datatype Act =
    | SubmitStep(command: Command, deadline: Option<Time>)
    | CancelStep(handle: nat)
    | AbortStep(id: nat)
    | PublishStep(id: nat)
    | FinishCommandStep(k: nat)
    | FinishReceiptStep(k: nat)
    | CompleteReceiptStep(k: nat)
    | ReportFinishedStep(k: nat)
    | FallDueStep(id: nat)
    | StopQueueStep
    | DiscardStep
    | ReceiveStep
    | SkipStep
    | EncodeStep(succeeds: bool)
    | EnrolStep
    | WatchStep
    | HandOverStep(handover: Handover)
    | ReadLateStep
    | RequestStopStep
    | ExitStep
    | CrashStep
    | FailPendingStep(roll: seq<nat>)
    | BeginStep(id: nat)
    | ConcludeStep(id: nat, outcome: Outcome)

  ghost predicate Acts(cfg: Config, d: System, d': System, step: Act, now: Time) {
    match step
    case SubmitStep(command, deadline) => DoSubmit(cfg, d, d', command, deadline)
    case CancelStep(handle) => DoCancel(d, d', handle, now)
    case AbortStep(id) => DoAbort(d, d', id)
    case PublishStep(id) => DoPublish(d, d', id)
    case FinishCommandStep(k) => DoFinishCommand(d, d', k, now)
    case FinishReceiptStep(k) => DoFinishReceipt(d, d', k)
    case CompleteReceiptStep(k) => DoCompleteReceipt(d, d', k)
    case ReportFinishedStep(k) => DoReportFinished(d, d', k)
    case FallDueStep(id) => DoFallDue(d, d', id, now)
    case StopQueueStep => DoStopQueue(d, d')
    case DiscardStep => DoDiscard(d, d')
    case ReceiveStep => DoReceive(d, d')
    case SkipStep => DoSkip(d, d')
    case EncodeStep(succeeds) => DoEncode(d, d', succeeds)
    case EnrolStep => DoEnrol(d, d')
    case WatchStep => DoWatch(d, d')
    case HandOverStep(handover) => DoHandOver(d, d', handover, now)
    case ReadLateStep => DoReadLate(d, d')
    case RequestStopStep => DoRequestStop(d, d')
    case ExitStep => DoExit(d, d')
    case CrashStep => DoCrash(d, d')
    case FailPendingStep(roll) => DoFailPending(d, d', roll)
    case BeginStep(id) => DoBegin(d, d', id, now)
    case ConcludeStep(id, outcome) => DoConclude(d, d', id, outcome)
  }

  datatype TimedAct = TimedAct(step: Act, now: Time)

  ghost predicate Execution(cfg: Config, states: seq<System>, events: seq<TimedAct>) {
    && |states| == |events| + 1 && states[0] == Start()
    && forall i :: 0 <= i < |events| ==> Acts(cfg, states[i], states[i + 1], events[i].step, events[i].now)
  }
}
