/** The completion of one outbound command: its state machine, and the shared object behind the handles. */
module Completion {
  import opened Sequences

  type Time = real

  datatype Outcome = Succeeded | Cancelled | DeadlineExceeded | Failed(reason: string)

  /** Terminal is set under the control lock; the result is published after the lock is released. */
  datatype Stage =
    | Open
    | Claimed(outcome: Outcome, at: Time, abortDue: bool)
    | Published(outcome: Outcome, at: Time)

  datatype Future = Future(deadline: Option<Time>, stage: Stage, sending: bool, abortInstalled: bool, aborts: nat) {
    predicate Terminal() { !stage.Open? }

    predicate Expired(now: Time) { deadline.Some? && now >= deadline.value }
  }

  function Fresh(deadline: Option<Time>): Future {
    Future(deadline, Open, false, false, 0)
  }

  // ---- Lock-protected blocks -------------------------------------------------------------

  function Cancel(f: Future, now: Time): Future {
    if f.Terminal() || f.sending then f else f.(stage := Claimed(Cancelled, now, false))
  }

  predicate Cancellable(f: Future) {
    !f.Terminal() && !f.sending
  }

  /** Transport asks to begin; an expired command is refused and must then be expired. */
  function StartSend(f: Future, now: Time): Future {
    if f.Terminal() || f.Expired(now) then f else f.(sending := true, abortInstalled := true)
  }

  /** The deadline overrules whatever result arrives at or after it. */
  function Verdict(f: Future, outcome: Outcome, now: Time): Outcome {
    if f.Expired(now) then DeadlineExceeded else outcome
  }

  function Finish(f: Future, outcome: Outcome, now: Time): Future {
    if f.Terminal() then f
    else
      var v := Verdict(f, outcome, now);
      f.(stage := Claimed(v, now, f.abortInstalled && v.DeadlineExceeded?), abortInstalled := false)
  }

  function Abort(f: Future): Future
    requires f.stage.Claimed?
  {
    f.(stage := f.stage.(abortDue := false), aborts := f.aborts + 1)
  }

  function Publish(f: Future): Future
    requires f.stage.Claimed?
  {
    f.(stage := Published(f.stage.outcome, f.stage.at))
  }

  datatype Step = CancelStep | StartStep | FinishStep(outcome: Outcome) | AbortStep | PublishStep

  ghost predicate Next(f: Future, f': Future, step: Step, now: Time) {
    match step
    case CancelStep => f' == Cancel(f, now)
    case StartStep => f' == StartSend(f, now)
    case FinishStep(outcome) => !outcome.Cancelled? && f' == Finish(f, outcome, now)
    case AbortStep => f.stage.Claimed? && f.stage.abortDue && f' == Abort(f)
    case PublishStep => f.stage.Claimed? && !f.stage.abortDue && f' == Publish(f)
  }

  /** The first finish decides, and decides what it brings: only at or after the deadline is it a missed deadline
      instead. The transport is to be interrupted if it has begun and the deadline was missed. */
  lemma FinishDecides(f: Future, outcome: Outcome, now: Time)
    requires Sound(f)
    ensures var f' := Finish(f, outcome, now);
      if !f.stage.Open? then f' == f
      else
        var missed := f.deadline.Some? && f.deadline.value <= now;
        && f'.stage.Claimed? && f'.stage.at == now && f'.stage.outcome == (if missed then DeadlineExceeded else outcome)
        && f'.stage.abortDue == (f.sending && (missed || outcome.DeadlineExceeded?))
        && f'.sending == f.sending && f'.deadline == f.deadline
  {
  }

  /** A cancellation decides before the send has begun, and nothing afterwards. */
  lemma CancelDecides(f: Future, now: Time)
    ensures var f' := Cancel(f, now);
      if f.stage.Open? && !f.sending then f'.stage == Claimed(Cancelled, now, false) && !f'.sending && f'.deadline == f.deadline
      else f' == f
  {
  }

  /** A send begins while nothing is decided and the deadline lies ahead; publication changes no decision. */
  lemma SendAndPublicationDecideNothing(f: Future, now: Time)
    ensures var f' := StartSend(f, now);
      if f.stage.Open? && (f.deadline.None? || now < f.deadline.value) then f'.sending && f'.stage.Open? && f'.deadline == f.deadline
      else f' == f
    ensures f.stage.Claimed? ==> Publish(f).stage == Published(f.stage.outcome, f.stage.at)
  {
  }

  /** What holds of a completion whatever raced for it. */
  ghost predicate Sound(f: Future) {
    && (f.abortInstalled ==> f.sending && f.stage.Open?)
    && (f.sending && f.stage.Open? ==> f.abortInstalled)
    && (f.Terminal() && f.stage.outcome.Cancelled? ==> !f.sending)
    && (f.Terminal() && f.stage.outcome.Succeeded? ==> f.deadline.None? || f.stage.at < f.deadline.value)
    && (f.stage.Open? ==> f.aborts == 0)
    && (f.stage.Claimed? ==>
          f.aborts + (if f.stage.abortDue then 1 else 0) == if f.sending && f.stage.outcome.DeadlineExceeded? then 1 else 0)
    && (f.stage.Published? ==> f.aborts == if f.sending && f.stage.outcome.DeadlineExceeded? then 1 else 0)
  }

  /** Progress is one way: a claim is never taken back, a result never changes, and a command that was
      terminal before it started is never started. */
  ghost predicate Advances(f: Future, f': Future) {
    && f'.deadline == f.deadline
    && (f.sending ==> f'.sending)
    && (f.Terminal() ==> f'.Terminal() && f'.stage.outcome == f.stage.outcome && f'.stage.at == f.stage.at && f'.sending == f.sending)
    && (f.stage.Published? ==> f' == f)
    && f.aborts <= f'.aborts
  }

  lemma StepKeepsSound(f: Future, f': Future, step: Step, now: Time)
    requires Sound(f) && Next(f, f', step, now)
    ensures Sound(f') && Advances(f, f')
    ensures !f.Terminal() && f'.Terminal() ==> f'.stage.Claimed?
  {
  }

  lemma AdvancesReflexive(f: Future)
    ensures Advances(f, f)
  {
  }

  lemma AdvancesTransitive(a: Future, b: Future, c: Future)
    requires Advances(a, b) && Advances(b, c)
    ensures Advances(a, c)
  {
  }

  datatype Event = Event(step: Step, now: Time)

  ghost predicate History(states: seq<Future>, events: seq<Event>, deadline: Option<Time>) {
    && |states| == |events| + 1 && states[0] == Fresh(deadline)
    && forall i :: 0 <= i < |events| ==> Next(states[i], states[i + 1], events[i].step, events[i].now)
  }

  lemma {:induction false} HistoryIsSound(states: seq<Future>, events: seq<Event>, deadline: Option<Time>, i: nat, j: nat)
    requires History(states, events, deadline) && i <= j < |states|
    ensures Sound(states[j]) && Advances(states[i], states[j])
    decreases j
  {
    if i < j {
      HistoryIsSound(states, events, deadline, i, j - 1);
      StepKeepsSound(states[j - 1], states[j], events[j - 1].step, events[j - 1].now);
      AdvancesTransitive(states[i], states[j - 1], states[j]);
    } else if j > 0 {
      HistoryIsSound(states, events, deadline, j - 1, j - 1);
      StepKeepsSound(states[j - 1], states[j], events[j - 1].step, events[j - 1].now);
    }
  }

  /** Exactly one event makes the completion terminal, and exactly one publishes it. */
  lemma OneClaimOnePublication(states: seq<Future>, events: seq<Event>, deadline: Option<Time>, i: nat, j: nat)
    requires History(states, events, deadline) && i < |events| && j < |events|
    ensures !states[i].Terminal() && states[i + 1].Terminal() && !states[j].Terminal() && states[j + 1].Terminal() ==> i == j
    ensures events[i].step.PublishStep? && events[j].step.PublishStep? ==> i == j
    ensures events[i].step.AbortStep? && events[j].step.AbortStep? ==> i == j
  {
    if i < j {
      HistoryIsSound(states, events, deadline, i + 1, j);
      StepsAreSpent(states, events, deadline, i, j);
    } else if j < i {
      HistoryIsSound(states, events, deadline, j + 1, i);
      StepsAreSpent(states, events, deadline, j, i);
    }
  }

  lemma StepsAreSpent(states: seq<Future>, events: seq<Event>, deadline: Option<Time>, i: nat, j: nat)
    requires History(states, events, deadline) && i < j < |events|
    ensures !(events[i].step.PublishStep? && events[j].step.PublishStep?)
    ensures !(events[i].step.AbortStep? && events[j].step.AbortStep?)
  {
    HistoryIsSound(states, events, deadline, i + 1, j);
    HistoryIsSound(states, events, deadline, j + 1, j + 1);
    assert Next(states[i], states[i + 1], events[i].step, events[i].now);
    assert Next(states[j], states[j + 1], events[j].step, events[j].now);
  }

  /** A command cancelled or expired before its send is never begun, and a begun one is never cancelled. */
  lemma NeverBegunAfterTerminal(states: seq<Future>, events: seq<Event>, deadline: Option<Time>, i: nat, j: nat)
    requires History(states, events, deadline) && i <= j < |states|
    ensures states[i].Terminal() && !states[i].sending ==> !states[j].sending
    ensures states[j].Terminal() && states[j].stage.outcome.Cancelled? ==> !states[i].sending
    ensures states[i].sending ==> !(states[j].Terminal() && states[j].stage.outcome.Cancelled?)
    ensures states[j].Terminal() && states[j].stage.outcome.Succeeded? && deadline.Some? ==> states[j].stage.at < deadline.value
  {
    HistoryIsSound(states, events, deadline, i, j);
    HistoryIsSound(states, events, deadline, 0, j);
  }

  // ---- The object ------------------------------------------------------------------------

  /** The lock-guarded control block and the result cell, shared by every handle of one command. */
  class CompletionCell {
    const deadline: Option<Time>
    var terminal: bool
    var sending: bool
    var abort: bool           // the transport's abort hook is installed
    var delegate: CommandFuture?   // a persistence handle's underlying command
    var result: Option<Outcome>
    ghost var model: Future

    ghost predicate Valid()
      reads this
    {
      && Sound(model)
      && deadline == model.deadline && terminal == model.Terminal() && sending == model.sending
      && abort == model.abortInstalled
      && result == if model.stage.Published? then Some(model.stage.outcome) else None
    }

    constructor (deadline: Option<Time>)
      ensures Valid() && model == Fresh(deadline) && delegate == null
    {
      this.deadline := deadline;
      terminal, sending, abort, delegate, result := false, false, false, null, None;
      model := Fresh(deadline);
    }
  }

  /** A caller's handle. Coalesced submissions hold distinct handles on one cell. */
  class CommandFuture {
    const cell: CompletionCell

    constructor (cell: CompletionCell)
      ensures this.cell == cell
    {
      this.cell := cell;
    }

    /** A handle on a completion nothing has happened to yet. */
    ghost predicate Opened(deadline: Option<Time>)
      reads cell
    {
      cell.Valid() && cell.model == Fresh(deadline)
    }

    /** A distinct handle on the same completion. */
    method Share() returns (shared: CommandFuture)
      ensures fresh(shared) && shared.cell == cell
    {
      shared := new CommandFuture(cell);
    }

    /** Hand later cancellations on to an underlying command. */
    method DelegateCancel(command: CommandFuture)
      requires cell.Valid()
      modifies cell`delegate
      ensures cell.Valid() && cell.delegate == command
    {
      cell.delegate := command;
    }

    /** The locked block of a cancellation. The caller publishes when it claimed the completion, and asks the delegate
        when there is one. */
    method ClaimCancel(ghost now: Time) returns (claimed: bool, delegate: CommandFuture?)
      requires cell.Valid()
      modifies if cell.delegate == null then {cell} else {}
      ensures cell.Valid() && cell.delegate == old(cell.delegate)
      ensures cell.model == if old(cell.delegate) == null then Cancel(old(cell.model), now) else old(cell.model)
      ensures claimed <==> old(cell.delegate) == null && Cancellable(old(cell.model))
      ensures delegate == if Cancellable(old(cell.model)) then old(cell.delegate) else null
    {
      if cell.terminal || cell.sending {
        return false, null;
      }
      delegate := cell.delegate;
      if delegate == null {
        cell.terminal := true;
        cell.model := Cancel(cell.model, now);
        claimed := true;
      } else {
        claimed := false;
      }
    }

    /** This handle's completion, its delegate's, and so on to the command that is cancelled in the end. */
    ghost predicate Delegates(chain: seq<CompletionCell>)
      reads chain
    {
      && chain != [] && chain[0] == cell && chain[|chain| - 1].delegate == null
      && (forall c <- chain :: c.Valid())
      && (forall i :: 0 <= i < |chain| - 1 ==> chain[i].delegate != null && chain[i].delegate.cell == chain[i + 1])
    }

    /** Cancel before the send. A handle that delegates is finished by its underlying command, not by this call:
        only the last completion of the chain becomes terminal, and only if every one of them still could. */
    method CancelCommand(ghost now: Time, ghost chain: seq<CompletionCell>) returns (cancelled: bool)
      requires Delegates(chain)
      modifies chain[|chain| - 1]
      decreases |chain|
      ensures cancelled <==> forall c <- chain :: Cancellable(old(c.model))
      ensures forall c <- chain :: c.Valid() && c.delegate == old(c.delegate)
      ensures forall c <- chain :: c != chain[|chain| - 1] ==> c.model == old(c.model)
      ensures var last := chain[|chain| - 1];
        last.model == if cancelled then Publish(Cancel(old(last.model), now)) else old(last.model)
      ensures cancelled ==> chain[|chain| - 1].terminal && chain[|chain| - 1].result == Some(Cancelled)
    {
      assert chain[0] in chain && cell.Valid();
      hide CompletionCell.Valid;
      var claimed, delegate := ClaimCancel(now);
      if claimed {
        SetResult(Cancelled);
        return true;
      }
      if delegate == null {
        return false;
      }
      ghost var rest := chain[1..];
      assert forall c :: c in chain <==> c == chain[0] || c in rest;
      cancelled := delegate.CancelCommand(now, rest);
    }

    /** Exclude cancellation once transport owns the send. The second result asks for an expiry. */
    method BeginSend(now: Time) returns (begun: bool, expire: bool)
      requires cell.Valid()
      modifies cell
      ensures cell.Valid() && cell.model == StartSend(old(cell.model), now)
      ensures begun <==> !old(cell.model).Terminal() && !old(cell.model).Expired(now)
      ensures expire <==> !old(cell.model).Terminal() && old(cell.model).Expired(now)
      ensures cell.delegate == old(cell.delegate)
    {
      if cell.terminal {
        return false, false;
      }
      if cell.deadline.None? || now < cell.deadline.value {
        cell.sending := true;
        cell.abort := true;
        cell.model := StartSend(cell.model, now);
        return true, false;
      }
      return false, true;
    }

    /** The locked block of a finish; false stands for the error of a second finish. */
    method ClaimFinish(outcome: Outcome, now: Time) returns (claimed: bool, verdict: Outcome, abortDue: bool)
      requires cell.Valid() && !outcome.Cancelled?
      modifies cell
      ensures cell.Valid() && cell.model == Finish(old(cell.model), outcome, now)
      ensures claimed <==> !old(cell.model).Terminal()
      ensures claimed ==> cell.model.stage == Claimed(verdict, now, abortDue)
      ensures claimed ==> verdict == if cell.deadline.Some? && cell.deadline.value <= now then DeadlineExceeded else outcome
      ensures cell.delegate == if claimed then null else old(cell.delegate)
    {
      verdict, abortDue := outcome, false;
      if cell.terminal {
        return false, verdict, abortDue;
      }
      if cell.deadline.Some? && now >= cell.deadline.value {
        verdict := DeadlineExceeded;
      }
      cell.terminal := true;
      if verdict.DeadlineExceeded? {
        abortDue := cell.abort;
      }
      cell.abort := false;
      cell.delegate := null;
      cell.model := Finish(cell.model, outcome, now);
      return true, verdict, abortDue;
    }

    /** Interrupt the transport, outside the lock and before publication. */
    ghost method RunAbort()
      requires cell.Valid() && cell.model.stage.Claimed? && cell.model.stage.abortDue
      modifies cell
      ensures cell.Valid() && cell.model == Abort(old(cell.model))
    {
      cell.model := Abort(cell.model);
    }

    /** Set the result, waking every handle of the command. */
    method SetResult(outcome: Outcome)
      requires cell.Valid() && cell.model.stage.Claimed? && !cell.model.stage.abortDue && cell.model.stage.outcome == outcome
      modifies cell`result, cell`model
      ensures cell.Valid() && cell.model == Publish(old(cell.model))
    {
      cell.result := Some(outcome);
      cell.model := Publish(cell.model);
    }

    method Done() returns (done: bool)
      requires cell.Valid()
      ensures done <==> cell.model.stage.Published?
    {
      done := cell.result.Some?;
    }
  }
}
