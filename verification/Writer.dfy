/** The writer object: pending receipts, the counters, and how one completion is finished. */
module Writer {
  import opened Sequences
  import opened Completion

  /** The transport's one-shot handle for one attempted send. */
  class TransportReceipt {
    var done: bool
    var error: Option<Outcome>

    constructor ()
      ensures !done && error.None?
    {
      done, error := false, None;
    }

    /** Record the result of the attempt; only the first call does. */
    method Finish(outcome: Outcome) returns (first: bool)
      modifies this
      ensures first == !old(done) && done
      ensures error == if first then Some(outcome) else old(error)
    {
      first := !done;
      if first {
        done, error := true, Some(outcome);
      }
    }
  }

  /** The answer a command gets from the finish that decides it. */
  function Decision(deadline: Option<Time>, outcome: Outcome, now: Time): Outcome {
    match deadline
    case Some(due) => if now < due then outcome else DeadlineExceeded
    case None => outcome
  }

  /** What a sweep at the end of a stop leaves of a command: an open one has failed, unless its deadline had passed
      by the clock reading made for it; any other is as it was. */
  ghost predicate Swept(f: Future, f': Future, now: Time) {
    && (f.Terminal() ==> f' == f)
    && (!f.Terminal() ==> f'.stage.Published? && f'.stage.outcome == Decision(f.deadline, Failed("writer stopped"), now))
  }

  class CommandWriter {
    var pending: map<TransportReceipt, CommandFuture>
    var completed: nat
    var completionFailures: nat
    var discardedDuringShutdown: nat

    ghost function Cells(): set<CompletionCell>
      reads this
    {
      set receipt <- pending :: pending[receipt].cell
    }

    ghost predicate Valid()
      reads this, Cells()
    {
      forall receipt <- pending :: pending[receipt].cell.Valid()
    }

    constructor ()
      ensures Valid() && pending == map[] && completed == completionFailures == discardedDuringShutdown == 0
    {
      pending, completed, completionFailures, discardedDuringShutdown := map[], 0, 0, 0;
    }

    method Enrol(receipt: TransportReceipt, completion: CommandFuture)
      requires Valid() && completion.cell.Valid()
      modifies `pending
      ensures Valid() && pending == old(pending)[receipt := completion]
    {
      pending := pending[receipt := completion];
    }

    /** Finish a command unless somebody already has; the hook runs before the result is published. */
    method FinishCompletion(completion: CommandFuture, outcome: Outcome, now: Time)
      requires completion.cell.Valid() && !outcome.Cancelled?
      modifies completion.cell, `completed, `completionFailures
      ensures completion.cell.Valid()
      ensures old(completion.cell.terminal) ==>
        completion.cell.model == old(completion.cell.model) && completed == old(completed) && completionFailures == old(completionFailures)
      ensures !old(completion.cell.terminal) ==>
        completion.cell.result == Some(Decision(completion.cell.deadline, outcome, now)) && completion.cell.terminal
      ensures completed + completionFailures == old(completed + completionFailures) + if old(completion.cell.terminal) then 0 else 1
      ensures completed == old(completed) + if outcome.Succeeded? && !old(completion.cell.terminal) then 1 else 0
    {
      var claimed, verdict, abortDue := completion.ClaimFinish(outcome, now);
      if !claimed {
        return;
      }
      if abortDue {
        completion.RunAbort();
      }
      completion.SetResult(verdict);
      if outcome.Succeeded? {
        completed := completed + 1;
      } else {
        completionFailures := completionFailures + 1;
      }
    }

    /** The receipt's callback: whoever takes the pending entry finishes the command, and nobody takes it twice. */
    method CompleteReceipt(receipt: TransportReceipt, outcome: Outcome, now: Time)
      requires Valid() && !outcome.Cancelled?
      modifies this, Cells()
      ensures Valid() && pending == old(pending) - {receipt}
      ensures receipt in old(pending) ==> var cell := old(pending)[receipt].cell;
        && cell.terminal
        && (old(cell.terminal) ==> cell.model == old(cell.model))
        && (!old(cell.terminal) ==> cell.result == Some(Decision(cell.deadline, outcome, now)))
      ensures completed == old(completed)
        + if receipt in old(pending) && !old(pending[receipt].cell.terminal) && outcome.Succeeded? then 1 else 0
      ensures completionFailures == old(completionFailures)
        + if receipt in old(pending) && !old(pending[receipt].cell.terminal) && !outcome.Succeeded? then 1 else 0
      ensures forall r <- old(pending) | r != receipt && receipt in old(pending) && old(pending)[r].cell != old(pending)[receipt].cell ::
        old(pending)[r].cell.model == old(pending[r].cell.model)
    {
      if receipt !in pending {
        assert pending - {receipt} == pending;
        return;
      }
      var completion := pending[receipt];
      assert completion.cell in Cells();
      pending := pending - {receipt};
      FinishCompletion(completion, outcome, now);
    }

    /** At the end of a stop: fail every command whose receipt is still pending. */
    method FailPending(clock: CompletionCell -> Time)
      requires Valid()
      modifies this, Cells()
      ensures Valid() && pending == map[]
      ensures discardedDuringShutdown == old(discardedDuringShutdown) + |old(pending)| && completed == old(completed)
      ensures forall r <- old(pending) :: var cell := old(pending)[r].cell;
        cell.Valid() && Swept(old(pending[r].cell.model), cell.model, clock(cell))
    {
      hide *;
      ghost var all, cells, was := pending, Cells(), ModelsOf(Cells());
      PendingCells();
      AllUnswept(cells, was, clock);
      assert forall r <- all :: was[all[r].cell] == old(all[r].cell.model);
      discardedDuringShutdown := discardedDuringShutdown + |pending|;
      while pending != map[]
        invariant Sweeping(all, cells, was, clock)
        invariant discardedDuringShutdown == old(discardedDuringShutdown) + |all| && completed == old(completed)
        decreases |pending|
      {
        var receipt :| receipt in pending;
        StillSwept(all, cells, was, clock, receipt);
        FailOne(receipt, clock, all, cells, was);
      }
      NothingPending();
      SweepIsOver(all, cells, was, clock);
    }

    ghost function ModelsOf(cells: set<CompletionCell>): (models: map<CompletionCell, Future>)
      reads cells
      ensures models.Keys == cells && forall c <- cells :: models[c] == c.model
    {
      map c: CompletionCell | c in cells :: c.model
    }

    /** Every command of the sweep is as it was before it, or has been swept. */
    ghost predicate Progress(cells: set<CompletionCell>, was: map<CompletionCell, Future>, clock: CompletionCell -> Time)
      reads cells
    {
      forall c <- cells :: c.Valid() && c in was && (c.model == was[c] || Swept(was[c], c.model, clock(c)))
    }

    /** Beside that, the commands whose entries were taken out have all been swept. */
    ghost predicate Sweeping(all: map<TransportReceipt, CommandFuture>, cells: set<CompletionCell>, was: map<CompletionCell, Future>, clock: CompletionCell -> Time)
      reads `pending, cells
    {
      && (forall r <- pending :: r in all && pending[r] == all[r])
      && (forall r <- all :: all[r].cell in cells && all[r].cell in was)
      && Progress(cells, was, clock)
      && (forall r <- all :: r in pending || Swept(was[all[r].cell], all[r].cell.model, clock(all[r].cell)))
    }

    lemma AllUnswept(cells: set<CompletionCell>, was: map<CompletionCell, Future>, clock: CompletionCell -> Time)
      requires forall r <- pending :: pending[r].cell in cells
      requires forall c <- cells :: c.Valid() && c in was && was[c] == c.model
      ensures Sweeping(pending, cells, was, clock)
    {
    }

    lemma StillSwept(all: map<TransportReceipt, CommandFuture>, cells: set<CompletionCell>, was: map<CompletionCell, Future>, clock: CompletionCell -> Time, receipt: TransportReceipt)
      requires Sweeping(all, cells, was, clock) && receipt in pending
      ensures pending[receipt].cell in cells
    {
    }

    lemma SweepIsOver(all: map<TransportReceipt, CommandFuture>, cells: set<CompletionCell>, was: map<CompletionCell, Future>, clock: CompletionCell -> Time)
      requires Sweeping(all, cells, was, clock) && pending == map[]
      ensures forall r <- all :: all[r].cell.Valid() && all[r].cell in was && Swept(was[all[r].cell], all[r].cell.model, clock(all[r].cell))
    {
    }

    lemma PendingCells()
      requires Valid()
      ensures forall r <- pending :: pending[r].cell in Cells()
      ensures forall c <- Cells() :: c.Valid()
    {
    }

    lemma NothingPending()
      requires pending == map[]
      ensures Valid()
    {
    }

    /** Sweeping again changes nothing. */
    lemma SweptOnce(f: Future, g: Future, h: Future, now: Time)
      requires (g == f || Swept(f, g, now)) && Swept(g, h, now)
      ensures Swept(f, h, now)
    {
    }

    method FailCompletion(completion: CommandFuture, now: Time)
      requires completion.cell.Valid()
      modifies completion.cell, `completed, `completionFailures
      ensures completion.cell.Valid() && Swept(old(completion.cell.model), completion.cell.model, now) && completed == old(completed)
    {
      FinishCompletion(completion, Failed("writer stopped"), now);
    }

    /** One command of the sweep has been swept; every other is as it was. */
    method FailCell(completion: CommandFuture, clock: CompletionCell -> Time, ghost cells: set<CompletionCell>, ghost was: map<CompletionCell, Future>)
      requires Progress(cells, was, clock) && completion.cell in cells
      modifies completion.cell, `completed, `completionFailures
      ensures Progress(cells, was, clock) && completion.cell in was && completed == old(completed)
      ensures Swept(was[completion.cell], completion.cell.model, clock(completion.cell))
      ensures old(Swept(was[completion.cell], completion.cell.model, clock(completion.cell))) ==> completion.cell.model == old(completion.cell.model)
    {
      var cell := completion.cell;
      ghost var model := cell.model;
      hide CompletionCell.Valid;
      FailCompletion(completion, clock(cell));
      SweptOnce(was[cell], model, cell.model, clock(cell));
    }

    /** Take one entry out and fail its command. */
    method FailOne(receipt: TransportReceipt, clock: CompletionCell -> Time,
                   ghost all: map<TransportReceipt, CommandFuture>, ghost cells: set<CompletionCell>, ghost was: map<CompletionCell, Future>)
      requires receipt in pending && Sweeping(all, cells, was, clock)
      modifies `pending, `completed, `completionFailures, pending[receipt].cell
      ensures Sweeping(all, cells, was, clock) && |pending| < old(|pending|) && completed == old(completed)
    {
      ghost var before := pending;
      hide Swept, CompletionCell.Valid, Progress;
      FailCell(pending[receipt], clock, cells, was);
      pending := pending - {receipt};
      assert before.Keys == pending.Keys + {receipt};
    }
  }
}
