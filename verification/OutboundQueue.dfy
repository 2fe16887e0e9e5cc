/** The outbound queue object. Each method is one block under the queue's condition lock. */
module OutboundQueue {
  import opened Sequences
  import opened Completion
  import opened OutboundSpec

  /** One physical command, overwritten in place when a later submission joins it. */
  class QueuedCommand {
    const id: nat
    const completion: CommandFuture
    const deadline: Option<Time>
    var command: Command
    var size: pos
    ghost var absorbed: seq<Command>

    constructor (id: nat, command: Command, completion: CommandFuture, size: pos, deadline: Option<Time>)
      ensures this.id == id && this.completion == completion && this.size == size
      ensures Value() == Entry(id, command, size, deadline, [command])
    {
      this.id, this.command, this.completion, this.size, this.deadline := id, command, completion, size, deadline;
      absorbed := [command];
    }

    ghost function Value(): Entry
      reads this
    {
      Entry(id, command, size, deadline, absorbed)
    }
  }

  /** The objects stand for the entries, one for one. */
  ghost predicate Stands(queue: seq<QueuedCommand>, entries: seq<Entry>)
    reads queue
  {
    |queue| == |entries| && forall i :: 0 <= i < |queue| ==> queue[i].Value() == entries[i]
  }

  ghost predicate Filed(queue: seq<QueuedCommand>, queued: map<CommandFuture, QueuedCommand>, completions: seq<CommandFuture>) {
    && (forall i, j :: 0 <= i < j < |completions| ==> completions[i] != completions[j])
    && (forall x <- queue :: x.id < |completions| && x.completion == completions[x.id] && x.completion in queued && queued[x.completion] == x)
    && (forall c <- queued :: queued[c] in queue && queued[c].completion == c)
  }

  ghost predicate Timed(deadlines: map<CommandFuture, Time>, completions: seq<CommandFuture>, modelled: map<nat, Time>) {
    && (forall id <- modelled :: id < |completions| && completions[id] in deadlines && deadlines[completions[id]] == modelled[id])
    && (forall c <- deadlines :: exists id :: id in modelled && id < |completions| && completions[id] == c)
  }

  ghost predicate DistinctObjects(queue: seq<QueuedCommand>) {
    forall i, j :: 0 <= i < j < |queue| ==> queue[i] != queue[j]
  }

  lemma ObjectsAreEntries(queue: seq<QueuedCommand>, model: Outbound)
    requires Stands(queue, model.queue) && Identified(model)
    ensures DistinctObjects(queue)
  {
    forall i, j | 0 <= i < j < |queue| ensures queue[i] != queue[j] {
      var r := |model.received|;
      assert Line(model)[r + i] == model.queue[i] && Line(model)[r + j] == model.queue[j];
      assert queue[i].Value() == model.queue[i] && queue[j].Value() == model.queue[j];
    }
  }

  lemma StandsWithout(queue: seq<QueuedCommand>, entries: seq<Entry>, i: nat)
    requires Stands(queue, entries) && i < |queue|
    ensures Stands(RemoveAt(queue, i), RemoveAt(entries, i))
  {
  }

  lemma StandsWith(queue: seq<QueuedCommand>, entries: seq<Entry>, added: QueuedCommand)
    requires Stands(queue, entries)
    ensures Stands(queue + [added], entries + [added.Value()])
  {
  }

  lemma FiledWithout(queue: seq<QueuedCommand>, queued: map<CommandFuture, QueuedCommand>, completions: seq<CommandFuture>, i: nat)
    requires Filed(queue, queued, completions) && DistinctObjects(queue) && i < |queue|
    ensures Filed(RemoveAt(queue, i), queued - {queue[i].completion}, completions)
    ensures DistinctObjects(RemoveAt(queue, i))
  {
    var rest, gone := RemoveAt(queue, i), queue[i];
    forall x <- rest ensures x in queue && x != gone {
      var j: nat :| j < |rest| && rest[j] == x;
      assert x == queue[if j < i then j else j + 1];
    }
    assert gone in queue;
    forall c <- queued - {gone.completion} ensures queued[c] in rest {
      var j: nat :| j < |queue| && queue[j] == queued[c];
      assert j != i;
      assert rest[if j < i then j else j - 1] == queued[c];
    }
  }

  lemma FiledWith(queue: seq<QueuedCommand>, queued: map<CommandFuture, QueuedCommand>, completions: seq<CommandFuture>, added: QueuedCommand)
    requires Filed(queue, queued, completions)
    requires added.id == |completions| && added.completion !in completions
    ensures Filed(queue + [added], queued[added.completion := added], completions + [added.completion])
  {
    var q, m, cs := queue + [added], queued[added.completion := added], completions + [added.completion];
    assert q[|queue|] == added;
    forall x <- q ensures x.id < |cs| && x.completion == cs[x.id] && x.completion in m && m[x.completion] == x {
      if x in queue {
        assert completions[x.id] in completions;
      }
    }
    forall c <- m ensures m[c] in q && m[c].completion == c {
      if c != added.completion {
        assert queued[c] in queue;
      }
    }
  }

  lemma TimedWith(deadlines: map<CommandFuture, Time>, completions: seq<CommandFuture>, modelled: map<nat, Time>, added: CommandFuture, deadline: Option<Time>)
    requires Timed(deadlines, completions, modelled) && added !in completions
    ensures Timed(if deadline.Some? then deadlines[added := deadline.value] else deadlines, completions + [added],
                  if deadline.Some? then modelled[|completions| := deadline.value] else modelled)
  {
    var cs := completions + [added];
    var ds := if deadline.Some? then deadlines[added := deadline.value] else deadlines;
    var ms := if deadline.Some? then modelled[|completions| := deadline.value] else modelled;
    assert cs[|completions|] == added;
    forall c <- ds ensures exists id :: id in ms && id < |cs| && cs[id] == c {
      if deadline.Some? && c == added {
        assert |completions| in ms;
      } else {
        var id :| id in modelled && id < |completions| && completions[id] == c;
        assert id in ms && cs[id] == c;
      }
    }
    forall id <- ms ensures id < |cs| && cs[id] in ds && ds[cs[id]] == ms[id] {
      if id in modelled && id < |completions| {
        assert completions[id] in completions;
      }
    }
  }

  lemma TimedWithout(deadlines: map<CommandFuture, Time>, completions: seq<CommandFuture>, modelled: map<nat, Time>, id: nat)
    requires Timed(deadlines, completions, modelled) && id < |completions|
    requires forall i, j :: 0 <= i < j < |completions| ==> completions[i] != completions[j]
    ensures Timed(deadlines - {completions[id]}, completions, modelled - {id})
  {
    forall c <- deadlines - {completions[id]}
      ensures exists k :: k in modelled - {id} && k < |completions| && completions[k] == c {
      var k :| k in modelled && k < |completions| && completions[k] == c;
      assert k in modelled - {id};
    }
  }

  /** The counters the queue keeps, as functions of what happened to the submissions. */
  datatype Counters = Counters(accepting: bool, bytes: int, submitted: nat, enqueued: nat, coalesced: nat, dequeued: nat, rejected: nat)

  function CountersOf(q: Outbound): Counters {
    Counters(q.accepting, q.bytes, q.submitted, q.enqueued, q.coalesced, |q.received|, q.rejected)
  }

  lemma SubmittedShape(q: Outbound)
    ensures var q' := q.(submitted := q.submitted + 1);
      CountersOf(q') == CountersOf(q).(submitted := CountersOf(q).submitted + 1)
  {
  }

  lemma AppendShape(cfg: Config, q: Outbound, command: Command, deadline: Option<Time>)
    ensures var q' := Append(cfg, q, command, deadline); var size := cfg.sizeOf(command);
      CountersOf(q') == CountersOf(q).(bytes := CountersOf(q).bytes + size, enqueued := CountersOf(q).enqueued + 1) &&
      q'.deadlines == (if deadline.Some? then q.deadlines[q.enqueued := deadline.value] else q.deadlines) &&
      q'.enqueued == q.enqueued + 1 &&
      q'.queue == q.queue + [Entry(q.enqueued, command, size, deadline, [command])]
  {
  }

  lemma ReceiveShape(q: Outbound)
    requires q.queue != []
    ensures var q' := OutboundSpec.Receive(q);
      CountersOf(q') == CountersOf(q).(bytes := CountersOf(q).bytes - q.queue[0].size, dequeued := CountersOf(q).dequeued + 1) &&
      q'.deadlines == q.deadlines && q'.enqueued == q.enqueued && q'.queue == RemoveAt(q.queue, 0)
  {
  }

  lemma WithdrawShape(q: Outbound, i: nat)
    requires i < |q.queue|
    ensures var q' := Withdraw(q, i);
      CountersOf(q') == CountersOf(q).(bytes := CountersOf(q).bytes - q.queue[i].size) &&
      q'.deadlines == q.deadlines && q'.enqueued == q.enqueued && q'.queue == RemoveAt(q.queue, i)
  {
  }

  lemma DiscardShape(q: Outbound)
    ensures var q' := Discard(q);
      CountersOf(q') == CountersOf(q).(bytes := 0) &&
      q'.deadlines == q.deadlines && q'.enqueued == q.enqueued && q'.queue == []
  {
  }

  lemma JoinShape(cfg: Config, q: Outbound, command: Command)
    requires q.queue != []
    ensures var q' := Join(cfg, q, command); var n := |q.queue| - 1; var size := cfg.sizeOf(command);
      CountersOf(q') == CountersOf(q).(bytes := CountersOf(q).bytes - q.queue[n].size + size, coalesced := CountersOf(q).coalesced + 1) &&
      q'.deadlines == q.deadlines && q'.enqueued == q.enqueued && |q'.queue| == |q.queue| &&
      q'.queue[n] == q.queue[n].(command := command, size := size, absorbed := q.queue[n].absorbed + [command]) &&
      forall i :: 0 <= i < n ==> q'.queue[i] == q.queue[i]
  {
  }

  class OutboundCommandQueue {
    const cfg: Config
    var queue: seq<QueuedCommand>
    var queued: map<CommandFuture, QueuedCommand>
    var deadlines: map<CommandFuture, Time>
    var accepting: bool
    var currentBytes: int
    var submitted: nat
    var enqueued: nat
    var coalesced: nat
    var dequeued: nat
    var rejectedFull: nat
    var rejectedAfterShutdown: nat
    var rejectedOversized: nat
    var discardedDuringShutdown: nat
    ghost var completions: seq<CommandFuture>  // the first handle of every entry ever queued, by entry
    ghost var model: Outbound

    ghost function Counted(): Counters
      reads `accepting, `currentBytes, `submitted, `enqueued, `coalesced, `dequeued
      reads `rejectedFull, `rejectedAfterShutdown, `rejectedOversized
    {
      Counters(accepting, currentBytes, submitted, enqueued, coalesced, dequeued,
               rejectedFull + rejectedAfterShutdown + rejectedOversized)
    }

    ghost predicate Valid()
      reads this, queue
    {
      && Inv(cfg, model)
      && Counted() == CountersOf(model)
      && Stands(queue, model.queue)
      && Filed(queue, queued, completions)
      && Timed(deadlines, completions, model.deadlines)
      && |completions| == model.enqueued
    }

    ghost predicate TailOpen()
      reads this, queue, set x <- queue :: x.completion.cell
    {
      queue != [] && !queue[|queue| - 1].completion.cell.terminal
    }

    constructor (cfg: Config)
      ensures Valid() && model == Empty() && this.cfg == cfg
    {
      EmptyIsSound(cfg);
      hide Inv;
      this.cfg := cfg;
      queue, queued, deadlines, accepting, currentBytes := [], map[], map[], true, 0;
      submitted, enqueued, coalesced, dequeued := 0, 0, 0, 0;
      rejectedFull, rejectedAfterShutdown, rejectedOversized, discardedDuringShutdown := 0, 0, 0, 0;
      completions, model := [], Empty();
    }

    /** Whether the tail can absorb the command; the tail's own lock is held from here to the overwrite. */
    method CanJoin(command: Command, deadline: Option<Time>, size: pos) returns (joins: bool)
      requires Valid() && size == cfg.sizeOf(command)
      ensures joins == Absorbs(cfg, model, command, deadline, TailOpen())
      ensures joins ==> queue != [] && deadline == None
    {
      hide Inv, Filed, Timed;
      if deadline.Some? || !cfg.coalesce || |queue| == 0 {
        return false;
      }
      var tail := queue[|queue| - 1];
      assert tail.Value() == model.queue[|queue| - 1];
      if tail.deadline.Some? {
        return false;
      }
      var key := command.Cell();
      if key.None? || key != tail.command.Cell() {
        return false;
      }
      if currentBytes - tail.size + size > cfg.byteLimit {
        return false;
      }
      joins := !tail.completion.cell.terminal;
    }

    /** The books agree with the fields, so the object is valid again. */
    ghost method Record(books: Outbound)
      requires Inv(cfg, books) && Counted() == CountersOf(books) && Stands(queue, books.queue)
      requires Filed(queue, queued, completions) && Timed(deadlines, completions, books.deadlines)
      requires |completions| == books.enqueued
      modifies `model
      ensures Valid() && model == books
    {
      model := books;
    }

    /** Overwrite the tail in place and hand out a further handle on its completion. */
    method JoinTail(command: Command, size: pos) returns (handle: CommandFuture)
      requires Valid() && size == cfg.sizeOf(command) && Absorbs(cfg, model, command, None, TailOpen())
      modifies this, queue
      ensures Valid() && fresh(handle)
      ensures model == Join(cfg, old(model).(submitted := old(model).submitted + 1), command)
      ensures completions == old(completions) && queue == old(queue)
      ensures handle.cell == queue[|queue| - 1].completion.cell
    {
      hide *;
      BeforeJoin(command);
      var tail := queue[|queue| - 1];
      ghost var counted := model.(submitted := model.submitted + 1);
      ghost var joined := Join(cfg, counted, command);
      handle := tail.completion.Share();
      Overwrite(tail, command, size);
      CountJoin();
      StandsJoined(queue, counted.queue, joined.queue);
      Record(joined);
    }

    lemma Parts()
      requires Valid()
      ensures Inv(cfg, model) && Counted() == CountersOf(model) && Stands(queue, model.queue)
      ensures Filed(queue, queued, completions) && Timed(deadlines, completions, model.deadlines)
      ensures |completions| == model.enqueued == enqueued && |queue| == |model.queue|
      ensures DistinctObjects(queue)
    {
      ObjectsAreEntries(queue, model);
    }

    lemma TailIs(command: Command)
      requires Valid() && Absorbs(cfg, model, command, None, TailOpen())
      ensures queue != [] && |queue| == |model.queue|
      ensures var n := |queue| - 1; queue[n].size == model.queue[n].size && queue[n].Value() == model.queue[n]
      ensures forall i :: 0 <= i < |queue| ==> queue[i].Value() == model.queue[i]
    {
      hide Inv, Filed, Timed;
      assert queue[|queue| - 1].Value() == model.queue[|queue| - 1];
    }

    lemma BeforeJoin(command: Command)
      requires Valid() && Absorbs(cfg, model, command, None, TailOpen())
      ensures queue != [] && |queue| == |model.queue| && DistinctObjects(queue) && Stands(queue, model.queue)
      ensures Filed(queue, queued, completions)
      ensures var joined := Join(cfg, model.(submitted := model.submitted + 1), command);
        var n := |queue| - 1; var size := cfg.sizeOf(command); var c := Counted();
        && Inv(cfg, joined) && joined.enqueued == |completions| && |joined.queue| == |queue|
        && CountersOf(joined) == c.(bytes := c.bytes - queue[n].size + size, submitted := c.submitted + 1, coalesced := c.coalesced + 1)
        && Timed(deadlines, completions, joined.deadlines)
        && joined.queue[n] == queue[n].Value().(command := command, size := size, absorbed := queue[n].Value().absorbed + [command])
        && forall i :: 0 <= i < n ==> queue[i].Value() == model.queue[i] == joined.queue[i]
    {
      hide *;
      Parts();
      TailIs(command);
      JoinKeepsInv(cfg, model, command, TailOpen());
      SubmittedShape(model);
      JoinShape(cfg, model.(submitted := model.submitted + 1), command);
    }

    method Overwrite(tail: QueuedCommand, command: Command, size: pos)
      requires |queue| > 0 && queue[|queue| - 1] == tail && DistinctObjects(queue) && Stands(queue, model.queue)
      modifies `currentBytes, tail
      ensures Counted() == old(Counted()).(bytes := old(Counted()).bytes - old(tail.size) + size)
      ensures tail.Value() == old(tail.Value()).(command := command, size := size, absorbed := old(tail.Value()).absorbed + [command])
      ensures forall i :: 0 <= i < |queue| - 1 ==> queue[i].Value() == old(queue[i].Value())
    {
      currentBytes := currentBytes - tail.size + size;
      tail.command, tail.size := command, size;
      tail.absorbed := tail.absorbed + [command];
    }

    method CountJoin()
      modifies `submitted, `coalesced
      ensures Counted() == old(Counted()).(submitted := old(Counted()).submitted + 1, coalesced := old(Counted()).coalesced + 1)
    {
      submitted, coalesced := submitted + 1, coalesced + 1;
    }

    method AppendCommand(command: Command, size: pos, deadline: Option<Time>) returns (handle: CommandFuture)
      requires Valid() && size == cfg.sizeOf(command)
      requires |queue| < cfg.queueLimit && currentBytes + size <= cfg.byteLimit
      modifies this
      ensures Valid() && fresh(handle) && fresh(handle.cell)
      ensures handle.Opened(deadline)
      ensures model == Append(cfg, old(model).(submitted := old(model).submitted + 1), command, deadline)
      ensures completions == old(completions) + [handle]
    {
      hide *;
      BeforeAppend(command, deadline);
      ghost var appended := Append(cfg, model.(submitted := model.submitted + 1), command, deadline);
      var item := NewItem(command, size, deadline);
      handle := item.completion;
      ItemFits(item, deadline);
      Watch(handle, deadline);
      FileItem(item);
      completions := completions + [handle];
      Record(appended);
    }

    method NewItem(command: Command, size: pos, deadline: Option<Time>) returns (item: QueuedCommand)
      ensures fresh(item) && fresh(item.completion) && fresh(item.completion.cell)
      ensures item.id == enqueued && item.size == size && item.completion !in completions && item.completion.Opened(deadline)
      ensures item.Value() == Entry(enqueued, command, size, deadline, [command])
    {
      var cell := new CompletionCell(deadline);
      var handle := new CommandFuture(cell);
      OpenedCell(handle, deadline);
      hide *;
      item := new QueuedCommand(enqueued, command, handle, size, deadline);
    }

    lemma ItemFits(item: QueuedCommand, deadline: Option<Time>)
      requires Filed(queue, queued, completions) && Timed(deadlines, completions, model.deadlines) && Stands(queue, model.queue)
      requires item.id == |completions| && item.completion !in completions
      ensures Filed(queue + [item], queued[item.completion := item], completions + [item.completion])
      ensures Timed(if deadline.Some? then deadlines[item.completion := deadline.value] else deadlines, completions + [item.completion],
                    if deadline.Some? then model.deadlines[|completions| := deadline.value] else model.deadlines)
      ensures Stands(queue + [item], model.queue + [item.Value()])
    {
      hide *;
      FiledWith(queue, queued, completions, item);
      TimedWith(deadlines, completions, model.deadlines, item.completion, deadline);
      StandsWith(queue, model.queue, item);
    }

    method Watch(completion: CommandFuture, deadline: Option<Time>)
      modifies `deadlines
      ensures deadlines == if deadline.Some? then old(deadlines)[completion := deadline.value] else old(deadlines)
    {
      if deadline.Some? {
        deadlines := deadlines[completion := deadline.value];
      }
    }

    lemma BeforeAppend(command: Command, deadline: Option<Time>)
      requires Valid() && |queue| < cfg.queueLimit && currentBytes + cfg.sizeOf(command) <= cfg.byteLimit
      ensures Filed(queue, queued, completions) && Timed(deadlines, completions, model.deadlines)
      ensures Stands(queue, model.queue) && |completions| == enqueued
      ensures var appended := Append(cfg, model.(submitted := model.submitted + 1), command, deadline);
        var size := cfg.sizeOf(command); var c := Counted();
        && Inv(cfg, appended) && appended.enqueued == |completions| + 1
        && CountersOf(appended) == c.(bytes := c.bytes + size, submitted := c.submitted + 1, enqueued := c.enqueued + 1)
        && appended.deadlines == (if deadline.Some? then model.deadlines[|completions| := deadline.value] else model.deadlines)
        && appended.queue == model.queue + [Entry(enqueued, command, size, deadline, [command])]
    {
      hide *;
      Parts();
      BytesAgree();
      AppendKeepsInv(cfg, model, command, deadline);
      SubmittedShape(model);
      AppendShape(cfg, model.(submitted := model.submitted + 1), command, deadline);
    }

    lemma BytesAgree()
      requires Valid()
      ensures currentBytes == model.bytes
    {
      hide Inv, Filed, Timed, Stands;
    }

    method FileItem(item: QueuedCommand)
      modifies `queue, `queued, `currentBytes, `submitted, `enqueued
      ensures queue == old(queue) + [item] && queued == old(queued)[item.completion := item]
      ensures Counted() == old(Counted()).(bytes := old(Counted()).bytes + item.size, submitted := old(Counted()).submitted + 1, enqueued := old(Counted()).enqueued + 1)
    {
      queue := queue + [item];
      queued := queued[item.completion := item];
      currentBytes := currentBytes + item.size;
      submitted, enqueued := submitted + 1, enqueued + 1;
    }

    /** Count a refused submission. */
    method Reject(verdict: Verdict)
      requires Valid() && !verdict.Accepted()
      modifies `submitted, `rejectedFull, `rejectedAfterShutdown, `rejectedOversized, `model
      ensures Valid()
      ensures model == old(model).(submitted := old(model).submitted + 1, rejected := old(model).rejected + 1)
      ensures verdict.Full? ==> rejectedFull == old(rejectedFull) + 1
      ensures verdict.Closed? ==> rejectedAfterShutdown == old(rejectedAfterShutdown) + 1
      ensures verdict.Oversized? ==> rejectedOversized == old(rejectedOversized) + 1
    {
      ghost var refused := model.(submitted := model.submitted + 1, rejected := model.rejected + 1);
      RefusalKeepsInv(cfg, model);
      assert CountersOf(refused) == CountersOf(model).(submitted := model.submitted + 1, rejected := model.rejected + 1);
      hide Inv, Filed, Timed, Stands, CountersOf;
      CountRejection(verdict);
      Record(refused);
    }

    method CountRejection(verdict: Verdict)
      requires !verdict.Accepted()
      modifies `submitted, `rejectedFull, `rejectedAfterShutdown, `rejectedOversized
      ensures Counted() == old(Counted()).(submitted := old(submitted) + 1, rejected := old(Counted()).rejected + 1)
      ensures verdict.Full? ==> rejectedFull == old(rejectedFull) + 1
      ensures verdict.Closed? ==> rejectedAfterShutdown == old(rejectedAfterShutdown) + 1
      ensures verdict.Oversized? ==> rejectedOversized == old(rejectedOversized) + 1
    {
      submitted := submitted + 1;
      match verdict {
        case Closed => rejectedAfterShutdown := rejectedAfterShutdown + 1;
        case Oversized => rejectedOversized := rejectedOversized + 1;
        case Full => rejectedFull := rejectedFull + 1;
      }
    }

    /** The handle shares the completion of the entry that was queued under this number. */
    ghost predicate Carries(id: nat, handle: CommandFuture)
      reads `completions
    {
      id < |completions| && handle.cell == completions[id].cell
    }

    /** Accept a command, possibly into the tail, or refuse it. An accepted command gets a new handle on the
        completion of the entry that carries it. */
    method SendAsync(command: Command, deadline: Option<Time>) returns (verdict: Verdict, handle: CommandFuture?)
      requires Valid()
      modifies this, queue
      ensures Valid()
      ensures verdict == Decide(cfg, old(model), command, deadline, old(TailOpen()))
      ensures model == Send(cfg, old(model), command, deadline, old(TailOpen()))
      ensures if verdict.Accepted() then handle != null && fresh(handle) && Carries(verdict.id, handle) else handle == null
      ensures verdict.Enqueued? ==> completions == old(completions) + [handle] && handle.Opened(deadline)
      ensures !verdict.Enqueued? ==> completions == old(completions)
    {
      hide Inv, Counted, Stands, Timed, Filed, Decide, Join, Append, TailOpen;
      verdict := Classify(command, deadline);
      handle := null;
      match verdict {
        case Joined(id) =>
          TailIsFiled(id);
          handle := JoinTail(command, cfg.sizeOf(command));
        case Enqueued(id) =>
          handle := AppendCommand(command, cfg.sizeOf(command), deadline);
        case _ =>
          Reject(verdict);
      }
    }

    /** The admission decision, with the tests of the command queue in their order. */
    method Classify(command: Command, deadline: Option<Time>) returns (verdict: Verdict)
      requires Valid()
      ensures verdict == Decide(cfg, model, command, deadline, TailOpen())
      ensures verdict.Joined? ==> queue != [] && verdict.id == queue[|queue| - 1].id && Absorbs(cfg, model, command, None, TailOpen())
      ensures verdict.Enqueued? ==> verdict.id == |completions| && |queue| < cfg.queueLimit && currentBytes + cfg.sizeOf(command) <= cfg.byteLimit
    {
      var size := cfg.sizeOf(command);
      hide Inv, Timed, Filed, Absorbs, TailOpen;
      if !accepting {
        return Closed;
      }
      if size > cfg.byteLimit {
        return Oversized;
      }
      var joins := CanJoin(command, deadline, size);
      if joins {
        assert queue[|queue| - 1].Value() == model.queue[|queue| - 1];
        return Joined(queue[|queue| - 1].id);
      }
      if |queue| >= cfg.queueLimit || currentBytes + size > cfg.byteLimit {
        return Full;
      }
      return Enqueued(enqueued);
    }

    lemma TailIsFiled(id: nat)
      requires Valid() && queue != [] && id == queue[|queue| - 1].id
      ensures id < |completions| && completions[id] == queue[|queue| - 1].completion
    {
    }

    /** The next physical command in FIFO order, with its completion; None while nothing is queued. */
    method Receive() returns (command: Option<Command>, completion: CommandFuture?)
      requires Valid()
      modifies this
      ensures Valid() && completions == old(completions)
      ensures old(queue) == [] <==> completion == null
      ensures old(queue) == [] ==> command.None? && model == old(model)
      ensures old(queue) != [] ==> var head := old(model).queue[0];
        model == OutboundSpec.Receive(old(model)) && command == Some(head.command) &&
        head.id < |completions| && completion == completions[head.id] && queue == old(queue)[1..]
    {
      hide *;
      if |queue| == 0 {
        return None, null;
      }
      BeforeRemoval(0);
      ghost var rest := OutboundSpec.Receive(model);
      ReceiveKeepsInv(cfg, model);
      ReceiveShape(model);
      var head := queue[0];
      command, completion := Some(head.command), head.completion;
      FirstRemoved(queue);
      TakeOut(0);
      CountReceipt();
      Record(rest);
    }

    lemma FirstRemoved(s: seq<QueuedCommand>)
      requires s != []
      ensures RemoveAt(s, 0) == s[1..]
    {
    }

    lemma BeforeRemoval(i: nat)
      requires Valid() && i < |queue|
      ensures |queue| == |model.queue| && queue[i].Value() == model.queue[i]
      ensures Inv(cfg, model) && Counted() == CountersOf(model) && |completions| == model.enqueued
      ensures queue[i].id < |completions| && queue[i].completion == completions[queue[i].id]
      ensures Stands(RemoveAt(queue, i), RemoveAt(model.queue, i))
      ensures Filed(RemoveAt(queue, i), queued - {queue[i].completion}, completions)
      ensures Timed(deadlines, completions, model.deadlines)
      ensures queue[i].command == model.queue[i].command && queue[i].size == model.queue[i].size && queue[i].id == model.queue[i].id
    {
      hide Inv, CountersOf, Timed;
      Parts();
      FiledWithout(queue, queued, completions, i);
      StandsWithout(queue, model.queue, i);
      assert queue[i] in queue && queue[i].Value() == model.queue[i];
    }

    method CountReceipt()
      modifies `dequeued
      ensures Counted() == old(Counted()).(dequeued := old(Counted()).dequeued + 1)
    {
      dequeued := dequeued + 1;
    }

    method TakeOut(i: nat)
      requires i < |queue|
      modifies `queue, `queued, `currentBytes
      ensures queue == RemoveAt(old(queue), i) && queued == old(queued) - {old(queue)[i].completion}
      ensures Counted() == old(Counted()).(bytes := old(Counted()).bytes - old(queue)[i].size)
    {
      var item := queue[i];
      queue := RemoveAt(queue, i);
      queued := queued - {item.completion};
      currentBytes := currentBytes - item.size;
    }

    /** The completion callback: a finished command leaves the queue and the deadline watch. */
    method CommandFinished(completion: CommandFuture, ghost id: nat)
      requires Valid() && id < |completions| && completions[id] == completion
      modifies this
      ensures Valid() && completions == old(completions)
      ensures IsFinish(old(model), id, model)
    {
      hide *;
      Parts();
      ghost var was := model;
      if completion in queued {
        var item := queued[completion];
        FiledItem(queue, queued, completions, completion, id);
        var i := Position(item);
        BeforeRemoval(i);
        WithdrawItem(i);
        Unwatch(completion, id);
        FoundAndFinished(was, id, i, model);
      } else {
        NotQueued(queue, queued, completions, model.queue, id);
        Unwatch(completion, id);
        AbsentAndFinished(was, id, model);
      }
    }

    method WithdrawItem(i: nat)
      requires Valid() && i < |queue|
      modifies `queue, `queued, `currentBytes, `model
      ensures Valid() && i < |old(model).queue| && model == Withdraw(old(model), i)
    {
      hide *;
      BeforeRemoval(i);
      Parts();
      ghost var rest := Withdraw(model, i);
      WithdrawKeepsInv(cfg, model, i);
      WithdrawShape(model, i);
      ghost var left := RemoveAt(queue, i);
      assert Stands(left, rest.queue);
      TakeOut(i);
      assert queue == left;
      Record(rest);
    }

    method Position(item: QueuedCommand) returns (i: nat)
      requires item in queue
      ensures i < |queue| && queue[i] == item
    {
      i := 0;
      while queue[i] != item
        invariant i < |queue| && item !in queue[..i]
        decreases |queue| - i
      {
        i := i + 1;
      }
    }

    /** Forget a deadline: the command finished, or its deadline fell due. */
    method Unwatch(completion: CommandFuture, ghost id: nat)
      requires Valid() && id < |completions| && completions[id] == completion
      modifies this`deadlines, this`model
      ensures Valid() && model == ForgetDeadline(old(model), id)
    {
      ghost var forgotten := ForgetDeadline(model, id);
      Parts();
      ForgetKeepsInv(cfg, model, id);
      TimedWithout(deadlines, completions, model.deadlines, id);
      assert CountersOf(forgotten) == CountersOf(model) && forgotten.queue == model.queue;
      assert forgotten.deadlines == model.deadlines - {id} && forgotten.enqueued == model.enqueued;
      hide *;
      deadlines := deadlines - {completion};
      Record(forgotten);
    }

    /** The deadline the watch thread waits for: one that no other watched deadline precedes. */
    method EarliestDeadline() returns (completion: CommandFuture?, deadline: Time)
      ensures completion == null <==> deadlines == map[]
      ensures completion != null ==> completion in deadlines && deadlines[completion] == deadline
      ensures completion != null ==> forall c <- deadlines :: deadline <= deadlines[c]
    {
      completion, deadline := null, 0.0;
      var left := deadlines.Keys;
      while left != {}
        invariant left <= deadlines.Keys
        invariant completion == null <==> left == deadlines.Keys
        invariant completion != null ==> completion in deadlines && deadlines[completion] == deadline
        invariant completion != null ==> forall c <- deadlines.Keys - left :: deadline <= deadlines[c]
        decreases left
      {
        var c :| c in left;
        left := left - {c};
        if completion == null || deadlines[c] < deadline {
          completion, deadline := c, deadlines[c];
        }
      }
    }

    method StopAccepting()
      requires Valid()
      modifies this`accepting, this`model
      ensures Valid() && model == Stop(old(model))
    {
      ghost var stopped := Stop(model);
      StopKeepsInv(cfg, model);
      hide Inv, Filed, Timed, Stands;
      accepting := false;
      Record(stopped);
    }

    /** The second half of a shutdown whose drain timed out: the caller then fails every returned completion. */
    method DiscardQueued() returns (discarded: seq<CommandFuture>)
      requires Valid() && !accepting
      modifies `queue, `queued, `currentBytes, `discardedDuringShutdown, `model
      ensures Valid() && model == Discard(old(model)) && queue == []
      ensures |discarded| == |old(queue)| && discardedDuringShutdown == old(discardedDuringShutdown) + |discarded|
      ensures forall i :: 0 <= i < |discarded| ==> discarded[i] == old(queue)[i].completion
    {
      hide *;
      Parts();
      ghost var emptied := Discard(model);
      DiscardKeepsInv(cfg, model);
      DiscardShape(model);
      discardedDuringShutdown := discardedDuringShutdown + |queue|;
      discarded := EmptyOut();
      ClearBytes();
      NothingStands(queue);
      Record(emptied);
    }

    method ClearBytes()
      modifies `currentBytes
      ensures Counted() == old(Counted()).(bytes := 0)
    {
      currentBytes := 0;
    }

    method EmptyOut() returns (discarded: seq<CommandFuture>)
      requires Filed(queue, queued, completions) && DistinctObjects(queue)
      modifies `queue, `queued
      ensures queue == [] && Filed(queue, queued, completions)
      ensures |discarded| == |old(queue)|
      ensures forall i :: 0 <= i < |discarded| ==> discarded[i] == old(queue)[i].completion
    {
      hide *;
      discarded := [];
      while queue != []
        invariant |discarded| + |queue| == |old(queue)|
        invariant queue == old(queue)[|discarded|..]
        invariant Filed(queue, queued, completions) && DistinctObjects(queue)
        invariant forall i :: 0 <= i < |discarded| ==> discarded[i] == old(queue)[i].completion
        decreases |queue|
      {
        var head := queue[0];
        FiledWithout(queue, queued, completions, 0);
        FirstRemoved(queue);
        discarded := discarded + [head.completion];
        queue := queue[1..];
        queued := queued - {head.completion};
      }
    }
  }

  lemma StandsJoined(queue: seq<QueuedCommand>, before: seq<Entry>, after: seq<Entry>)
    requires queue != [] && |queue| == |before| == |after|
    requires forall i :: 0 <= i < |queue| - 1 ==> queue[i].Value() == before[i] && after[i] == before[i]
    requires queue[|queue| - 1].Value() == after[|queue| - 1]
    ensures Stands(queue, after)
  {
  }

  lemma OpenedCell(handle: CommandFuture, deadline: Option<Time>)
    requires handle.cell.Valid() && handle.cell.model == Fresh(deadline)
    ensures handle.Opened(deadline)
  {
  }

  lemma NothingStands(queue: seq<QueuedCommand>)
    requires queue == []
    ensures Stands(queue, [])
  {
  }

  lemma FiledItem(
      queue: seq<QueuedCommand>, queued: map<CommandFuture, QueuedCommand>, completions: seq<CommandFuture>,
      completion: CommandFuture, id: nat)
    requires Filed(queue, queued, completions) && id < |completions| && completion == completions[id] && completion in queued
    ensures queued[completion] in queue && queued[completion].id == id
  {
  }

  lemma FoundAndFinished(q: Outbound, id: nat, i: nat, q': Outbound)
    requires i < |q.queue| && q.queue[i].id == id && q' == ForgetDeadline(Withdraw(q, i), id)
    ensures IsFinish(q, id, q')
  {
    assert IsQueuedAt(q, id, i);
  }

  lemma AbsentAndFinished(q: Outbound, id: nat, q': Outbound)
    requires (forall i :: 0 <= i < |q.queue| ==> q.queue[i].id != id) && q' == ForgetDeadline(q, id)
    ensures IsFinish(q, id, q')
  {
  }

  lemma NotQueued(
      queue: seq<QueuedCommand>, queued: map<CommandFuture, QueuedCommand>, completions: seq<CommandFuture>,
      entries: seq<Entry>, id: nat)
    requires Stands(queue, entries) && Filed(queue, queued, completions)
    requires id < |completions| && completions[id] !in queued
    ensures forall i :: 0 <= i < |entries| ==> entries[i].id != id
  {
    forall i: nat | i < |entries| ensures entries[i].id != id {
      assert queue[i].Value() == entries[i] && queue[i] in queue;
    }
  }
}
