/** The source queue object. Each method is one block under the queue's condition lock. */
module InboundQueue {
  import opened Sequences
  import opened Events
  import opened InboundSpec

  /** One queued event, overwritten in place when a rotation merges into it. */
  class QueuedEvent {
    const stamp: nat
    var event: Event
    var size: pos

    constructor (stamp: nat, event: Event, size: pos)
      ensures this.stamp == stamp && this.event == event && this.size == size
    {
      this.stamp, this.event, this.size := stamp, event, size;
    }

    function Value(): SizedEvent
      reads this
    {
      SizedEvent(stamp, event, size)
    }
  }

  /** The objects stand for the entries, one for one, and the merge index names queued objects. */
  ghost predicate Represents(queue: seq<QueuedEvent>, last: map<string, QueuedEvent>, model: Inbound)
    reads queue
  {
    && |queue| == |model.entries|
    && (forall i :: 0 <= i < |queue| ==> queue[i].Value() == model.entries[i])
    && last.Keys == model.last.Keys
    && (forall c <- last :: last[c] in queue && last[c].stamp == model.last[c])
  }

  lemma ObjectsAreStamps(queue: seq<QueuedEvent>, last: map<string, QueuedEvent>, model: Inbound)
    requires Represents(queue, last, model) && StampsSound(model)
    ensures forall i, j :: 0 <= i < |queue| && 0 <= j < |queue| && queue[i].stamp == queue[j].stamp ==> i == j
  {
    forall i, j | 0 <= i < |queue| && 0 <= j < |queue| && queue[i].stamp == queue[j].stamp ensures i == j {
      assert queue[i].Value() == model.entries[i] && queue[j].Value() == model.entries[j];
    }
  }

  /** A merge target's object is queued and belongs to the context it is filed under. */
  lemma TargetBelongs(queue: seq<QueuedEvent>, last: map<string, QueuedEvent>, model: Inbound, c: string) returns (i: nat)
    requires Represents(queue, last, model) && StampsSound(model) && IndexSound(model.entries, model.last) && c in last
    ensures i < |queue| && queue[i] == last[c] && model.entries[i].stamp == model.last[c]
    ensures model.entries[i].event.Key() == Some(c)
  {
    i :| 0 <= i < |queue| && queue[i] == last[c];
    var j: nat :| IsMergeTarget(model.entries, j, c, model.last[c]);
    assert queue[j].Value() == model.entries[j] && queue[i].Value() == model.entries[i];
    ObjectsAreStamps(queue, last, model);
    assert i == j;
  }

  function Forgotten(last: map<string, QueuedEvent>, queued: QueuedEvent): map<string, QueuedEvent>
    reads queued
  {
    var context := queued.event.CoalescingContext();
    if context.Some? && context.value in last && last[context.value] == queued then last - {context.value} else last
  }

  lemma RemovedTarget(queue: seq<QueuedEvent>, last: map<string, QueuedEvent>, model: Inbound, i: nat)
    requires Represents(queue, last, model) && StampsSound(model) && IndexSound(model.entries, model.last)
    requires i < |queue|
    ensures Forgotten(last, queue[i]).Keys == Forget(model.last, model.entries[i]).Keys
  {
    hide StampsSound, IndexSound, Represents;
    EntryOf(queue, last, model, i);
    var e := model.entries[i];
    SourceAndSchedulerAgreeOnBarriers(e.event);
    if e.event.Key().Some? && e.event.Key().value in last {
      var j := TargetBelongs(queue, last, model, e.event.Key().value);
      EntryOf(queue, last, model, j);
      ObjectsAreStamps(queue, last, model);
    }
  }

  lemma SizesAgree(queue: seq<QueuedEvent>, last: map<string, QueuedEvent>, model: Inbound)
    requires Represents(queue, last, model)
    ensures |queue| == |model.entries| && last.Keys == model.last.Keys
  {
  }

  lemma EntryOf(queue: seq<QueuedEvent>, last: map<string, QueuedEvent>, model: Inbound, i: nat)
    requires Represents(queue, last, model) && i < |queue|
    ensures |queue| == |model.entries| && queue[i].Value() == model.entries[i] && queue[i].event == model.entries[i].event
    ensures queue[i].stamp == model.entries[i].stamp
    ensures last.Keys == model.last.Keys
  {
    assert queue[i].Value() == model.entries[i];
  }

  lemma KeptTarget(queue: seq<QueuedEvent>, last: map<string, QueuedEvent>, model: Inbound, i: nat, c: string)
    requires Represents(queue, last, model) && StampsSound(model) && IndexSound(model.entries, model.last)
    requires i < |queue| && c in Forgotten(last, queue[i])
    ensures c in last && last[c] in RemoveAt(queue, i)
  {
    hide StampsSound, IndexSound, Represents;
    EntryOf(queue, last, model, i);
    var j := TargetBelongs(queue, last, model, c);
    SourceAndSchedulerAgreeOnBarriers(model.entries[i].event);
    assert j != i;
    hide Forgotten;
    assert RemoveAt(queue, i)[if j < i then j else j - 1] == last[c];
  }

  lemma RemovalRepresented(queue: seq<QueuedEvent>, last: map<string, QueuedEvent>, model: Inbound, i: nat)
    requires Represents(queue, last, model) && StampsSound(model) && IndexSound(model.entries, model.last)
    requires i < |queue|
    ensures Represents(RemoveAt(queue, i), Forgotten(last, queue[i]), Remove(model, i))
  {
    hide StampsSound, IndexSound;
    var q, l := RemoveAt(queue, i), Forgotten(last, queue[i]);
    EntryOf(queue, last, model, i);
    RemovedTarget(queue, last, model, i);
    forall c <- l ensures c in last && l[c] == last[c] && l[c] in q {
      KeptTarget(queue, last, model, i, c);
    }
    RemovedEntries(queue, model.entries, i);
    assert Remove(model, i).last == Forget(model.last, model.entries[i]) && Remove(model, i).entries == RemoveAt(model.entries, i);
    hide Forgotten, Forget, Remove, RemoveAt;
  }

  lemma RemovedEntries(queue: seq<QueuedEvent>, entries: seq<SizedEvent>, i: nat)
    requires |queue| == |entries| && i < |queue| && forall j :: 0 <= j < |queue| ==> queue[j].Value() == entries[j]
    ensures |RemoveAt(queue, i)| == |RemoveAt(entries, i)|
    ensures forall j :: 0 <= j < |queue| - 1 ==> RemoveAt(queue, i)[j].Value() == RemoveAt(entries, i)[j]
  {
    assert forall j :: 0 <= j < |queue| - 1 ==>
      RemoveAt(queue, i)[j] == queue[if j < i then j else j + 1] && RemoveAt(entries, i)[j] == entries[if j < i then j else j + 1];
  }

  function Unmerged(last: map<string, QueuedEvent>, event: Event): map<string, QueuedEvent> {
    var context := event.CoalescingContext();
    if context.None? then map[] else last - {context.value}
  }

  lemma RefusalRepresented(queue: seq<QueuedEvent>, last: map<string, QueuedEvent>, model: Inbound, event: Event)
    requires Represents(queue, last, model)
    ensures Represents(queue, Unmerged(last, event), Refuse(model, event))
  {
    SourceAndSchedulerAgreeOnBarriers(event);
  }

  function Merging(last: map<string, QueuedEvent>, event: Event, queued: QueuedEvent): map<string, QueuedEvent> {
    var context := event.CoalescingContext();
    if context.None? then map[] else last[context.value := queued]
  }

  lemma AppendRepresented(cfg: Config, queue: seq<QueuedEvent>, last: map<string, QueuedEvent>, model: Inbound, event: Event, queued: QueuedEvent)
    requires Represents(queue, last, model)
    requires queued.Value() == SizedEvent(model.nextStamp, event, cfg.sizeOf(event))
    ensures Represents(queue + [queued], Merging(last, event, queued), Append(cfg, model, event))
  {
    SourceAndSchedulerAgreeOnBarriers(event);
    var q, l := queue + [queued], Merging(last, event, queued);
    assert q[|queue|] == queued;
    assert forall i :: 0 <= i < |queue| ==> q[i] == queue[i];
    forall c <- l ensures l[c] in q {
      assert l[c] == queued || l[c] in queue;
    }
  }

  lemma MergesInPlace(cfg: Config, m: Inbound, e: Event, i: nat)
    requires Mergeable(cfg, m, e, i)
    ensures e.DialRotate? && i < |m.entries| && m.entries[i].event.DialRotate?
    ensures var q, event := Merge(cfg, m, e, i), Merged(m.entries[i].event, e);
      && q.entries == m.entries[i := SizedEvent(m.entries[i].stamp, event, cfg.sizeOf(event))] && q.last == m.last
      && event == e.(ticks := m.entries[i].event.ticks + e.ticks)
  {
  }

  lemma OthersApart(queue: seq<QueuedEvent>, last: map<string, QueuedEvent>, model: Inbound, i: nat)
    requires Represents(queue, last, model) && StampsSound(model) && i < |queue|
    ensures |queue| == |model.entries| && last.Keys == model.last.Keys
    ensures forall j :: 0 <= j < |queue| && j != i ==> queue[j] != queue[i] && queue[j].Value() == model.entries[j]
    ensures forall c <- last :: last[c] in queue && last[c].stamp == model.last[c]
  {
    ObjectsAreStamps(queue, last, model);
  }

  /** One object and one entry change alike. */
  lemma OverwriteRepresented(queue: seq<QueuedEvent>, last: map<string, QueuedEvent>, model: Inbound, model': Inbound, i: nat)
    requires |queue| == |model.entries| && i < |queue| && last.Keys == model.last.Keys && model'.last == model.last
    requires model'.entries == model.entries[i := queue[i].Value()]
    requires forall j :: 0 <= j < |queue| && j != i ==> queue[j].Value() == model.entries[j]
    requires forall c <- last :: last[c] in queue && last[c].stamp == model.last[c]
    ensures Represents(queue, last, model')
  {
  }

  /** The counters the queue keeps, as functions of what happened to the submitted events. */
  datatype Counts = Counts(
    accepting: bool, inFlight: int, bytes: int, enqueued: nat, submitted: nat, coalesced: int,
    dequeued: nat, acknowledged: int, dropped: nat)

  function CountsOf(m: Inbound): Counts {
    Counts(m.accepting, m.inFlight, m.bytes, m.nextStamp, |m.submitted|, m.coalesced, |m.delivered|, m.acknowledged,
           |m.evicted| + |m.refused| + |m.discarded|)
  }

  lemma CountsHold(m: Inbound)
    ensures CountsOf(m).accepting == m.accepting && CountsOf(m).bytes == m.bytes && CountsOf(m).enqueued == m.nextStamp
    ensures CountsOf(m).inFlight == m.inFlight && CountsOf(m).coalesced == m.coalesced
  {
  }

  lemma PlacementCounts(cfg: Config, m: Inbound, e: Event)
    ensures CountsOf(Refuse(m, e)) == CountsOf(m).(dropped := CountsOf(m).dropped + 1)
    ensures CountsOf(Append(cfg, m, e)) == CountsOf(m).(bytes := m.bytes + cfg.sizeOf(e), enqueued := m.nextStamp + 1)
    ensures CountsOf(m.(waiting := m.waiting + [e])) == CountsOf(m)
  {
  }

  lemma CoreParts(cfg: Config, m: Inbound)
    requires Core(cfg, m)
    ensures StampsSound(m) && IndexSound(m.entries, m.last)
  {
  }

  lemma RemovalCounts(m: Inbound, i: nat)
    requires i < |m.entries|
    ensures CountsOf(Remove(m, i)) == CountsOf(m).(bytes := m.bytes - m.entries[i].size)
    ensures CountsOf(Receive(m, i)) == CountsOf(m).(
      bytes := m.bytes - m.entries[i].size, dequeued := |m.delivered| + 1, inFlight := m.inFlight + 1)
  {
  }

  lemma InFlightIsNeverNegative(cfg: Config, m: Inbound)
    requires Inv(cfg, m)
    ensures 0 <= m.inFlight
  {
  }

  lemma AcknowledgementKept(cfg: Config, queue: seq<QueuedEvent>, last: map<string, QueuedEvent>, m: Inbound)
    requires Represents(queue, last, m) && Core(cfg, m)
    ensures Represents(queue, last, TaskDone(m)) && Core(cfg, TaskDone(m))
    ensures CountsOf(TaskDone(m)) == CountsOf(m).(inFlight := m.inFlight - 1, acknowledged := CountsOf(m).acknowledged + 1)
  {
  }

  lemma MergeCounts(cfg: Config, m: Inbound, e: Event, i: nat)
    requires Mergeable(cfg, m, e, i)
    ensures CountsOf(Merge(cfg, m, e, i)) == CountsOf(m).(
      bytes := m.bytes - m.entries[i].size + cfg.sizeOf(Merged(m.entries[i].event, e)), coalesced := m.coalesced + 1)
  {
  }

  class InboundEventQueue {
    const config: Config
    var queue: seq<QueuedEvent>
    var lastQueuedByContext: map<string, QueuedEvent>
    var accepting: bool
    var inFlight: int
    var currentBytes: int
    var enqueued: nat
    var submitted: nat
    var coalesced: nat
    var dequeued: nat
    var acknowledged: nat
    var dropped: nat  // every event explicitly not delivered, whatever the reason
    ghost var model: Inbound

    ghost predicate Counted()
      reads this
    {
      CountsOf(model) == Counts(accepting, inFlight, currentBytes, enqueued, submitted, coalesced, dequeued, acknowledged, dropped)
    }

    /** What also holds in the middle of a submission. */
    ghost predicate Placing()
      reads this, queue
    {
      Represents(queue, lastQueuedByContext, model) && Core(config, model) && Counted()
    }

    ghost predicate Valid()
      reads this, queue
    {
      Placing() && Inv(config, model) && AllAccounts(model)
    }

    /** The counters behind the metrics snapshot add up. */
    lemma MetricsBalance()
      requires Valid()
      ensures submitted == coalesced + dequeued + |queue| + dropped + |model.waiting|
      ensures dequeued == inFlight + acknowledged
    {
    }

    constructor (config: Config)
      ensures Valid() && this.config == config && model == Initial && fresh(this)
    {
      this.config := config;
      queue, lastQueuedByContext, accepting := [], map[], true;
      inFlight, currentBytes, enqueued := 0, 0, 0;
      submitted, coalesced, dequeued, acknowledged, dropped := 0, 0, 0, 0, 0;
      model := Initial;
    }

    /** Take position i out of the queue, forgetting it as a merge target. */
    method RemoveAtIndex(i: nat)
      requires Placing() && i < |queue|
      modifies this`queue, this`currentBytes, this`lastQueuedByContext, this`model
      ensures Placing() && model == Remove(old(model), i) && queue == RemoveAt(old(queue), i)
    {
      hide Core, Represents, CountsOf, Remove, RemoveAt, Forgotten, StampsSound, IndexSound;
      var queued := queue[i];
      EntryOf(queue, lastQueuedByContext, model, i);
      CoreParts(config, model);
      RemoveKeepsCore(config, model, i);
      RemovalRepresented(queue, lastQueuedByContext, model, i);
      RemovalCounts(model, i);
      CountsHold(model);
      currentBytes := currentBytes - queued.size;
      lastQueuedByContext := Forgotten(lastQueuedByContext, queued);
      queue := RemoveAt(queue, i);
      model := Remove(model, i);
    }

    /** Scan for a rotation to give up, from the end the overflow policy names. */
    method FindRotation() returns (victim: Option<nat>)
      requires Placing()
      ensures victim == Victim(config, model.entries)
    {
      hide Core;
      var n := |queue|;
      for offset := 0 to n
        invariant config.dropOldest ==> forall j :: 0 <= j < offset ==> !model.entries[j].event.DialRotate?
        invariant !config.dropOldest ==> forall j :: n - offset <= j < n ==> !model.entries[j].event.DialRotate?
      {
        var index := if config.dropOldest then offset else n - 1 - offset;
        assert queue[index].Value() == model.entries[index];
        if queue[index].event.DialRotate? {
          VictimIsUnique(config, model.entries, index);
          return Some(index);
        }
      }
      NoVictim(config, model.entries);
      return None;
    }

    method DropQueuedRotation() returns (removed: bool)
      requires Placing()
      modifies this`queue, this`currentBytes, this`lastQueuedByContext, this`model, this`dropped
      ensures Placing()
      ensures removed <==> Victim(config, old(model).entries).Some?
      ensures model == if removed then Evict(old(model), Victim(config, old(model).entries).value) else old(model)
      ensures dropped == old(dropped) + if removed then 1 else 0
      ensures forall o <- queue :: o in old(queue)
    {
      hide Core, Represents, CountsOf;
      SizesAgree(queue, lastQueuedByContext, model);
      var victim := FindRotation();
      if victim.None? {
        return false;
      }
      EntryOf(queue, lastQueuedByContext, model, victim.value);
      var event := queue[victim.value].event;
      RemoveAtIndex(victim.value);
      RecordEviction(event);
      return true;
    }

    method RecordEviction(event: Event)
      requires Placing()
      modifies this`model, this`dropped
      ensures Placing() && dropped == old(dropped) + 1
      ensures model == old(model).(evicted := old(model).evicted + [event])
    {
      model := model.(evicted := model.evicted + [event]);
      dropped := dropped + 1;
    }

    /** Stop merging for the event's context, or for every context behind a barrier, and count the refusal. */
    method RefuseEvent(event: Event)
      requires Placing()
      modifies this`lastQueuedByContext, this`model, this`dropped
      ensures Placing() && model == Refuse(old(model), event) && dropped == old(dropped) + 1
    {
      hide Core, Represents, CountsOf, Refuse;
      RefuseKeepsCore(config, model, event);
      RefusalRepresented(queue, lastQueuedByContext, model, event);
      PlacementCounts(config, model, event);
      lastQueuedByContext := Unmerged(lastQueuedByContext, event);
      model := Refuse(model, event);
      dropped := dropped + 1;
    }

    method AppendEvent(event: Event)
      requires Placing() && !Full(config, model, config.sizeOf(event))
      modifies this`queue, this`currentBytes, this`lastQueuedByContext, this`model, this`enqueued
      ensures Placing() && model == Append(config, old(model), event)
    {
      hide Core, Full, Represents, CountsOf, Append;
      CountsHold(model);
      AppendKeepsCore(config, model, event);
      PlacementCounts(config, model, event);
      var queued := new QueuedEvent(enqueued, event, config.sizeOf(event));
      AppendRepresented(config, queue, lastQueuedByContext, model, event, queued);
      Enqueue(queued, event);
    }

    method Enqueue(queued: QueuedEvent, event: Event)
      requires Represents(queue + [queued], Merging(lastQueuedByContext, event, queued), Append(config, model, event))
      requires Counted()
      modifies this`queue, this`currentBytes, this`lastQueuedByContext, this`model, this`enqueued
      ensures model == Append(config, old(model), event)
      ensures Represents(queue, lastQueuedByContext, model) && Counted()
    {
      hide Represents, CountsOf, Append, Merging;
      CountsHold(model);
      PlacementCounts(config, model, event);
      queue := queue + [queued];
      currentBytes := currentBytes + config.sizeOf(event);
      lastQueuedByContext := Merging(lastQueuedByContext, event, queued);
      enqueued := enqueued + 1;
      model := Append(config, model, event);
    }

    /** No capacity and nothing to evict: a lossless event waits unless its timeout has passed. */
    method RefuseOrWait(event: Event, expired: bool) returns (verdict: Verdict)
      requires Placing()
      modifies this`lastQueuedByContext, this`model, this`dropped
      ensures Placing()
      ensures model == if event.DialRotate? || expired then Refuse(old(model), event)
                       else old(model).(waiting := old(model).waiting + [event])
      ensures verdict == if event.DialRotate? || expired then Rejected else MustWait
    {
      hide Core, Represents, CountsOf, Refuse;
      if event.DialRotate? || expired {
        RefuseEvent(event);
        return Rejected;
      }
      CoreIgnoresWaiting(config, model, model.(waiting := model.waiting + [event]));
      WaitingRepresented(queue, lastQueuedByContext, model, model.(waiting := model.waiting + [event]));
      PlacementCounts(config, model, event);
      model := model.(waiting := model.waiting + [event]);
      return MustWait;
    }

    /** The capacity loop of a submission. */
    method PlaceEvent(event: Event, expired: bool) returns (verdict: Verdict)
      requires Placing()
      modifies this`queue, this`currentBytes, this`lastQueuedByContext, this`model, this`enqueued, this`dropped
      ensures Placing() && model == Place(config, old(model), event, expired)
      ensures verdict == VerdictOf(old(model), model)
    {
      var size := config.sizeOf(event);
      if event.DialRotate? && !config.dropOldest {
        hide Core;
        if |queue| >= config.queueLimit || currentBytes + size > config.byteLimit {
          RefuseEvent(event);
          return Rejected;
        }
        AppendEvent(event);
        return Accepted;
      }
      MakeRoomOnlyEvicts(config, model, size);
      var fits := EvictUntilFits(size);
      hide Placing, MakeRoom, Full, Append, Refuse;
      if fits {
        AppendEvent(event);
        return Accepted;
      }
      verdict := RefuseOrWait(event, expired);
    }

    /** Give up rotations until the size fits or none is left. */
    method EvictUntilFits(size: pos) returns (fits: bool)
      requires Placing()
      modifies this`queue, this`currentBytes, this`lastQueuedByContext, this`model, this`dropped
      ensures Placing() && model == MakeRoom(config, old(model), size)
      ensures fits == !Full(config, model, size)
    {
      hide Core;
      while |queue| >= config.queueLimit || currentBytes + size > config.byteLimit
        invariant Placing() && MakeRoom(config, model, size) == MakeRoom(config, old(model), size)
        decreases |queue|
      {
        ghost var before := model;
        assert Full(config, before, size) && |queue| == |before.entries|;
        var removed := DropQueuedRotation();
        if !removed {
          return false;
        }
        assert |queue| == |model.entries|;
      }
      return true;
    }

    /** Find the queued rotation a new one may merge into. */
    method MergeTarget(event: Event) returns (queued: Option<QueuedEvent>, ghost index: nat)
      requires Placing()
      ensures queued.Some? ==> Mergeable(config, model, event, index) && index < |queue| && queue[index] == queued.value
      ensures queued.None? ==> !exists i: nat :: Mergeable(config, model, event, i)
    {
      hide Core, Represents, CountsOf, StampsSound, IndexSound;
      CoreParts(config, model);
      SizesAgree(queue, lastQueuedByContext, model);
      CountsHold(model);
      index := 0;
      if !config.coalesceDials || !event.DialRotate? || event.context !in lastQueuedByContext {
        return None, 0;
      }
      var candidate := lastQueuedByContext[event.context];
      index := TargetBelongs(queue, lastQueuedByContext, model, event.context);
      EntryOf(queue, lastQueuedByContext, model, index);
      OnlyTarget(config, model, event, index);
      if !candidate.event.DialRotate? || candidate.event.dial != event.dial {
        return None, index;
      }
      var replacement := event.(ticks := candidate.event.ticks + event.ticks);
      if currentBytes - candidate.size + config.sizeOf(replacement) > config.byteLimit {
        return None, index;
      }
      return Some(candidate), index;
    }

    /** Merge a rotation into the queued one of its context, in place. */
    method MergeInto(queued: QueuedEvent, event: Event, ghost index: nat)
      requires Placing() && Mergeable(config, model, event, index) && index < |queue| && queue[index] == queued
      modifies this`currentBytes, this`model, this`coalesced, queue
      ensures Placing() && model == Merge(config, old(model), event, index)
    {
      assert StampsSound(model);
      hide Core, Represents, CountsOf, Mergeable, Merge, StampsSound;
      MergeKeepsCore(config, model, event, index);
      Overwrite(queued, event, index);
    }

    method Overwrite(queued: QueuedEvent, event: Event, ghost index: nat)
      requires Represents(queue, lastQueuedByContext, model) && Mergeable(config, model, event, index) && Counted()
      requires index < |queue| && queue[index] == queued
      requires StampsSound(model)
      modifies this`currentBytes, this`model, this`coalesced, queued
      ensures model == Merge(config, old(model), event, index)
      ensures Represents(queue, lastQueuedByContext, model) && Counted()
    {
      hide CountsOf, StampsSound, Mergeable, Merge, Represents;
      EntryOf(queue, lastQueuedByContext, model, index);
      MergeCounts(config, model, event, index);
      CountsHold(model);
      MergesInPlace(config, model, event, index);
      OthersApart(queue, lastQueuedByContext, model, index);
      var replacement := event.(ticks := queued.event.ticks + event.ticks);
      var size := config.sizeOf(replacement);
      currentBytes := currentBytes - queued.size + size;
      queued.event := replacement;
      queued.size := size;
      coalesced := coalesced + 1;
      OverwriteRepresented(queue, lastQueuedByContext, model, Merge(config, model, event, index), index);
      model := Merge(config, model, event, index);
    }

    /** Count the submission; it is then decided, or left waiting. */
    method CountSubmission(event: Event)
      requires Placing()
      modifies this`submitted, this`model
      ensures Placing() && model == old(model).(submitted := old(model).submitted + [event])
    {
      CoreIgnoresWaiting(config, model, model.(submitted := model.submitted + [event]));
      hide Core;
      submitted := submitted + 1;
      model := model.(submitted := model.submitted + [event]);
    }

    method RejectAfterShutdown(event: Event)
      requires Placing() && !accepting
      modifies this`dropped, this`model
      ensures Placing()
      ensures model == old(model).(refused := old(model).refused + [event], decided := old(model).decided + [event])
    {
      CoreAfterStop(config, model, model.(refused := model.refused + [event], decided := model.decided + [event]));
      hide Core;
      dropped := dropped + 1;
      model := model.(refused := model.refused + [event], decided := model.decided + [event]);
    }

    method Submit(event: Event, expired: bool) returns (verdict: Verdict)
      requires Valid()
      modifies this, queue
      ensures Valid() && Submits(config, old(model), model, event, expired)
      ensures verdict == VerdictOf(old(model), model)
    {
      ghost var before := model;
      hide Inv, AllAccounts, Core, Represents;
      CountSubmission(event);
      if !accepting {
        RejectAfterShutdown(event);
        verdict := Rejected;
      } else if config.sizeOf(event) > config.byteLimit {
        RefuseEvent(event);
        verdict := Rejected;
      } else {
        var target, index := MergeTarget(event);
        if target.Some? {
          MergeInto(target.value, event, index);
          verdict := Accepted;
        } else {
          verdict := PlaceEvent(event, expired);
        }
      }
      StepKeepsAll(config, before, model, SubmitStep(event, expired));
    }

    /** A blocked submission wakes up: its event is in hand again. */
    ghost method Wake(w: nat)
      requires Placing() && w < |model.waiting|
      modifies this`model
      ensures Placing() && model == Woken(old(model), w)
    {
      CoreIgnoresWaiting(config, model, Woken(model, w));
      hide Core;
      model := Woken(model, w);
    }

    /** Continue a blocked submission after a wake-up or its timeout. */
    method ResumeSubmission(event: Event, ghost w: nat, expired: bool) returns (verdict: Verdict)
      requires Valid() && w < |model.waiting| && model.waiting[w] == event
      modifies this, queue
      ensures Valid() && model == Resume(config, old(model), w, expired)
      ensures verdict == VerdictOf(Woken(old(model), w), model)
    {
      ghost var before := model;
      hide Inv, AllAccounts, Core, Represents, CountsOf;
      Wake(w);
      CountsHold(model);
      if !accepting {
        RefuseEvent(event);
        verdict := Rejected;
      } else {
        verdict := PlaceEvent(event, expired);
      }
      StepKeepsAll(config, before, model, ResumeStep(w, expired));
    }

    /** Hand over the selected entry; the consumer acknowledges it later. */
    method ReceiveSelected(index: nat) returns (event: SizedEvent)
      requires Valid() && index < |queue|
      modifies this
      ensures Valid() && model == Receive(old(model), index) && event == old(model).entries[index]
    {
      ghost var before := model;
      hide Inv, AllAccounts;
      assert |queue| == |model.entries| && queue[index].Value() == model.entries[index];
      event := queue[index].Value();
      RemoveAtIndex(index);
      CountDelivery(before, index);
      StepKeepsAll(config, before, model, ReceiveStep(index));
    }

    method CountDelivery(ghost before: Inbound, ghost index: nat)
      requires Placing() && index < |before.entries| && model == Remove(before, index)
      modifies this`model, this`dequeued, this`inFlight
      ensures Placing() && model == Receive(before, index)
    {
      RemovalCounts(before, index);
      DeliveryKeepsCore(config, before, index);
      DeliveryRepresented(queue, lastQueuedByContext, before, index);
      hide Core, Represents, CountsOf, Remove, Receive;
      dequeued := dequeued + 1;
      inFlight := inFlight + 1;
      model := Receive(before, index);
    }

    /** Acknowledge one received event; false stands for the error of an excess acknowledgement. */
    method Acknowledge() returns (ok: bool)
      requires Valid()
      modifies this
      ensures Valid() && ok == (old(model).inFlight > 0)
      ensures model == if ok then TaskDone(old(model)) else old(model)
    {
      hide Inv, AllAccounts, Core, Represents, CountsOf;
      CountsHold(model);
      if inFlight == 0 {
        return false;
      }
      InFlightIsNeverNegative(config, model);
      StepKeepsAll(config, model, TaskDone(model), TaskDoneStep);
      AcknowledgementKept(config, queue, lastQueuedByContext, model);
      inFlight := inFlight - 1;
      acknowledged := acknowledged + 1;
      model := TaskDone(model);
      return true;
    }

    method StopAccepting()
      requires Valid()
      modifies this
      ensures Valid() && model == Stop(old(model))
    {
      StepKeepsAll(config, model, Stop(model), StopStep);
      hide Inv, AllAccounts;
      accepting := false;
      model := Stop(model);
    }

    /** The end of a shutdown whose drain timed out. */
    method DiscardQueued()
      requires Valid() && !accepting
      modifies this
      ensures Valid() && model == DiscardQueue(old(model))
    {
      StepKeepsAll(config, model, DiscardQueue(model), DiscardStep);
      hide Inv, AllAccounts;
      dropped := dropped + |queue|;
      queue, currentBytes, lastQueuedByContext := [], 0, map[];
      model := DiscardQueue(model);
    }
  }

  lemma WaitingRepresented(queue: seq<QueuedEvent>, last: map<string, QueuedEvent>, model: Inbound, model': Inbound)
    requires Represents(queue, last, model) && model'.entries == model.entries && model'.last == model.last
    ensures Represents(queue, last, model')
  {
  }

  lemma DeliveryKeepsCore(cfg: Config, s: Inbound, index: nat)
    requires index < |s.entries| && Core(cfg, Remove(s, index))
    ensures Core(cfg, Receive(s, index))
  {
  }

  lemma DeliveryRepresented(queue: seq<QueuedEvent>, last: map<string, QueuedEvent>, s: Inbound, index: nat)
    requires index < |s.entries| && Represents(queue, last, Remove(s, index))
    ensures Represents(queue, last, Receive(s, index))
  {
  }

  lemma CoreIgnoresWaiting(cfg: Config, s: Inbound, s': Inbound)
    requires Core(cfg, s) && s' == s.(submitted := s'.submitted, waiting := s'.waiting)
    ensures Core(cfg, s')
  {
  }

  lemma CoreAfterStop(cfg: Config, s: Inbound, s': Inbound)
    requires Core(cfg, s) && !s.accepting
    requires s' == s.(submitted := s'.submitted, refused := s'.refused, decided := s'.decided)
    ensures Core(cfg, s')
  {
  }

  /** A context has one merge target, so nothing is mergeable when that one is not. */
  lemma OnlyTarget(cfg: Config, s: Inbound, e: Event, index: nat)
    requires StampsSound(s) && e.DialRotate? && index < |s.entries|
    requires e.context in s.last && s.entries[index].stamp == s.last[e.context]
    ensures forall i: nat :: Mergeable(cfg, s, e, i) ==> i == index
  {
  }

  lemma VictimIsUnique(cfg: Config, entries: seq<SizedEvent>, index: nat)
    requires index < |entries| && entries[index].event.DialRotate?
    requires cfg.dropOldest ==> forall j :: 0 <= j < index ==> !entries[j].event.DialRotate?
    requires !cfg.dropOldest ==> forall j :: index < j < |entries| ==> !entries[j].event.DialRotate?
    ensures Victim(cfg, entries) == Some(index)
  {
    assert entries[index] in entries;
  }

  lemma NoVictim(cfg: Config, entries: seq<SizedEvent>)
    requires forall j :: 0 <= j < |entries| ==> !entries[j].event.DialRotate?
    ensures Victim(cfg, entries) == None
  {
  }
}
