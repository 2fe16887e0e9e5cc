/** The scheduler object. Each method is one block under the scheduler's condition lock. */
module KeyedScheduler {
  import opened Sequences
  import opened Events
  import opened SchedulerSpec

  class KeyedSerialHandlerScheduler {
    const config: Config
    var pending: seq<SizedEvent>
    var pendingBytes: int
    var pendingByContext: map<string, int>
    var activeContexts: set<string>
    var activeByThread: map<Thread, SizedEvent>
    var barrierActive: bool
    var terminalizing: int
    var started: bool
    var accepting: bool
    var accepted: int
    var completed: int
    var discardedDuringShutdown: int
    var rejectedOversized: int
    var liveWorkers: int
    var stopped: bool

    ghost function State(): Scheduler
      reads this
    {
      Scheduler(pending, pendingBytes, pendingByContext, activeContexts, activeByThread, barrierActive,
                terminalizing, started, accepting, accepted, completed, discardedDuringShutdown, rejectedOversized)
    }

    ghost predicate Valid()
      reads this
    {
      Inv(config, State()) && Pool()
    }

    /** The workers of the pool live from the start until acceptance has stopped and nothing is pending; a stopped
        scheduler has none left, so nothing runs. */
    ghost predicate Pool()
      reads `started, `accepting, `activeByThread, `liveWorkers, `stopped
    {
      && |activeByThread| <= liveWorkers <= config.workers
      && (!started ==> liveWorkers == 0)
      && (started && accepting ==> liveWorkers == config.workers)
      && (stopped ==> !accepting && liveWorkers == 0)
    }

    /** An impossible event must reach the submission for an explicit terminal error. */
    predicate FitsBytes(size: pos)
      reads this
      ensures FitsBytes(size) == CanAdmitBytes(config, State(), size)
    {
      size > config.byteLimit || pendingBytes + size <= config.byteLimit
    }

    constructor (config: Config)
      ensures Valid() && this.config == config && State() == Initial && !stopped
    {
      this.config := config;
      pending, pendingBytes, pendingByContext := [], 0, map[];
      activeContexts, activeByThread, barrierActive := {}, map[], false;
      terminalizing, started, accepting := 0, false, true;
      accepted, completed, discardedDuringShutdown, rejectedOversized := 0, 0, 0, 0;
      liveWorkers, stopped := 0, false;
    }

    /** Start the pool once; false stands for the error of a start after acceptance stopped. */
    method Start() returns (ok: bool)
      requires Valid()
      modifies `started, `liveWorkers
      ensures Valid()
      ensures ok <==> (old(started) && !stopped) || (old(!started) && accepting)
      ensures State() == old(State()).(started := old(started) || ok)
      ensures liveWorkers == if ok && !old(started) then config.workers else old(liveWorkers)
    {
      if started && !stopped {
        return true;
      }
      if !accepting || stopped {
        return false;
      }
      started := true;
      liveWorkers := config.workers;
      return true;
    }

    /** A worker of the pool ends; the last one stops the scheduler. */
    method LeavePool()
      requires Valid() && started && !accepting && pending == [] && |activeByThread| < liveWorkers
      modifies `liveWorkers, `stopped
      ensures Valid() && liveWorkers == old(liveWorkers) - 1
      ensures stopped <==> old(stopped) || liveWorkers == 0
      ensures stopped ==> activeByThread == map[]
    {
      liveWorkers := liveWorkers - 1;
      if liveWorkers == 0 {
        stopped := true;
      }
      assert |activeByThread| == 0 ==> activeByThread == map[];
    }

    /** One attempt to admit; MustWait is the branch that waits on the condition and then retries. */
    method SubmitSized(item: SizedEvent) returns (outcome: Admission)
      requires Valid()
      modifies `pending, `pendingBytes, `pendingByContext, `accepted, `discardedDuringShutdown, `rejectedOversized
      ensures Valid()
      ensures outcome == AdmissionOf(config, old(State()), item)
      ensures State() == Submit(config, old(State()), item)
    {
      hide Inv;
      SubmitKeepsInv(config, State(), item);
      if !accepting {
        discardedDuringShutdown := discardedDuringShutdown + 1;
        return Discarded;
      }
      if !started {
        return LifecycleError;
      }
      if item.size > config.byteLimit {
        rejectedOversized := rejectedOversized + 1;
        return Oversized;
      }
      if |pending| >= config.pendingLimit || pendingBytes + item.size > config.byteLimit {
        return MustWait;
      }
      pending := pending + [item];
      accepted := accepted + 1;
      pendingBytes := pendingBytes + item.size;
      if !item.event.IsBarrier() {
        var context := item.event.context;
        pendingByContext := pendingByContext[context := (if context in pendingByContext then pendingByContext[context] else 0) + 1];
      }
      return Admitted;
    }

    /** Scan the source for the first event that may overtake everything in front of it. */
    method SelectSizedEvent(events: seq<SizedEvent>) returns (selection: Selection)
      requires Valid()
      ensures IsSelection(config, State(), events, selection)
      ensures forall other :: IsSelection(config, State(), events, other) ==> other == selection
    {
      if !accepting {
        selection := Index(0);
      } else if !started {
        selection := NotStarted;
      } else if |pending| >= config.pendingLimit {
        selection := NothingEligible;
      } else {
        selection := Scan(events);
      }
      forall other | IsSelection(config, State(), events, other) ensures other == selection {
        SelectionIsUnique(config, State(), events, selection, other);
      }
    }

    /** The contexts of events that were passed over because their bytes did not fit. */
    ghost predicate Deferred(events: seq<SizedEvent>, index: nat, deferred: set<string>) {
      forall c <- deferred :: exists j: nat :: j < index && j < |events| && events[j].event.Key() == Some(c)
    }

    /** A passed-over event's context is deferred or already has its share of work. */
    ghost predicate Behind(events: seq<SizedEvent>, j: nat, deferred: set<string>)
      reads this
    {
      && j < |events| && PassedOver(config, State(), events, j)
      && (events[j].event.context in deferred || ContextWork(State(), events[j].event.context) >= config.ContextLimit())
    }

    lemma BehindAreOthers(events: seq<SizedEvent>, index: nat, deferred: set<string>)
      requires index < |events| && !events[index].event.IsBarrier() && events[index].event.context !in deferred
      requires ContextWork(State(), events[index].event.context) < config.ContextLimit()
      requires forall j: nat :: j < index ==> Behind(events, j, deferred)
      ensures forall j: nat :: j < index ==> events[j].event.Key() != events[index].event.Key()
    {
      forall j: nat | j < index ensures events[j].event.Key() != events[index].event.Key() {
        assert Behind(events, j, deferred);
      }
    }

    lemma OnePassed(events: seq<SizedEvent>, index: nat, deferred: set<string>, deferred': set<string>)
      requires index < |events| && deferred <= deferred' && Deferred(events, index, deferred)
      requires !events[index].event.IsBarrier() && deferred' <= deferred + {events[index].event.context}
      requires events[index].event.context in deferred
        || ContextWork(State(), events[index].event.context) >= config.ContextLimit()
        || (!CanAdmitBytes(config, State(), events[index].size) && events[index].event.context in deferred')
      requires forall j: nat :: j < index ==> Behind(events, j, deferred)
      ensures Deferred(events, index + 1, deferred')
      ensures forall j: nat :: j < index + 1 ==> Behind(events, j, deferred')
    {
      hide ContextWork, CanAdmitBytes, State;
      forall j: nat | j < index ensures Behind(events, j, deferred') {
        assert Behind(events, j, deferred);
      }
      forall c <- deferred' ensures exists j: nat :: j < index + 1 && j < |events| && events[j].event.Key() == Some(c) {
        if c !in deferred {
          assert events[index].event.Key() == Some(c);
        }
      }
      if events[index].event.context in deferred {
        var j: nat :| j < index && events[j].event.Key() == Some(events[index].event.context);
      }
    }

    lemma AllPassed(events: seq<SizedEvent>, n: nat, deferred: set<string>)
      requires n <= |events| && forall j: nat :: j < n ==> Behind(events, j, deferred)
      ensures forall j: nat :: j < n ==> PassedOver(config, State(), events, j) && !Selectable(config, State(), events, j)
    {
      forall j: nat | j < n ensures PassedOver(config, State(), events, j) {
        assert Behind(events, j, deferred);
      }
      PassedOverIsNotSelectable(config, State(), events, n);
    }

    lemma NothingFurther(events: seq<SizedEvent>, index: nat, deferred: set<string>)
      requires accepting && started && index <= |events| && forall j: nat :: j < index ==> Behind(events, j, deferred)
      requires index < |events| ==> events[index].event.IsBarrier() && (index == 0 ==> !CanAdmitBytes(config, State(), events[0].size))
      ensures IsSelection(config, State(), events, NothingEligible)
    {
      AllPassed(events, index, deferred);
      if index < |events| {
        BarrierEndsSelection(config, State(), events, index);
      }
    }

    method Scan(events: seq<SizedEvent>) returns (selection: Selection)
      requires accepting && started && |pending| < config.pendingLimit
      ensures IsSelection(config, State(), events, selection)
    {
      assert Deferred(events, 0, {});
      hide Behind, Deferred, IsSelection, Selectable;
      var deferred: set<string> := {};
      for index := 0 to |events|
        invariant Deferred(events, index, deferred)
        invariant forall j: nat :: j < index ==> Behind(events, j, deferred)
      {
        var event, size := events[index].event, events[index].size;
        if !event.IsAction() || event.IsGlobalBarrier() {
          if index == 0 && FitsBytes(size) {
            FirstFitIsSelected(config, State(), events, index);
            return Index(index);
          }
          NothingFurther(events, index, deferred);
          return NothingEligible;
        }
        if event.context in deferred {
          OnePassed(events, index, deferred, deferred);
          continue;
        }
        var contextWork := (if event.context in pendingByContext then pendingByContext[event.context] else 0)
                           + (if event.context in activeContexts then 1 else 0);
        if contextWork < config.ContextLimit() {
          if FitsBytes(size) {
            AllPassed(events, index, deferred);
            BehindAreOthers(events, index, deferred);
            FirstFitIsSelected(config, State(), events, index);
            return Index(index);
          }
          OnePassed(events, index, deferred, deferred + {event.context});
          deferred := deferred + {event.context};
        } else {
          OnePassed(events, index, deferred, deferred);
        }
      }
      NothingFurther(events, |events|, deferred);
      return NothingEligible;
    }

    method StopAcceptingWork()
      requires Valid()
      modifies `accepting, `stopped
      ensures Valid() && State() == StopAccepting(old(State()))
      ensures stopped <==> old(stopped) || !started || liveWorkers == 0
    {
      accepting := false;
      if !started || liveWorkers == 0 {
        stopped := true;
      }
    }

    /** Scan the pending deque for the first work an idle worker may start. */
    method NextTakeable() returns (choice: Option<nat>)
      requires Valid()
      ensures IsTake(State(), choice)
    {
      if barrierActive {
        return None;
      }
      for index := 0 to |pending|
        invariant forall j: nat :: j < index ==> !pending[j].event.IsBarrier() && !Takeable(State(), j)
      {
        if pending[index].event.IsBarrier() {
          if index != 0 || activeByThread != map[] {
            return None;
          }
        } else if pending[index].event.context in activeContexts {
          continue;
        }
        return Some(index);
      }
      return None;
    }

    /** Give the first eligible pending work to an idle worker of the pool. */
    method TakeInternalWork(worker: Thread) returns (work: Option<SizedEvent>)
      requires Valid() && started
      requires worker < config.workers && worker !in activeByThread && |activeByThread| < liveWorkers
      modifies `pending, `pendingBytes, `pendingByContext, `activeContexts, `activeByThread, `barrierActive
      ensures Valid()
      ensures exists choice: Option<nat> :: IsTake(old(State()), choice)
      ensures forall choice: Option<nat> :: IsTake(old(State()), choice) ==> match choice
        case None => work == None && State() == old(State())
        case Some(i) =>
          && work == Some(old(pending)[i])
          && (old(pending)[i].event.Key().Some? ==> old(pending)[i].event.Key().value in old(pendingByContext))
          && State() == Take(old(State()), worker, i)
    {
      var choice := NextTakeable();
      forall other | IsTake(State(), other) ensures other == choice {
        TakeIsUnique(State(), choice, other);
      }
      if choice.None? {
        return None;
      }
      hide Inv, Pool, IsTake;
      TakeKeepsInv(config, State(), worker, choice.value);
      work := Some(pending[choice.value]);
      BeginWork(worker, choice.value);
    }

    /** Take a pending work out and account for it as active. */
    method BeginWork(worker: Thread, index: nat)
      requires index < |pending| && worker !in activeByThread && Pool() && started && |activeByThread| < liveWorkers
      requires pending[index].event.Key().Some? ==> pending[index].event.Key().value in pendingByContext
      modifies `pending, `pendingBytes, `pendingByContext, `activeContexts, `activeByThread, `barrierActive
      ensures State() == Take(old(State()), worker, index) && Pool()
    {
      hide Pool, RemoveAt, Dropped;
      var next := Unqueue(index);
      Activate(worker, next);
    }

    /** Enter a work as the one its worker is running. */
    method Activate(worker: Thread, work: SizedEvent)
      requires worker !in activeByThread && Pool() && started && |activeByThread| < liveWorkers
      modifies `activeContexts, `activeByThread, `barrierActive
      ensures activeContexts == old(activeContexts) + if work.event.IsBarrier() then {} else {work.event.context}
      ensures barrierActive == (old(barrierActive) || work.event.IsBarrier())
      ensures activeByThread == old(activeByThread)[worker := work] && Pool()
    {
      if work.event.IsBarrier() {
        barrierActive := true;
      } else {
        activeContexts := activeContexts + {work.event.context};
      }
      activeByThread := activeByThread[worker := work];
    }

    /** Take a pending work out of the deque and its account. */
    method Unqueue(index: nat) returns (next: SizedEvent)
      requires index < |pending|
      requires pending[index].event.Key().Some? ==> pending[index].event.Key().value in pendingByContext
      modifies `pending, `pendingBytes, `pendingByContext
      ensures next == old(pending)[index] && pending == RemoveAt(old(pending), index) && pendingBytes == old(pendingBytes) - next.size
      ensures pendingByContext == Dropped(old(pendingByContext), next.event.Key())
    {
      next := pending[index];
      if !next.event.IsBarrier() {
        var context := next.event.context;
        var remaining := pendingByContext[context] - 1;
        if remaining != 0 {
          pendingByContext := pendingByContext[context := remaining];
        } else {
          pendingByContext := pendingByContext - {context};
        }
      }
      pending := RemoveAt(pending, index);
      pendingBytes := pendingBytes - next.size;
    }

    /** The worker's block after its callback returned and its completion was published. */
    method FinishWork(worker: Thread)
      requires Valid() && worker in activeByThread
      modifies `completed, `activeContexts, `activeByThread, `barrierActive
      ensures Valid() && State() == Finish(old(State()), worker)
    {
      hide Inv;
      FinishKeepsInv(config, State(), worker);
      var work := activeByThread[worker];
      completed := completed + 1;
      if work.event.IsBarrier() {
        barrierActive := false;
      } else {
        activeContexts := activeContexts - {work.event.context};
      }
      activeByThread := activeByThread - {worker};
      assert State() == Finish(old(State()), worker);
    }

    /** First half of a discard: empty the deque; the caller then completes the returned works one by one. */
    method DiscardPendingWork() returns (discarded: seq<SizedEvent>)
      requires Valid() && !accepting
      modifies `pending, `pendingBytes, `pendingByContext, `terminalizing, `discardedDuringShutdown
      ensures Valid() && discarded == old(pending) && State() == DiscardPending(old(State()))
    {
      hide Inv, Pool;
      DiscardKeepsInv(config, State());
      discarded := pending;
      pending, pendingBytes, pendingByContext := [], 0, map[];
      terminalizing := terminalizing + |discarded|;
      discardedDuringShutdown := discardedDuringShutdown + |discarded|;
    }

    /** Second half of a discard, once per completed work. */
    method TerminalizeOne()
      requires Valid() && terminalizing > 0
      modifies `terminalizing, `completed
      ensures Valid() && State() == Terminalize(old(State()))
    {
      terminalizing := terminalizing - 1;
      completed := completed + 1;
    }

    method IsDrained() returns (drained: bool)
      requires Valid()
      ensures drained <==> accepted == completed
    {
      drained := pending == [] && activeByThread == map[] && terminalizing == 0;
      assert activeByThread == map[] <==> |activeByThread| == 0;
    }
  }
}
