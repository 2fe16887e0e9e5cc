/** Interleaved callbacks leave the same state as callbacks run one at a time, in finish order. */
module PipelineStore {
  import opened Sequences
  import opened Events
  import opened Handlers
  import opened S = SchedulerSpec
  import opened Pipeline
  import opened PipelineOrder

  ghost predicate IndependentRuns(running: seq<Running>) {
    forall i, j :: 0 <= i < |running| && 0 <= j < |running| && i != j ==>
      !Conflict(running[i].item.event, running[j].item.event)
  }

  predicate Alone(running: seq<Running>) {
    |running| == 1 && running[0].item.event.IsBarrier()
  }

  ghost predicate Uses(running: seq<Running>, c: string) {
    exists i :: 0 <= i < |running| && running[i].item.event.Key() == Some(c)
  }

  /** The shared store is the store after the finished callbacks, advanced by what each running
      callback has done to its own context so far. */
  ghost predicate Reflects<V>(h: Handlers<V>, running: seq<Running>, base: Store<V>, store: Store<V>) {
    if Alone(running) then store == h.GlobalRun(running[0].item.event, running[0].pc, base)
    else
      && (forall i :: 0 <= i < |running| ==>
            var e := running[i].item.event;
            && !e.IsBarrier()
            && Cell(store, e.context) == h.LocalRun(e, running[i].pc, Cell(base, e.context)))
      && (forall c :: !Uses(running, c) ==> Cell(store, c) == Cell(base, c))
  }

  lemma NothingRunning<V>(h: Handlers<V>, base: Store<V>, store: Store<V>)
    ensures Reflects(h, [], base, store) <==> store == base
  {
    if Reflects(h, [], base, store) {
      forall c ensures Cell(base, c) == Cell(store, c) {
        assert !Uses([], c);
      }
      CellsDetermineStore(base, store);
    }
  }

  lemma BarrierStarts<V>(h: Handlers<V>, base: Store<V>, store: Store<V>, run: Running)
    requires Reflects(h, [], base, store) && run.pc == 0 && run.item.event.IsBarrier()
    ensures Reflects(h, [run], base, store)
  {
    NothingRunning(h, base, store);
  }

  lemma ContextStarts<V>(h: Handlers<V>, running: seq<Running>, base: Store<V>, store: Store<V>, run: Running)
    requires Reflects(h, running, base, store) && !Alone(running) && run.pc == 0
    requires IndependentRuns(running + [run]) && !run.item.event.IsBarrier()
    ensures Reflects(h, running + [run], base, store)
  {
    var runs, c := running + [run], run.item.event.context;
    if Uses(running, c) {
      var i :| 0 <= i < |running| && running[i].item.event.Key() == Some(c);
      assert Conflict(runs[i].item.event, runs[|running|].item.event);
    }
    forall d | Uses(running, d) ensures Uses(runs, d) {
      var i :| 0 <= i < |running| && running[i].item.event.Key() == Some(d);
      assert runs[i] == running[i];
    }
  }

  lemma AccessReflected<V>(h: Handlers<V>, running: seq<Running>, base: Store<V>, store: Store<V>, r: nat)
    requires r < |running| && IndependentRuns(running) && Reflects(h, running, base, store)
    ensures var run := running[r];
      Reflects(h, running[r := run.(pc := run.pc + 1)], base, h.Access(run.item.event, run.pc, store))
  {
    var run := running[r];
    var runs, store' := running[r := run.(pc := run.pc + 1)], h.Access(run.item.event, run.pc, store);
    if !Alone(running) {
      forall i | 0 <= i < |runs| && i != r
        ensures Cell(store', runs[i].item.event.context) == Cell(store, runs[i].item.event.context)
      {
        assert runs[i] == running[i] && !Conflict(running[i].item.event, running[r].item.event);
      }
      forall d | Uses(running, d) ensures Uses(runs, d) {
        var i :| 0 <= i < |running| && running[i].item.event.Key() == Some(d);
        assert runs[i].item == running[i].item;
      }
      assert Uses(runs, run.item.event.context) by {
        assert runs[r].item == run.item;
      }
    }
  }

  lemma FinishReflected<V>(h: Handlers<V>, running: seq<Running>, base: Store<V>, store: Store<V>, r: nat)
    requires r < |running| && IndependentRuns(running) && Reflects(h, running, base, store)
    requires running[r].pc == h.length(running[r].item.event)
    ensures Reflects(h, RemoveAt(running, r), h.Apply(running[r].item.event, base), store)
  {
    var e, runs := running[r].item.event, RemoveAt(running, r);
    var base' := h.Apply(e, base);
    if Alone(running) {
      NothingRunning(h, base', store);
    } else {
      assert forall j :: 0 <= j < |runs| ==> runs[j] == running[if j < r then j else j + 1];
      forall j | 0 <= j < |runs| ensures Cell(base', runs[j].item.event.context) == Cell(base, runs[j].item.event.context) {
        assert !Conflict(running[if j < r then j else j + 1].item.event, running[r].item.event);
      }
      forall d | Uses(running, d) && d != e.context ensures Uses(runs, d) {
        var i :| 0 <= i < |running| && running[i].item.event.Key() == Some(d);
        assert runs[if i < r then i else i - 1] == running[i];
      }
    }
  }

  ghost predicate Reflected<V>(cfg: Setup<V>, s: System<V>) {
    Reflects(cfg.handlers, s.running, cfg.handlers.Fold(s.log, cfg.initial), s.store)
  }

  lemma LinkedRunsAreIndependent<V>(cfg: Setup<V>, s: System<V>)
    requires Linked(cfg, s)
    ensures IndependentRuns(s.running)
  {
    forall i, j | 0 <= i < |s.running| && 0 <= j < |s.running| && i != j
      ensures !Conflict(s.running[i].item.event, s.running[j].item.event)
    {
      RunningIndependent(cfg, s, i, j);
    }
  }

  lemma TakeReflected<V>(cfg: Setup<V>, s: System<V>, s': System<V>, t: Thread, i: nat)
    requires Linked(cfg, s) && Linked(cfg, s') && Reflected(cfg, s) && DoTake(cfg, s, s', t, i)
    ensures Reflected(cfg, s')
  {
    LinkedRunsAreIndependent(cfg, s');
    var h, base, run := cfg.handlers, cfg.handlers.Fold(s.log, cfg.initial), Running(t, s.sched.pending[i], 0);
    assert Takeable(s.sched, i);
    if run.item.event.IsBarrier() {
      assert s.running == [];
      assert s'.running == [run];
      BarrierStarts(h, base, s.store, run);
    } else {
      assert !Alone(s.running) by {
        assert |s.running| == 1 ==> s.running[0].thread in s.sched.active;
      }
      ContextStarts(h, s.running, base, s.store, run);
    }
  }

  lemma OthersTouchNoState<V>(cfg: Setup<V>, s: System<V>, s': System<V>, step: Step)
    requires Next(cfg, s, s', step) && !step.TakeWork? && !step.Access? && !step.FinishWork?
    ensures s'.running == s.running && s'.log == s.log && s'.store == s.store
  {
    hide I.Next, DoTake, DoAccess, DoFinish, IsSelection, Submit, RemoveAt, Received;
  }

  lemma StepReflected<V>(cfg: Setup<V>, s: System<V>, s': System<V>, step: Step)
    requires Linked(cfg, s) && Linked(cfg, s') && Reflected(cfg, s) && Next(cfg, s, s', step)
    ensures Reflected(cfg, s')
  {
    hide Linked, Reflects, IndependentRuns, Next, DoTake, DoAccess, DoFinish;
    LinkedRunsAreIndependent(cfg, s);
    if step.TakeWork? {
      TakeIsStep(cfg, s, s', step.thread, step.i);
      TakeReflected(cfg, s, s', step.thread, step.i);
    } else if step.Access? {
      AccessStepReflected(cfg, s, s', step.r);
    } else if step.FinishWork? {
      FinishStepReflected(cfg, s, s', step.r);
    } else {
      OthersTouchNoState(cfg, s, s', step);
    }
  }

  lemma TakeIsStep<V>(cfg: Setup<V>, s: System<V>, s': System<V>, t: Thread, i: nat)
    requires Next(cfg, s, s', TakeWork(t, i))
    ensures DoTake(cfg, s, s', t, i)
  {
  }

  lemma AccessStepReflected<V>(cfg: Setup<V>, s: System<V>, s': System<V>, r: nat)
    requires Next(cfg, s, s', Access(r)) && Reflected(cfg, s) && IndependentRuns(s.running)
    ensures Reflected(cfg, s')
  {
    hide Reflects, IndependentRuns;
    AccessReflected(cfg.handlers, s.running, cfg.handlers.Fold(s.log, cfg.initial), s.store, r);
  }

  lemma FinishStepReflected<V>(cfg: Setup<V>, s: System<V>, s': System<V>, r: nat)
    requires Next(cfg, s, s', FinishWork(r)) && Reflected(cfg, s) && IndependentRuns(s.running)
    ensures Reflected(cfg, s')
  {
    hide Reflects, IndependentRuns;
    FinishReflected(cfg.handlers, s.running, cfg.handlers.Fold(s.log, cfg.initial), s.store, r);
    assert s'.log[..|s'.log| - 1] == s.log;
  }
}
