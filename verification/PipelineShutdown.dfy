/** What is left of a run of the inbound pipeline once its source has stopped accepting. */
module PipelineShutdown {
  import opened Pipeline
  import opened PipelineProgress
  import opened PipelineTheorems

  /** How many of the steps from i to j are internal. */
  function InternalCount(steps: seq<Step>, i: nat, j: nat): nat
    requires i <= j <= |steps|
    decreases j
  {
    if i == j then 0 else InternalCount(steps, i, j - 1) + Counted(steps[j - 1])
  }

  function Counted(step: Step): nat { if step.External() then 0 else 1 }

  predicate Closed<V>(s: System<V>) { !s.src.accepting }

  lemma SourceStaysClosed<V>(cfg: Setup<V>, s: System<V>, s': System<V>, step: Step)
    requires Next(cfg, s, s', step) && Closed(s)
    ensures Closed(s')
  {
  }

  lemma ClosedStepNeedsNoWork<V>(cfg: Setup<V>, s: System<V>, s': System<V>, step: Step)
    requires Next(cfg, s, s', step) && step.External() && Closed(s)
    ensures Work(cfg, s') <= Work(cfg, s)
  {
    match step
    case Source(step) => ClosedSourceNeedsNoWork(cfg, s, s', step);
    case Discard => DiscardNeedsNoWork(cfg, s, s');
    case _ =>
  }

  lemma StepAfterStop<V>(cfg: Setup<V>, states: seq<System<V>>, steps: seq<Step>, i: nat)
    requires Behaviour(cfg, states, steps) && i < |steps| && Closed(states[i])
    ensures Closed(states[i + 1])
    ensures Counted(steps[i]) + Work(cfg, states[i + 1]) <= Work(cfg, states[i])
  {
    hide Work;
    SourceStaysClosed(cfg, states[i], states[i + 1], steps[i]);
    if steps[i].External() {
      ClosedStepNeedsNoWork(cfg, states[i], states[i + 1], steps[i]);
    } else {
      RunIsGood(cfg, states, steps, i);
      StepWorks(cfg, states[i], states[i + 1], steps[i]);
    }
  }

  /** All the internal steps of a run after its source stopped accepting, counted over the whole rest of the run,
      whatever late submissions, stops and discards come between them, are at most the work there was at the stop. */
  lemma {:induction false} InternalStepsAfterStop<V>(cfg: Setup<V>, states: seq<System<V>>, steps: seq<Step>, i: nat, j: nat)
    requires Behaviour(cfg, states, steps) && i <= j < |states| && Closed(states[i])
    ensures Closed(states[j])
    ensures InternalCount(steps, i, j) + Work(cfg, states[j]) <= Work(cfg, states[i])
    decreases j
  {
    hide Work, Next, Start;
    if i < j {
      InternalStepsAfterStop(cfg, states, steps, i, j - 1);
      StepAfterStop(cfg, states, steps, j - 1);
    }
  }

  /** A run that cannot be continued by the pipeline itself has finished and acknowledged everything received; after
      the source stopped, it gets there within the work there was at the stop. */
  lemma StoppedRunDrains<V(!new)>(cfg: Setup<V>, states: seq<System<V>>, steps: seq<Step>, i: nat, j: nat)
    requires Behaviour(cfg, states, steps) && i <= j < |states| && Closed(states[i])
    requires InternalCount(steps, i, j) == Work(cfg, states[i]) || !Enabled(cfg, states[j])
    ensures Quiescent(states[j]) && states[j].src.inFlight == 0
  {
    InternalStepsAfterStop(cfg, states, steps, i, j);
    WorkIsBounded(cfg, states[j]);
    NoStall(cfg, states, steps, j);
    if Enabled(cfg, states[j]) {
      var step: Step, s': System<V> :| !step.External() && Next(cfg, states[j], s', step);
      RunIsGood(cfg, states, steps, j);
      StepWorks(cfg, states[j], s', step);
      WorkIsBounded(cfg, s');
    }
    DrainedMeansAcknowledged(cfg, states, steps, j);
  }
}
