# Verified model of the MiraBox SDK runtime

This project models the concurrent core of the MiraBox Stream Dock SDK in Dafny and proves what it promises.
`dafny verify dfyconfig.toml` checks all of it.

Each block the SDK runs under a lock is one atomic step. For every stateful component there is a specification,
a value with one function or predicate per step, and a class with the component's fields whose methods are proved
to take exactly those steps. (For the copy-on-write objects the steps are those of one dictionary or list; that every
call is also a step of the whole view is `CowSteps`.)
The theorems are about every finite run of steps, in any interleaving, of the components put together. Beside them,
`SchedulerLaws`, `InboundLaws`, `OutboundDevice`, `DeliveryAnswers`, `SettingsLaws`, `JsonPaths` and `PlainLaws` say what
the steps do in terms a caller sees: events and sizes, device fields, answers, requests, paths and positions.

**Inbound pipeline.** `Events`, `Scheduler`, `KeyedScheduler`, `Inbound`, `InboundQueue`, `Pump` hold the bounded source
queue, the single pump and the keyed worker pool; `Pipeline*` composes them. The source may hand out an event that
is not its head, and workers may start a work that is not the first pending one. Still, per context and around
barriers events run in source order, every reachable state equals a sequential run of what has finished, retention
is bounded, nothing stalls, a stopped run drains within a bound fixed at the stop, and each event is acknowledged once.
Callbacks are modelled as any number of single
accesses to the shared state, so that the sequential equivalence is about interleaved callbacks and not about
callbacks that happen in one piece (`Handlers`, `PipelineStore`). An event that is not a barrier may read and write
the state of its own context only; a barrier may touch everything.

**Outbound commands.** `Completion`, `Outbound`, `OutboundQueue`, `Writer` hold the completion of one command, the
coalescing queue and the writer; `Delivery*` composes them with callers, the deadline watch and the transport. A
completion is claimed under its lock and published later, and the gap is a state of its own. Every accepted handle
is answered exactly once, whatever races, and left to itself the runtime answers every handle in a bounded number of
steps. A success means a written frame, a missed deadline one that was reached, and every deadline is watched until its
command is decided; coalescing does not change what the device ends up with or what an
unkeyed command sees.

**Global settings.** `GlobalSettings`, `GlobalSettingsState` hold the transactions: a reentrant write lock, one
asynchronous write in flight, and a state lock. Updates are serialisable exactly as long as no mutator, codec or
send hook writes reentrantly; a concrete run shows the update that is lost otherwise.

**Copy-on-write JSON.** `CloneJson` holds the validator and the clone on arbitrary object graphs; `CowSpec`,
`CowOperations`, `CowViews`, `CowJson` hold dictionary overlays, lazily materialised lists, the cache of wrappers and
any number of views over one snapshot. Every view behaves as its own deep copy as long as containers are told apart
by names that are never used again. `CowSlots`, `CowIdentity` drop that condition: they say which containers are still
alive, put them at addresses, key the cache by address as the SDK does, and prove exactly when it makes no difference.
`CowReuse` is a run in which it does. `CowSteps` ties the objects to the views.

Assumptions, each visible in a type, a `requires` or a step:

- `CowSpec`, `CowViews` and `CowJson` name containers for ever; `CowIdentity` states what that assumes of the memory.
- `retained_size` is any positive size; handlers, encoders, mutators and codecs are arbitrary functions.
- A keyed command overwrites its cell: what it leaves does not depend on what the cell held
  (`OutboundSpec.Overwrites`). A device with one field per cell does (`OutboundDevice`).
- Deadlines and clock readings are reals that come with each step.

Where the SDK's behaviour is narrower than its wording:

- Coalescing is with the tail of the outbound queue only, so two commands for one cell with another command between
  them stay two.
- A success that arrives at or after the deadline is published as a deadline failure, but the writer still counts
  it as completed (`Writer.CommandWriter.FinishCompletion`).
- An asynchronous settings write started inside a transaction is refused as busy, while a synchronous one is not:
  only that one can lose an update.
- The cache of wrappers is keyed by object identity and never cleaned, while a list drops its backing when it
  materialises. A list that was inserted into a view, read and then changed in structure leaves its wrapper under an
  identity that is free again; if a later clone gets it, reading the clone hands out the old list's wrapper
  (`CowReuse.StaleWrapperIsFound`). Exactly then: `CowIdentity.RightExactlyWhenSpared`. A view in which every wrapper's
  container is still alive is safe from any allocator, and no other is (`CowIdentity.SafeExactlyWhenNoneDropped`):
  once one is not, every operation that hands out a clone can answer wrongly (`CowIdentity.AnswerIsSafeExactlyWhen`);
  restructuring no list but those of the snapshot is enough (`CowIdentity.UnstructuredIsSafe`).

## Model

| member | source | states |
|---|---|---|
| `Events.SourceAndSchedulerAgreeOnBarriers` | src/mirabox_sdk/_internal/messaging/inbound.py:360-367 | the key the source merges by and the key the scheduler serialises by, computed by different tests, are the same for every event |
| `Events.OnlyContextsSeparate` | src/mirabox_sdk/_internal/messaging/inbound.py:360-367 | rotations and inputs of different contexts may overtake each other, and nothing else may |
| `SchedulerSpec.BarrierEndsSelection` | src/mirabox_sdk/_internal/runtime/keyed_scheduler.py:240-246 | nothing behind a barrier can be selected, and the barrier itself only at the head of the source |
| `SchedulerSpec.FirstFitIsSelected` | src/mirabox_sdk/_internal/runtime/keyed_scheduler.py:247-262 | the first event the scan does not pass over is the earliest selectable one |
| `SchedulerSpec.SubmitKeepsInv` | src/mirabox_sdk/_internal/runtime/keyed_scheduler.py:174-217 | admission keeps exact byte, count and per-context accounting and mutual exclusion |
| `SchedulerSpec.TakeKeepsInv` | src/mirabox_sdk/_internal/runtime/keyed_scheduler.py:456-489 | starting a work keeps the accounting, and keeps callbacks alone behind a barrier and otherwise in pairwise different contexts |
| `SchedulerSpec.FinishKeepsInv` | src/mirabox_sdk/_internal/runtime/keyed_scheduler.py:427-439 | finishing keeps the active contexts exact and the barrier flag truthful |
| `SchedulerSpec.DiscardKeepsInv` | src/mirabox_sdk/_internal/runtime/keyed_scheduler.py:494-525 | a discard empties the pending accounts; accepted stays completed + pending + active + terminalizing |
| `SchedulerSpec.OneKindAtATime` | src/mirabox_sdk/_internal/runtime/keyed_scheduler.py:427-489 | a barrier runs alone, and beside any other callback there is no barrier |
| `SchedulerSpec.ContextWorkIs` | src/mirabox_sdk/_internal/runtime/keyed_scheduler.py:247-256 | the work counted against a context is its exact number of pending works plus one if it is active |
| `SchedulerSpec.SelectionNeverStalls` | src/mirabox_sdk/_internal/runtime/keyed_scheduler.py:224-264 | a selection that finds nothing leaves pending or active work, so an idle scheduler always takes the source head, whatever its size |
| `SchedulerSpec.TakingNeverStalls` | src/mirabox_sdk/_internal/runtime/keyed_scheduler.py:456-489 | taking finds nothing among pending works only while some callback is active |
| `SchedulerSpec.SelectedNeverWaits` | src/mirabox_sdk/_internal/runtime/keyed_scheduler.py:174-189 | a selected event is never left waiting by its submission, whatever finished in between |
| `SchedulerSpec.ActiveWithinPool` | src/mirabox_sdk/_internal/runtime/keyed_scheduler.py:395-455 | at most as many callbacks run as there are workers |
| `SchedulerLaws.ShareIs` | src/mirabox_sdk/_internal/runtime/keyed_scheduler.py:72 | a number of works is within the share of a context exactly when it is at most one or every worker could have as many |
| `SchedulerLaws.WorksAreCounted` | src/mirabox_sdk/_internal/runtime/keyed_scheduler.py:247-256 | the work counted against a context is the number of its pending positions plus the number of threads running it |
| `SchedulerLaws.SelectsTheFirst` | src/mirabox_sdk/_internal/runtime/keyed_scheduler.py:224-264 | selection answers the first event that fits, conflicts with nothing left in front of it and keeps its context within its share, and none exactly when there is none; a scheduler that has stopped accepting takes the head |
| `SchedulerLaws.NobodyIsPassedOver` | src/mirabox_sdk/_internal/runtime/keyed_scheduler.py:240-262 | while some event may follow, selection hands one over, at that position or before it: no event is passed over for a share its context would still keep |
| `SchedulerLaws.AdmitsWhatFits` | src/mirabox_sdk/_internal/runtime/keyed_scheduler.py:174-217 | which outcome a submission has, by limits and exact sizes, and what it leaves pending and counted |
| `SchedulerLaws.TakesTheFirstFree` | src/mirabox_sdk/_internal/runtime/keyed_scheduler.py:456-489 | a worker takes the first pending work that conflicts with nothing active and nothing pending in front of it, and none exactly when there is none |
| `SchedulerLaws.WorkMoves` | src/mirabox_sdk/_internal/runtime/keyed_scheduler.py:427-489 | a work moves from the pending ones to one thread and from there to the completed ones, and every other stays where it is |
| `SchedulerLaws.DiscardedAreCounted` | src/mirabox_sdk/_internal/runtime/keyed_scheduler.py:494-525 | a discard takes and counts every pending work, each of which is completed on its own |
| `KeyedScheduler.KeyedSerialHandlerScheduler.Start` | src/mirabox_sdk/_internal/runtime/keyed_scheduler.py:101-140 | the pool starts once, while the scheduler accepts; a later start is an error once acceptance has stopped or the pool has ended |
| `KeyedScheduler.KeyedSerialHandlerScheduler.LeavePool` | src/mirabox_sdk/_internal/runtime/keyed_scheduler.py:449-454 | the last worker to leave stops the scheduler, and then nothing runs any more |
| `KeyedScheduler.KeyedSerialHandlerScheduler.SubmitSized` | src/mirabox_sdk/_internal/runtime/keyed_scheduler.py:150-217 | the outcome and the whole new state of one admission attempt |
| `KeyedScheduler.KeyedSerialHandlerScheduler.SelectSizedEvent` | src/mirabox_sdk/_internal/runtime/keyed_scheduler.py:224-264 | returns the earliest source position that conflicts with nothing it overtakes and fits the budgets, or says there is none; no other answer meets the rule |
| `KeyedScheduler.KeyedSerialHandlerScheduler.Scan` | src/mirabox_sdk/_internal/runtime/keyed_scheduler.py:238-264 | the scan with its deferred contexts decides exactly the selection rule |
| `KeyedScheduler.KeyedSerialHandlerScheduler.NextTakeable` | src/mirabox_sdk/_internal/runtime/keyed_scheduler.py:456-489 | finds the earliest pending work that may start |
| `KeyedScheduler.KeyedSerialHandlerScheduler.TakeInternalWork` | src/mirabox_sdk/_internal/runtime/keyed_scheduler.py:456-489 | starts the one work the rule allows and accounts for it |
| `KeyedScheduler.KeyedSerialHandlerScheduler.FinishWork` | src/mirabox_sdk/_internal/runtime/keyed_scheduler.py:427-439 | gives back the context or the barrier of a finished work |
| `KeyedScheduler.KeyedSerialHandlerScheduler.StopAcceptingWork` | src/mirabox_sdk/_internal/runtime/keyed_scheduler.py:291-299 | stops admission; the scheduler has stopped if no worker lives |
| `KeyedScheduler.KeyedSerialHandlerScheduler.DiscardPendingWork` | src/mirabox_sdk/_internal/runtime/keyed_scheduler.py:494-525 | moves every pending work to those whose completion is still owed |
| `KeyedScheduler.KeyedSerialHandlerScheduler.TerminalizeOne` | src/mirabox_sdk/_internal/runtime/keyed_scheduler.py:511-525 | settles one discarded work |
| `KeyedScheduler.KeyedSerialHandlerScheduler.IsDrained` | src/mirabox_sdk/_internal/runtime/keyed_scheduler.py:491-492 | drained means every accepted work has completed |
| `Handlers.IndependentCommute` | README.md:851-858 | two events in different contexts, neither a barrier, can be run in either order |
| `Handlers.OrderedRunEqualsSourceOrder` | README.md:851-858 | a run that keeps conflicting events in source order has the effect of the source order itself |
| `Handlers.SourceOrderIgnoresListing` | README.md:851-858 | the source order does not depend on how the finished events are listed |
| `InboundSpec.RemoveKeepsCore` | src/mirabox_sdk/_internal/messaging/inbound.py:209-219 | removing an entry keeps bounds, bytes and the merge index |
| `InboundSpec.RefuseKeepsCore` | src/mirabox_sdk/_internal/messaging/inbound.py:347-352 | a refusal keeps the merge index truthful by forgetting the context, or every context behind a barrier |
| `InboundSpec.AppendKeepsCore` | src/mirabox_sdk/_internal/messaging/inbound.py:142-157 | queueing keeps bounds, bytes and the merge index |
| `InboundSpec.MergeKeepsCore` | src/mirabox_sdk/_internal/messaging/inbound.py:299-326 | merging in place keeps bounds, bytes, stamps and the merge index |
| `InboundSpec.StepKeeps` | src/mirabox_sdk/_internal/messaging/inbound.py:82-271 | every step keeps the invariant and every additive quantity balanced between submitted, delivered, queued, waiting and dropped |
| `InboundSpec.RunKeeps` | src/mirabox_sdk/_internal/messaging/inbound.py:82-271 | the same over whole runs, for every additive quantity |
| `InboundSpec.TicksAreConserved` | src/mirabox_sdk/_internal/messaging/inbound.py:299-326 | in every run the ticks submitted for a context are the ticks delivered, queued, waiting, evicted, refused or discarded |
| `InboundSpec.LosslessEventsAreNeverDropped` | src/mirabox_sdk/_internal/messaging/inbound.py:112-140 | only rotations are ever evicted; any other event is delivered, queued, waiting or explicitly refused |
| `InboundSpec.MergesAreAdjacent` | src/mirabox_sdk/_internal/messaging/inbound.py:299-352 | a rotation merges only into an entry of its context with no decision about that context and no barrier since |
| `InboundSpec.SubmitVerdictTells` | src/mirabox_sdk/_internal/messaging/inbound.py:82-157 | accepted means queued as it is or absorbed by a queued rotation, rejected means refused, waiting means a lossless event before its timeout; exactly one of them |
| `InboundSpec.ResumeVerdictTells` | src/mirabox_sdk/_internal/messaging/inbound.py:115-141 | the same for a submission that has waited |
| `InboundLaws.MakesRoom` | src/mirabox_sdk/_internal/messaging/inbound.py:113-131 | rotations are given up one by one, the first or the last queued one as the policy says, each only while the event does not fit beside what is left; afterwards it fits or no rotation is queued |
| `InboundLaws.SoundIsWeighed` | src/mirabox_sdk/_internal/messaging/inbound.py:113-131 | in every sound state the counted bytes are the bytes of the queued entries |
| `InboundLaws.SubmissionOutcome` | src/mirabox_sdk/_internal/messaging/inbound.py:95-157 | a submitted event is refused by a closed queue or for its size, or merged, or placed, and what each leaves of the queue |
| `InboundLaws.ResumptionOutcome` | src/mirabox_sdk/_internal/messaging/inbound.py:134-157 | the same for a submission that has waited |
| `InboundLaws.FittingEvictsNothing` | src/mirabox_sdk/_internal/messaging/inbound.py:113-131 | an event that fits when it arrives evicts nothing and every queued entry keeps its place |
| `InboundLaws.LosslessIsNotRefused` | src/mirabox_sdk/_internal/messaging/inbound.py:126-138 | while the queue accepts, a lossless event of a possible size whose time is not up is queued, or waits because it does not fit and no rotation is left |
| `InboundLaws.RunStaysOnFile` | src/mirabox_sdk/_internal/messaging/inbound.py:142-157 | in every reachable state each entry that carries the newest decision about its context is on file as its merge target |
| `InboundLaws.MergesExactlyWhen` | src/mirabox_sdk/_internal/messaging/inbound.py:299-326 | in every reachable state of an accepting queue a rotation merges into an entry exactly when coalescing is on, the entry is a rotation of the same dial with the newest decision about its context, and the sum fits |
| `InboundQueue.InboundEventQueue.Submit` | src/mirabox_sdk/_internal/messaging/inbound.py:82-157 | the verdict and the whole new state of one submission up to its first wait; the verdict is what became of the event |
| `InboundQueue.InboundEventQueue.ResumeSubmission` | src/mirabox_sdk/_internal/messaging/inbound.py:115-141 | a woken submission is retried, refused at its timeout or refused after shutdown, and its verdict says which |
| `InboundQueue.InboundEventQueue.MergeTarget` | src/mirabox_sdk/_internal/messaging/inbound.py:299-318 | finds the queued rotation a new one may merge into, exactly when there is one |
| `InboundQueue.InboundEventQueue.MergeInto` | src/mirabox_sdk/_internal/messaging/inbound.py:309-326 | overwrites the queued rotation in place with the summed ticks |
| `InboundQueue.InboundEventQueue.FindRotation` | src/mirabox_sdk/_internal/messaging/inbound.py:328-345 | finds the oldest queued rotation |
| `InboundQueue.InboundEventQueue.DropQueuedRotation` | src/mirabox_sdk/_internal/messaging/inbound.py:328-345 | evicts the oldest queued rotation, if there is one |
| `InboundQueue.InboundEventQueue.EvictUntilFits` | src/mirabox_sdk/_internal/messaging/inbound.py:115-131 | gives up rotations until the event fits or none is left |
| `InboundQueue.InboundEventQueue.PlaceEvent` | src/mirabox_sdk/_internal/messaging/inbound.py:112-157 | the capacity loop under both overflow policies, with its verdict |
| `InboundQueue.InboundEventQueue.RefuseEvent` | src/mirabox_sdk/_internal/messaging/inbound.py:347-352 | counts a refusal and breaks merging |
| `InboundQueue.InboundEventQueue.ReceiveSelected` | src/mirabox_sdk/_internal/messaging/inbound.py:196-225 | hands out the selected entry, not necessarily the head, and forgets it in the merge index |
| `InboundQueue.InboundEventQueue.Acknowledge` | src/mirabox_sdk/_internal/messaging/inbound.py:227-235 | one acknowledgement; an excess one is refused and changes nothing |
| `InboundQueue.InboundEventQueue.StopAccepting` | src/mirabox_sdk/_internal/messaging/inbound.py:237-242 | stops acceptance and changes nothing else |
| `InboundQueue.InboundEventQueue.DiscardQueued` | src/mirabox_sdk/_internal/messaging/inbound.py:257-271 | the discard of a shutdown whose drain timed out |
| `InboundQueue.InboundEventQueue.MetricsBalance` | src/mirabox_sdk/_internal/messaging/metrics.py:32-43 | submitted = coalesced + dequeued + depth + dropped + waiting submitters |
| `Pump.RuntimeEventPump.TakeOwnership` | src/mirabox_sdk/_internal/runtime/pumps.py:284-289 | every received event is owned once |
| `Pump.RuntimeEventPump.ClaimFinish` | src/mirabox_sdk/_internal/runtime/pumps.py:305-317 | only the first caller finishes an owned event |
| `Pump.RuntimeEventPump.FinishOwned` | src/mirabox_sdk/_internal/runtime/pumps.py:305-340 | the source is told of one event at most once and the counters follow; a later finisher changes nothing, even while the first is still on its way |
| `Pump.RuntimeEventPump.IsDrained` | src/mirabox_sdk/_internal/runtime/pumps.py:153-161 | drained means every received event has been acknowledged or has failed to be, once |
| `Pipeline.SourceKeepsOrder` | src/mirabox_sdk/_internal/messaging/inbound.py:82-157 | source steps change only the tail of the line of events, by fresh stamps and unchanged keys |
| `PipelineOrder.StepKeepsLine` | src/mirabox_sdk/_internal/runtime/pumps.py:211-260 | every step of source, pump and scheduler, also a selection or submission whose look at the stop flag came before the stop, keeps conflicting events in source order across finished, running, pending, handed over and queued |
| `PipelineOrder.RunningIndependent` | src/mirabox_sdk/_internal/runtime/keyed_scheduler.py:456-489 | callbacks that run together never conflict |
| `PipelineStore.StepReflected` | src/mirabox_sdk/_internal/runtime/keyed_scheduler.py:395-455 | with callbacks as interleaved single accesses, each running context sees the state as if it ran alone after everything finished |
| `PipelineAcks.StepKeepsHands` | src/mirabox_sdk/_internal/runtime/pumps.py:284-340 | at every moment each received event is in exactly one place, and whoever must still acknowledge it keeps hold of it |
| `PipelineAcks.StepKeepsBalance` | src/mirabox_sdk/_internal/runtime/pumps.py:321-340 | the in-flight count of the source is the number of unacknowledged events |
| `PipelineBounds.UnacknowledgedAreRetained` | README.md:860-869 | received and unacknowledged events are pending, stranded, running or in the one handoff |
| `PipelineTheorems.SequentialEquivalence` | src/mirabox_sdk/_internal/runtime/keyed_scheduler.py:395-489 | whenever no callback runs, in any reachable state, the shared state is the fold of the handlers over the finished events in source order |
| `PipelineTheorems.DrainedRunEqualsFold` | src/mirabox_sdk/_internal/runtime/keyed_scheduler.py:395-489 | a drained run that discarded nothing ends in the fold of the handlers over exactly the delivered events in source order |
| `PipelineTheorems.ConflictOrder` | src/mirabox_sdk/_internal/runtime/keyed_scheduler.py:224-264 | end to end: while a callback runs, every earlier event it conflicts with has finished and nothing it conflicts with runs |
| `PipelineTheorems.BarriersRunAlone` | src/mirabox_sdk/_internal/runtime/keyed_scheduler.py:456-489 | while a barrier runs nothing else is active |
| `PipelineTheorems.RetentionBound` | README.md:860-869 | in every reachable state unacknowledged events never exceed P + W + 1, each context has at most one pending or running work or keeps works * W within P, the source is within its limit, and the handoff never waits |
| `PipelineTheorems.AcknowledgedAtMostOnce` | src/mirabox_sdk/_internal/runtime/pumps.py:305-340 | over every run each received event is acknowledged at most once, and the source never sees an excess acknowledgement |
| `PipelineTheorems.DrainedMeansAcknowledged` | src/mirabox_sdk/_internal/runtime/pumps.py:153-161 | once nothing is left to do every received event has been acknowledged |
| `PipelineTheorems.EndToEndConservation` | src/mirabox_sdk/_internal/messaging/inbound.py:82-271 | any additive quantity, such as the ticks of a dial, is found again among what finished, was lost, is on its way, queued or refused |
| `PipelineProgress.IdleSchedulerSelectsHead` | src/mirabox_sdk/_internal/runtime/keyed_scheduler.py:266-271 | an idle scheduler selects the head of the source |
| `PipelineTheorems.NoStall` | src/mirabox_sdk/_internal/runtime/keyed_scheduler.py:224-271 | every reachable state that is not finished has an internal step |
| `PipelineTheorems.InternalStepsRunOut` | src/mirabox_sdk/_internal/runtime/keyed_scheduler.py:395-489 | each internal step uses up work, so the internal steps between two external ones are bounded |
| `PipelineShutdown.InternalStepsAfterStop` | src/mirabox_sdk/_internal/runtime/keyed_scheduler.py:491-525 | after the source stopped accepting, all the pipeline's own steps of the rest of the run, whatever late submissions, stops and discards come between, are at most the work left at the stop |
| `PipelineShutdown.StoppedRunDrains` | src/mirabox_sdk/_internal/runtime/pumps.py:153-161 | a stopped run that can go no further, or has used up that work, has finished and acknowledged everything received |
| `Completion.StepKeepsSound` | src/mirabox_sdk/completion.py:95-143 | every lock-protected block keeps the completion sound and only moves it forward |
| `Completion.HistoryIsSound` | src/mirabox_sdk/completion.py:95-143 | the same over whole histories |
| `Completion.OneClaimOnePublication` | src/mirabox_sdk/completion.py:200-223 | one step makes a completion terminal, one publishes it, and the abort hook runs at most once |
| `Completion.NeverBegunAfterTerminal` | src/mirabox_sdk/completion.py:123-135 | a command cancelled or expired before its send is never begun, a begun one is never cancelled, success is strictly before the deadline |
| `Completion.FinishDecides` | src/mirabox_sdk/completion.py:200-223 | the first finish decides what it brings, or a missed deadline at or after the deadline; the transport is interrupted exactly when it had begun and the answer is a missed deadline |
| `Completion.CancelDecides` | src/mirabox_sdk/completion.py:95-113 | a cancellation decides exactly while nothing is decided and the send has not begun |
| `Completion.SendAndPublicationDecideNothing` | src/mirabox_sdk/completion.py:123-135 | a send begins exactly while nothing is decided and the deadline lies ahead, and neither it nor the publication changes a decision |
| `Completion.CommandFuture.Share` | src/mirabox_sdk/completion.py:87-93 | a coalesced handle is a new object on the same completion |
| `Completion.CommandFuture.ClaimCancel` | src/mirabox_sdk/completion.py:95-113 | cancels before the send and only then; a persistence handle names the command to ask instead |
| `Completion.CommandFuture.DelegateCancel` | src/mirabox_sdk/completion.py:120-121 | later cancellations of the handle go to another command |
| `Completion.CommandFuture.CancelCommand` | src/mirabox_sdk/completion.py:95-121 | along any chain of delegating handles exactly the last command is cancelled, and only if all of them still could be |
| `Completion.CommandFuture.BeginSend` | src/mirabox_sdk/completion.py:123-135 | the send begins exactly when the command is open and its deadline ahead; an expired one asks to be expired |
| `Completion.CommandFuture.ClaimFinish` | src/mirabox_sdk/completion.py:200-217 | the first finish claims the completion, and the deadline overrules the result it brings |
| `Completion.CommandFuture.SetResult` | src/mirabox_sdk/completion.py:218-223 | publishes the claimed outcome |
| `Completion.CommandFuture.Done` | src/mirabox_sdk/completion.py:145-148 | done means published |
| `OutboundSpec.SendKeepsInv` | src/mirabox_sdk/_internal/messaging/outbound.py:174-237 | an accepted, coalesced or refused submission keeps bounds, counters, identity and the link to the submission history |
| `OutboundSpec.WithdrawKeepsInv` | src/mirabox_sdk/_internal/messaging/outbound.py:262-269 | a command finished while queued leaves with exactly the submissions it stood for |
| `OutboundSpec.DiscardKeepsInv` | src/mirabox_sdk/_internal/messaging/outbound.py:313-327 | so does everything discarded at shutdown |
| `OutboundSpec.StepKeepsInv` | src/mirabox_sdk/_internal/messaging/outbound.py:174-334 | every step of the queue keeps the invariant |
| `OutboundSpec.LastOverwrites` | src/mirabox_sdk/_internal/messaging/outbound.py:357-391 | submissions to one cell amount to the last of them and observe nothing |
| `OutboundSpec.CoalescingPreservesMeaning` | src/mirabox_sdk/_internal/messaging/outbound.py:357-391 | in every run the stream received and still queued has the effect of all accepted submissions not withdrawn, and every unkeyed command is executed in the same state |
| `OutboundSpec.DrainedStreamMeansEverySubmission` | src/mirabox_sdk/_internal/messaging/outbound.py:239-260 | with nothing withdrawn, the drained stream stands for every accepted submission |
| `OutboundSpec.RememberOverwrites` | src/mirabox_sdk/_internal/messaging/outbound.py:380-391 | the device that remembers the last command of each cell satisfies the overwriting assumption |
| `OutboundDevice.SharedCellIsSharedField` | src/mirabox_sdk/_internal/messaging/outbound.py:380-391 | two commands share a coalescing key exactly when the later one hides the earlier one on a device with a field per context and, for titles and images, per target and state |
| `OutboundDevice.PanelOverwrites` | src/mirabox_sdk/_internal/messaging/outbound.py:357-391 | that device meets the assumption under which coalescing preserves meaning |
| `OutboundDevice.DeviceShowsEverySubmission` | src/mirabox_sdk/_internal/messaging/outbound.py:357-378 | over every run it shows what it would had every submission not withdrawn been sent to it one by one, and it gets every unkeyed command once and in order |
| `OutboundDevice.AdmissionIs` | src/mirabox_sdk/_internal/messaging/outbound.py:174-237 | which verdict a submission has: it replaces the tail exactly when it hides it, neither has a deadline, the tail is open and the bytes are there |
| `OutboundDevice.SubmissionLeaves` | src/mirabox_sdk/_internal/messaging/outbound.py:174-237 | which physical commands are queued afterwards |
| `OutboundQueue.OutboundCommandQueue.Classify` | src/mirabox_sdk/_internal/messaging/outbound.py:183-211 | the admission decision |
| `OutboundQueue.OutboundCommandQueue.CanJoin` | src/mirabox_sdk/_internal/messaging/outbound.py:357-373 | only the tail absorbs, only without deadlines, for the same cell, within the bytes and while its completion is open |
| `OutboundQueue.OutboundCommandQueue.SendAsync` | src/mirabox_sdk/_internal/messaging/outbound.py:174-237 | the verdict, the new state, and a new handle on the completion of the entry that carries the command |
| `OutboundQueue.OutboundCommandQueue.JoinTail` | src/mirabox_sdk/_internal/messaging/outbound.py:373-378 | overwrites the tail in place and shares its completion |
| `OutboundQueue.OutboundCommandQueue.Receive` | src/mirabox_sdk/_internal/messaging/outbound.py:239-260 | hands out the head with its completion |
| `OutboundQueue.OutboundCommandQueue.CommandFinished` | src/mirabox_sdk/_internal/messaging/outbound.py:262-269 | a finished command leaves the queue and the deadline watch, wherever it stood |
| `OutboundQueue.OutboundCommandQueue.EarliestDeadline` | src/mirabox_sdk/_internal/messaging/outbound.py:271-279 | the watch waits for a deadline that no other watched deadline precedes |
| `OutboundQueue.OutboundCommandQueue.Unwatch` | src/mirabox_sdk/_internal/messaging/outbound.py:282-284 | a deadline that fell due is forgotten before the command is expired |
| `OutboundQueue.OutboundCommandQueue.StopAccepting` | src/mirabox_sdk/_internal/messaging/outbound.py:286-291 | stops acceptance and changes nothing else |
| `OutboundQueue.OutboundCommandQueue.DiscardQueued` | src/mirabox_sdk/_internal/messaging/outbound.py:313-327 | empties the queue and returns every completion to be failed, in order |
| `Writer.TransportReceipt.Finish` | src/mirabox_sdk/_internal/transport/frames.py:55-75 | a receipt keeps the first result it is given |
| `Writer.CommandWriter.FinishCompletion` | src/mirabox_sdk/_internal/messaging/writer.py:306-322 | finishes an open command once with the overruling verdict; a terminal one is left alone. The success counter follows the reported result, even where the deadline overruled it |
| `Writer.CommandWriter.Enrol` | src/mirabox_sdk/_internal/messaging/writer.py:242-244 | a receipt becomes pending for its command |
| `Writer.CommandWriter.CompleteReceipt` | src/mirabox_sdk/_internal/messaging/writer.py:295-304 | whoever takes the pending entry finishes the command, with the reported result unless its deadline has passed, and nobody takes it twice |
| `Writer.CommandWriter.FailPending` | src/mirabox_sdk/_internal/messaging/writer.py:335-343 | afterwards nothing is pending; every open command of the sweep has failed as stopped, or as late if its deadline had passed, and every other keeps its result |
| `DeliveryOwners.QueueSteps` | src/mirabox_sdk/_internal/messaging/outbound.py:174-334 | the queue inside the composed machine only takes steps of its own specification |
| `DeliveryOwners.StepEvolves` | src/mirabox_sdk/_internal/messaging/writer.py:220-343 | every step moves every completion by one of its own steps or not at all |
| `DeliveryOwners.StepKeepsOwner` | src/mirabox_sdk/_internal/messaging/writer.py:220-343 | after any step a command that is still open is queued, in the writer's hands, owed a finish, or pending with a receipt somebody must finish |
| `DeliveryTheorems.EveryStateIsGood` | src/mirabox_sdk/_internal/messaging/writer.py:160-343 | no reachable state of queue, writer, transport, watch and callers orphans an accepted command, not even when the writer reads an expired command another thread has decided and not yet published |
| `DeliveryTheorems.HandlesAdvance` | src/mirabox_sdk/completion.py:87-93 | a handle names the same command for ever |
| `DeliveryTheorems.AnswersAreFinal` | src/mirabox_sdk/completion.py:200-223 | an answer is final, and handles sharing a command get the same one |
| `DeliveryTheorems.AnsweredOnce` | src/mirabox_sdk/completion.py:200-223 | each command is published by one step of a run and aborted by at most one |
| `DeliveryTheorems.NeverBegunAfterTheEnd` | src/mirabox_sdk/completion.py:123-143 | over every run a command terminal before its send is never begun |
| `DeliveryTheorems.BegunByTheGuard` | src/mirabox_sdk/_internal/transport/websocket.py:304-311 | whatever has begun by some point of a run was begun by the transport's guard, while the command was open and its deadline ahead |
| `DeliveryTheorems.SettledMeansAnswered` | src/mirabox_sdk/_internal/messaging/writer.py:345-348 | nothing left to do anywhere means every accepted handle has been answered |
| `DeliveryAnswers.AnswerIsDecided` | src/mirabox_sdk/completion.py:95-223 | over every run each decided command has one deciding step, and its outcome is what that step brings at its time |
| `DeliveryAnswers.SucceededExactlyWhenWritten` | src/mirabox_sdk/_internal/messaging/writer.py:295-323 | over every run a handle is answered with success exactly when the finish that decided its command brought a success before the deadline; then the transport had begun the send and reported the frame as written |
| `DeliveryDeadlines.DeadlinesAreWatched` | src/mirabox_sdk/_internal/messaging/outbound.py:174-237 | over every run the watch holds the deadline of each undecided command, or has found it due and owes the command its end |
| `DeliveryDeadlines.OverdueCanExpire` | src/mirabox_sdk/_internal/messaging/outbound.py:262-284 | in every reachable state an undecided command whose deadline has passed can be decided as a missed deadline by the watch alone, whatever writer and transport do |
| `DeliveryDeadlines.LateAnswersAreLate` | src/mirabox_sdk/completion.py:123-143 | over every run a handle is told of a missed deadline only if its command has one and some clock reading has reached it |
| `DeliveryProgress.UnansweredCanMove` | src/mirabox_sdk/_internal/messaging/writer.py:160-218 | an unanswered handle leaves some step of the runtime enabled at any time, unless the writer has ended and only the queue's shutdown remains |
| `DeliveryProgress.InternalStepsRunOut` | src/mirabox_sdk/_internal/messaging/writer.py:220-343 | every step the runtime takes of its own accord uses up work |
| `DeliveryProgress.StepsAreBounded` | src/mirabox_sdk/_internal/messaging/writer.py:220-343 | left to itself the runtime makes at most a computable number of steps |
| `DeliverySettling.MaximalRunAnswersEverybody` | src/mirabox_sdk/_internal/messaging/writer.py:160-343 | from any reachable state the runtime by itself makes a bounded number of steps, and when it can make no more every handle has been answered |
| `DeliverySettling.SomeRunAnswersEverybody` | src/mirabox_sdk/_internal/messaging/outbound.py:306-334 | once the queue is closed some such run exists from every good state, even with the clock standing still |
| `GlobalSettingsSpec.StepKeepsInv` | src/mirabox_sdk/_internal/runtime/global_settings.py:321-371 | every block keeps lock, depth and flight consistent and every draft derived from a committed value |
| `GlobalSettingsSpec.NoLostUpdate` | src/mirabox_sdk/_internal/runtime/global_settings.py:289-300 | each commit applies its request to the value after as many commits as its draft saw; that is the immediately preceding value exactly when no write was nested inside the transaction |
| `GlobalSettingsSpec.Serialisable` | src/mirabox_sdk/_internal/runtime/global_settings.py:403-448 | without nesting the settings are what the committed requests produce in commit order, failed transactions are not among them, and every read saw a prefix |
| `GlobalSettingsSpec.WithoutReentryNothingNests` | src/mirabox_sdk/_internal/runtime/global_settings.py:321-332 | if mutators, codecs and send hooks start no write, nothing is nested |
| `GlobalSettingsSpec.OnlyCommitsAreSeen` | src/mirabox_sdk/_internal/runtime/global_settings.py:417-444 | over any stretch of a run commits are never undone, and whatever began, failed or was cancelled, readers see another value only after a commit |
| `GlobalSettingsSpec.ReentrantWriteIsLost` | src/mirabox_sdk/_internal/runtime/global_settings.py:289-300 | a concrete run in which a mutator writes reentrantly and its write is overwritten |
| `SettingsLaws.CommitsWhatWasAsked` | src/mirabox_sdk/_internal/runtime/global_settings.py:289-320 | over every run a committed set, typed or incoming request leaves the value it carries, a committed update what its mutator made of the settings it had seen, and readers get the last one |
| `SettingsLaws.SendsWhatWasAsked` | src/mirabox_sdk/_internal/runtime/global_settings.py:373-401 | a transaction with a draft can go on to send exactly the value set, encoded or made by the mutator, and nothing when that code raises |
| `SettingsLaws.DepthCountsInside` | src/mirabox_sdk/_internal/runtime/global_settings.py:352-361 | the write depth is the number of transactions past their waiting |
| `SettingsLaws.EntersExactlyWhen` | src/mirabox_sdk/_internal/runtime/global_settings.py:335-350 | a thread may start a transaction exactly when the write lock is free, or it holds the lock itself and runs a mutator, a codec or a send |
| `SettingsLaws.EntryIs` | src/mirabox_sdk/_internal/runtime/global_settings.py:321-361 | a blocking transaction is inside at once, waits alone for the write in flight, or is refused because another is inside while one is in flight |
| `SettingsLaws.TryingIs` | src/mirabox_sdk/_internal/runtime/global_settings.py:350-361 | an asynchronous transaction is inside at once exactly when the lock is free and no write is in flight, and refused otherwise |
| `SettingsLaws.EndingIs` | src/mirabox_sdk/_internal/runtime/global_settings.py:352-371 | ending a transaction uncovers the one around it or frees the lock, and a commit alone changes what readers get, to the value that was sent or came in |
| `SettingsLaws.FlightEndIs` | src/mirabox_sdk/_internal/runtime/global_settings.py:430-448 | a write in flight is committed exactly when it was written, with the value that was submitted |
| `GlobalSettingsState.DefaultGlobalSettingsState.Enter` | src/mirabox_sdk/_internal/runtime/global_settings.py:321-361 | entering a blocking transaction: inside, waiting for the write in flight, or busy |
| `GlobalSettingsState.DefaultGlobalSettingsState.TryEnter` | src/mirabox_sdk/_internal/runtime/global_settings.py:352-361 | an asynchronous transaction enters exactly when nothing is going on |
| `GlobalSettingsState.DefaultGlobalSettingsState.Resume` | src/mirabox_sdk/_internal/runtime/global_settings.py:328-332 | a waiting transaction enters once the flight is over |
| `GlobalSettingsState.DefaultGlobalSettingsState.Read` | src/mirabox_sdk/_internal/runtime/global_settings.py:262-267 | readers get the committed value |
| `GlobalSettingsState.DefaultGlobalSettingsState.Draft` | src/mirabox_sdk/_internal/runtime/global_settings.py:295-297 | the mutator works on a copy of the committed value |
| `GlobalSettingsState.DefaultGlobalSettingsState.Submit` | src/mirabox_sdk/_internal/runtime/global_settings.py:406-415 | an asynchronous write installs its pending completion before it is sent |
| `GlobalSettingsState.DefaultGlobalSettingsState.Accepted` | src/mirabox_sdk/_internal/runtime/global_settings.py:412-415 | the accepted write is in flight |
| `GlobalSettingsState.DefaultGlobalSettingsState.ReplaceAndLeave` | src/mirabox_sdk/_internal/runtime/global_settings.py:363-371 | a successful send replaces the settings and leaves the transaction |
| `GlobalSettingsState.DefaultGlobalSettingsState.Abandon` | src/mirabox_sdk/_internal/runtime/global_settings.py:417-421 | a failure leaves without replacing and withdraws a pending completion that was never accepted |
| `GlobalSettingsState.DefaultGlobalSettingsState.Leave` | src/mirabox_sdk/_internal/runtime/global_settings.py:363-371 | the transaction ends while its write stays in flight |
| `GlobalSettingsState.DefaultGlobalSettingsState.CompleteAsync` | src/mirabox_sdk/_internal/runtime/global_settings.py:430-444 | the flight ends: a success replaces, a failure does not |
| `CloneJson.ShallowerIsJson` | src/mirabox_sdk/json_types.py:912-923 | a value accepted at one depth is accepted at every smaller one with the same meaning |
| `JsonPaths.AcceptedExactlyWhen` | src/mirabox_sdk/json_types.py:912-923 | a value is accepted exactly when no path down from it has more than 64 containers, every key met is text and every leaf met is a scalar other than a non-finite number |
| `JsonPaths.SameMeaningSamePaths` | src/mirabox_sdk/json_types.py:52-91 | values of one meaning have the same scalars, kinds, sizes and keys along every path |
| `CloneJson.CyclesAreNotJson` | src/mirabox_sdk/json_types.py:912-923 | the depth limit alone rejects every cycle |
| `CloneJson.ActiveIsCyclic` | src/mirabox_sdk/json_types.py:70-71 | meeting a container on the way to itself means the validator rejects it |
| `CloneJson.Cloning.CloneValue` | src/mirabox_sdk/json_types.py:52-90 | on any object graph cloning succeeds exactly when the validator accepts, with an equal value in fresh containers, flagged exactly, and nothing old changed |
| `CloneJson.Cloning.CloneList` | src/mirabox_sdk/json_types.py:64-87 | the same for lists |
| `CloneJson.Cloning.CloneDict` | src/mirabox_sdk/json_types.py:93-123 | the same for dicts, text keys included |
| `CloneJson.Cloning.CloneObject` | src/mirabox_sdk/json_types.py:29-49 | cloning an object succeeds exactly for dicts the validator accepts |
| `CloneJson.Cloning.CloneEach` | src/mirabox_sdk/json_types.py:743-748 | cloning several values succeeds exactly when the validator accepts each, with equal copies in adjacent blocks of fresh containers |
| `CloneJson.CloneIsFreshTree` | src/mirabox_sdk/json_types.py:29-45 | walking a clone meets only new containers and none of them twice |
| `CloneJson.InitializeFlags` | src/mirabox_sdk/json_types.py:155-175 | the recomputed flags cover exactly the containers of the object and are right |
| `CloneJson.FlagsAgree` | src/mirabox_sdk/json_types.py:145-175 | the flags recorded while cloning and the recomputed ones are the same |
| `CowSpec.ContentsAgree` | src/mirabox_sdk/json_types.py:332-345 | length, membership, lookup and order of an overlay are those of the plain dictionary |
| `CowSpec.TouchRefines` | src/mirabox_sdk/json_types.py:356-382 | remembering a wrapper changes only how a value is stored |
| `CowSpec.SetRefines` | src/mirabox_sdk/json_types.py:432-442 | assignment keeps the overlay invariant and is assignment on the plain dictionary |
| `CowSpec.DeleteRefines` | src/mirabox_sdk/json_types.py:391-407 | deletion keeps the overlay invariant and is deletion on the plain dictionary |
| `CowSpec.ClearRefines` | src/mirabox_sdk/json_types.py:520-526 | clearing empties the plain dictionary |
| `CowSpec.UpdateRefines` | src/mirabox_sdk/json_types.py:528-540 | updating is assigning every key in order |
| `CowSpec.ReinsertionMovesToTheEnd` | src/mirabox_sdk/json_types.py:391-442 | a deleted key that is inserted again stands at the end |
| `CowSpec.IterationRefines` | src/mirabox_sdk/json_types.py:453-461 | iterating wraps but changes no contents |
| `CowSpec.MaterializingRefines` | src/mirabox_sdk/json_types.py:622-631 | materialising a list never changes what it stands for |
| `CowSpec.TouchAtRefines` | src/mirabox_sdk/json_types.py:639-662 | the same for reading a list element, in either phase |
| `CowSpec.PutAtRefines` | src/mirabox_sdk/json_types.py:682-690 | sparse assignment is assignment on the plain list |
| `CowOperations.DictOperationRefines` | src/mirabox_sdk/json_types.py:332-540 | every dictionary operation has the plain contents and reply, and hands out no raw container |
| `CowOperations.ListOperationRefines` | src/mirabox_sdk/json_types.py:617-794 | so has every list operation, in both phases and for negative indexes |
| `PlainLaws.AtPosition` | src/mirabox_sdk/json_types.py:639-761 | getting, setting, deleting and popping at a position, by slices |
| `PlainLaws.FromTheEnd` | src/mirabox_sdk/json_types.py:639-761 | at a negative index every list operation has the effect and the reply it has at the index plus the length |
| `PlainLaws.OutsideIsAnError` | src/mirabox_sdk/json_types.py:639-761 | any other index is an error and changes nothing |
| `PlainLaws.PopUndoesAppend` | src/mirabox_sdk/json_types.py:737-761 | the last element is at -1; popping it undoes an append |
| `PlainLaws.InsertionIs` | src/mirabox_sdk/json_types.py:750-754 | an insertion moves what was at the position behind the value, and deleting it there undoes it |
| `PlainLaws.InsertionOutside` | src/mirabox_sdk/json_types.py:750-754 | beyond the end an insertion appends, before the beginning it comes first |
| `PlainLaws.ReversalIs` | src/mirabox_sdk/json_types.py:791-794 | reversing sends each element to the same distance from the other end, and twice changes nothing |
| `PlainLaws.ExtensionIs` | src/mirabox_sdk/json_types.py:743-748 | extending is appending one by one |
| `PlainLaws.ClearingAndIteratingAre` | src/mirabox_sdk/json_types.py:698-775 | clearing leaves nothing; iterating leaves everything and gives it in order |
| `PlainLaws.AssignmentIs` | src/mirabox_sdk/json_types.py:384-442 | an assigned key reads as assigned and every other as before; a new key comes last and an old one keeps its place |
| `PlainLaws.LookupIs` | src/mirabox_sdk/json_types.py:356-412 | a key that is there reads as its value; a missing one is an error that changes nothing |
| `PlainLaws.DeletionIs` | src/mirabox_sdk/json_types.py:391-503 | deleting takes the key out of the order and keeps every other entry; popping reads and then deletes |
| `PlainLaws.PopUndoesAssignment` | src/mirabox_sdk/json_types.py:505-512 | taking the last item undoes the assignment of a new key |
| `PlainLaws.DefaultIs` | src/mirabox_sdk/json_types.py:514-518 | a default is assigned only where the key is missing |
| `PlainLaws.UpdateIs` | src/mirabox_sdk/json_types.py:528-540 | updating is assigning one key after the other |
| `PlainLaws.DictIterationIs` | src/mirabox_sdk/json_types.py:338-354 | iteration gives the keys in order, each with its value, or backwards |
| `PlainLaws.DictAnswersPlainly` | src/mirabox_sdk/json_types.py:356-540 | a copy-on-write dictionary answers what the plain one answers, containers as wrappers and everything else as it is |
| `PlainLaws.ListAnswersPlainly` | src/mirabox_sdk/json_types.py:639-794 | a copy-on-write list answers what the plain one answers, containers as wrappers and everything else as it is |
| `PlainLaws.UntouchedIsTheContainer` | src/mirabox_sdk/json_types.py:261-282 | a wrapper nobody has used stands for its container: the items in their places, the keys in order with their own items |
| `PlainLaws.FlaggedNeedsNoWrapper` | src/mirabox_sdk/json_types.py:463-476 | a container is flagged as holding scalars only exactly when iterating over it hands out no wrapper |
| `CowViews.OtherViewsUnchanged` | src/mirabox_sdk/json_types.py:208-238 | operating on one view leaves every other view as it was |
| `CowViews.HandedAreKnown` | src/mirabox_sdk/json_types.py:261-282 | what an operation hands out are containers of its own view |
| `CowViews.ActionsNeverStick` | src/mirabox_sdk/json_types.py:332-794 | every operation with cloned arguments can be carried out on every handle of every sound world |
| `CowViews.ActionRefines` | src/mirabox_sdk/json_types.py:261-282 | one operation on one handle changes exactly that view, as its own deep copy would, and no existing raw container |
| `CowViews.CloneIsSnapshot` | src/mirabox_sdk/json_types.py:136-143 | a validated object is a closed snapshot that views can be opened on |
| `CowViews.CloneIsAllocated` | src/mirabox_sdk/json_types.py:384-389 | what cloning an inserted value allocates is fresh, closed and the view's own |
| `CowViews.ExtensionIsAllocated` | src/mirabox_sdk/json_types.py:743-748 | the same for all values a list is extended by |
| `CowViews.UpdateIsAllocated` | src/mirabox_sdk/json_types.py:528-540 | the same for all values of a dict that another is updated by, without the copy of that dict itself |
| `CowViews.ViewsAreDeepCopies` | src/mirabox_sdk/json_types.py:249-286 | over any interleaving of operations on any number of views and nested handles, the views go through the run of separate deep copies with the same replies, and the snapshot never changes |
| `CowSlots.OperationStores` | src/mirabox_sdk/json_types.py:332-794 | whatever an operation leaves in a wrapper was there, was inserted, or is a wrapper it handed out |
| `CowIdentity.LiveAfter` | src/mirabox_sdk/json_types.py:622-631 | nothing an operation has dropped comes alive again |
| `CowIdentity.RightExactlyWhenSpared` | src/mirabox_sdk/json_types.py:261-282 | with addresses that may be used again: after an operation every readable container is found under its own wrapper if and only if no readable clone got the address of a cached wrapper |
| `CowIdentity.OnlyDroppedListsAreHit` | src/mirabox_sdk/json_types.py:622-631 | only a list that was inserted, wrapped, materialised and is stored nowhere else can lose its address |
| `CowIdentity.SafeExactlyWhenNoneDropped` | src/mirabox_sdk/json_types.py:267-281 | no allocator can hit a cached wrapper with the next clone if and only if the container of every wrapper is still alive |
| `CowIdentity.AnswerIsSafeExactlyWhen` | src/mirabox_sdk/json_types.py:261-282 | whatever address each clone gets, an operation answers with the right wrappers if and only if it hands out no clone or the container of every wrapper is still alive: otherwise some legal memory makes the answer a wrong one |
| `CowIdentity.UnstructuredIsSafe` | src/mirabox_sdk/json_types.py:622-631 | a view whose own lists were never restructured after being read is in no danger |
| `CowIdentity.SparedRunsAreRight` | src/mirabox_sdk/json_types.py:261-282 | over every run in which no clone gets such an address the code answers what the views' specification answers |
| `CowIdentity.RunIsRightExactlyWhenSpared` | src/mirabox_sdk/json_types.py:261-282 | over every run: found right in every state if and only if no readable clone ever got such an address |
| `CowIdentity.WorldStepIsOwnMove` | src/mirabox_sdk/json_types.py:249-286 | a step among many views is a move of one owner and leaves every other owner's view alone |
| `CowReuse.StaleWrapperIsFound` | src/mirabox_sdk/json_types.py:267-281 | a legal run of three calls in which a newly inserted empty list is answered with another list's wrapper |
| `CowSteps.CallDict` | src/mirabox_sdk/json_types.py:332-540 | every dictionary operation, called on the objects through any handle of an owner, is the step of the whole view that its specification describes, with the same answer, and leaves the owner as it should be |
| `CowSteps.CallList` | src/mirabox_sdk/json_types.py:617-794 | so is every list operation |
| `CowJson.CowOwner.Wrap` | src/mirabox_sdk/json_types.py:261-282 | a container gets one wrapper, made on first use from the snapshot |
| `CowJson.CowDict.Length` | src/mirabox_sdk/json_types.py:332-336 | the length of the plain dictionary |
| `CowJson.CowDict.ContainsKey` | src/mirabox_sdk/json_types.py:409-412 | membership in the plain dictionary |
| `CowJson.CowDict.IterKeys` | src/mirabox_sdk/json_types.py:338-345 | the keys in insertion order |
| `CowJson.CowDict.IterKeysReversed` | src/mirabox_sdk/json_types.py:347-354 | the keys in reverse insertion order |
| `CowJson.CowDict.GetItem` | src/mirabox_sdk/json_types.py:356-382 | the value, wrapped and remembered where it was found |
| `CowJson.CowDict.SetItem` | src/mirabox_sdk/json_types.py:384-389 | stores the clone and counts one change |
| `CowJson.CowDict.DelItem` | src/mirabox_sdk/json_types.py:391-407 | deletes from the overlay, or refuses and changes nothing |
| `CowJson.CowDict.Update` | src/mirabox_sdk/json_types.py:528-540 | stores every key in order and counts at most one change |
| `CowJson.CowDict.Clear` | src/mirabox_sdk/json_types.py:520-526 | clears, or does nothing when already empty |
| `CowJson.CowDict.Pop` | src/mirabox_sdk/json_types.py:496-503 | hands out the wrapped value, deletes the key and wraps no other container |
| `CowJson.CowDict.PopItem` | src/mirabox_sdk/json_types.py:505-512 | takes the last key of the plain dictionary |
| `CowJson.CowDict.GetOrSet` | src/mirabox_sdk/json_types.py:514-518 | the value of the key, inserting the cloned default first only where there is none |
| `CowJson.CowDict.HasUnchangedScalarSource` | src/mirabox_sdk/json_types.py:463-475 | true exactly when nothing changed and the snapshot holds scalars only |
| `CowJson.CowDict.IterItems` | src/mirabox_sdk/json_types.py:453-461 | the direct and the wrapping iteration give the same items, leave the same contents and wrap exactly the containers among them |
| `CowJson.CowList.Materialize` | src/mirabox_sdk/json_types.py:622-631 | copies the snapshot with the sparse changes written over it |
| `CowJson.CowList.GetItem` | src/mirabox_sdk/json_types.py:639-662 | indexes from both ends, wraps and remembers |
| `CowJson.CowList.SetItem` | src/mirabox_sdk/json_types.py:681-691 | assigns sparsely or in the list's own storage, or refuses a wrong index |
| `CowJson.CowList.DelItem` | src/mirabox_sdk/json_types.py:693-696 | deletes from the plain list; a wrong index changes no contents |
| `CowJson.CowList.Append` | src/mirabox_sdk/json_types.py:737-741 | appends to the plain list |
| `CowJson.CowList.Extend` | src/mirabox_sdk/json_types.py:743-748 | extends the plain list; nothing to add is no change |
| `CowJson.CowList.Insert` | src/mirabox_sdk/json_types.py:750-754 | inserts at the clamped index |
| `CowJson.CowList.Pop` | src/mirabox_sdk/json_types.py:756-761 | removes from the plain list, hands out the wrapper and wraps no other container |
| `CowJson.CowList.Reverse` | src/mirabox_sdk/json_types.py:791-794 | reverses the plain list |
| `CowJson.CowList.Clear` | src/mirabox_sdk/json_types.py:770-775 | empties the plain list, or does nothing when already empty |
| `CowJson.CowList.Iterate` | src/mirabox_sdk/json_types.py:698-706 | the direct and the wrapping iteration give the same elements and wrap exactly the containers among them |

## Left out

- WebSocket sessions, sockets, real threads, condition variables, polling intervals and joins: a wait is a step that
  is tried again, and the next step is chosen freely.
- The transport's queues and sender loop: the transport is the steps that begin, conclude or drop a frame.
- `SubmitSized`: the waiting branch is the outcome `MustWait`; the loop that repeats it is a sequence of steps.
- `SelectSizedEvent`: the counters of selection backpressure and the peaks of every queue are not modelled.
- The adapters for sources and schedulers without sizes (`receive`, `receive_selected`, `select_event`, `submit`).
- Internal scheduler work that has no event (callback timeouts, tokens of the fallback scheduler).
- A submission to a scheduler that was never started: the pump treats its error like a terminated event.
- `LeavePool`: a thread that cannot be started, and with it a pool of fewer workers, is not modelled.
- `Pipeline`: the pump's look at its stop flag before it selects; without it the pump may also select after a stop, as
  often as there is an event for it, which only adds runs.
- Readiness gates, fatal-error callbacks and the failure that a pump or a writer records.
- `Completion.CommandFuture.CancelCommand`: each handle of the chain has its own lock; what other threads do between two
  of them is not part of this contract, which is about one call that is not interrupted.
- The settings machine has the cancellation of an asynchronous write as a failed completion of that write.
- `Delivery`: the order in which one thread makes several calls it owes is left open, which only adds interleavings;
  the deadline watch may serve any due deadline, not only the earliest.
- `Delivery` has the results of receipts, not what the writer and the transport count of them.
- The settings' async metrics handle and the JSON codecs' own logic.
- The order in which an iteration over a copy-on-write container interleaves with writes to the same container.
- `CowReuse.StaleWrapperIsFound`: what a view does after it has handed out a wrong wrapper is not followed further.
- Copy-on-write slicing, sorting, `remove`, `index`, `count`, repetition, comparison, pickling, `repr`, `copy`, and
  the physical sentinel that keeps the JSON encoder on the mapping path.
- Inserting a copy-on-write container into another: the argument of an insertion is an arbitrary graph of plain
  containers.
- The mutable payload type of outgoing commands, the event and registration parsers, manifests, routing, actions,
  logging and the command line.
- Shutdown composition with timeouts: only the shutdown steps of each component are modelled.
