# DeltaServe co-serving: a verified model

DeltaServe runs finetuning inside an inference server. Finetuning samples are claimed from a
length-bucketed store and ride along in forward steps; each step owns a window of a shared
activation buffer; when the buffer is full or cannot grow, a separate process trains on it and
answers. No lock is involved anywhere. The project models that machinery in Dafny and proves what
holds over every run.

How the parts fit:

- `Samples`, `FinetuningStore`, `Coordinator`, `StepSpec`: the abstract store and coordinator, and one
  schedule, commit, rollback and acknowledgement as functions on both.
- `Lifecycle`: the transition system over them, with a queue of steps in flight and the buffer's rows,
  and its invariant. `BufferLayout` is about the write windows and what the rows hold, `BufferOrder` about
  the order of `buffer_samples`; `Guarantees` reads off what the protocol promises.
- `Buckets`, `BucketStore`, `BufferCoordinator`, `Scheduler`: the classes, with the source's fields and
  loops, each method proved against those functions. `ScheduleRuns` shows that every call of the
  scheduler is a run of the transition system.
- `Estimator`, `Admission`, `GreedyOptimality`: the step-time model, the admission decision as a
  relation that the scheduler's loop meets, and its optimality. `PermittedChoices` says the same in terms of
  deadlines, caps and credit alone.
- `TriggerDelivery` follows the backward's trigger on its way to the workers, `Completion` the end of
  finetuning. `IdleEngine` is the scheduler's own admission on an engine without inference, and `Stepping` says
  when such an engine is stepped at all.
- `AbortVote`, `AckRelay`: one rank's part in the two votes of tensor parallelism. `RankGroup` is the machine
  of all ranks and their scheduler over one group of barrier collectives, with arbitrary arrivals in between;
  `ArrivalVotes` says when its votes succeed.
- `ActivationSave`: the three ways of saving FT rows. `PauseGrant`: the runner's pause bookkeeping.
- `ConfigLines`, `ConfigLayout`, `ConfigConvert`, `ConfigStable`, `ConfigIdempotence`, `ConfigMeaning`,
  `ConfigConservation`, `ConfigSettings`, `ConfigScript`: the layout converter, from one line to the two
  loops, and what the config loader makes of the result.

What the proofs assume about the surroundings:

- a tokenized sample is not empty;
- the base scheduler schedules each freshly admitted FT request once, whole or cut short, or not at all,
  and leaves the ones in flight alone;
- the regime fits are arbitrary real coefficients with nonnegative errors, and the contended-decode regime
  is not the only one fitted (`Estimator.Model.SelectFailsExactly` shows why that is needed);
- request ids are unique; a CUDA event, once completed, stays completed.

Where the code does something its own text does not say, the model follows the code:

- `buffer_samples` is documented as being in write order; it is filled from a set of request ids, so any
  order is possible (`StepSpec.ScheduleInput.order`), and it is the write order exactly while every schedule
  happens to list its samples as it batches them (`BufferOrder.WriteOrderExactly`, with a step that does not in
  `WriteOrderCanFail`). Nothing else proved here depends on that order.
- `has_requests` is documented to ask for a step only if a sample can be admitted in it, and to let the engine
  go idle at the end of finetuning. It looks at the budget and the epoch alone, so it asks for steps without
  work exactly where room is left and no sample can be reached (`IdleEngine.StepsWithoutWorkExactly`). That
  happens in two ways. It tests the epoch against `total_epochs`, which the epoch never reaches, while
  admission stops one earlier: every fresh engine whose samples fit can get to that end
  (`Completion.SpinningIsReachable`), and without arrivals it stays there (`FinishedEngineKeepsSpinning`).
  And samples are loaded by the size of the buffer alone: those longer than the engine's token budget for a
  step are never admitted. Such an engine is stepped for ever (`IdleEngine.WedgedForever`), from the start
  (`LongCorpusWedges`) or with rows in its buffer that are never trained (`MixedCorpusWedges`).
  Otherwise it trains every epoch (`IdleEngine.IdleEngineFinishes`).
- An idle reading is documented to release the throttle at once. But the throttle is only read in a step, and
  an engaged throttle asks for none: an engine left without inference sleeps on with its samples untrained
  until the next request (`Stepping.ThrottledEngineSleeps`). Besides that it can fall asleep over a full
  buffer, when an older step is undone after a newer one committed (`Stepping.AsleepOverRows`); there is no
  third way (`Stepping.SleepsExactly`).
- `_select` is said to make `predict` return 0 when nothing usable is fitted; with only the contended-decode
  regime fitted there are no coefficients to evaluate.
- `max_prepare` of zero still loads one sample, because the limit is tested after the append.
- A throttle engaged at clock time exactly zero counts as engaged now, at every reading: its minimum hold never
  ends (`Coordinator.ZeroEngageNeverExpires`; `HeldExactly` says when a throttle is released).
- Write windows tile the reserved region only if commits take the oldest step and rollbacks the newest
  (`BufferLayout.TiledExactlyInOrder`). Aborting an older step with a newer one in flight makes a later
  commit hand the child a zeroed row (`BufferLayout.AbortOfOlderCorrupts`), or gives the next step rows that the
  newer one still owns (`BufferLayout.ScheduleAfterAbortMeets`).
- A config section outside finetune that occurs twice is written twice with both bodies, and all its headers
  become the last one. Conversion is idempotent exactly when such sections are empty and their headers
  survive the strip at the end of the text (`ConfigIdempotence.IdempotentExactly`, with failing files in
  `RepeatedLineGrows` and `RepeatedHeaderChanges`). A repeated finetune section does no harm to that.
- A known finetune key given in two sections is an error when the file is loaded, and none after the
  conversion, which puts both lines into the key's home section (`ConfigSettings.ConvertedLoads`).

## Model

| member | source | states |
|---|---|---|
| `Lifecycle.RunKeepsInv` | deltaserve-plugin/deltaserve/ft_scheduler.py:908-1143 | in every run of schedules, row writes, commits, rollbacks and acknowledgements, in any order: coordinator counts equal the tokens committed and in flight and stay within capacity; the claimed set, `buffer_samples` and the samples committed or in flight are the same, each once; a pending backward leaves nothing in flight; a closed gate has a reason; each epoch trains each sample once |
| `Lifecycle.ScheduleStep` | deltaserve-plugin/deltaserve/ft_scheduler.py:929-1084 | one schedule call, whatever admission takes within its preconditions and whatever the base scheduler schedules of it, keeps the invariant |
| `Lifecycle.SchedPool` | deltaserve-plugin/deltaserve/ft_scheduler.py:1019-1043 | after admission, partition and release exactly the scheduled samples have moved from selectable to claimed |
| `Lifecycle.SchedCoordKeeps` | deltaserve-plugin/deltaserve/coordinator.py:623-701 | the two flush verdicts and the reservation of one step keep counting, exclusion and the gate rule |
| `Lifecycle.CommitStep` | deltaserve-plugin/deltaserve/coordinator.py:717-738 | committing any step in flight moves its tokens from reserved to committed and fires the backward only when nothing is left in flight |
| `Lifecycle.RollbackStep` | deltaserve-plugin/deltaserve/ft_scheduler.py:1145-1218 | rolling back any step in flight returns exactly its samples and its tokens |
| `Lifecycle.AckTrainsClaimed` | deltaserve-plugin/deltaserve/coordinator.py:880-895 | an acknowledgement marks exactly the claimed samples trained |
| `Lifecycle.BatchWithinAdmitted` | deltaserve-plugin/deltaserve/ft_scheduler.py:1053-1057 | the scheduled tokens never exceed the admitted ones, and are zero only when nothing was scheduled |
| `BufferLayout.TiledExactlyInOrder` | deltaserve-plugin/deltaserve/coordinator.py:623-651 | from a state whose write windows tile the reserved region, the next state is tiled if and only if the step commits the oldest in flight, rolls back the newest, or is neither |
| `BufferLayout.TiledDisjoint` | deltaserve-plugin/deltaserve/coordinator.py:289 | windows of different steps in flight do not meet |
| `BufferLayout.InOrderRunsLayOut` | deltaserve-plugin/deltaserve/ft_scheduler.py:1064-1081 | in every in-order run the first `fill_count` buffer rows are the committed steps' FT rows in the order of `sample_lens`, and each window holds what its step has written |
| `BufferLayout.AbortOfOlderCorrupts` | deltaserve-plugin/deltaserve/accumulate.py:632-668 | whenever the oldest of several steps in flight is aborted and the next one commits, the committed prefix holds a zeroed row where a trained sample's row belongs |
| `BufferLayout.ScheduleAfterAbortMeets` | deltaserve-plugin/deltaserve/coordinator.py:632-651 | after the oldest of several steps in flight is undone, the next step's window shares a row with one still in flight if and only if the tokens in flight and its own outnumber those undone |
| `BufferOrder.WriteOrderExactly` | deltaserve-plugin/deltaserve/coordinator.py:294-302 | while commits take the oldest step and rollbacks the newest, `buffer_samples` stays in write order if and only if each schedule lists its samples in batch order |
| `BufferOrder.WriteOrderCanFail` | deltaserve-plugin/deltaserve/ft_scheduler.py:1071-1081 | a fresh engine can schedule two samples whose list is not in write order |
| `Guarantees.BadRunIsReachable` | deltaserve-plugin/deltaserve/coordinator.py:638-646 | such a state is reached from any fresh engine with two one-token samples and room for both |
| `Guarantees.BackwardReadsStableBuffer` | deltaserve-plugin/deltaserve/coordinator.py:469-473 | from a trigger until its acknowledgement, whatever happens in between, no FT step is in flight and nothing the child reads changes |
| `Guarantees.AckTrainsTheRowsItWasGiven` | deltaserve-plugin/deltaserve/coordinator.py:785-799 | from a laid-out state that holds a work item, over any run without its acknowledgement, the item goes on naming exactly the committed rows, split as they were saved; the acknowledgement, polled or relayed, trains exactly their samples, none of which was trained before in the epoch |
| `Guarantees.TriggerRidesAlone` | deltaserve-plugin/deltaserve/ft_scheduler.py:1086-1092 | an output that carries a trigger carries no FT token, so it is never in flight and no rollback of an FT-only step can discard it |
| `TriggerDelivery.EveryTriggerDelivered` | deltaserve-plugin/deltaserve/coordinator.py:740-799 | in every tensor-parallel run, with whatever rollbacks: the work items on outputs that are not undone, then the one still parked, are exactly the backwards decided, each once, in order and over the whole buffer; an undone output never carries one; at most one backward is unacknowledged |
| `Guarantees.EachSampleOncePerEpoch` | deltaserve-plugin/deltaserve/finetuning_store.py:239-296 | in every run each finished epoch trained every sample exactly once, the current one none twice, and the epoch stays below the configured number |
| `Guarantees.AdvanceNeedsAllTrained` | deltaserve-plugin/deltaserve/ft_scheduler.py:443-447 | the epoch advances only over a fully trained corpus with an empty buffer and nothing in flight |
| `Guarantees.GateReopens` | deltaserve-plugin/deltaserve/coordinator.py:675-715 | in every reachable state a closed gate has a pending backward, an engaged throttle, or a flush with rows to flush; the counts and the claimed set agree, and a pending backward has nothing in flight |
| `Guarantees.GateStaysClosed` | deltaserve-plugin/deltaserve/coordinator.py:672-701 | over any run without an acknowledgement, a rollback or the release of an engaged throttle a closed gate stays closed, whatever arrival rates are read, and every schedule in it admits nothing |
| `Guarantees.GateAfterSchedule` | deltaserve-plugin/deltaserve/ft_scheduler.py:990-1062 | a step that carries FT leaves the gate open if and only if another selectable sample fits behind all rows committed and reserved, whatever part of the admitted ones was scheduled |
| `Guarantees.StepBegins` | deltaserve-plugin/deltaserve/ft_scheduler.py:929-952 | without an answer a schedule call first starts the backward of a flush that is due and then reads the rate: a throttle that is engaged then closes the gate, one that is released opens it, and otherwise the gate is as the flush left it |
| `Guarantees.WorkNamesItsEpoch` | deltaserve-plugin/deltaserve/ft_scheduler.py:1004 | in every run a backward, handed over or parked, names the epoch of the samples it trains |
| `Guarantees.StuckBufferTrainsWithinTwoSteps` | deltaserve-plugin/deltaserve/ft_scheduler.py:990-1062 | a settled non-empty buffer that cannot grow starts its backward within two schedule calls |
| `Guarantees.RollbackUndoesSchedule` | deltaserve-plugin/deltaserve/ft_scheduler.py:1145-1218 | rolling back the step just scheduled gives back every coordinator and store field of the snapshot, an epoch advance excepted |
| `IdleEngine.StepsWithoutWorkExactly` | deltaserve-plugin/deltaserve/ft_scheduler.py:595-614 | without inference, with no backward pending and no flush due: `has_requests` asks for a step on which the scheduler admits nothing, whatever the estimator says, if and only if the budget holds a minimal sample but none can be reached: those selectable are longer than buffer space and step budget allow, or none is selectable and the next epoch is none, is not allowed yet, or holds nothing shorter |
| `IdleEngine.WedgedForever` | deltaserve-plugin/deltaserve/ft_scheduler.py:415-451 | with room for every selectable sample in the buffer and all of them over the engine's token budget, the engine is stepped for ever and trains nothing more, not even rows it holds already |
| `IdleEngine.LongCorpusWedges` | deltaserve-plugin/deltaserve/ft_scheduler.py:419-426 | a fresh engine whose samples fit the buffer and not the step is in that situation from the start |
| `IdleEngine.MixedCorpusWedges` | deltaserve-plugin/deltaserve/ft_scheduler.py:415-451 | a fresh engine with one short and one such long sample gets there with the short one's row committed, by the scheduler's own decision |
| `IdleEngine.IdleStepIsEager` | deltaserve-plugin/deltaserve/ft_scheduler.py:431-490 | where every sample fits buffer and token budget, the scheduler's decision without inference takes something whenever something can be taken |
| `IdleEngine.IdleEngineFinishes` | deltaserve-plugin/deltaserve/ft_scheduler.py:263-497 | without arrivals the scheduler's own admission trains every epoch, if every sample fits buffer and token budget |
| `Stepping.SleepsExactly` | deltaserve-plugin/deltaserve/ft_scheduler.py:601-614 | in every reachable state with nothing in flight and something to train, the engine is not stepped if and only if the throttle holds the gate with no backward or flush to serve, or an open buffer too full for a minimal sample was never marked for a flush |
| `Stepping.InOrderSleepsExactly` | deltaserve-plugin/deltaserve/ft_scheduler.py:601-614 | while commits take the oldest step and rollbacks the newest, and no sample is shorter than the minimum, the throttle is the only reason |
| `Stepping.ThrottledEngineSleeps` | deltaserve-plugin/deltaserve/coordinator.py:568-573 | one step of any fresh engine under a rate above the limit reaches the first kind: the whole corpus is untrained, nobody steps the engine, and one more step would open the gate |
| `Stepping.AsleepOverRows` | deltaserve-plugin/deltaserve/coordinator.py:664-668 | a fresh engine with two samples reaches the second kind: the newer step commits, the older is undone, and two rows stay without their backward |
| `Stepping.SwitchedOffSleeps` | deltaserve-plugin/deltaserve/ft_scheduler.py:599-600 | once finetuning is off, by hand or for a dead child, no step is asked for and nothing is admitted until it is switched on again |
| `Completion.FinishedForever` | deltaserve-plugin/deltaserve/ft_scheduler.py:309-311 | once every epoch is trained no event ever lets admission past its first guard again, and stepping goes on exactly while the budget holds a minimal sample |
| `Completion.FinishedEngineKeepsSpinning` | deltaserve-plugin/deltaserve/ft_scheduler.py:610-613 | without arrivals that lasts for ever: whether the engine is stepped depends on the budget at the end of training alone |
| `Completion.SettledIsStepped` | deltaserve-plugin/deltaserve/ft_scheduler.py:595-614 | between the steps of an engine without arrivals, on one GPU and with samples that fit, the next step is always asked for |
| `Completion.EagerEngineFinishes` | deltaserve-plugin/deltaserve/ft_scheduler.py:595-614 | without arrivals, and with samples that fit the buffer, every engine that takes something whenever something fits trains every epoch, whatever it picks and whatever part of it is scheduled; it stays in states from which it is stepped |
| `Completion.SpinningIsReachable` | deltaserve-plugin/deltaserve/ft_scheduler.py:610-613 | every fresh single-GPU engine whose samples fit reaches a state in which nothing can ever be admitted and the next step is still asked for |
| `FinetuningStore.ReleaseUndoesClaim` | deltaserve-plugin/deltaserve/finetuning_store.py:208-282 | claim then release is the identity exactly when none of the named samples had been claimed |
| `FinetuningStore.MovesExactly` | deltaserve-plugin/deltaserve/finetuning_store.py:208-282 | claim, commit and release move exactly the samples named by request id, each from its one source set to its one target set |
| `BucketStore.Store.ViewValid` | deltaserve-plugin/deltaserve/finetuning_store.py:76-87 | the buckets, the claimed set and the trained flags hold every sample in exactly one of the three |
| `BucketStore.Store.Load` | deltaserve-plugin/deltaserve/finetuning_store.py:91-147 | loads the first fitting lines, at least one of them and at most the limit, and makes all samples selectable |
| `Buckets.ReadEnd` | deltaserve-plugin/deltaserve/finetuning_store.py:107-128 | the samples loaded are a prefix of the lines that are neither blank nor longer than the buffer |
| `Buckets.FittingStep` | deltaserve-plugin/deltaserve/finetuning_store.py:107-128 | line by line, a line adds one sample exactly when it is not blank and its tokens fit the buffer |
| `BucketStore.Store.BuildTemplates` | deltaserve-plugin/deltaserve/finetuning_store.py:149-154 | every sample is in the bucket of its length and the lengths are ascending |
| `BucketStore.Store.ResetEpochStructures` | deltaserve-plugin/deltaserve/finetuning_store.py:156-165 | everything is selectable, nothing claimed or trained |
| `BucketStore.Store.PopBestUnder` | deltaserve-plugin/deltaserve/finetuning_store.py:169-186 | a longest selectable, not excluded sample within the limit; None if and only if there is none |
| `BucketStore.Store.PopNext` | deltaserve-plugin/deltaserve/finetuning_store.py:188-204 | a shortest selectable, not excluded sample; None if and only if there is none |
| `BucketStore.Store.Claim` | deltaserve-plugin/deltaserve/finetuning_store.py:208-237 | moves exactly the selectable samples named and counts them; the ascending list stays the list of non-empty buckets |
| `BucketStore.Store.CommitClaimed` | deltaserve-plugin/deltaserve/finetuning_store.py:239-255 | marks exactly the claimed samples named as trained and counts them |
| `BucketStore.Store.ReleaseClaimed` | deltaserve-plugin/deltaserve/finetuning_store.py:257-282 | returns exactly the claimed samples named and counts them |
| `BucketStore.Store.AdvanceEpoch` | deltaserve-plugin/deltaserve/finetuning_store.py:284-296 | succeeds exactly when an epoch is left and nothing is claimed, and then makes everything selectable |
| `BucketStore.Store.HasNext` | deltaserve-plugin/deltaserve/finetuning_store.py:298-303 | true exactly when a sample is selectable |
| `BucketStore.Store.HasClaimed` | deltaserve-plugin/deltaserve/finetuning_store.py:305-309 | true exactly when a sample is claimed |
| `BufferCoordinator.FinetuneCoordinator.constructor` | deltaserve-plugin/deltaserve/coordinator.py:276-411 | an empty buffer with the gate open |
| `BufferCoordinator.FinetuneCoordinator.NextFtBudget` | deltaserve-plugin/deltaserve/coordinator.py:469-473 | a positive budget means the switch is on, the gate open, no backward pending, and the rows fit |
| `BufferCoordinator.FinetuneCoordinator.CheckRpsThrottle` | deltaserve-plugin/deltaserve/coordinator.py:509-579 | an engaged throttle is released exactly when the rate has come down and the hold is over or nothing arrives; a disengaged one engages exactly above the limit; every other reading leaves gate and throttle as they were |
| `Coordinator.HeldExactly` | deltaserve-plugin/deltaserve/coordinator.py:521-566 | over any readings an engaged throttle stays engaged exactly when each has a rate that has not come down, or some arrival and a hold not yet over; engaged at clock time zero the hold is never over |
| `Coordinator.ZeroEngageNeverExpires` | deltaserve-plugin/deltaserve/coordinator.py:522-524 | so a throttle engaged at zero is never released by time |
| `Coordinator.EngagesExactly` | deltaserve-plugin/deltaserve/coordinator.py:566-579 | a disengaged throttle engages if and only if the rate is above a positive limit, and closes the gate; any other reading changes nothing, so a gate closed for a flush stays closed |
| `Coordinator.DisengagedExactly` | deltaserve-plugin/deltaserve/coordinator.py:566-579 | over any readings it stays disengaged exactly when none is above its limit, and the coordinator is then as before |
| `Coordinator.BudgetIsLargest` | deltaserve-plugin/deltaserve/coordinator.py:469-473 | the budget is the largest number of tokens that the step budget and the free rows allow, and zero while finetuning is off, the gate closed or a backward pending |
| `BufferCoordinator.FinetuneCoordinator.ReserveRows` | deltaserve-plugin/deltaserve/coordinator.py:632-636 | the step owns the rows after all committed and reserved ones |
| `BufferCoordinator.FinetuneCoordinator.ReleaseReserve` | deltaserve-plugin/deltaserve/coordinator.py:647-651 | gives back tokens, never below zero, and drops the named samples |
| `BufferCoordinator.FinetuneCoordinator.RestoreAdmission` | deltaserve-plugin/deltaserve/coordinator.py:664-668 | restores the two flags and nothing else |
| `BufferCoordinator.FinetuneCoordinator.NoteInjection` | deltaserve-plugin/deltaserve/coordinator.py:694-701 | closes the gate and asks for a flush exactly when rows exist and nothing more fits |
| `BufferCoordinator.FinetuneCoordinator.TryEpochFlush` | deltaserve-plugin/deltaserve/coordinator.py:713-715 | starts the backward exactly when a flush is due, rows exist, and nothing is in flight or pending |
| `BufferCoordinator.FinetuneCoordinator.RecordCapture` | deltaserve-plugin/deltaserve/coordinator.py:727-738 | the rows are counted, and a backward starts exactly if nothing is left in flight and a flush waits or no minimal sample fits |
| `BufferCoordinator.FinetuneCoordinator.TriggerBackward` | deltaserve-plugin/deltaserve/coordinator.py:746-799 | hands over or parks the whole buffer as one work item |
| `BufferCoordinator.FinetuneCoordinator.CheckBackwardStuck` | deltaserve-plugin/deltaserve/coordinator.py:824-853 | switches finetuning off exactly when the backward is overdue and its child dead or silent for too long |
| `BufferCoordinator.FinetuneCoordinator.PollBackward` | deltaserve-plugin/deltaserve/coordinator.py:863-895 | an answer resets the buffer and yields the samples it held; without one at most finetuning is switched off |
| `BufferCoordinator.FinetuneCoordinator.TakeTriggerCmd` | deltaserve-plugin/deltaserve/coordinator.py:905-907 | hands the parked command over once |
| `BufferCoordinator.FinetuneCoordinator.ApplyRelayedSaved` | deltaserve-plugin/deltaserve/coordinator.py:914-916 | counts the worker's rows only in relay mode |
| `BufferCoordinator.FinetuneCoordinator.ApplyRelayedDone` | deltaserve-plugin/deltaserve/coordinator.py:922-939 | as the polled answer, only in relay mode |
| `Scheduler.CurrentStepFeatures` | deltaserve-plugin/deltaserve/ft_scheduler.py:214-261 | what the requests take of the step's budget when served in order, the running ones first; all the prefill there is unless prefill and decodes use the budget up |
| `Scheduler.DecodingStep` | deltaserve-plugin/deltaserve/ft_scheduler.py:238-249 | a running inference request is a decode exactly when at most one token is left or it waits for a promised one; its context then counts |
| `Scheduler.FirstComeFirstServed` | deltaserve-plugin/deltaserve/ft_scheduler.py:233-260 | a prompt takes the smaller of what it wants and what the requests before it left, a decode one token, an FT request none; the prompt lengths are the positive shares in order |
| `Scheduler.Accepts` | deltaserve-plugin/deltaserve/ft_scheduler.py:449-476 | a candidate passes exactly when the step with it meets the token cap and the SLO checks |
| `Scheduler.NextCandidate` | deltaserve-plugin/deltaserve/ft_scheduler.py:443-448 | the epoch advances exactly when the pool is empty and may; the candidate is a shortest one not yet admitted |
| `Scheduler.FillStep` | deltaserve-plugin/deltaserve/ft_scheduler.py:431-490 | the loop admits smallest first, within every limit, and stops only at the iteration cap, an empty pool, or a next sample that does not fit |
| `Scheduler.FinetuneScheduler.Headroom` | deltaserve-plugin/deltaserve/ft_scheduler.py:323-372 | the phase gate and the baseline checks |
| `Scheduler.FinetuneScheduler.LeakyBucket` | deltaserve-plugin/deltaserve/ft_scheduler.py:380-401 | admits one sample exactly when the credit covers the next one, and credits a denied step |
| `Scheduler.FinetuneScheduler.AdmitFtToStep` | deltaserve-plugin/deltaserve/ft_scheduler.py:263-497 | the whole decision is one that `Admission.Admits` allows, and its samples are claimed |
| `Scheduler.FinetuneScheduler.Begin` | deltaserve-plugin/deltaserve/ft_scheduler.py:929-952 | poll, flush fallback and throttle, in this order |
| `Scheduler.FinetuneScheduler.PartitionFt` | deltaserve-plugin/deltaserve/ft_scheduler.py:1019-1062 | what was not scheduled goes back, and the verdict is derived again from what was |
| `Scheduler.FinetuneScheduler.Emit` | deltaserve-plugin/deltaserve/ft_scheduler.py:1071-1101 | the write offset, the reservation and the trigger on the output |
| `Scheduler.FinetuneScheduler.ScheduleStep` | deltaserve-plugin/deltaserve/ft_scheduler.py:908-1143 | one call on the fields is one enabled schedule event of the lifecycle protocol, with its output |
| `Scheduler.FinetuneScheduler.RollbackFtStep` | deltaserve-plugin/deltaserve/ft_scheduler.py:1145-1218 | the protocol's rollback, and nothing at all on an output already rolled back |
| `Scheduler.FinetuneScheduler.ApplyRelay` | deltaserve-plugin/deltaserve/ft_scheduler.py:1277-1306 | switch, then answer, then saved rows |
| `Scheduler.FinetuneScheduler.UpdateFromOutput` | deltaserve-plugin/deltaserve/ft_scheduler.py:1220-1254 | an aborted step is rolled back before the relayed fields apply; every FT id of the output is retired |
| `ScheduleRuns.ScheduleCall` | deltaserve-plugin/deltaserve/ft_scheduler.py:886-906 | every schedule call is a run of the lifecycle protocol that adds exactly the returned step; a step is undone exactly when an arrival meets one that carries finetuning requests alone, and it carried no trigger |
| `ScheduleRuns.UpdateCall` | deltaserve-plugin/deltaserve/ft_scheduler.py:1220-1306 | every update is a run of the lifecycle protocol: the rollback of an abandoned step, then the switch, the answer and the saved rows that were relayed |
| `Admission.AdmitsIsAllowed` | deltaserve-plugin/deltaserve/ft_scheduler.py:300-311 | whatever the gates say, admitted FT stays within buffer, step budget and proportional cap, and meets the protocol's admission conditions |
| `PermittedChoices.AdmittedArePermitted` | deltaserve-plugin/deltaserve/ft_scheduler.py:323-490 | written out from settings and load: with the admitted samples, and at each of them, the first token of the request waiting longest meets its deadline, the running requests meet their inter-token limit, and the tokens fit buffer, step and share of the prefill; under the leaky bucket it is one sample that the credit covers; each was a shortest one left |
| `PermittedChoices.NoPermittedChoiceIsLarger` | deltaserve-plugin/deltaserve/ft_scheduler.py:300-490 | no choice of samples meeting these written-out conditions has more samples than are admitted, the leaky bucket included, when one more token never makes a sample cheaper |
| `PermittedChoices.GateExactly` | deltaserve-plugin/deltaserve/ft_scheduler.py:323-372 | the gates pass exactly the steps that may carry FT in their phase and meet both limits without it |
| `PermittedChoices.CreditExactly` | deltaserve-plugin/deltaserve/ft_scheduler.py:380-401 | the prefill of a step held back by its credit alone is credited, an admission spends all credit, any other step leaves it |
| `PermittedChoices.CreditAccumulates` | deltaserve-plugin/deltaserve/ft_scheduler.py:380-401 | over a stretch of steps held back the credit is all their prefill on top of what was there |
| `Admission.BucketBound` | deltaserve-plugin/deltaserve/ft_scheduler.py:385-401 | over any run, FT tokens admitted on prefill steps are at most the factor times those steps' prefill tokens |
| `Admission.StepIsPaid` | deltaserve-plugin/deltaserve/ft_scheduler.py:983-984 | each step's admission and credit are covered by the credit before it and its own prefill |
| `GreedyOptimality.GreedyIsOptimal` | deltaserve-plugin/deltaserve/ft_scheduler.py:431-490 | no choice of samples that meets the caps and checks has more samples than the loop admits, when one more token never makes a sample cheaper |
| `GreedyOptimality.AdmissionIsOptimal` | deltaserve-plugin/deltaserve/ft_scheduler.py:415-490 | the same for the whole decision, past the gates and with the leaky bucket off |
| `GreedyOptimality.NonnegativeIsMonotone` | deltaserve-plugin/deltaserve/estimator.py:105-135 | nonnegative quadratic and per-FT-token coefficients are enough for that condition |
| `GreedyOptimality.OnlyWhenMonotone` | deltaserve-plugin/deltaserve/ft_scheduler.py:464-477 | where the condition fails there are, for every config that lets FT into decode steps and has a positive inter-token limit, a constant term and a corpus of two samples on which the whole decision, past all gates, admits nothing although something meets every check; so the condition cannot be weakened |
| `GreedyOptimality.EvalHyp` | deltaserve-plugin/deltaserve/estimator.py:195-197 | the predicted time of the step with samples added is a constant plus each sample's own cost |
| `Estimator.Model.SelectFailsExactly` | deltaserve-plugin/deltaserve/estimator.py:383-405 | prediction has nothing to evaluate exactly when only the contended-decode regime is fitted and another one is asked for |
| `Estimator.SelectsBest` | deltaserve-plugin/deltaserve/estimator.py:383-405 | the coefficients used are those of the fitted regime ranked first: the regime itself, then its stand-ins in their order; the contended decode stands in for nothing |
| `Estimator.RegimeExactly` | deltaserve-plugin/deltaserve/estimator.py:146-160 | each of the five regimes is characterised by FT tokens, inference tokens, decodes and the backward flag |
| `Estimator.PredictionIs` | deltaserve-plugin/deltaserve/estimator.py:417-444 | a positive estimate is raised by one and a half times the known relative error of the regime used; any other counts as zero, and nothing is predicted before a fit |
| `Estimator.ProxyIsLowerBound` | deltaserve-plugin/deltaserve/estimator.py:121-128 | the proxy for unknown prompt lengths never exceeds the sum of squares, and equals it exactly for prompts of one length |
| `Estimator.ReducedFitIsEval` | deltaserve-plugin/deltaserve/estimator.py:476-509 | on the steps of a regime the reduced row and the scattered coefficients give the evaluated time |
| `AbortVote.FtAbortPoller.Entry` | deltaserve-plugin/deltaserve/coordinator.py:221-230 | the reduced entry vote, and what it leaves in the poller |
| `AbortVote.FtAbortPoller.HookCheck` | deltaserve-plugin/deltaserve/coordinator.py:239-244 | at a layer boundary of an FT-only forward it aborts on any rank's arrival since the entry; anywhere else it neither aborts nor votes |
| `AbortVote.FtAbortPoller.Layer` | deltaserve-plugin/deltaserve/coordinator.py:232-237 | aborts exactly if this rank reads an arrival since the entry, or another rank does |
| `AbortVote.FtAbortPoller.Finish` | deltaserve-plugin/deltaserve/coordinator.py:246-251 | arrivals seen so far are accounted for |
| `RankGroup.OneSequence` | deltaserve-plugin/deltaserve/coordinator.py:209-251 | any number of ranks, abort votes and answer votes on one group, any interleaving of arrivals, answers and outputs: the ranks issue one and the same sequence of collectives; of two records one is a prefix of the other and at most one vote longer, and blocked ranks are blocked in the same collective |
| `ArrivalVotes.ArrivalAborts` | deltaserve-plugin/deltaserve/coordinator.py:209-251 | over every run, once all ranks have come to an abort vote, all abandon the forward there if and only if some rank read an arrival since it last accounted for arrivals (at the entry) or since that entry (at a layer); otherwise all go on, or end the forward after its last layer |
| `ArrivalVotes.AnswerHandedOver` | deltaserve-plugin/deltaserve/model_runner.py:713-733 | once all ranks have come to an answer vote, the answer is handed over by all and to the scheduler if and only if no rank's child was still at work when its rank came |
| `ArrivalVotes.OutputsEndInVotes` | deltaserve-plugin/deltaserve/model_runner.py:713-733 | a rank ends an output with an answer vote exactly while its triggers are ahead of its answers; only an abandoned forward that is not sampled ends without |
| `RankGroup.ForwardsEndAlike` | deltaserve-plugin/deltaserve/model_runner.py:262-319 | all ranks leave every FT-only forward at the same layer with the same verdict, and nothing but an FT-only forward is abandoned |
| `RankGroup.AbortsBoundedByArrivals` | deltaserve-plugin/deltaserve/coordinator.py:246-251 | over any run a rank abandons at most as many forwards as there were arrivals |
| `RankGroup.NobodyGoesPastAVote` | deltaserve-plugin/deltaserve/model_runner.py:713-733 | a rank blocked in a vote never waits for one that has gone past it: every other rank is in the same vote or can step towards it |
| `RankGroup.NeverStuck` | deltaserve-plugin/deltaserve/coordinator.py:209-237 | in every reachable state a rank can step, or the vote can complete, or every rank has executed every output |
| `AckRelay.WorkerCoordinator.PollOwnBackwardAck` | deltaserve-plugin/deltaserve/coordinator.py:992-1002 | stashes the child's answer once |
| `AckRelay.WorkerCoordinator.TakeRelayAck` | deltaserve-plugin/deltaserve/coordinator.py:1004-1009 | hands the stashed answer over and forgets it |
| `RankGroup.OutstandingAgrees` | deltaserve-plugin/deltaserve/coordinator.py:987-990 | ranks that have come equally far agree on whether a backward is outstanding, and all have handed over equally many answers |
| `RankGroup.OneAckPerTrigger` | deltaserve-plugin/deltaserve/coordinator.py:740-799 | the scheduler is acknowledged once per trigger, in order, with at most one outstanding |
| `RankGroup.HandedOverTogether` | deltaserve-plugin/deltaserve/model_runner.py:722-733 | an answer is handed over on the same output by all ranks, when every rank holds its own child's answer to that backward |
| `ActivationSave.FillMask` | deltaserve-plugin/deltaserve/model_runner.py:557-571 | flags, per-sample lengths, and the outer bounds of the FT rows |
| `ActivationSave.BuildFinetuneMask` | deltaserve-plugin/deltaserve/model_runner.py:525-596 | the contiguous flag is raised only over one span, and over every span when no FT request has zero tokens; the lengths add up to the row count |
| `ActivationSave.RowsAreSlices` | deltaserve-plugin/deltaserve/model_runner.py:566-568 | rows selected by the mask are the requests' rows one after another |
| `ActivationSave.LensCount` | deltaserve-plugin/deltaserve/model_runner.py:568-577 | `sample_lens` sums to the number of FT rows |
| `ActivationSave.FtLensAre` | deltaserve-plugin/deltaserve/model_runner.py:557-571 | `sample_lens` are the lengths of the FT requests in batch order |
| `ActivationSave.MaskAt` | deltaserve-plugin/deltaserve/model_runner.py:557-571 | every token carries the flag of the request it belongs to |
| `ActivationSave.SavedAre` | deltaserve-plugin/deltaserve/accumulate.py:421-457 | what the saves leave, token by token: row `offset + i` is the cast of the i-th FT token's hidden state plus its residual, where there is one, for every i that fits; all other rows are as they were |
| `ActivationSave.HookSave` | deltaserve-plugin/deltaserve/accumulate.py:421-457 | slice and mask path leave the same buffer: each FT token's hidden state plus residual in its own row |
| `ActivationSave.ArmOpStep` | deltaserve-plugin/deltaserve/accumulate.py:325-343 | the index pair: FT rows to their window, unused slots to the scratch row |
| `ActivationSave.SaveOp` | deltaserve-plugin/deltaserve/ft_save_op.py:72-85 | the index operation leaves the same rows, token by token, the scratch row aside |
| `ActivationSave.AccumulateFinal` | deltaserve-plugin/deltaserve/accumulate.py:598-622 | the same for the final states and the token ids, padded or not |
| `ActivationSave.SavedWindow` | deltaserve-plugin/deltaserve/accumulate.py:443-446 | a window inside the buffer loses no row and touches no other |
| `ActivationSave.ZeroOffsetRange` | deltaserve-plugin/deltaserve/accumulate.py:632-668 | blanks exactly the aborted step's rows |
| `PauseGrant.ModelRunner.MaybeResumeBackward` | deltaserve-plugin/deltaserve/model_runner.py:753-763 | the deferred resume, which a sticky pause outlives |
| `PauseGrant.ModelRunner.ExecuteTrigger` | deltaserve-plugin/deltaserve/model_runner.py:160-188 | the child is signalled with the grant cleared exactly if it was, the step carries inference prefill or reaches the threshold, a prefill still runs, or the throttle holds |
| `PauseGrant.ModelRunner.BeforeStep` | deltaserve-plugin/deltaserve/model_runner.py:128-188 | resume poll, idle release, then the relayed trigger |
| `PauseGrant.ModelRunner.PauseDecision` | deltaserve-plugin/deltaserve/model_runner.py:363-397 | a step pauses the child exactly if a backward is pending and it carries inference prefill or reaches the throttle's threshold; only the latter pause is held |
| `PauseGrant.ModelRunner.TimingEnd` | deltaserve-plugin/deltaserve/model_runner.py:399-440 | the pause of a step is given back, at once if the forward failed, or owed to an event recorded behind it; a sticky pause is left alone |
| `PauseGrant.ModelRunner.RunStep` | deltaserve-plugin/deltaserve/model_runner.py:101-188 | a whole call leaves no orphaned pause |
| `PauseGrant.NoOrphanedPause` | deltaserve-plugin/deltaserve/model_runner.py:363-440 | in every run a cleared grant is held by the throttle or owed to an event, and `fwd_throttle_active` mirrors the hold |
| `PauseGrant.ProtectedRunsAlone` | deltaserve-plugin/deltaserve/model_runner.py:363-397 | in every run, while a backward is pending, a forward with inference prefill runs with the grant cleared, and so does one that reaches the throttle's threshold; under any other the throttle holds nothing and the child computes, unless an earlier prefill's event is still to come |
| `PauseGrant.PauseEnds` | deltaserve-plugin/deltaserve/model_runner.py:399-440 | such a pause is kept by the throttle, given back at once, or, where it lasts until the prefill is done, exactly when the event recorded behind it has completed or the forward failed |
| `PauseGrant.BeforeAnyStep` | deltaserve-plugin/deltaserve/model_runner.py:128-158 | before a forward a due resume is given, and the throttle is released unless the step reaches its threshold |
| `PauseGrant.TriggerWithGrantCleared` | deltaserve-plugin/deltaserve/model_runner.py:160-188 | a relayed trigger signals the child with the grant cleared exactly if it was cleared before, the step must not be slowed, an inference prefill still runs, or the throttle holds |
| `PauseGrant.HeldIsCleared` | deltaserve-plugin/deltaserve/model_runner.py:363-397 | in every run the grant is cleared while the throttle holds its pause |
| `PauseGrant.IdleStepRegrants` | deltaserve-plugin/deltaserve/model_runner.py:134-153 | once the last event has completed one idle step gives the grant back |
| `ConfigLines.RStripKeepsKind` | scripts/convert_config_layout.py:40-41 | blanks at the end of a line change nothing of what the expressions read |
| `ConfigLines.HeaderExactly` | scripts/convert_config_layout.py:40 | a section header is a name at the start of the line, a colon, blanks and at most a comment |
| `ConfigLines.KeyExactly` | scripts/convert_config_layout.py:41 | a key line is indented: blanks, a name, a colon, and anything after it |
| `ConfigLines.KindExactly` | scripts/convert_config_layout.py:64-71 | a blank line holds blanks only; a comment starts with a hash after its blanks |
| `ConfigLayout.PrintParse` | scripts/convert_config_layout.py:44-71 | collecting the lines by section loses none |
| `ConfigLayout.ParsePrint` | scripts/convert_config_layout.py:54-71 | written sections are read back as written |
| `ConfigIdempotence.IdempotentExactly` | scripts/convert_config_layout.py:44-110 | converting a converted file changes nothing if and only if every repeated section outside finetune is empty and, if it is written last, has a header without blanks at its end |
| `ConfigIdempotence.RepeatedLineGrows` | scripts/convert_config_layout.py:100-109 | a section given twice with a line under it is changed by the second conversion |
| `ConfigIdempotence.RepeatedHeaderChanges` | scripts/convert_config_layout.py:106-110 | two empty sections whose headers end in a blank are changed by the second conversion |
| `ConfigStable.Stable` | scripts/convert_config_layout.py:89-109 | sections already converted are collected and written again as they are |
| `ConfigMeaning.BlocksUnchanged` | scripts/convert_config_layout.py:71-83 | in the converted file every finetune section has the keys meant for it, in order, each with its comments directly above, and its closing comments; only the last line of the section written last is stripped |
| `ConfigMeaning.EveryKeyIsHome` | scripts/convert_config_layout.py:127-129 | in the converted file every key line stands in its home section and none is retired |
| `ConfigConservation.NothingLost` | scripts/convert_config_layout.py:44-110 | every line is a comment or key line of the converted finetune sections exactly as often as of the old ones, retired keys and the comments leading to them left out, for every file |
| `ConfigConservation.WalkKeepsLines` | scripts/convert_config_layout.py:64-83 | the blocks a section is cut into and its closing comments are its lines to be kept, in order |
| `ConfigConservation.WalkGoesHome` | scripts/convert_config_layout.py:83 | each block ends in a key line and goes to that key's home, or stays where the key has none |
| `ConfigConservation.LastHeaderCounts` | scripts/convert_config_layout.py:63-97 | a section is written with the last header it had, a new one with a plain header |
| `ConfigSettings.FinetuneKwargs` | deltaserve-plugin/deltaserve/config_loader.py:145-165 | the merge of the finetune sections: retired keys dropped, an error when a key appears in two sections |
| `ConfigSettings.FinetuneValue` | deltaserve-plugin/deltaserve/config_loader.py:168-174 | for a file that loads, one setting is what the merge holds, or the default |
| `ConfigSettings.ValueExactly` | scripts/convert_config_layout.py:113-126 | the value of a key line is what stands after the colon, between the blanks around it |
| `ConfigSettings.LookupExactly` | scripts/convert_config_layout.py:113-126 | of the lines giving a key a value the last one counts |
| `ConfigSettings.SettingsUnchanged` | scripts/convert_config_layout.py:113-126 | every file that loads has the same merged settings, key by key and value by value, after the conversion |
| `ConfigSettings.ConvertedLoads` | deltaserve-plugin/deltaserve/config_loader.py:145-165 | the converted file loads exactly if no key without a home stood in two sections |
| `ConfigMeaning.OthersUnchanged` | scripts/convert_config_layout.py:125-126 | in the converted file every other section, none being repeated, keeps its header, lines and order; only the last line of the file may be stripped |
| `ConfigScript.Read` | scripts/convert_config_layout.py:45-85 | the first loop collects what the sections hold |
| `ConfigScript.Write` | scripts/convert_config_layout.py:87-109 | the second loop writes them, the finetune ones where the first stood |
| `ConfigScript.ConvertFile` | scripts/convert_config_layout.py:44-110 | the two loops and the strip compute the conversion that the lemmas are about |

## Left out

- vLLM internals: the base scheduler, KV blocks and the engine loop appear only as `Scheduler.BaseOk`.
- CUDA graphs, streams, IPC, shared memory and the collective libraries: an event is a number in a set of completed ones, a collective a barrier with MAX or MIN.
- The backward's mathematics and the child's receive loop: the child takes one work item and later answers once.
- Least squares, RMSE values and floating point: coefficients are real numbers.
- The refit cadence, the timing ring and the tracker's import and export: observability around the estimator.
- The sliding-window arrival tracker: the throttle is given the rate.
- Tokenization, HTTP routes, logging, CSV and trace writers; the corpus is a list of lines with their tokens and drawn ids.
- Offline profiling mode, which detaches the backward.
- `next_ft_requests`, which the scheduler no longer calls.
- Delivery of `finetune_retired_req_ids` across a rolled-back output: only the ids handed to the scheduler's own list are modelled.
- Restoring the leaky-bucket credit on rollback: the code does not restore it.
- A sample's text and adapter, which no decision reads.
- BucketStore.Store.Claim: the order of indices inside a bucket is not stated, because bucket order changes nothing a caller can see but ties.
- BufferCoordinator.FinetuneCoordinator.TriggerBackward: the wait for the capture event and the pre-pause are not in this class; the pause is in `PauseGrant`, the wait is a device synchronization.
- Scheduler.FinetuneScheduler.UpdateFromOutput: KV blocks of retired requests are vLLM's and not modelled.
- ConfigIdempotence.IdempotentExactly: lines hold no break of their own, blanks are spaces and tabs, and the word characters of section and key names are ASCII; other Unicode blanks, digits and letters are not modelled.
- ConfigSettings.SettingsUnchanged: a value is the opaque text after the colon of a flat key line, and no finetune section stands twice in the file; nested YAML values are not modelled.
- Completion.EagerEngineFinishes: one GPU and one step at a time; nothing is said about how soon arrivals let finetuning go on.
- IdleEngine.IdleEngineFinishes: the same, and of what is admitted the base scheduler schedules something.
- Path rewriting when a config is loaded, and the evaluation and launch scripts.
