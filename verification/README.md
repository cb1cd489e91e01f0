# Verified model of the live voice agent's orchestration

A Dafny model of the part of the orchestrator that decides things: which asynchronous result may still take
effect, which audio may reach the listener, how speech becomes RTP and RTP becomes utterances, and how the
bounded memories and queues forget. Objects that the source updates in place are classes whose methods are
proved against a transition function; what the source promises is then proved of that function over all
states or all runs.

The modules, in the order of the data:

- `Sessions`, `TaskRegistryModel`, `TaskExecutorModel`, `TaskReduction`, `ResultFence`, `LaneEntries`,
  `RuntimeEffects`, `SessionRuntimes`: the result fence. No line of the source compares a live task with the current epoch; the guarantee is an
  invariant between modules, `ResultFence.Inv`.
- `StreamingContracts`, `OutputFence`, `FenceEffects`, `Cutover`, `FlushAdmissions`, `FlushEffects`,
  `TurnCoordination`: the cutover
  protocol. Output leases as a state machine; one exchange with Sound as a script in which other activity runs at
  every await; the flush handshake; the turn's phases.
- `Pcm`, `Resampling`, `RtpPackets`, `SpeechPath`: HTTP body to RTP packets.
- `Endpointing`, `EndpointEffects`: RTP packets to utterances.
- `AudienceQueues`, `AudienceEffects`, `CommentIngress`: bounded queues and the replay window.
- `Utf8`, `TransientContexts`: context composition under a byte budget.
- `Memories`, `MemoryEffects`, `MemoryStores`, `MemoryMarkdown`: the session memory, its document, and `memory.md`.
- `ModularArcs`: overlap of RTP time spans.

The modules named `...Effects` say what each operation does in terms its caller sees, without the functions that
compute it. `Common` holds one option type. `dafny verify dfyconfig.toml` checks the project.

## Properties that are false, and when they hold

The source is modelled as it is. These are the places where it does not do what one would expect; each has a
concrete state or input, and the exact condition.

- A lane entry outlives its task and is matched by id, and the id can be registered again. From a new runtime, five
  calls suffice for such an entry to time out a queued task that has time left (`LaneEntries.AStaleEntryTimesOutItsNamesake`).
  `next` times a task out early exactly when the first lane entry with its id is another request, is overdue, and no
  entry in front of it is due (`TimedOutEarlyExactly`); it hands out a foreign request exactly when the first entry due is
  one (`ForeignRequestExactly`). Neither happens after a run in which no queueing meets a lane entry of another request with
  the same id (`NextIsTrueAfterCleanRuns`), and a step keeps the lanes true if and only if it is clean in
  this sense (`StepKeepsLanesTrue`).
- `TaskRegistry.complete` looks at no state, so it can rewrite a finished record. It leaves finished
  records alone exactly when its target is live or already that success (`CompleteNeedsItsCaller`); the reducer passes it running
  ones only (`ReduceGuardsCompletion`).
- Abandoning a replacement before Sound acknowledged it leaves the stream silent after a reflex interruption, in
  every reachable state: the lease stays, but no epoch may emit (`OutputFence.AbandonedReflexIsSilent`). When it may emit is
  stated exactly in `AbandonUndoesInterrupt`.
- A generation can be handed out twice on a stream (`OverridingReusesAGeneration`). The retained generation is the highest ever
  issued throughout a run exactly when no step, interrupt or activation, issues over a lease two or more generations
  behind it (`MarkIsHighestExactly`); the activation after a release is fresh exactly when the retained generation is the highest then
  (`ReleasedStreamsGetFreshGenerations`).
- Two exchanges may overlap on one stream, since the hub takes no lock: both replacements get the same epoch, the
  first reply commits the lease of the second, and the second reply's commit is refused
  (`Cutover.OverlappingExchangesShareAnEpoch`). An exchange can end with the committed replacement or the old lease, whatever
  is acknowledged, exactly as long as no step in between issues a generation on the stream (other than by preparing
  the same replacement again), commits it, or abandons while an earlier exchange is open as well
  (`EndsWellExactlyWhenUndisturbed`, and over whole exchanges `EndsWellThroughoutExactly`).
- Two epochs of a stream share an SSRC exactly when one equals the checksum seed and the other differs from it in the
  last bit (`RtpPackets.SsrcCollidesExactlyAtTheSeed`).
- A candidate evaluation that is cancelled while the session goes on leaves its caller without an answer
  (`AudienceQueues.OnlyACancelledEvaluationLoses`); every other call is answered exactly once. If others wait at that moment
  the queue stalls, and exactly then, until the next call that gets a place in it (`StallsExactly`).
- For an odd total of 32000 bytes or more the streaming speech path has already emitted frames when it fails; the
  buffered path emits none (`SpeechPath.SpeakStreaming`, `SpeechPath.SpeakBuffered`). Below that neither does.
- A saved `memory.md` is refused on loading exactly when a policy with a minimum confidence below 90 had let
  such an entry in, because loading validates with the default policy (`MemoryStores.LoadingWhatWasSaved`). The profile and
  consent revisions always come back as 0.
- The state marker is found where it was written exactly when no rendered id, with the line break behind it,
  contains the opening marker (`MemoryMarkdown.MarkerIsFoundExactlyWhenIdsAreSafe`), and for ids of one line each the
  state is recovered exactly then (`StateIsRecoveredExactly`). `AnUnsafeId` gives an admissible id, and a memory that keeps every
  rule, for which it is not.

## Model

| member | source | states |
|---|---|---|
| Sessions.StartTurnOpensAFreshTurn | src/orchestrator/sessions.py:130-160 | an accepted start gives a turn id that no event in the history has, raises the revision by one and makes that turn active; a rejected one changes nothing |
| Sessions.SessionScheduler.Apply | src/orchestrator/sessions.py:107-160 | the scheduler object refines `StartTurn` and keeps its history and snapshot consistent |
| TaskRegistryModel.RegisterIsExact | src/orchestrator/task_registry.py:258-293 | a registration is accepted if and only if no record has the id or the key, the kind and retry are allowed and the parent is of the same turn with room for a child |
| TaskRegistryModel.RegisterInsertsOne | src/orchestrator/task_registry.py:258-293 | an accepted registration only adds the record and its key; a used key returns the record that holds it; otherwise nothing changes |
| TaskRegistryModel.RegisterKeepsValid | src/orchestrator/task_registry.py:258-293 | keys and records stay in bijection and no parent exceeds its fan-out limit |
| TaskRegistryModel.DropKeepsValid | src/orchestrator/task_registry.py:221-257 | removing tombstones removes their keys too, so that every lookup and delete stays total |
| TaskRegistryModel.OutcomeKeepsValid | src/orchestrator/task_registry.py:294-423 | every lifecycle move of a live record stamps it exactly when it becomes terminal and leaves all other and all finished records alone |
| TaskRegistryModel.CompleteNeedsItsCaller | src/orchestrator/task_registry.py:398-409 | `complete` keeps finished records unchanged if and only if its target is live or already the same success |
| TaskRegistryModel.TaskRegistry.CancelPending | src/orchestrator/task_registry.py:348-354 | the loop cancels exactly the live tasks and leaves the registry valid |
| TaskRegistryModel.TaskRegistry.ExpireTerminalTombstones | src/orchestrator/task_registry.py:245-257 | the loop removes exactly the records whose tombstone is old enough, with their keys |
| TaskExecutorModel.NextRespectsPriority | src/orchestrator/task_executor.py:75-113 | `next` returns a queued record's entry only when every lane of higher priority is empty, and has then claimed it |
| TaskExecutorModel.NextInLaneTakesAPrefix | src/orchestrator/task_executor.py:75-113 | the lane loses a prefix, whose last entry is the one handed out, still within its deadline |
| TaskExecutorModel.NextInLaneSettles | src/orchestrator/task_executor.py:75-113 | of the skipped entries none is left queued |
| TaskExecutorModel.NextInLaneHandsOverOnce | src/orchestrator/task_executor.py:75-113 | the record handed out was queued and is now running |
| TaskExecutorModel.EnqueueKeepsCoherent | src/orchestrator/task_executor.py:33-65 | lanes stay within capacity and every queued record's request stays in its lane |
| TaskExecutorModel.NextKeepsCoherent | src/orchestrator/task_executor.py:75-113 | the same for `next`, over all lanes |
| TaskExecutorModel.ClaimKeepsCoherent | src/orchestrator/task_executor.py:66-74 | the same for a claim by id |
| TaskExecutorModel.TaskLaneExecutor.Next | src/orchestrator/task_executor.py:75-113 | the object's loops over lanes and registry refine `NextIn` |
| TaskReduction.ReduceGuardsCompletion | src/orchestrator/task_reducer.py:77-186 | the reducer completes only running tasks, changes nothing but a success or a timeout, and nothing at all when persistence raises |
| TaskReduction.TaskResultReducer.ReduceResult | src/orchestrator/task_reducer.py:77-120 | the object refines `Reduce` on its registry |
| ResultFence.ReduceStep | src/orchestrator/scheduler_runtime.py:3200-3236 | in every reachable state a result is accepted if and only if the runtime's present session, revision, turn, epoch, segment, capabilities, data and deadline all match it and persistence does not raise |
| ResultFence.StepKeepsInv | src/orchestrator/scheduler_runtime.py:3136-3236 | every operation keeps all live tasks at the current epoch and registry, lanes and scheduler consistent |
| ResultFence.Run | src/orchestrator/scheduler_runtime.py:721-735 | over every run: the invariant, at most one acceptance per registration of an id, and finished records frozen until released |
| ResultFence.NothingCrossesAnEpoch | src/orchestrator/scheduler_runtime.py:721-735 | whatever is accepted after an epoch advance was registered after it |
| ResultFence.AdvanceEpochLeavesNothingLive | src/orchestrator/scheduler_runtime.py:721-735 | advancing the epoch leaves no task that could deliver |
| LaneEntries.NextWalksOneLine | src/orchestrator/task_executor.py:75-113 | `next` over all lanes acts as one lane of all entries in priority order |
| LaneEntries.TheFirstDueIsHandedOut | src/orchestrator/task_executor.py:75-113 | which entry is handed out, exactly: the first that is queued, in time and its id's first |
| LaneEntries.TimedOutEarlyExactly | src/orchestrator/task_executor.py:75-113 | a queued task is timed out before its own deadline if and only if its id's first entry is another request, overdue and reached |
| LaneEntries.ForeignRequestExactly | src/orchestrator/task_executor.py:75-113 | the request handed out is not its record's own if and only if the first entry due is not |
| LaneEntries.StepKeepsLanesTrue | src/orchestrator/scheduler_runtime.py:3136-3236 | a step of the runtime keeps every lane entry its record's own request if and only if it queues over no entry of another request with the same id |
| LaneEntries.LanesAreTrueInCleanRuns | src/orchestrator/scheduler_runtime.py:3136-3236 | the same over whole runs |
| LaneEntries.NextIsTrueAfterCleanRuns | src/orchestrator/scheduler_runtime.py:3197-3198 | after every such run `next` hands out the record's own request and times no task out before its deadline |
| LaneEntries.EmptyLanesAreTrue | src/orchestrator/task_executor.py:23-31 | a new runtime is in the state those runs start from |
| LaneEntries.AStaleEntryTimesOutItsNamesake | src/orchestrator/task_executor.py:79-92 | five calls from a new runtime after which a queued task with time left is timed out |
| RuntimeEffects.SchedulesExactly | src/orchestrator/scheduler_runtime.py:3136-3195 | a request is scheduled if and only if session, active turn and revision are the scheduler's, its data is initial or current, no unexpired record has its id or key, kind, retry and parent are allowed, and its lane has room |
| RuntimeEffects.SchedulingDoes | src/orchestrator/scheduler_runtime.py:3150-3195 | a scheduled request waits stamped at the end of its lane; a refused one is nowhere; only expired tombstones go |
| RuntimeEffects.RegistrationAnswersAreExact | src/orchestrator/task_registry.py:258-293 | which answer a registration gets, the first that applies |
| RuntimeEffects.ReductionAnswersAreExact | src/orchestrator/task_reducer.py:77-186 | which answer a result gets from the reducer, the first that applies |
| RuntimeEffects.AcceptedResultDoes | src/orchestrator/scheduler_runtime.py:3200-3236 | an accepted result ends its task as a success and takes over the data its persistence wrote; if that raises nothing happened |
| RuntimeEffects.RefusedResultDoes | src/orchestrator/scheduler_runtime.py:3200-3236 | a refused result cancels a task of revoked capabilities, times out an overdue one, and otherwise changes nothing |
| RuntimeEffects.OneTaskEnds | src/orchestrator/task_registry.py:294-397 | cancelling and timing out end exactly an unfinished task, and leave its final record |
| RuntimeEffects.OneTaskFails | src/orchestrator/task_registry.py:410-423 | failing needs a running task |
| RuntimeEffects.OneTaskIsSuperseded | src/orchestrator/task_registry.py:355-378 | superseding needs a queued or running task and a record of another turn |
| RuntimeEffects.EpochsEnd | src/orchestrator/scheduler_runtime.py:721-735 | a new epoch is one higher and cancels every unfinished task; the end of the session leaves no record and no key |
| RuntimeEffects.ClaimDoes | src/orchestrator/task_executor.py:66-73 | a claim takes the id's first entry off the lanes and hands it out if and only if the task is queued |
| RuntimeEffects.NextDoes | src/orchestrator/task_executor.py:75-113 | reflex before interactive before deliberative before maintenance, the first entry due is handed out; what stood in front is gone, its overdue tasks timed out, every other record unchanged |
| SessionRuntimes.SessionRuntime.ScheduleTask | src/orchestrator/scheduler_runtime.py:3150-3195 | stamping, admission, queueing and withdrawal on the real objects are the model's step, and it answers true if and only if the present session, the records that remain and the lane allow the request |
| SessionRuntimes.SessionRuntime.ReduceTask | src/orchestrator/scheduler_runtime.py:3200-3236 | the runtime accepts exactly through the open fence and keeps the invariant |
| SessionRuntimes.SessionRuntime.AdvanceTurnEpoch | src/orchestrator/scheduler_runtime.py:721-735 | epoch and cancellations on the real objects are the model's step; nothing stays live, and the coordinator keeps no unfinished turn of the epoch that ends |
| OutputFence.StepKeepsInv | src/orchestrator/scheduler_reflex.py:85-361 | every method keeps: a pending replacement's previous lease is the current one, an acknowledged one is the current lease, epochs are generations |
| OutputFence.OnlyTheLeaseEmits | src/orchestrator/scheduler_reflex.py:316-330 | at most one epoch may emit per stream, and while a replacement is pending only the old one, which may |
| OutputFence.AbandonUndoesInterrupt | src/orchestrator/scheduler_reflex.py:168-310 | abandoning restores the lease from before the latest interrupt, acknowledged or not; it emits at once if acknowledged, otherwise exactly when retained since or its turn is active |
| OutputFence.RunKeepsTurnsOpened | src/orchestrator/scheduler_reflex.py:85-258 | in every run each lease, pending or acknowledged included, is of a turn the scheduler has handed out |
| OutputFence.AbandonedReflexIsSilent | src/orchestrator/scheduler_reflex.py:287-298 | after any run from a new fence, abandoning an unacknowledged reflex replacement leaves a lease under which nothing may emit |
| OutputFence.CommitIsFinal | src/orchestrator/scheduler_reflex.py:299-311 | after a commit an abandon changes nothing until the next interrupt, whatever else happens |
| OutputFence.OnlyTheLatestFlushSwitches | src/orchestrator/scheduler_reflex.py:273-286 | over every run only an applied acknowledgement equal in every field to the latest flush of the stream switches the lease |
| OutputFence.CutoverNeedsItsAck | src/orchestrator/scheduler_reflex.py:273-286 | while a replacement is pending the lease changes only by its acknowledgement, an activation or a revocation |
| OutputFence.ReleasedStreamsGetFreshGenerations | src/orchestrator/scheduler_reflex.py:85-112 | the activation after a finish or revoke gets a generation above every earlier one if and only if the retained one is the highest then, as in every run that never issues over a lease two behind it |
| OutputFence.MarkIsHighestExactly | src/orchestrator/scheduler_reflex.py:85-258 | over every run the retained generation is the highest issued throughout if and only if no interrupt or activation issues over a lease two or more behind it |
| OutputFence.RewindingLowersTheMark | src/orchestrator/scheduler_reflex.py:85-258 | one step lowers the retained generation if and only if it is of that kind |
| OutputFence.NotOverridingNeverRewinds | src/orchestrator/scheduler_reflex.py:168-258 | without an interrupt over an acknowledged, uncommitted replacement no step is of that kind |
| OutputFence.OverridingReusesAGeneration | src/orchestrator/scheduler_reflex.py:168-258 | the concrete run in which a generation is handed out twice |
| OutputFence.SchedulerOutputFence.AbandonReplacement | src/orchestrator/scheduler_reflex.py:287-298 | the object's dictionaries change as the step says |
| OutputFence.SchedulerOutputFence.FinishStream | src/orchestrator/scheduler_reflex.py:331-359 | the object refines the finish step |
| FenceEffects.AudibleIsWhatMayEmit | src/orchestrator/scheduler_reflex.py:316-330 | `can_emit` allows an epoch if and only if it is the stream's one audible epoch, in which the rows below are stated |
| FenceEffects.FinishReleasesExactly | src/orchestrator/scheduler_reflex.py:331-359 | a finished report releases the lease in force if and only if it names its epoch, and turn and segment where given, and no cutover waits; the stream is silent then and no other touched |
| FenceEffects.LateReportsChangeNothing | src/orchestrator/scheduler_reflex.py:331-359 | over every run a report of an earlier lease changes nothing once another turn, segment or epoch is in force |
| FenceEffects.OldReportsSpareTheNewReply | src/orchestrator/scheduler_reflex.py:299-359 | after a committed cutover the report of the old reply leaves the new one in force |
| FenceEffects.NewTurnsSilence | src/orchestrator/scheduler_reflex.py:316-330 | a new turn silences every other stream but those in a cutover, on their old epoch, and those retained |
| FenceEffects.RetainedPlaybackGoesOn | src/orchestrator/scheduler_reflex.py:312-330 | a retained lease may emit through any number of new turns |
| FenceEffects.ActivationIsHeard | src/orchestrator/scheduler_reflex.py:85-167 | an activation is heard at once with the next generation, under a turn of its own |
| FenceEffects.ActivationForATurnIsHeard | src/orchestrator/scheduler_reflex.py:114-167 | one for an accepted turn is heard if and only if that turn is active, and otherwise changes nothing |
| FenceEffects.PreparingIsNotHeard | src/orchestrator/scheduler_reflex.py:168-258 | the old epoch goes on while a replacement is prepared; its flush is addressed to the old lease and names the new epoch |
| FenceEffects.AcknowledgementSwitches | src/orchestrator/scheduler_reflex.py:273-286 | the exact acknowledgement puts the prepared lease in force; any other changes nothing |
| FenceEffects.CommitCloses | src/orchestrator/scheduler_reflex.py:299-311 | a commit of the acknowledged epoch closes the exchange; any other changes nothing |
| FenceEffects.AbandonLeadsBack | src/orchestrator/scheduler_reflex.py:287-298 | abandoning drops what is prepared, and restores the old lease, audible, from what was switched to |
| FenceEffects.RevocationSilences | src/orchestrator/scheduler_reflex.py:259-265 | a revoked stream is silent and in no exchange |
| FenceEffects.OthersAreNotHeard | src/orchestrator/scheduler_reflex.py:85-359 | a step of another stream that starts no turn and retains nothing changes nobody else's audio |
| StreamingContracts.AcknowledgementsNameTheirFlush | src/orchestrator/streaming_contracts.py:89-107 | an acknowledgement repeats every field of its flush and answers no other |
| Cutover.ReplacementExchange.AwaitReplacementFlush | src/orchestrator/transport_hub.py:284-353 | whatever happens at its awaits, the exchange sleeps while its epoch may not emit, commits if and only if it is admitted then and the fence allows it, raises exactly a cancellation again, and otherwise abandons; undisturbed it leaves the committed replacement or the old lease, unless the stream was taken away |
| Cutover.ReplacementExchange.PrepareResponseOutput | src/orchestrator/transport_hub.py:471-509 | a reply on a playing stream that is not disturbed ends with the next epoch under its own turn or with the lease as it was; on a silent stream it gets the next generation or changes nothing |
| Cutover.ReplacementExchange.AllocateResponseOutput | src/orchestrator/transport_hub.py:443-469 | a reply gets the next generation exactly when its stream is known and its turn active, and keeps it while nothing else names the stream |
| Cutover.EndsWellExactlyWhenUndisturbed | src/orchestrator/transport_hub.py:284-353 | after one step in between, both ends of the exchange still close it, before and after any acknowledgement, if and only if the step does not disturb it |
| Cutover.EndsWellThroughoutExactly | src/orchestrator/transport_hub.py:284-353 | the same at every moment of a whole exchange |
| Cutover.OverlappingExchangesShareAnEpoch | src/orchestrator/transport_hub.py:246-282 | two replies preparing on one stream share an epoch; the first commits the lease of the second and the second is refused |
| FlushAdmissions.Run | src/orchestrator/streaming_contracts.py:134-221 | over every run, at any clock readings: a stream has one pending or one admitted flush, and each `begin` sends once, or twice with the second between 250 and 750 ms later |
| FlushAdmissions.AdmissionNeedsItsAck | src/orchestrator/streaming_contracts.py:155-193 | a flush becomes admitted if and only if it is pending and acknowledged in every field, as applied or replayed |
| FlushAdmissions.FlushAdmission.AdvanceClock | src/orchestrator/streaming_contracts.py:194-215 | the loop over the dictionary retries and times out exactly the due entries |
| FlushEffects.AdvancingDoes | src/orchestrator/streaming_contracts.py:194-215 | every flush of 750 ms is dropped and recorded as timed out, every one of 250 ms sent again once, in order; what remains is younger |
| FlushEffects.BeginningDoes | src/orchestrator/streaming_contracts.py:146-154 | a begin sends, replaces what waited on the stream and takes back its admission |
| FlushEffects.AcknowledgingDoes | src/orchestrator/streaming_contracts.py:155-177 | an acknowledgement admits the flush it answers; any other is only recorded as invalid |
| FlushEffects.RemovingDoes | src/orchestrator/streaming_contracts.py:216-219 | removing a stream forgets its flushes and nothing else |
| TurnCoordination.StaleCallsDoNothing | src/orchestrator/agent_state.py:77-352 | a call that names another turn or epoch changes nothing and has no effect |
| TurnCoordination.PhasesDecideEffects | src/orchestrator/agent_state.py:77-352 | the phases form one graph, whatever the call, and the effects are those of the edge taken |
| TurnCoordination.TimelyCallsMove | src/orchestrator/agent_state.py:77-352 | every call that is neither stale nor out of place takes its edge with its effects, and no other call moves anything |
| TurnCoordination.CallsLeave | src/orchestrator/agent_state.py:77-352 | which turn, retained playback, epoch and pending interruption each call leaves; a replacement over playback retains it |
| TurnCoordination.Run | src/orchestrator/agent_state.py:77-352 | over every call sequence the epoch never falls and audio is emitted and finished no more often than it was started and emitted, the phase in progress included |
| TurnCoordination.TurnCoordinator.StartSynthesizing | src/orchestrator/agent_state.py:120-142 | the object takes the branches of the source and refines the step; so do its eighteen other methods |
| TurnCoordination.TurnCoordinator.PassGate | src/orchestrator/agent_state.py:229-261 | the gate on the object refines the step and keeps the balance of effects |
| Resampling.Batch | src/orchestrator/onsite_bridge_contracts.py:143-168 | the batch resampler: two thirds of the samples, each inside 16 bits |
| Resampling.HalfwayIsAverage | src/orchestrator/onsite_bridge_contracts.py:154-168 | the interpolation formula at a half position is the floor average the streaming code takes |
| Resampling.BatchGrows | src/orchestrator/media_adapters.py:1522-1565 | more input only appends to the output |
| Resampling.Resampler24To16.Push | src/orchestrator/media_adapters.py:1536-1565 | after any pushes the joined outputs are the batch result of the joined inputs, with at most one sample kept |
| Resampling.RawPcmChunks | src/orchestrator/media_adapters.py:1496-1519 | any byte partition yields whole samples in order; it fails exactly on a body that ends inside one |
| Resampling.StreamPcm16le | src/orchestrator/media_adapters.py:1206-1212 | any HTTP partition of a body, joined, gives the batch resampling of its whole samples |
| RtpPackets.PacketFields | src/orchestrator/tts_rtp.py:169-189 | a receiver reads back version and payload type, both wrapped counters, the source and the samples |
| RtpPackets.PayloadsRecoverTheInput | src/orchestrator/tts_rtp.py:114-161 | payloads joined and byte-swapped back are the input, zero-padded to full frames |
| RtpPackets.SsrcCollidesExactlyAtTheSeed | src/orchestrator/tts_rtp.py:192-198 | the source is never 0, and two epochs share one exactly for the pair around the seed |
| RtpPackets.TtsPcmRtpPacketizer.Push | src/orchestrator/tts_rtp.py:114-140 | a push emits exactly what the packets of the whole input have gained, less than a frame stays behind |
| RtpPackets.TtsPcmRtpPacketizer.Finish | src/orchestrator/tts_rtp.py:141-161 | the last packet is the zero-padded rest; it raises exactly on an odd total |
| RtpPackets.PacketizeChunks | src/orchestrator/tts_rtp.py:93-189 | for every byte split the packets are those of one push of the whole |
| SpeechPath.SpeakBuffered | src/orchestrator/onsite_bridge.py:261-300 | the buffered path emits a prefix of the body's packets, all of them without failures and none for an odd total, and asks for one end marker exactly if a frame was committed and it was not cancelled |
| SpeechPath.SpeakStreaming | src/orchestrator/onsite_bridge.py:333-496 | without failures exactly the buffered path's packets, none before 32000 bytes or the end; with a working close one marker after a committed first frame, also after a provider error, and never otherwise; an odd total fails, having emitted something exactly from 32000 bytes on |
| SpeechPath.SpeakHttpBody | src/orchestrator/media_adapters.py:1496-1565 | end to end, whatever fails: a 24 kHz body in any pieces leaves as a prefix of the packets of its batch resampling, whole for an even body when nothing fails |
| SpeechPath.ListenersHearTheSamples | src/orchestrator/tts_rtp.py:114-189 | a listener decodes exactly the samples of the clip, then silence to the full frame |
| Endpointing.StepHoldsOne | src/orchestrator/streaming_endpoint.py:103-150 | the reorder buffer holds at most the packet after the expected one |
| Endpointing.SwapsAndDuplicatesVanish | src/orchestrator/streaming_endpoint.py:103-150 | any order in which each packet is at most one ahead of the oldest missing and at most 32768 behind it gives the events of the plain stream, across the 16-bit wrap |
| Endpointing.ScriptsLeaveNoTrace | src/orchestrator/streaming_endpoint.py:103-150 | in particular every mixture of disjoint adjacent swaps after the first packet and repetitions |
| Endpointing.Run | src/orchestrator/streaming_endpoint.py:79-260 | over every run of packets and disconnects: the buffer bound, and the place of every event's frames among the accepted ones |
| Endpointing.UtterancesAreDisjoint | src/orchestrator/streaming_endpoint.py:151-260 | finalized utterances are disjoint, ordered, contiguous stretches of at most 779 accepted frames, pre-roll included, which may reach back over a lost packet |
| Endpointing.PartialsBelongToTheirFinal | src/orchestrator/streaming_endpoint.py:151-260 | the next final event after a partial has its turn and segment, and its frames start with the partial's |
| Endpointing.SpeechIsNeverLost | src/orchestrator/streaming_endpoint.py:173-222 | every accepted speech frame is in a finalized utterance or in the open one |
| Endpointing.StreamEndpointer.Push | src/orchestrator/streaming_endpoint.py:103-136 | the object, with its drain loop, refines the step and keeps the invariant |
| Endpointing.SpokenFramesAreSpeech | src/orchestrator/streaming_endpoint.py:272-282 | 320 samples sent in network order are speech if and only if the sum of their magnitudes is at least 900 * 320 |
| Endpointing.SpeechIsLoudness | src/orchestrator/streaming_endpoint.py:272-282 | the same for a payload of any even length, of which the first 320 samples count |
| EndpointEffects.RunRemembers | src/orchestrator/streaming_endpoint.py:173-222 | in every run the pre-roll is the last ten frames accepted since it was emptied |
| EndpointEffects.HearingDoes | src/orchestrator/streaming_endpoint.py:170-222 | speech opens an utterance with the pre-roll or extends it, is announced, and ends it at 750 frames; the thirtieth silent frame in a row ends it; nothing else causes an event |
| EndpointEffects.AcceptingDoes | src/orchestrator/streaming_endpoint.py:151-170 | an utterance is cut if and only if the timestamp does not continue the stream |
| EndpointEffects.JumpsCut | src/orchestrator/streaming_endpoint.py:103-136 | a packet two or more ahead cuts and restarts the order, one ahead is held, a stale one is dropped |
| EndpointEffects.LeavingDoes | src/orchestrator/streaming_endpoint.py:138-149 | leaving ends an open utterance and forgets the order |
| EndpointEffects.GaplessStreamsAreNeverCut | src/orchestrator/streaming_endpoint.py:151-170 | a stream of consecutive sequence numbers and timestamps is never cut for a gap, across both wraps |
| AudienceQueues.Run | src/orchestrator/scheduler_runtime.py:1012-1094 | over every interleaving: at most 16 wait, every call is waiting, in hand, answered or lost exactly once, order within a source, one turn per correlation, and calls wait without a worker only after a loss |
| AudienceEffects.TurnsStartExactly | src/orchestrator/scheduler_runtime.py:1178-1186 | a turn starts if and only if a current, scheduled proposal returns to a running session for a correlation without one |
| AudienceEffects.RunStartsExactly | src/orchestrator/scheduler_runtime.py:1178-1186 | over every run the turns are those of such steps, in order |
| AudienceEffects.AnswersAreExact | src/orchestrator/scheduler_runtime.py:1012-1309 | which answer every step gives, and to whom |
| AudienceEffects.OfferingDoes | src/orchestrator/scheduler_runtime.py:1012-1094 | what a call leaves in the queues |
| AudienceEffects.TakingDoes | src/orchestrator/scheduler_runtime.py:1280-1295 | the worker takes the head, and evaluates it only while it is valid and the session runs |
| AudienceEffects.EvaluatingDoes | src/orchestrator/scheduler_runtime.py:1290-1309 | after an evaluation the correlation is free again and the worker looks at the queue, unless it was cancelled |
| AudienceEffects.EndingDoes | src/orchestrator/scheduler_runtime.py:2695-2715 | the end empties the queue |
| AudienceQueues.AnsweredAtMostOnce | src/orchestrator/scheduler_runtime.py:1280-1309 | no caller is answered twice or answered while it still waits |
| AudienceQueues.EveryCallIsAnswered | src/orchestrator/scheduler_runtime.py:2695-2715 | when nothing waits every call was answered or lost |
| AudienceQueues.OnlyACancelledEvaluationLoses | src/orchestrator/scheduler_runtime.py:1126-1129 | a call is lost exactly when its evaluation is cancelled before the session ends |
| AudienceQueues.StallsExactly | src/orchestrator/scheduler_runtime.py:1086-1094 | calls wait with no worker exactly after such a cancellation over a waiting queue, until the next call that is queued or the end |
| AudienceQueues.OneTurnPerCorrelation | src/orchestrator/scheduler_runtime.py:1178-1186 | a correlation starts at most one turn |
| AudienceQueues.FullQueuePolicy | src/orchestrator/scheduler_runtime.py:1068-1094 | a call is refused exactly when 16 wait and it is a comment or all 16 are voice; otherwise the oldest comment goes; no voice is dropped |
| AudienceQueues.VoiceComesFirst | src/orchestrator/scheduler_runtime.py:1280-1289 | the worker takes voice first and the oldest of a source |
| AudienceQueues.AudienceAdmissions.EndSession | src/orchestrator/scheduler_runtime.py:2695-2715 | ending answers exactly those that wait, in order, and refines the step |
| CommentIngress.WindowRefinesReference | src/orchestrator/comment_ingress.py:81-108 | in every reachable state the pruned window accepts exactly what a memory that never forgets would |
| CommentIngress.Run | src/orchestrator/comment_ingress.py:81-136 | over every run nothing is accepted twice and the queue stays within its bound |
| CommentIngress.BackpressureForgets | src/orchestrator/comment_ingress.py:93-96 | a backpressured comment is remembered nowhere and is accepted once there is room |
| CommentIngress.RejectionsAreExact | src/orchestrator/comment_ingress.py:81-100 | which rejection a comment gets |
| CommentIngress.StepsDo | src/orchestrator/comment_ingress.py:81-136 | an accepted comment waits behind the others and is remembered; the queue is handed over from its front |
| CommentIngress.AuthenticatedCommentIngress.Receive | src/orchestrator/comment_ingress.py:81-108 | the object refines the step and gives the reference's verdict |
| ModularArcs.OverlapMeansACommonTimestamp | src/orchestrator/voice_templates.py:137-145 | true exactly when both spans are below 2^31 and some 32-bit timestamp lies on both arcs, also across zero |
| ModularArcs.OverlapIsSymmetric | src/orchestrator/voice_templates.py:137-145 | the order of the two arcs does not matter |
| Utf8.DecodeCut | src/orchestrator/transient_context.py:308-312 | cutting encoded text anywhere and decoding with errors ignored gives the longest prefix of whole characters that fits |
| Utf8.RoundTrip | src/orchestrator/memory_store.py:270-281 | decoding undoes encoding |
| TransientContexts.Truncated | src/orchestrator/transient_context.py:308-312 | the kept summary is the longest prefix within half the budget |
| TransientContexts.RetainNewest | src/orchestrator/transient_context.py:345-364 | the loop keeps exactly the entries that fit beside the newer ones kept |
| TransientContexts.NewestThatFitIsUnique | src/orchestrator/transient_context.py:345-364 | that rule determines the kept set |
| TransientContexts.PickPartitions | src/orchestrator/transient_context.py:319-329 | kept and compacted entries weave back into the snapshot's, in order |
| TransientContexts.Compose | src/orchestrator/transient_context.py:295-343 | the composition is within every positive budget, and no dropped entry fits in what is left |
| TransientContexts.CompactionNeedsAQuietContext | src/orchestrator/transient_context.py:223-278 | compacting is accepted exactly when nothing was stored, reset or compacted since the composition, there is a digest, and the stripped summary has 1 to 4000 characters |
| TransientContexts.OperationsDo | src/orchestrator/transient_context.py:223-278 | stored material is appended, a reset leaves nothing, a compaction exactly the composed entries and the stripped summary |
| Utf8.StripTakesSpaces | src/orchestrator/transient_context.py:274-276 | stripping takes spaces off both ends and nothing but spaces |
| TransientContexts.TransientContext.Compact | src/orchestrator/transient_context.py:259-278 | the object refines the step |
| Memories.Run | src/orchestrator/memory.py:245-308 | over every run: at most 32 entries, 16384 bytes, 16 conflicts, 64 audits, all of them admissible |
| Memories.AcceptedProposalIsStored | src/orchestrator/memory.py:245-282 | an accepted proposal is stored and touches no other key, and a different value needs strictly more confidence |
| Memories.MutableMemory.Reduce | src/orchestrator/memory.py:245-282 | the object refines the step: same rejection, and two clock readings for entry and audit |
| Memories.MutableMemory.Validate | src/orchestrator/memory.py:344-408 | the checks on the object, one after the other with their loops, give the rejection of the specification |
| Memories.AcceptedExactly | src/orchestrator/memory.py:344-408 | a proposal is accepted if and only if it is current, admissible, within capacity, and not a different value with no more confidence |
| MemoryEffects.RejectionsAreExact | src/orchestrator/memory.py:344-408 | which rejection a proposal gets, the first that applies, in the numbers of the policy |
| MemoryEffects.ReducingDoes | src/orchestrator/memory.py:245-282 | an accepted proposal takes its key's place or the end; audit and conflict say what it replaced |
| MemoryEffects.DeletingDoes | src/orchestrator/memory.py:288-301 | a deletion removes the key's entry and its conflicts and nothing else, and is audited with the digest of what went |
| MemoryEffects.ClearingDoes | src/orchestrator/memory.py:303-308 | clearing leaves nothing but a later revision |
| MemoryEffects.KeysHoldTheLastWrite | src/orchestrator/memory.py:245-308 | over every run a key holds the last accepted proposal for it since its last deletion and the last clearing |
| MemoryEffects.MemoriesAreBounded | src/orchestrator/memory_policy.py:6-13 | the bounds of the invariant in numbers |
| MemoryEffects.KeysAreWords | src/orchestrator/memory_policy.py:16-16 | a key is lower-case words joined by single underscores |
| MemoryStores.ValidatedExactlyWhenSound | src/orchestrator/memory_store.py:233-249 | putting entries through the validator succeeds exactly when they are admissible, distinct and within capacity |
| MemoryStores.LoadedIsSound | src/orchestrator/memory_store.py:202-261 | whatever a file says, a memory that loads keeps every bound and rule |
| MemoryStores.LoadingWhatWasSaved | src/orchestrator/memory_store.py:175-261 | a saved memory comes back entry by entry with conflicts and audit, if and only if all confidences are at least 90 |
| MemoryStores.RestoredAsWritten | src/orchestrator/memory_store.py:202-261 | a restored memory is what the document says, entry by entry |
| MemoryStores.DocumentsTurnedAway | src/orchestrator/memory_store.py:202-261 | which documents fail and which count as none |
| MemoryMarkdown.MarkerIsFoundExactlyWhenIdsAreSafe | src/orchestrator/memory_store.py:133-138 | the marker search stops at the state exactly when no rendered id contains the marker |
| MemoryMarkdown.StateIsRecoveredExactly | src/orchestrator/memory_store.py:125-173 | for ids of one line each the file gives its state back if and only if no id contains the marker |
| MemoryMarkdown.SavedMemoryLoads | src/orchestrator/memory_store.py:115-173 | the round trip through `memory.md` |
| MemoryMarkdown.EveryRunSurvivesAReload | src/orchestrator/memory_store.py:115-173 | the round trip after every run of operations under the default policy |
| MemoryMarkdown.Load | src/orchestrator/memory_store.py:125-143 | any bytes: a load that succeeds gives a sound memory of the session |
| MemoryMarkdown.AnUnsafeId | src/orchestrator/memory_store.py:146-172 | an admissible id that becomes a marker only through the rendered line break, in a memory that keeps every rule and whose file does not give its state back |
| MemoryMarkdown.EveryEntryIsShown | src/orchestrator/memory_store.py:146-172 | every entry can be read whole in the file |

## Left out

- Network, WebSocket, UDP and HTTP code, provider adapters, prompts, heuristics on language, configuration and envelope parsing.
- Journals, observability, deck and presentation dispatch.
- asyncio as such: a section without an await is one step; cancellations, transport errors and timeouts are outcomes of the await where they arrive.
- TaskRegistryModel.TaskRegistry.CancelPending: one clock reading serves all records of a call, and the order of the returned records is not modelled.
- TaskRegistryModel.TaskRegistry.ExpireTerminalTombstones: returns a set, not the dictionary's order.
- Turn ids are a prefix and a number; their text is not modelled. Time is an integer parameter of each call.
- SessionRuntimes.SessionRuntime.AdvanceTurnEpoch: the provider cancellations that follow are not part of it.
- OutputFence: an SSRC of a lease is its derivation from stream and epoch, not a number; `RtpPackets` treats the number.
- Cutover.ReplacementExchange.PrepareResponseOutput: streams without a fence, which keep the input epoch, are not part of it.
- FlushAdmissions: numbering of `begin` calls and the list of sends are history variables.
- SpeechPath.SpeakStreaming: pacing sleeps, the chunk queue between threads and the closing lock are not part of it, nor is a cancellation inside the sending of the end marker.
- SpeechPath.SpeakBuffered: pacing sleeps, and the same cancellation.
- RtpPackets: the checksum of the stream name is an arbitrary 32-bit word.
- Endpointing: a partial or final event carries its frames instead of their joined bytes; `_epoch` never changes and is omitted; `heard`, `spans` and `cleared` are history variables.
- AudienceQueues: tickets stand for the callers' futures; `log`, `lost` and the lists of taken tickets are history.
- Route generations and the acceptance of final transcripts (`accept_asr_final`) of the transport hub.
- The playback window (`_was_playing_at`) and echo text of the scheduler runtime.
- CommentIngress: credentials, size and JSON syntax are decided before it; sequences are not negative, as the parser demands; `handed` is a history variable.
- TransientContexts: text is a sequence of Unicode scalar values, without lone surrogates; the digest's hash is a function of the entries it stands for.
- Memories.Run: sensitive patterns, the Unicode control category and the hash are arbitrary functions; the minimum confidence is not negative; ids given to `delete` have at most 256 bytes.
- MemoryMarkdown.SavedMemoryLoads: the JSON text is a parameter with the two facts it needs, that it is one line and that the parser reads it back; file replacement is not modelled.
- `JsonMemoryStore` stores the same document without the Markdown around it.
