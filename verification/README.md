# Verified model of the distributed driving-RL stack

The repository trains driving policies with three kinds of processes: workers that run simulators, learners that
train on the workers' rollouts, and a coordinator that tells workers which learner to use. This project models the
parts whose correctness depends on state kept over many calls or threads, and proves what they promise over whole runs.

- **Coordinator registry** (`registry_spec`, `registry_invariants`, `registry_runs`, `registry_properties`, `learner_laws`,
  `worker_laws`, `registry`). Workers, learners, the
  active learner and one bounded drop-oldest directive queue per worker. `RegistrySpec` gives each call as a function on
  states, `Registry.CoordinatorState` is the class that updates its fields in place and is proved against it, and
  `RegistryRuns` proves what every sequence of calls keeps.
- **Directive delivery** (`delivery`, `drained_streams`, `lost_switch`, `heartbeat_stream`). The way of a directive from the record queue through a
  forwarder, a send queue and a send task over the wire into the worker's policy and rollout targets, with streams that
  break at any moment and workers that re-register.
- **Rollout pipeline** (`trajectory`, `simulator_spec`, `recurrent_state`, `simulator_trace`, `simulator`, `publisher`, `pipeline`,
  `stream_client`). Simulator threads cut step streams into fragments, feed a bounded queue, and one thread drains it in
  batches onto a stream that belongs to the current target. Interleavings are taken at the mutex regions.
- **Broad phase** (`bvh_spec`, `median_split`, `refit_spec`, `refit_queries`, `bvh`, `losing_refit`, `broad_phase_spec`,
  `broad_phase_runs`, `broad_phase_history`, `broad_phase`, `masks`). The top-level BVH with its
  build, query, leaf update and refit; the static and dynamic index above it; the encoding of collision categories.
- **Sequence windows** (`windows`) of the behaviour-cloning tool and **environment expansion** (`expand_env`, `idempotence`) of the
  worker's configuration.

Times, tokens, simulator outcomes, inference results and network answers are inputs of the steps. Coordinates are reals.

## Findings

- A switch that already left the record queue dies with its stream when that breaks. `Delivery.BreakIsHarmlessIff` says
  exactly when this costs the worker the current endpoint; `LostSwitch.WorkerStaysBehind` is a run in which it does.
  Re-registration does not repair it, because the client stores the answered target but never applies it.
- A heartbeat with a wrong token marks the worker it names offline, although another session owns that worker.
- `TLAS2::refit` recomputes an inner node before the child through which the node was first collected, so a parent can keep
  a box that misses moved leaves (`LosingRefit.RefitThenQuery`). `RefitSpec.RefitIsExactIff` says when the boxes are exact
  and `RefitQueries.RefitScansIff` when queries are complete. `BroadPhase` is not affected: it updates each moved leaf
  bottom-up, and its refit then changes nothing.
- One instance with an inverted height range, which the configuration parser accepts, leaves a whole tree empty after a
  rebuild, so that queries miss its valid neighbours (`BroadPhaseRuns.InvertedHeightHidesNeighbour`).
- An added instance is invisible to queries until the next build; for static instances nothing marks the tree as outdated.
- The second announcement in `register_learner` (line 262) is never made.
- With a batch limit of zero the publisher thread never publishes anything.
- Without a publisher a full buffer keeps its old recurrent snapshot and the next one is discarded.
- A worker that registers with a new identity and a hostname some record has takes over that record; worker ids keep their
  identities exactly when this does not happen (`RegistryProperties.IdentityIsStable`).
- `expand_env` is not idempotent in general: an empty value, a value that ends with a dollar sign, or one that completes or
  opens a placeholder of a set name breaks it. `Idempotence.IdempotentIff` is the exact condition. Not every value that
  starts with a brace does so: `{}` is harmless.

## Model

| member | source | states |
|---|---|---|
| RegistryRuns.EveryWorkerConverges | apps/coordinator/src/state.py:72-112 | in every run, folding a worker's queue over the last target it was told gives the current learner endpoint, although full queues drop entries and queues survive re-registration |
| RegistryRuns.QueueIsRecentSwitches | apps/coordinator/src/state.py:150-176 | a queue is a suffix of at most 8 entries of what was pushed since its worker was created, and neighbouring entries differ in target |
| RegistryRuns.ReachableStatesAreSettled | apps/coordinator/src/state.py:198-223 | in reachable states the active id is None iff there are no learners, the active learner has an endpoint if any has one, re-evaluating changes nothing, and the last pushed target is the endpoint |
| RegistryRuns.SwitchIffEndpointChanges | apps/coordinator/src/state.py:258-263 | a learner call either leaves log, workers and endpoint alone, or changes the endpoint and pushes exactly one switch to every worker; no other call changes log or endpoint |
| RegistryRuns.NextKeepsWellFormed | apps/coordinator/src/state.py:46-322 | every call with any arguments keeps ids, active learner, queue bound, queue order and the alternation of the switch log |
| RegistryRuns.ReachableRunsAreOk | apps/coordinator/src/state.py:46-322 | in every run, through all calls and takings of directives, the invariant holds and each worker's told target plus queue stays aimed at the endpoint |
| RegistryInvariants.UpdateActiveSettles | apps/coordinator/src/state.py:198-219 | after re-evaluation the active learner exists iff a learner does and has an endpoint if any learner has one |
| RegistryInvariants.UpdateActiveIsIdle | apps/coordinator/src/state.py:221-223 | in a settled state asking for the current endpoint does not change the active learner |
| RegistryInvariants.AnnounceKeeps | apps/coordinator/src/state.py:295-296 | announcing a changed endpoint restores the agreement between switch log and endpoint |
| RegistryInvariants.LearnersRewritten | apps/coordinator/src/state.py:319-322 | whatever a learner call did to the learners, its closing re-evaluation and announcement restore the invariant |
| RegistryRuns.SessionSafety | apps/coordinator/src/state.py:114-128 | in every run a heartbeat is accepted iff its token is that of the latest registration that returned its worker id; a refused one changes nothing; the two refusals are told apart |
| RegistryRuns.JoinIssuesToken | apps/coordinator/src/state.py:77-112 | a registration sets the token of the id it returns and of no other worker |
| RegistryRuns.LearnerSessionSafety | apps/coordinator/src/state.py:267-298 | in every run a learner heartbeat is accepted iff its token came from the latest registration that returned its id and no sweep has evicted the learner since; although the call re-evaluates the active learner first, a refused one leaves the registry as it was |
| RegistryInvariants.PaddedIdsAreInjective | apps/coordinator/src/state.py:83 | zero-padded worker and learner ids are distinct for all counters, past four digits too |
| RegistryInvariants.PadIsDecimal | apps/coordinator/src/state.py:83 | an id's number is spelled in decimal digits, at least four of them, more only past 9999 |
| RegistryRuns.IdsAreNeverReused | apps/coordinator/src/state.py:234-246 | workers are never forgotten, and a new learner's id was not used at any earlier point of the run |
| RegistryProperties.SweepFailsOver | apps/coordinator/src/state.py:300-322 | a sweep removes exactly the learners below the threshold, keeps the active one unless it was stale, and otherwise picks the newest survivor with an endpoint |
| RegistryProperties.PunctualLearnerSurvives | apps/coordinator/src/server.py:55-73 | with the monitor's timeout, a learner whose stamp is never older than two intervals at a sweep is never evicted, whatever else happens |
| RegistryProperties.IdentitiesStayDistinct | apps/coordinator/src/state.py:57-105 | if every hello carries two equal non-empty identity labels, no two worker records ever share an identity |
| RegistryProperties.IdentityIsStable | apps/coordinator/src/state.py:57-105 | in a run of labelled hellos all worker ids keep their identities throughout iff every registration knows its identity or finds no record through its hostname |
| RegistryProperties.JoinKeepsIdentitiesIff | apps/coordinator/src/state.py:57-105 | one labelled registration leaves every record's identity in place iff it meets that guard |
| RegistryProperties.NamedClientsAreStable | apps/worker/src/coordinator_client.cpp:22-24 | clients whose hostname is their identity always meet the guard |
| RegistryProperties.SharedHostnameStealsRecord | apps/coordinator/src/state.py:65-69 | a registration that does not meet the guard gives one identity's record to another |
| RegistryProperties.DefaultHelloIsNamed | apps/worker/src/coordinator_client.cpp:22-67 | a client with default hostname and labels sends hellos of the kind the identity results need |
| RegistryProperties.HelloKeepsConfig | apps/worker/src/coordinator_client.cpp:22-67 | configured labels and hostname are sent as they are; the identity fills a missing hostname and missing identity labels and nothing else |
| LearnerLaws.AcceptedBeatIsTaken | apps/coordinator/src/state.py:267-298 | in every reachable registry an accepted heartbeat renews its sender's stamp (by its own time, or now), takes over the endpoint it carries and changes no other learner; with an endpoint the sender is active and workers are sent to it, without one the newest learner that has an endpoint serves |
| LearnerLaws.RegistrationIsTaken | apps/coordinator/src/state.py:225-265 | in every reachable registry a registration appends or rewrites one record, spelled out field by field, and with an endpoint that learner is active and workers are sent to it |
| LearnerLaws.OnlyAlikeAreReused | apps/coordinator/src/state.py:190-196 | no record is reused iff none has the hello's non-empty endpoint or hostname, and the reused one is the first that has |
| LearnerLaws.RepeatedRegistrationReuses | apps/coordinator/src/state.py:225-256 | registering again finds the same record iff the hello has an endpoint or a hostname |
| LearnerLaws.SweepLeavesTheHeard | apps/coordinator/src/state.py:300-322 | a sweep leaves exactly the learners heard of within the timeout, in order; the active one stays if it is among them, else the first of the newest with an endpoint serves, else the first of the newest |
| WorkerLaws.SweepMarksTheSilent | apps/coordinator/src/state.py:178-187 | a sweep changes a worker iff the timeout is positive, its stamp is below now minus the timeout in whole milliseconds and it is not offline yet; it is then offline, stamped now, and otherwise the same |
| WorkerLaws.RecordsAreHeard | apps/coordinator/src/state.py:72-187 | in every run each worker's token, hostname, labels, stamp and phase are what its registrations, accepted heartbeats, ended streams and sweeps made of them, in a history told from the events |
| WorkerLaws.JoinIsTaken | apps/coordinator/src/state.py:72-112 | a registration rewrites or appends one record, spelled out field by field, and answers with its id and token; a reused record keeps its id and queue |
| WorkerLaws.SilentWorkersGoOffline | apps/coordinator/src/state.py:178-187 | in every run, after a sweep a worker is offline iff it was before or its latest registration or accepted heartbeat is longer ago than the positive timeout |
| WorkerLaws.WorkersInTouchStayOnline | apps/coordinator/src/state.py:122-187 | a worker that is online, whose stream does not end, that does not report being offline and whose latest contact is within the timeout at every sweep is never taken offline, whatever else happens |
| WorkerLaws.OnlyAlikeAreReused | apps/coordinator/src/state.py:57-70 | no record is reused iff none carries the hello's identity under either label or its non-empty hostname; a record with the identity wins over one with the hostname |
| WorkerLaws.PreferredIdentity | apps/coordinator/src/state.py:58 | the first identity label counts, the second when the first is missing or empty |
| WorkerLaws.RepeatedJoinReuses | apps/coordinator/src/state.py:57-112 | registering again is answered with the same id iff the hello has an identity or a hostname |
| RegistrySpec.Newest | apps/coordinator/src/state.py:211 | Python's max: the first of the records with the newest heartbeat |
| RegistrySpec.Enqueue | apps/coordinator/src/state.py:158-164 | the queue ends with the new directive, is a suffix of everything offered, and stays within its capacity |
| RegistryInvariants.EnqueueDropsOldest | apps/coordinator/src/state.py:158-164 | a full queue loses its oldest entry and no more, any other queue loses nothing |
| Registry.CoordinatorState.FindWorkerMatch | apps/coordinator/src/state.py:57-70 | the first worker with the preferred identity under either label, else the first with the hostname |
| Registry.CoordinatorState.FindLearnerMatch | apps/coordinator/src/state.py:190-196 | the first learner with the same non-empty endpoint or the same non-empty hostname |
| Registry.CoordinatorState.Max | apps/coordinator/src/state.py:211 | the loop finds the first of the newest records |
| Registry.CoordinatorState.UpdateActiveLearner | apps/coordinator/src/state.py:198-219 | the new state is that of the specification and the result is the active record |
| Registry.CoordinatorState.CurrentLearnerEndpoint | apps/coordinator/src/state.py:221-223 | re-evaluates the active learner and returns its endpoint or the empty string |
| Registry.CoordinatorState.PushDirective | apps/coordinator/src/state.py:150-164 | one worker's queue gets the directive, dropping its oldest entries when full; an unknown id changes nothing |
| Registry.CoordinatorState.PushDirectiveToAll | apps/coordinator/src/state.py:166-168 | every worker's queue gets the directive exactly once |
| Registry.CoordinatorState.PushSwitchLearnerDirective | apps/coordinator/src/state.py:170-176 | a switch with the given target goes to all workers |
| Registry.CoordinatorState.RegisterWorker | apps/coordinator/src/state.py:72-112 | reuses or creates a record as specified, answers with the current endpoint and keeps the invariant |
| Registry.CoordinatorState.RecordWorkerHeartbeat | apps/coordinator/src/state.py:122-128 | updates stamp and phase of a valid session, refuses others unchanged |
| Registry.CoordinatorState.MarkWorkerDisconnected | apps/coordinator/src/state.py:130-148 | marks the worker offline now; an unknown id changes nothing |
| Registry.CoordinatorState.CleanupStaleWorkers | apps/coordinator/src/state.py:178-187 | marks exactly the stale workers that are not offline yet |
| Registry.CoordinatorState.RegisterLearner | apps/coordinator/src/state.py:225-265 | the specified new state; the alternative announcement is never reached |
| Registry.CoordinatorState.RecordLearnerHeartbeat | apps/coordinator/src/state.py:275-298 | the specified new state and answer, with the payload, id and token errors |
| Registry.CoordinatorState.CleanupStaleLearners | apps/coordinator/src/state.py:300-322 | popping the stale ids one by one leaves exactly the survivors, and failover and announcement follow |
| Delivery.StreamsDeliver | apps/coordinator/src/service.py:42-115 | in every run: policy and rollout targets agree; what arrived and what is in transit lies in push order without duplicates; draining the stream gives the endpoint unless the newest directive died with a stream |
| Delivery.LinkStepKeepsOk | apps/coordinator/src/service.py:53-94 | every step of one stream, including its end, keeps order and target agreement |
| Delivery.ReachableNetsAreOk | apps/worker/src/coordinator_client.cpp:165-264 | all streams stay in order under any interleaving of coordinator calls, stream steps, breaks and re-registrations |
| DrainedStreams.UndisturbedStreamsDeliver | apps/coordinator/src/service.py:53-115 | in every run, however the moves of an open stream interleave, after as many moves as its directives have ahead of them nothing is left and both targets are the coordinator's endpoint, unless the newest directive died with an earlier stream |
| DrainedStreams.MovesAreProgress | apps/coordinator/src/service.py:53-66 | each possible move brings one directive exactly one place further |
| DrainedStreams.SomethingMoves | apps/coordinator/src/service.py:105-115 | while anything is queued or in transit on an open stream with a forwarder, some move is possible |
| DrainedStreams.StreamsComeToRest | apps/coordinator/src/service.py:53-115 | undisturbed moves keep order and agreement, and none of them is lost or doubled in the count of what lies ahead |
| DrainedStreams.OnlyLossesMakeStale | apps/coordinator/src/service.py:87-94 | only a stream that breaks while the newest directive is in transit loses it |
| Delivery.BreakIsHarmlessIff | apps/coordinator/src/service.py:87-94 | a break keeps a worker on course iff its record queue is not empty, nothing was in transit, or it already has the endpoint |
| Delivery.LostSwitchStrandsWorker | apps/coordinator/src/service.py:105-115 | whenever a learner call changes the endpoint, a drained worker whose stream takes up the switch and then breaks stays on the old endpoint with nothing left to correct it |
| LostSwitch.WorkerStaysBehind | apps/worker/src/coordinator_client.cpp:244-253 | a run from the empty coordinator in which this happens, for any two distinct endpoints, and re-registration does not help |
| Delivery.ReregistrationDoesNotRepair | apps/worker/src/coordinator_client.cpp:244-253 | re-registering answers with the endpoint but leaves such a worker's targets as they were |
| HeartbeatStreams.HeartbeatStream.constructor | apps/coordinator/src/service.py:47-51 | a new stream forwards nothing and holds nothing |
| HeartbeatStreams.HeartbeatStream.OnHeartbeat | apps/coordinator/src/service.py:67-94 | an accepted heartbeat is recorded and starts the forwarder once; a refused one ends the stream and marks the worker it named offline |
| HeartbeatStreams.RefusalTakesOwnerOffline | apps/coordinator/src/service.py:71-94 | a heartbeat with a wrong token takes the session's owner offline and renews its stamp, while the owner's session stays valid |
| HeartbeatStreams.HeartbeatStream.Forward | apps/coordinator/src/service.py:105-115 | the head of the record queue moves to the send queue and to nowhere else |
| HeartbeatStreams.HeartbeatStream.StartSend | apps/coordinator/src/service.py:56-58 | the head of the send queue becomes the send task's directive |
| HeartbeatStreams.HeartbeatStream.Yield | apps/coordinator/src/service.py:62-65 | the send task's directive goes onto the wire once |
| HeartbeatStreams.HeartbeatStream.Close | apps/coordinator/src/service.py:87-94 | both tasks end, what they held is gone, the record queue stays and the worker of the last heartbeat is offline |
| HeartbeatStreams.WorkerTargets.SetUp | apps/worker/src/worker.cpp:1150-1168 | a worker starts iff its session names a learner, and then both targets are that learner |
| HeartbeatStreams.WorkerTargets.HandleControlDirective | apps/worker/src/worker.cpp:1184-1214 | a switch sets both targets, a shutdown requests a stop, a drain does nothing |
| HeartbeatStreams.WorkerTargets.HandleAll | apps/worker/src/coordinator_client.cpp:220-225 | handling a stream's switches in order ends on the target they settle on |
| Trajectory.TrajectoryBuffer.constructor | apps/worker/src/trajectory_buffer.cpp:8-11 | a new buffer is empty, with nothing pending and no snapshot |
| Trajectory.TrajectoryBuffer.PushStep | apps/worker/src/trajectory_buffer.cpp:17-20 | appends the step and changes nothing else |
| Trajectory.TrajectoryBuffer.SetPendingStep | apps/worker/src/trajectory_buffer.cpp:22-30 | replaces the pending step and changes nothing else |
| Trajectory.TrajectoryBuffer.CompletePendingStep | apps/worker/src/trajectory_buffer.cpp:32-45 | returns the pending step with its reward, or an error exactly when nothing is pending |
| Trajectory.TrajectoryBuffer.Extract | apps/worker/src/trajectory_buffer.cpp:67-74 | hands out all steps and keeps the pending step and the snapshot |
| Trajectory.TrajectoryBuffer.SetInitialRecurrentState | apps/worker/src/trajectory_buffer.cpp:76-81 | stores a snapshot unless one is there |
| Trajectory.TrajectoryBuffer.ExtractInitialRecurrentState | apps/worker/src/trajectory_buffer.cpp:83-88 | hands out the snapshot and forgets it |
| Trajectory.TrajectoryBuffer.Clear | apps/worker/src/trajectory_buffer.cpp:90-96 | forgets steps, pending step and snapshot |
| SimulatorSpec.ThreadsCutFragments | apps/worker/src/worker.cpp:1049-1109 | in every run of a thread each fragment is non-empty, at most max(1, unroll) long, short only when terminal, terminal only at its end; with a publisher, completed steps are the fragments plus the buffer |
| SimulatorSpec.IterateShapes | apps/worker/src/worker.cpp:1069-1108 | an iteration finds a pending step and a next action, leaves them for the next one, and emits only well-shaped fragments |
| SimulatorSpec.IterateConserves | apps/worker/src/worker.cpp:873-906 | an iteration loses, repeats and reorders no completed step, and ids count fragments |
| SimulatorSpec.BootIsOk | apps/worker/src/worker.cpp:968-1047 | the start-up code establishes the loop's invariants |
| RecurrentState.FragmentsCarryTheirState | apps/worker/src/worker.cpp:974-999 | with an LSTM policy, a publisher and matching widths, a fragment carries the state the model was fed for its first step: always at an episode start (zeros), later iff no version change reset a non-zero state in between |
| RecurrentState.PolicyFeeds | apps/worker/src/policy_model.cpp:137-170 | the model is fed the context, or zeros after a reset or when the context is empty |
| RecurrentState.WithoutPublisherSnapshotsAreDiscarded | apps/worker/src/worker.cpp:877-879 | without a publisher the old snapshot stays and the next fragment's is dropped |
| SimulatorTrace.StepsAreTicks | apps/worker/src/worker.cpp:1006-1109 | in every run the k-th completed step has the state of the tick or reset before it, that evaluation's action and log-probability, and the k-th tick's reward and terminal flag; the simulator is given the pending step's action; the thread stops exactly when a tick is no step or no reset gets ready |
| SimulatorTrace.StepsAreFed | apps/worker/src/policy_model.cpp:137-258 | in every run of an LSTM policy of matching widths with a publisher, each step was fed, and each fragment carries, what the inputs say is remembered: the output of the latest run since the episode or the model version began, or zeros |
| SimulatorTrace.LastOutputIsFed | apps/worker/src/policy_model.cpp:253-258 | a later step of the same episode and version, with no run in between, is fed exactly the hidden and cell state the last run returned, finite or not, and a fragment that starts there carries it; a new version is fed zeros |
| SimulatorTrace.FirstIsFedZeros | apps/worker/src/worker.cpp:974-999 | from an episode's start up to the first run, steps are fed zeros and fragments carry zeros |
| SimulatorTrace.LastOutputIsHeld | apps/worker/src/policy_model.cpp:253-258 | the remembered state is the latest run's output while episode and version last |
| SimulatorTrace.NewVersionForgets | apps/worker/src/worker.cpp:768-771 | a new model version forgets what was remembered |
| SimulatorTrace.VersionIsLatest | apps/worker/src/worker.cpp:768-771 | the version compared with is that of the latest model, or that of the episode's start |
| SimulatorTrace.ModelsLeaveTheirOutput | apps/worker/src/policy_model.cpp:137-147 | without any assumption on widths, a recurrent model that runs leaves its output and version, and each part it is fed is the context's if it has the model's width and version, else zeros |
| SimulatorTrace.StatelessThreadsCarryNothing | apps/worker/src/worker.cpp:974-999 | a thread without a recurrent policy feeds no recurrent state and attaches none to its fragments |
| Simulator.SimInstance.RunNeuralPolicy | apps/worker/src/worker.cpp:768-780 | resets the context on a new version, sizes it, and takes over the model's new state, as specified |
| Simulator.SimInstance.SnapshotIfFragmentStart | apps/worker/src/worker.cpp:974-999 | takes a snapshot only when nothing is collected or pending: the context if it is sized, else zeros |
| Simulator.SimInstance.ReseedUntilReady | apps/worker/src/worker.cpp:1006-1043 | resets until a non-terminal observation, with a pending step and next action iff it succeeds |
| Simulator.SimInstance.HandleRolloutReady | apps/worker/src/worker.cpp:873-906 | numbers the fragment, attaches its snapshot and offers it to the publisher once; without steps nothing is offered |
| Simulator.SimInstance.CompleteStep | apps/worker/src/worker.cpp:1069-1086 | completes the pending step without ever raising, ends a full or terminal fragment and offers the publisher exactly that fragment |
| Simulator.SimInstance.LoopBody | apps/worker/src/worker.cpp:1049-1109 | one iteration in place is one simulator step of the pipeline, in the thread's state and in the publisher's |
| Simulator.SimInstance.SimThreadMain | apps/worker/src/worker.cpp:943-1112 | the whole thread follows the specification from its start-up code on and offers the publisher its fragments in order |
| Publishing.PublisherIsFifo | apps/worker/src/rollout_publisher.cpp:45-101 | under any interleaving, accepted rollouts are the published batches, then the batch in flight, then the queue; the queue stays within its depth and batches within 1 and their limit |
| Publishing.OfferKeeps | apps/worker/src/rollout_publisher.cpp:45-67 | a rollout is refused exactly when streaming is off or the queue is full, and accepted rollouts go to the end |
| Publishing.CollectKeeps | apps/worker/src/rollout_publisher.cpp:90-95 | draining loses and reorders nothing, and makes progress when the batch limit is positive |
| Publishing.RoundPublishesOldest | apps/worker/src/rollout_publisher.cpp:86-112 | a pass of the loop publishes one batch of the oldest rollouts, full unless the queue is emptied |
| Publishing.RoundsPublishAll | apps/worker/src/rollout_publisher.cpp:74-101 | with a positive limit, as many passes as there are rollouts queued publish everything that was accepted |
| Publishing.ZeroBatchPublishesNothing | apps/worker/src/rollout_publisher.cpp:92-95 | with a batch limit of zero nothing is ever published |
| Publishing.RolloutPublisher.Enqueue | apps/worker/src/rollout_publisher.cpp:45-67 | the queue and the answer are those of the specification |
| Publishing.RolloutPublisher.CollectBatch | apps/worker/src/rollout_publisher.cpp:86-95 | the drain loop takes the first rollouts of the queue up to the limit |
| Publishing.RolloutPublisher.PublishBatch | apps/worker/src/rollout_publisher.cpp:103-112 | a non-empty batch goes to the handler once |
| Pipeline.ReachablePipesAreOk | apps/worker/src/worker.cpp:873-906 | any interleaving of any number of simulator threads and the publisher keeps fragment shape, conservation and order |
| Pipeline.PublishedIsOrdered | apps/worker/src/rollout_publisher.cpp:74-101 | published rollouts are a prefix of the accepted ones, each simulator's in emission order, and each simulator's completed steps are its fragments plus its buffer |
| Pipeline.EmittedIsOffered | apps/worker/src/worker.cpp:873-906 | a simulator's iteration ends at most one fragment, which joins the queue at once iff streaming is on and there is room; it changes no other simulator |
| Pipeline.NothingIsDropped | apps/worker/src/rollout_publisher.cpp:45-67 | in every run in which the queue always has room, each simulator's accepted rollouts are exactly its fragments, in order |
| Pipeline.ConsecutiveIdsAreAdjacent | apps/worker/src/worker.cpp:888-902 | two published rollouts of one simulator with consecutive ids are adjacent in its completed steps |
| StreamClient.RolloutStreamClient.SetTarget | apps/worker/src/rollout_stream_client.cpp:127-135 | a changed target drops the stream, the same target keeps it |
| StreamClient.RolloutStreamClient.EnsureStream | apps/worker/src/rollout_stream_client.cpp:236-267 | a stream is open afterwards iff one was or a non-empty target could be opened, and it belongs to the current target |
| StreamClient.RolloutStreamClient.Send | apps/worker/src/rollout_stream_client.cpp:143-234 | a batch is written once, to the current target, under the next id; a failed write closes the stream |
| StreamClient.DeliveredIdsIncrease | apps/worker/src/rollout_stream_client.cpp:160-184 | delivered batches carry strictly increasing ids |
| BvhSpec.PrunedIsSound | libs/collision/src/broad_phase.cpp:310-328 | without any enclosure a traversal reports only intersecting leaves, none more often than it is listed |
| BvhSpec.CoveringIsComplete | libs/collision/src/broad_phase.cpp:310-328 | when every box covers the leaves below it, a traversal reports exactly the intersecting leaves |
| BvhSpec.PrunedIsComplete | libs/collision/src/broad_phase.cpp:310-328 | the same when every box encloses its children's boxes |
| BvhSpec.ScanFindsAll | libs/collision/src/broad_phase.cpp:310-328 | the linear scan that queries are compared with reports exactly the intersecting leaves, each once, in order |
| BvhSpec.IntersectIffSharing | libs/core/include/core/geom/aabb.hpp:44-47 | boxes intersect iff they share a point, be it on their edges |
| Bvh.Traverse | libs/collision/src/broad_phase.cpp:306-328 | the stack loop terminates on any tree and reports what the recursive pruned traversal reports |
| Bvh.Tlas2.CollectOverlaps | libs/collision/src/broad_phase.cpp:297-329 | the appended ids are those of a pruned traversal, and on a tree with exact boxes those of a linear scan over the leaves, as multisets |
| Bvh.Tlas2.constructor | libs/collision/src/bvh.cpp:172-176 | a new tree is empty and valid |
| Bvh.Tlas2.Rebuild | libs/collision/src/bvh.cpp:180-314 | the result is a tree with exact boxes and median splits over all instances if all are valid, and empty otherwise |
| Bvh.Tlas2.BuildRecursive | libs/collision/src/bvh.cpp:236-303 | a range becomes a linked subtree with exact boxes that lists each leaf of the range once and splits at the median on every level; the capacity never runs out |
| Bvh.Tlas2.Halve | libs/collision/src/bvh.cpp:274-285 | the range is split into two halves that together hold it, and along the longer side of its box no centre of the lower half lies beyond one of the upper half |
| Bvh.Tlas2.UpdateLeaf | libs/collision/src/bvh.cpp:405-416 | one leaf changes, the tree stays valid with exact boxes; an index out of range changes nothing |
| Bvh.Tlas2.RefitFromLeaf | libs/collision/src/bvh.cpp:348-362 | recomputing the path from a leaf to the root makes every box exact again |
| Bvh.Tlas2.CollectAncestors | libs/collision/src/bvh.cpp:329-340 | all inner nodes are collected, ordered by their smallest leaf and then bottom-up |
| Bvh.Tlas2.Refit | libs/collision/src/bvh.cpp:391-403 | all leaves take their new states and each node gets the box described by the specification of the refit; a wrong count changes nothing |
| RefitSpec.RefitIsExactIff | libs/collision/src/bvh.cpp:342-345 | the refit makes all boxes exact iff each first-reached child's old box, merged with its sibling's new one, already is the parent's new box |
| RefitQueries.CompleteIffCovering | libs/collision/src/broad_phase.cpp:310-328 | on any tree all queries are complete iff every box covers the leaves below it |
| RefitQueries.RefitScansIff | libs/collision/src/bvh.cpp:316-346 | after a refit all queries answer like linear scans iff every node whose first-reached child was recomputed too late contains that child's leaves all the same |
| RefitSpec.RefitLosesMovedLeaves | libs/collision/src/bvh.cpp:342-345 | two moved leaves of four after which a query at their place does not get past the root |
| LosingRefit.FourLeavesAreBuilt | libs/collision/src/bvh.cpp:274-302 | the build over four leaves with distinct centres can yield no other tree than that one |
| LosingRefit.RefitThenQuery | libs/collision/src/bvh.cpp:391-403 | building, moving, refitting and querying in place finds nothing where a scan finds the moved leaf |
| RefitSpec.ExactIsStable | libs/collision/src/bvh.cpp:316-346 | boxes that fit the leaves stay as they are |
| BroadPhaseSpec.RunsAreCoherent | libs/collision/src/broad_phase.cpp:99-176 | in every run states mirror instances, each known id points at its last instance, lookups are in range, a clean dynamic tree holds the current leaves, and the static tree holds the instances of its last build |
| BroadPhaseSpec.CleanQueryIsScan | libs/collision/src/broad_phase.cpp:178-194 | a clean index answers like a scan of its dynamic instances iff all are valid or nothing is to be found |
| BroadPhaseSpec.MovesAreSeen | libs/collision/src/broad_phase.cpp:132-168 | after any run that leaves the index clean, a query finds every valid instance where it was moved to |
| BroadPhaseSpec.BuiltQueryIsScan | libs/collision/src/broad_phase.cpp:104-109 | right after a build of valid instances both trees answer like scans |
| BroadPhaseRuns.StaticQueryIsScanIff | libs/collision/src/broad_phase.cpp:183-187 | in every run a static query answers like a scan of all static instances iff nothing added since the last build is to be found, and that build was of valid instances or none of them is to be found |
| BroadPhaseSpec.AddedIsInvisible | libs/collision/src/broad_phase.cpp:246-295 | adding an instance changes no query's answer |
| BroadPhaseRuns.AddedIsInvisibleUntilBuild | libs/collision/src/broad_phase.cpp:277-292 | whatever happens in between, the answers stay as they were before the addition until the next build of the instance's tree |
| BroadPhaseRuns.DirtyIsFrozen | libs/collision/src/broad_phase.cpp:165-167 | the leaves of a dirty dynamic tree stay as they are until it is built, whatever moves |
| BroadPhaseRuns.InvalidHidesAll | libs/collision/src/bvh.cpp:194-216 | with one invalid instance a clean index finds no dynamic instance |
| BroadPhaseRuns.InvertedHeightHidesNeighbour | libs/config/src/parsing.cpp:1980-1981 | a run with a part whose heights are exchanged, next to which a valid instance is not found |
| BroadPhaseSpec.MoveMovesOne | libs/collision/src/broad_phase.cpp:132-168 | a move places the last instance with the id anew and touches no other; an unknown id touches nothing |
| BroadPhaseSpec.TreeOfMoved | libs/collision/src/broad_phase.cpp:163-167 | updating one leaf of the tree gives the tree a rebuild would give |
| BroadPhaseSpec.RefitIsIdle | libs/collision/src/broad_phase.cpp:170-176 | a refit of a coherent index changes nothing |
| BroadPhaseSpec.PlacedIsLeast | libs/collision/src/broad_phase.cpp:372-403 | a box contains a model's bounds iff it contains every part's box |
| BroadPhaseSpec.HeightIgnoresPose | libs/collision/src/broad_phase.cpp:388-400 | the height range, and with it validity, does not depend on the pose |
| BroadPhaseSpec.PlacedBoundsCorners | libs/collision/src/broad_phase.cpp:372-403 | a box contains a model's bounds iff it has the four corners of every part's local box, carried by the part's and the model's pose |
| BroadPhaseSpec.HeightIsLeast | libs/collision/src/broad_phase.cpp:388-400 | the height range is the least one that spans the ranges of all parts |
| BroadPhaseSpec.PlacedWithoutParts | libs/collision/src/broad_phase.cpp:377-381 | a model without parts is a point at its pose, of no height |
| BroadPhaseSpec.PlacedIsValidIff | libs/collision/src/bvh.cpp:206-215 | a placed model counts as valid iff it has no parts or some part starts no higher than some part ends |
| BroadPhaseHistory.InstancesAreTracked | libs/collision/src/broad_phase.cpp:132-295 | after any run the instances of either kind are those that were added, in order, each with its parts and id and with the bounds of the pose it was given last |
| BroadPhaseHistory.QueriesFindTracked | libs/collision/src/broad_phase.cpp:132-194 | once the dynamic tree is built and no dynamic instance was added since, a query of valid instances answers with exactly those whose bounds at the pose given last intersect it |
| BroadPhaseHistory.DirtyIffAwaitsBuild | libs/collision/src/broad_phase.cpp:120-130 | after any run the index is dirty iff a dynamic instance was added since the last build of the dynamic tree, or that was never built |
| BroadPhaseHistory.NextIdIsLeast | libs/collision/src/broad_phase.cpp:249 | after any run the next entity id is the least one above every added id, where the largest id wraps around to zero |
| BroadPhaseSpec.TransformIsLeast | libs/core/include/core/geom/aabb.hpp:74-92 | a box contains a moved box iff it contains its four moved corners |
| BroadPhaseSpec.NamesFindTheLastAdded | libs/collision/src/broad_phase.cpp:211-226 | after any run a name finds the static, or else the dynamic, entity added last under it |
| BroadPhases.Create | libs/collision/src/broad_phase.cpp:88-97 | construction succeeds iff every instance has a model and at most 32 category names occur, and then all instances are added and the masks are faithful |
| BroadPhases.BroadPhase.AddInstance | libs/collision/src/broad_phase.cpp:246-295 | the instance, its state, its lookups and the dirty flag are recorded; a missing model is an error that only advances the id counter |
| BroadPhases.BroadPhase.ComputeBounds | libs/collision/src/broad_phase.cpp:372-403 | the loop computes the bounds described by the specification, a point for a model without parts |
| BroadPhases.BroadPhase.BuildTrees | libs/collision/src/broad_phase.cpp:104-109 | both trees are built and the index is clean |
| BroadPhases.BroadPhase.RebuildStaticTree | libs/collision/src/broad_phase.cpp:111-118 | only the static tree changes |
| BroadPhases.BroadPhase.RebuildDynamicTree | libs/collision/src/broad_phase.cpp:120-130 | the dynamic tree and the states are rebuilt and the index is clean |
| BroadPhases.BroadPhase.SynchronizeDynamicStates | libs/collision/src/broad_phase.cpp:238-244 | the states mirror the instances entry by entry |
| BroadPhases.BroadPhase.UpdateDynamics | libs/collision/src/broad_phase.cpp:132-168 | instance, state and, on a clean index, the leaf move together |
| BroadPhases.BroadPhase.RefitDynamics | libs/collision/src/broad_phase.cpp:170-176 | the index stays valid and unchanged |
| BroadPhases.BroadPhase.QueryEntityIds | libs/collision/src/broad_phase.cpp:178-194 | the ids are, as a multiset, those of scans over the leaves of the trees asked for |
| BroadPhases.BroadPhase.EntityId | libs/collision/src/broad_phase.cpp:211-226 | static names win over dynamic ones, unknown names find nothing |
| Masks.BuildCollisionMasks | libs/collision/src/broad_phase.cpp:331-370 | fails iff more than 32 distinct names occur; otherwise mask i meets category j iff filter i lists j's category, and categories share a bit iff they are equal |
| Masks.EncodingIsFaithful | libs/collision/src/broad_phase.cpp:357-368 | masks built from any one-to-one numbering answer exactly what the filters say |
| Masks.BitsAreABijection | libs/collision/src/broad_phase.cpp:337-355 | the first pass numbers the distinct names one to one and without gaps |
| Masks.BitsFollowFirstMention | libs/collision/src/broad_phase.cpp:340-355 | later filters renumber nothing, and a name first mentioned by a later filter has a larger number |
| Masks.NumberNames | libs/collision/src/broad_phase.cpp:340-355 | the loops number names in order of first mention and give up exactly past 32 names |
| Masks.EncodeAll | libs/collision/src/broad_phase.cpp:357-368 | the second pass encodes each filter with its category's bit and the union of the listed names' bits |
| Windows.SequenceWindows | apps/learner/tools/bc_pretrain.py:123-155 | no window for an empty sequence, the whole of a short one, and else one window of the given length per start position, observations and actions alike |
| Windows.StartsCount | apps/learner/tools/bc_pretrain.py:141-144 | there are ceil((total - length) / stride) + 1 windows |
| Windows.StartsClimb | apps/learner/tools/bc_pretrain.py:141-144 | starts run from 0 to total - length, strictly upwards, never more than a stride apart |
| Windows.CoverageIff | apps/learner/tools/bc_pretrain.py:141-154 | every index lies in a window iff the stride or the last start does not exceed the length |
| Windows.MultiplicityIsBounded | apps/learner/tools/bc_pretrain.py:141-154 | no index lies in more than ceil(length / stride) + 1 windows |
| Windows.Range | apps/learner/tools/bc_pretrain.py:142 | the range's elements are the multiples of the stride up to the last start |
| ExpandEnv.ExpandEnvironment | apps/worker/src/config.cpp:230-254 | the scanner's output is the segment-wise rendering of its input |
| ExpandEnv.ParseKeepsAll | apps/worker/src/config.cpp:230-254 | the segments of an input spell the input |
| ExpandEnv.ParseIsCanonical | apps/worker/src/config.cpp:235-239 | keys hold no closing brace and no opened placeholder is left as text |
| ExpandEnv.CanonicalIsParse | apps/worker/src/config.cpp:235-239 | there is no other reading with these two properties |
| ExpandEnv.ExpandPlaceholder | apps/worker/src/config.cpp:238-247 | a placeholder becomes its value, or stays when unset or empty, and what replaces it is never looked at again |
| ExpandEnv.ValueOfName | apps/worker/src/config.cpp:239-246 | a set name gives its value, also when a NUL and anything after it follows in the key; any other key gives its placeholder back |
| ExpandEnv.NothingSet | apps/worker/src/config.cpp:243-245 | with nothing set every input stays as it is |
| Idempotence.IdempotentIff | apps/worker/src/config.cpp:230-254 | expanding twice is expanding once for all inputs iff every value is harmless: on its own, after a dollar sign and before a brace it holds only inert placeholders and no opening that some name extends |
| Idempotence.HarmlessIsIdempotent | apps/worker/src/config.cpp:230-254 | harmless values suffice, whatever the names |
| Idempotence.HarmfulBreaks | apps/worker/src/config.cpp:239-242 | for every value that is not harmless there is an input that changes when expanded again |
| Idempotence.CleanIsIdempotent | apps/worker/src/config.cpp:239-242 | non-empty values without dollar signs and opening braces make expansion idempotent |
| Idempotence.BracelessIdempotentIff | apps/worker/src/config.cpp:239-242 | if no value holds an opening brace, expansion is idempotent iff no value is empty or ends with a dollar sign |
| Idempotence.OpenBraceIsHarmlessIff | apps/worker/src/config.cpp:235-239 | a value that starts with a brace nothing closes is harmless iff what follows the brace is the start of no name |
| Idempotence.BracePairIsHarmlessIff | apps/worker/src/config.cpp:235-239 | a value in braces is harmless iff the name between them is unset or its value quotes it; a pair of braces alone always is |

## Left out

- Message fields that no modelled decision reads: version, capabilities, metrics, models, status detail, directive text, heartbeat interval; and the logs.
- gRPC, channels, reconnect pauses, clocks and token generation: times, tokens and network answers are parameters. Token distinctness is not needed by the session result.
- Worker and learner records are values in sequences in insertion order, not shared objects; a heartbeat stream refers to its worker by position, which never changes because workers are never removed.
- Two live heartbeat streams for one worker, and a re-registration that lands on another worker's record.
- RegistryProperties.IdentityIsStable: speaks of runs whose hellos carry two equal, non-empty identity labels, as the worker's client sends them.
- Delivery.StreamsDeliver: says nothing about directives that died with a stream, because the code does not deliver them; the exact loss is in Delivery.BreakIsHarmlessIff.
- SimulatorTrace.StepsAreFed: assumes models of the configured width and a publisher, as FragmentsCarryTheirState does.
- RecurrentState.FragmentsCarryTheirState: assumes models of the configured width and a publisher; without a publisher snapshots are discarded.
- BroadPhaseHistory.QueriesFindTracked: speaks of valid instances; BroadPhaseRuns.InvalidHidesAll says what happens otherwise.
- Draining of the publisher queue at shutdown: the thread may end with rollouts queued, so nothing is claimed.
- Rollout metadata (policy version, expert flag, return, timestamp), the snapshot's shape field and the statistics of the stream client.
- Observations, actions and log-probabilities are opaque numbers; sampling, the expert controller, the encoder and inference are inputs.
- Rounding: coordinates, rewards and recurrent states are reals. Pose composition and point transformation are arbitrary functions.
- The 32-bit width of node indices, leaf indices and directive counters, which needs more than two billion entries to matter; the wrap-around of the next entity id is modelled.
- The rebuild checks for a missing model or BLAS: instances only enter the index with both.
- Bvh.NthElement: its caller relies only on the library's contract, a permutation split around a position; the sorting that provides it here is not the library's algorithm.
- The bottom-level BVH, ray queries, narrow-phase intersection, the operating system's environment block (a map from names to values here) and YAML parsing.
- Loading of rollout files, dataset splitting, losses, training, dashboards and launch scripts.
- Idempotence.IdempotentIff: assumes that no name that a placeholder can spell holds a placeholder opening itself; without that, a value may start a name that no input can complete. Names and values are C strings and no name is empty, as the environment guarantees.
- RefitQueries.RefitScansIff: assumes boxes that are not inverted, as the rebuild demands of them.
