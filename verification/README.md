# Beskar7 provisioning: a verified model

Beskar7 provisions bare-metal hosts through their BMCs (the management controllers reached over
Redfish). This project models the two concurrent protocols at its core and proves what they keep in
every run, together with the two string formats and the hardware check they rest on.

**The provisioning queue** (`internal/coordination/provisioning_queue.go`) is a mutex-guarded
scheduler: a bounded FIFO queue, a map of hosts being processed, a cooldown per BMC, permits,
workers, cancellation and a one-slot result channel per request.

- `QueueModel.dfy`: the guarded fields and what each lock-held block does to them.
- `ProvisioningQueue.dfy`: the queue as an object changed in place; each method is proved to do
  what `QueueModel` says. Clock readings are parameters.
- `QueueRuns.dfy`: steps, runs and the invariant. A run is any interleaving of callers and workers
  under a clock that never goes back; a scan reads the clock once per queue entry.
- `QueueAnswers.dfy`: what each call answers and leaves behind, from the fields before it alone.
- `QueueSafety.dfy`: conservation, order, cooldown, result slot, cancellation, shutdown.
- `QueueWaiting.dfy`: bounded waiting. `QueueOccupancy.dfy`: when a BMC or a host has one operation
  at a time. `QueueCapacity.dfy`: what the limit on the processing map says about the operations.

**The claim / inspect / validate protocol** is run on PhysicalHosts by the machine reconciler, the
host reconciler and the HTTP inspection handler.

- `HostModel.dfy`: the stored objects, the store, and what each controller decides from its copies.
  `Update` takes spec and metadata, `Status().Update` the whole status, each only if the copy's
  version is current; machines are patched without a version.
- `Controllers.dfy`: the controllers as imperative passes, each proved to make one step of the
  protocol (the deletion pass: up to two).
- `HostRuns.dfy`: steps and runs. A copy may be any value ever stored. Proves that every step acts
  on the stored host as if it read and wrote it at one instant.
- `HostHistories.dfy`: the history of a single host. `HostTheorems.dfy`: the theorems about hosts in
  runs. `HostMachines.dfy`: those about machines, their ProviderIDs and their copies.
  `HostRequirements.dfy`: those about the requirements of stored machines.
- `HostAnswers.dfy`: what each pass of a controller leaves in the store, from its copies alone.
- `HostExample.dfy`: runs that reach Ready, and runs that break what one might expect.

**Supporting parts**: `ProviderIds.dfy`, `Hardware.dfy` (report conversion and hardware check, with
64-bit totals), `Endpoints.dfy` (the cluster webhook and its hostname recogniser), `Sequences.dfy`,
`Clock.dfy`.

`dafny verify dfyconfig.toml` verifies everything.

## What the model takes as given

- A request's identity, a pointer in the program, is its number in submission order. Its ID string
  is built from a clock reading and may repeat, so nothing relies on it being unique.
- Every call to a BMC, a secret or the API server may fail or succeed at any time.
- A permit belongs to the caller that was let in. A release names a host and a BMC and checks nothing;
  it ends an operation of its caller on that host, whatever BMC it names, if the caller has one.
- Users create, edit (the connection) and delete hosts, clear their ConsumerRef and strip their
  finalizer (`docs/state-management.md`, lines 203 and 215), create machines, edit their ProviderID and
  requirements and delete them. A name may be used again once its object is gone
  (`docs/troubleshooting.md`, line 551, advises it); the server gives every machine a UID of its own.
- `fmt.Sscanf` on a DIMM capacity and `net.ParseIP` are arbitrary functions. A `char` is a byte.

## Where code and documentation differ, or a promise does not hold as stated

- The comment on AcquireBMCPermit says that other acquires for a host being processed wait. The code
  lets every caller in (lines 89-93): `TwoCallersOneHost`. So the limit is on the processing map, not
  on the operations: `OperationsAccount` keeps the account of the difference over every run,
  `LimitExceededExactly` says when the limit is exceeded, `LimitCanBeExceeded` shows three operations
  under a limit of two. `CarefulIsExact` says which calls keep one operation per host.
- ReleaseBMCPermit checks nothing (lines 119-125). A release by a caller that holds no permit frees
  the entry of another's operation, and after the cooldown a second operation joins it on the same
  host and BMC: `ForeignRelease`.
- A request in flight can be reported absent by CancelRequest and GetRequestStatus, once another on
  its host has finished: `LostInFlight`. With one operation per host it is found: `InFlightIsFound`.
- The cooldown runs from completions and releases, not from starts, so it does not keep two operations
  on one BMC apart: `BothStarted`. `GentleIsExact` and `GentleRunsExactly` say exactly when they stay
  apart, `ConsiderateCallersSuffice` what callers can do.
- A request can be overtaken by a later one on its own BMC, because the clock is read again for each
  entry. `StandingRisesExactly` says exactly when, `OvertakingHappens` shows it.
- CancelRequest with an empty ID panics exactly when a permit is recorded: `CancelPanicsExactly`; it
  happens in `CancelCanPanic`.
- The machine document says that the controller sets providerID (`docs/beskar7machine.md`, line 38).
  It only rewrites one that already names a host (`AssociationStable`), and the steps after the claim
  are reached only through such a one: `NoInspectionWithoutProviderID`.
- A pass acts on the host its machine's ProviderID names and does not compare the machine with
  ConsumerRef, and the handler takes reports in every state. `ReadyForAnother` is a run in which a
  host becomes Ready with a report that fails its consumer's requirements, `UnvalidatedReport` one in
  which a Ready host takes a report that nobody validated. What a Ready host does guarantee is
  `ReadyNeedsFreshEvidence`; `ReadyForConsumerExactly` says when it was validated for its consumer.
- Requirements raised after the validation are not looked at again: `RaisedRequirements` is a run in
  which a Ready host's report fails the requirements of the live consumer that validated it.
  `ReadyForStoredConsumer` says when it passes them, `NoHarderPasses` and `HarderFails` which changes
  are harmless.
- The ProviderID patch carries neither version nor UID, and a release compares names only, in any
  namespace. A late pass can write a predecessor's ProviderID (`ForeignPatch`); the deletion of a
  namesake can release a live machine's host (`StolenByPredecessor`, `StolenFromAbroad`); a late pass
  can undo a user's edit of the ProviderID (`EditOverwritten`).
  `HeedsExactly` and `StolenReleaseExactly` say exactly which steps do so, `OwnCopiesHeed`,
  `FreshNamesSuffice` and `RightfulRelease` what rules it out.
- Hardware totals wrap around at 64 bits. Overflow refuses hosts that meet their requirements
  (`OverflowRefuses`), and underflow admits hosts that do not: negative sizes are accepted, and disks
  of -2^63 and -1 gigabytes pass a minimum of one (`UnderflowAdmits`). `PassingMeansMeeting` and
  `MeetingMeansPassing` say exactly when.

## Model

| member | source | states |
|---|---|---|
| ProvisioningQueues.ProvisioningQueue.constructor | internal/coordination/provisioning_queue.go:63-74 | a new queue is empty, with the given limits and a cooldown of 10^10 nanoseconds |
| ProvisioningQueues.ProvisioningQueue.TryAcquireBMCPermit | internal/coordination/provisioning_queue.go:86-106 | one pass of the permit loop: re-entry exactly if the host is being processed, a grant exactly if it is not, a slot is free and the BMC has rested; only a grant records the host, with an entry that has no ID and no cancel function |
| ProvisioningQueues.ProvisioningQueue.ReleaseBMCPermit | internal/coordination/provisioning_queue.go:119-125 | frees the host's entry and stamps the BMC, nothing else |
| ProvisioningQueues.ProvisioningQueue.SubmitRequest | internal/coordination/provisioning_queue.go:145-185 | queue full exactly if it holds its maximum; host busy exactly if there is room and the host is being processed, returning its entry; accepted exactly otherwise, queued last with the fields of the call and the ID host-operation-nanoseconds |
| ProvisioningQueues.ProvisioningQueue.GetQueueStatus | internal/coordination/provisioning_queue.go:188-192 | reports the sizes of queue and processing map |
| QueueModel.Scan | internal/coordination/provisioning_queue.go:230-237 | the scan stops at the first entry not cooling at its own reading: all before it cool, it does not |
| ProvisioningQueues.ProvisioningQueue.FirstEligible | internal/coordination/provisioning_queue.go:230-237 | the loop stops at the first entry whose BMC has rested at its own reading |
| ProvisioningQueues.ProvisioningQueue.GetNextRequest | internal/coordination/provisioning_queue.go:221-249 | none exactly if the slots are full or no entry's BMC has rested; else the first such entry moves from the queue to the map and is stamped |
| ProvisioningQueues.ProvisioningQueue.StartAt | internal/coordination/provisioning_queue.go:239-241 | removes one queue entry in place, order kept, and records it under its host, over any earlier entry |
| ProvisioningQueues.ProvisioningQueue.FinishRequest | internal/coordination/provisioning_queue.go:286-296 | stamps the BMC, frees the host's entry, marks the request completed, and changes no other field |
| QueueModel.FirstWithId | internal/coordination/provisioning_queue.go:378-384 | the first queue entry with an ID |
| ProvisioningQueues.ProvisioningQueue.CancelRequest | internal/coordination/provisioning_queue.go:373-395 | removes exactly the first queued entry with the ID (a nil cancel function is a panic); without one the queue stays, and the answer is absent exactly if no entry of the map has the ID |
| ProvisioningQueues.ProvisioningQueue.GetRequestStatus | internal/coordination/provisioning_queue.go:398-417 | queued, processing or not found, the queue taking precedence |
| QueueRuns.StepKeeps | internal/coordination/provisioning_queue.go:80-395 | every step keeps submission order, the partition of requests, single custody, cancellability and both limits |
| QueueRuns.InvHolds | internal/coordination/provisioning_queue.go:80-395 | that invariant at every point of every run |
| QueueAnswers.AcquireAnswers | internal/coordination/provisioning_queue.go:86-106 | in every run a caller is let in exactly if the host is being processed, or a slot is free and the BMC was stamped never or ten seconds ago; what is recorded then |
| QueueAnswers.EndingAnswers | internal/coordination/provisioning_queue.go:119-296 | in every run a release or a completion frees the host's entry, stamps the BMC, and that is all |
| QueueAnswers.HandOverAnswers | internal/coordination/provisioning_queue.go:286-310 | in every run a result sent fills the request's slot, and the worker is idle again whether or not it was |
| QueueAnswers.SubmitAnswers | internal/coordination/provisioning_queue.go:149-174 | in every run a request is accepted exactly if the queue has room and its host is not in the map, and is then last in the queue with the fields of the call |
| QueueAnswers.OnlySubmitAccepts | internal/coordination/provisioning_queue.go:149-174 | the number of accepted requests rises exactly at such submissions, by one |
| QueueAnswers.DecimalSpells | internal/coordination/provisioning_queue.go:163 | the time can be read off the ID |
| QueueAnswers.TakeAnswers | internal/coordination/provisioning_queue.go:221-249 | in every run, with a free slot, a worker gets the first queued request whose BMC has rested at its own reading, which moves from queue to map; else nothing changes |
| QueueAnswers.CancelAnswers | internal/coordination/provisioning_queue.go:378-384 | in every run, cancelling the ID of a queued request removes the first that has it and records that one as cancelled |
| QueueAnswers.CancelElsewhere | internal/coordination/provisioning_queue.go:386-395 | cancelling another ID changes nothing, and reports it absent exactly if no entry of the map has it |
| QueueAnswers.OnlyCancelCancels | internal/coordination/provisioning_queue.go:378-384 | every request recorded as cancelled was the first in the queue with the ID given |
| QueueSafety.Conservation | internal/coordination/provisioning_queue.go:174-291 | every accepted request is at every point in exactly one of queue, one worker, cancelled, completed |
| QueueSafety.NothingComesBack | internal/coordination/provisioning_queue.go:239-384 | a request that left the queue never returns; cancelled and completed are final |
| QueueSafety.NotStartedTwice | internal/coordination/provisioning_queue.go:213-245 | two starts in a run are of different requests |
| QueueSafety.QueueIsSubsequence | internal/coordination/provisioning_queue.go:162-184 | the queue is a subsequence of the accepted requests in submission order; queued and held requests are unaltered |
| QueueSafety.ServiceOrder | internal/coordination/provisioning_queue.go:225-248 | an earlier request is passed over only if cooling when this scan looked at it; nothing starts exactly if slots are full or all were cooling |
| QueueSafety.LastIsLatestStamp | internal/coordination/provisioning_queue.go:119-291 | the recorded time of a BMC is its latest release or completion |
| QueueSafety.CooldownRespected | internal/coordination/provisioning_queue.go:95-291 | every grant on a BMC, to permit or worker, is 10^10 nanoseconds or more after every earlier stamp on it |
| QueueSafety.ResultSlotNeverBlocks | internal/coordination/provisioning_queue.go:299-306 | the branch for a blocked result channel is unreachable, and sending is always possible |
| QueueSafety.CancelPanicsExactly | internal/coordination/provisioning_queue.go:373-392 | a missing cancel function is called exactly for the empty ID while a permit is recorded; never for another ID |
| QueueSafety.CancelCanPanic | internal/coordination/provisioning_queue.go:99-392 | a run in which a permit is held and cancelling the empty ID calls the missing function |
| QueueSafety.LimitsHold | internal/coordination/provisioning_queue.go:96-241 | queue and processing map never exceed their limits |
| QueueSafety.StopIsFinal | internal/coordination/provisioning_queue.go:128-218 | from Stop's return up to any point before another Start, the last state included: all workers have exited, nothing was started or completed, every request is queued, cancelled or completed |
| QueueWaiting.WaitingAccount | internal/coordination/provisioning_queue.go:164-291 | over any stretch of any run: standing before a request + completions on its BMC + cancellations ahead = standing at the start + starts not ahead of it |
| QueueWaiting.OvertakingNeedsExpiry | internal/coordination/provisioning_queue.go:231-246 | a waiting request is overtaken on its BMC only by a scan during which that cooldown runs out |
| QueueWaiting.BoundedWaiting | internal/coordination/provisioning_queue.go:221-291 | without such scans, a BMC is stamped while a request waits at most as often as requests stood before it, plus permit releases on it |
| QueueWaiting.OneReadingSuffices | internal/coordination/provisioning_queue.go:231-236 | a scan with a single clock reading is never such a scan |
| QueueWaiting.StandingRisesExactly | internal/coordination/provisioning_queue.go:231-246 | the count before a waiting request rises exactly when a scan passes over it to a later request on its BMC |
| QueueWaiting.OvertakingHappens | internal/coordination/provisioning_queue.go:231-246 | a run in which it does |
| QueueOccupancy.SingleExactly | internal/coordination/provisioning_queue.go:80-291 | from a state with one operation per BMC (or per host), over the callers let in and the workers, a step leads to another exactly if it begins none where one is under way |
| QueueOccupancy.GentleIsExact | internal/coordination/provisioning_queue.go:86-245 | for BMCs, the same as a condition on queue, readings and clock before the call |
| QueueOccupancy.GentleRunsExactly | internal/coordination/provisioning_queue.go:86-291 | a run keeps one operation per BMC throughout exactly if all its steps are gentle |
| QueueOccupancy.ConsiderateCallersSuffice | internal/coordination/provisioning_queue.go:86-291 | callers that submit or ask for a permit only on a BMC without queued request and without operation under way keep one operation per BMC, whoever releases |
| QueueCapacity.StepDrift | internal/coordination/provisioning_queue.go:86-291 | what each step adds to the operations that the processing map does not count, a release by a caller without permit included |
| QueueCapacity.OperationsAccount | internal/coordination/provisioning_queue.go:86-291 | at every point of every run: operations under way + endings that found no entry = entries of the map + re-entries + starts on a host being processed + releases by callers without a permit that free another's entry |
| QueueCapacity.LimitExceededExactly | internal/coordination/provisioning_queue.go:86-291 | the operations exceed the limit exactly when the uncounted ones outnumber the free slots of the map |
| QueueCapacity.CarefulIsExact | internal/coordination/provisioning_queue.go:89-291 | from a state in which the map is exactly the operations under way, one per host, entries included, a step leads to another exactly if it re-enters no host, is no release of a host being processed by a caller without permit for it, and no request that the readings would start is on a host being processed |
| QueueCapacity.MapCountsOperations | internal/coordination/provisioning_queue.go:96-290 | with one operation per host, the size of the processing map is the number of operations under way |
| QueueCapacity.CarefulRunsExactly | internal/coordination/provisioning_queue.go:89-291 | a run keeps the map exact and one operation per host throughout exactly if all its steps are careful |
| QueueCapacity.OperationsWithinLimit | internal/coordination/provisioning_queue.go:95-241 | in a run of careful steps the map counts the operations under way, which never exceed the limit |
| QueueCapacity.InFlightIsFound | internal/coordination/provisioning_queue.go:373-417 | with one operation per host, a request in flight is found by cancellation and status query |
| QueueCapacity.PoliteCallersSuffice | internal/coordination/provisioning_queue.go:89-184 | callers with no second operation on a host that release only hosts they hold a permit for keep the map exact and the operations within the limit |
| QueueCapacity.TwoCallersOneHost | internal/coordination/provisioning_queue.go:89-93 | a run in which two callers are let in on one host under a limit of one |
| QueueCapacity.ForeignRelease | internal/coordination/provisioning_queue.go:119-125 | a run in which a caller without permit releases, and two callers are at work on one host and BMC under a limit of one |
| QueueCapacity.BothStarted | internal/coordination/provisioning_queue.go:230-245 | a run with two requests in flight on one host and one BMC, and one entry in the map |
| QueueCapacity.LimitCanBeExceeded | internal/coordination/provisioning_queue.go:155-241 | a run with three operations under a limit of two |
| QueueCapacity.LostInFlight | internal/coordination/provisioning_queue.go:286-392 | a run in which a request in flight is reported absent |
| Controllers.ApiServer.UpdateHost | controllers/beskar7machine_controller.go:437-460 | a spec write goes through exactly if the copy's version is current, and leaves the status alone |
| Controllers.ApiServer.UpdateHostStatus | api/v1beta1/physicalhost_types.go:328-334 | a status write replaces the whole status and nothing else, exactly if the copy's version is current |
| Controllers.ApiServer.Patch | controllers/beskar7machine_controller.go:121-138 | the deferred patch sets the fields that the pass changed in the stored machine, whatever its version |
| Controllers.ReconcileMachine | controllers/beskar7machine_controller.go:150-188 | a pass adds the finalizer, or acts on the host its ProviderID names, or claims: one step each |
| Controllers.HandlePhysicalHostState | controllers/beskar7machine_controller.go:191-227 | what a pass does by the state of the host copy |
| Controllers.TriggerInspection | controllers/beskar7machine_controller.go:230-277 | if the BMC answers, writes Inspecting, Booting and the time in whole seconds |
| Controllers.MonitorInspection | controllers/beskar7machine_controller.go:280-377 | times the inspection out, or writes Ready if a complete report passes, or leaves the host |
| Controllers.ClaimFirstAvailable | controllers/beskar7machine_controller.go:419-445 | claims the first listed host that is Available without consumer |
| HostRuns.FirstClaimable | controllers/beskar7machine_controller.go:425-443 | which host that is |
| Controllers.ReconcileMachineDelete | controllers/beskar7machine_controller.go:449-476 | releases the named host if its consumer has the machine's name; lets the machine go unless that write is refused |
| Controllers.ReconcileHost | controllers/physicalhost_controller.go:82-114 | drops or adds the finalizer, or observes the host: one step each |
| Controllers.StatusAfter | controllers/physicalhost_controller.go:117-226 | the status that a pass assigns, for each way the BMC answers |
| Controllers.UpdatePhysicalHost | controllers/inspection_handler.go:126-204 | stores the converted report and phase Complete in one status write, or fails |
| HostRuns.VersionedHolds | controllers/beskar7machine_controller.go:437-460 | versions identify what was stored, in every run |
| HostRuns.CurrentIsStored | controllers/beskar7machine_controller.go:437-460 | a copy of any age whose version is current is the stored host |
| HostRuns.StepIsAtomic | controllers/beskar7machine_controller.go:230-460 | every write attempt, however stale its copy, changes nothing or edits the one host as if read and written at one instant, with its guard true then |
| HostAnswers.NamedExactly | controllers/beskar7machine_controller.go:506-522 | a ProviderID names a host exactly if, behind any five bytes, it is the host's namespace, not empty and without slash, a slash and its name; a pass asks for the machine's own namespace too |
| HostAnswers.InspectingPass | controllers/beskar7machine_controller.go:280-374 | in every run, what a pass over a host under inspection writes: more than 6*10^11 nanoseconds after the start Error, phase Timeout and the message; in time and with a complete report that passes Ready and the condition; else nothing |
| HostAnswers.InspectionSettles | controllers/beskar7machine_controller.go:280-374 | so on a current copy the host is Error after the pass exactly if too late, Ready exactly if in time, complete and passing, Inspecting exactly otherwise |
| HostAnswers.InUsePass | controllers/beskar7machine_controller.go:230-277 | in every run a pass over a claimed host starts an inspection exactly if the BMC answers, stamped in whole seconds |
| HostAnswers.ReadyPass | controllers/beskar7machine_controller.go:380-390 | in every run a pass over a Ready host leaves the hosts and writes b7://namespace/name into the stored machine unless the copy has it |
| HostAnswers.IdlePass | controllers/beskar7machine_controller.go:208-227 | in every other state a pass changes nothing |
| HostAnswers.ClaimAnswers | controllers/beskar7machine_controller.go:425-443 | in every run a claim gives the first listed host that is Available without consumer the machine's kind, API version, name, namespace and UID, if its copy is current, and changes no other host; without such a host, or on a stale copy, nothing changes |
| HostAnswers.ReleaseAnswers | controllers/beskar7machine_controller.go:456-460 | in every run a release on a current copy clears the consumer and nothing else |
| HostAnswers.MachineFinalizerAnswers | controllers/beskar7machine_controller.go:154-474 | in every run the finalizer of a machine is added unless it is being deleted, or dropped, with the machine if it is being deleted |
| HostAnswers.ObserveAnswers | controllers/physicalhost_controller.go:117-300 | in every run, what an observation writes on a current copy: details, power, addresses, state, ready flag, conditions and the message of each failure |
| HostAnswers.HostFinalizerAnswers | controllers/physicalhost_controller.go:103-256 | in every run a host's finalizer is added, or dropped and the host with it |
| HostAnswers.PostAnswers | controllers/inspection_handler.go:126-204 | in every run a posted request is stored field by field on a current copy, stamped in whole seconds, and completes the inspection |
| HostHistories.RunIsHistory | controllers/physicalhost_controller.go:82-260 | every run is, for every host, a history of such edits |
| HostHistories.StatusCoherent | controllers/physicalhost_controller.go:124-300 | the message is set exactly in Error; working states are ready; an inspection has a start time; a complete one has a report |
| HostHistories.ObservationSettles | controllers/physicalhost_controller.go:117-232 | a host reconciler pass ends in Error exactly on failure, in Available exactly if unclaimed, keeps a claim at work, and never touches the inspection |
| HostHistories.FreshEvidence | controllers/beskar7machine_controller.go:262-374 | a Ready host has been so since a validation that rests on a trigger and on the latest report of the same inspection, made in time |
| HostHistories.ReportKept | controllers/inspection_handler.go:195-199 | a stored report stays until the next one |
| HostHistories.ReportIsLatest | controllers/inspection_handler.go:195-199 | a stored report is the one most recently stored |
| HostHistories.ConsumerChanges | controllers/beskar7machine_controller.go:425-463 | a consumer is set only by a claim of an available host without one and dropped only by a release in its name or by hand |
| HostHistories.ClaimKept | controllers/beskar7machine_controller.go:425-463 | a claim stays until released in its name or by hand |
| HostHistories.ConsumerWhileReady | controllers/beskar7machine_controller.go:262-463 | while a host is Ready it keeps its consumer exactly if none is released, and never gets another |
| HostTheorems.ReadyNeedsFreshEvidence | controllers/beskar7machine_controller.go:191-374 | whenever a host is Ready: triggered from InUse, then a posted report, then within ten minutes of the trigger a validation of that latest report against its machine's requirements, Inspecting throughout, Ready since; and the posted request met the requirements exactly unless a total asked for underflows |
| HostTheorems.EvidenceAfterSetback | controllers/physicalhost_controller.go:120-226 | after Error, Available or absence, the whole sequence has happened again before Ready |
| HostTheorems.ReadyForConsumerExactly | controllers/beskar7machine_controller.go:191-463 | a Ready host's consumer is its validator and its report the validated one exactly if the validator was its consumer then and no release and no report was committed since; the report is the validated one exactly if none was committed since, and then passes the validator's requirements |
| HostTheorems.CopiesWereStored | controllers/physicalhost_controller.go:86-95 | every copy a controller can hold was stored at an earlier point of the run |
| HostTheorems.CopiesAreCoherent | controllers/beskar7machine_controller.go:298-317 | stale copies are coherent too, so the retry for a missing report is unreachable |
| HostTheorems.NoStolenClaim | controllers/beskar7machine_controller.go:425-463 | in every run a consumer changes only by a claim from none, or to none by hand or by a pass on a copy, being deleted, of a machine of its name |
| HostTheorems.NoLostClaim | controllers/beskar7machine_controller.go:425-463 | no finalizer write, status write or rival claim drops or replaces a committed claim |
| HostTheorems.NoLostReport | controllers/inspection_handler.go:195-201 | a report committed by the handler stays stored, field by field, through concurrent writes of the whole status until the next |
| HostTheorems.StoredReportWasPosted | controllers/inspection_handler.go:142-201 | a stored report says, field by field, what the most recently committed request says |
| HostTheorems.ClaimsBalance | controllers/beskar7machine_controller.go:427-460 | claimed hosts = claims + hosts created claimed - releases - removals of claimed hosts, at every point |
| HostMachines.HeedsExactly | controllers/beskar7machine_controller.go:384-417 | a step keeps the host that a stored machine names exactly if it is no edit to another and no patch from a copy that names another; but for edits the ProviderID then changes at most to the canonical string |
| HostMachines.AssociationStable | controllers/beskar7machine_controller.go:384-417 | as long as a machine stays, the host its ProviderID names stays the same exactly if every step heeds it |
| HostMachines.ProviderIDStable | controllers/beskar7machine_controller.go:384-417 | then, without edits, the string changes at most to its canonical form, and one that names no host of its namespace never |
| HostMachines.OwnCopiesHeed | controllers/beskar7machine_controller.go:121-188 | if passes act on copies of the stored machines and edits keep the host named, every step heeds every machine |
| HostMachines.FreshNamesSuffice | controllers/beskar7machine_controller.go:121-188 | if no machine name is used again, passes act on such copies |
| HostMachines.RightfulRelease | controllers/beskar7machine_controller.go:449-463 | a release on a copy with the stored machine's UID finds it being deleted; one on a copy with the consumer's UID never drops a live machine's claim |
| HostMachines.StolenReleaseExactly | controllers/beskar7machine_controller.go:449-463 | a step drops a live machine's claim exactly if done by hand, or by a committed release on a copy with another UID |
| HostMachines.NoInspectionWithoutProviderID | controllers/beskar7machine_controller.go:169-187 | if no machine is created with or edited to a ProviderID naming a host of its namespace, no host is ever Inspecting or Ready |
| HostRequirements.StoredThroughout | controllers/beskar7machine_controller.go:121-138 | a machine once known and stored later has been stored in between |
| HostRequirements.RequirementsAreLastSet | api/v1beta1/beskar7machine_types.go:41-68 | the requirements of a machine that stays are those last set by a user |
| HostRequirements.ReadyForStoredConsumer | controllers/beskar7machine_controller.go:280-374 | while a host is Ready and its validator still stored: the report passes the stored requirements exactly if the report last committed passes those last set; it does if no report was committed since the validation and those last set are no harder than the validator's; and the stored validator is the consumer exactly if it was at the validation and no release was committed since |
| HostRequirements.NoEditsNoChange | controllers/beskar7machine_controller.go:280-374 | without edits since the validator's copy was stored they are the copy's |
| HostExample.ReadyForAnother | controllers/beskar7machine_controller.go:191-206 | a run of claim, trigger, report and validation to Ready, in which another machine than the consumer has the host validated |
| HostExample.UnvalidatedReport | controllers/inspection_handler.go:126-204 | a run in which a host validated by its consumer takes a further report, stays Ready, and its report fails |
| HostExample.RaisedRequirements | controllers/beskar7machine_controller.go:280-374 | a run in which a Ready host's report fails the requirements of the live consumer that validated it, raised since |
| HostExample.StolenByPredecessor | controllers/beskar7machine_controller.go:449-463 | a run in which a late deletion pass of a machine releases the host of the live machine re-created under its name |
| HostExample.StolenFromAbroad | controllers/beskar7machine_controller.go:449-463 | a run in which the deletion of a machine releases the host of a live namesake in another namespace |
| HostExample.ForeignPatch | controllers/beskar7machine_controller.go:384-417 | a run in which a late pass writes a predecessor's ProviderID into the machine re-created under its name |
| HostExample.EditOverwritten | controllers/beskar7machine_controller.go:384-417 | a run in which a late pass undoes a user's edit of the ProviderID |
| ProviderIds.ParseProviderId | controllers/beskar7machine_controller.go:506-522 | the loop computes the parse, failing on short input, no slash or an empty namespace |
| ProviderIds.ParseExactly | controllers/beskar7machine_controller.go:506-522 | what parses to a namespace and a name: any five bytes, the namespace, not empty and without slash, a slash, the name |
| ProviderIds.ParseUndoesPrint | controllers/beskar7machine_controller.go:502-522 | printing gives b7://namespace/name, and parsing undoes it exactly for non-empty namespaces without slash |
| ProviderIds.PrintAfterParse | controllers/beskar7machine_controller.go:502-522 | printing a parse replaces the first five bytes by b7://, and parses the same |
| Hardware.Convert | controllers/inspection_handler.go:141-193 | the report has the posted scalar fields, and each list the posted length with every field of every entry, in order |
| Hardware.ConvertedExactly | controllers/inspection_handler.go:141-193 | the converted report is the only one with that time that says what was posted |
| Hardware.WrapExactly | controllers/beskar7machine_controller.go:323-358 | totals are reduced modulo 2^64 into the signed range |
| Hardware.TotalsCount | controllers/beskar7machine_controller.go:323-358 | totals count the cores of every CPU, the size of every disk and the capacities that can be read, the others not at all |
| Hardware.CheckReport | controllers/beskar7machine_controller.go:319-366 | the loops compute the verdict on 64-bit totals, unparsable capacities left out |
| Hardware.VerdictExactly | controllers/beskar7machine_controller.go:319-366 | the first total below its positive minimum, in the order cores, memory, disk, is the failure reported, with that total |
| Hardware.VerdictThroughConversion | controllers/beskar7machine_controller.go:319-364 | a converted report passes exactly if each positive minimum is at most the sum over the posted components, when the sums fit; for all requests the two differ exactly where an underflow passes or an overflow is refused |
| Hardware.VerdictOnWrappedTotals | controllers/beskar7machine_controller.go:323-363 | for all posted requests, the same with wrapped sums |
| Hardware.PassingMeansMeeting | controllers/beskar7machine_controller.go:319-366 | a passed report was posted by a request that meets the requirements exactly unless a total asked for is below the 64-bit range |
| Hardware.MeetingMeansPassing | controllers/beskar7machine_controller.go:319-366 | a request that meets the requirements passes exactly unless a total above the 64-bit range wraps below its minimum |
| Hardware.OverflowRefuses | controllers/beskar7machine_controller.go:353-362 | a request that meets its requirements and is refused |
| Hardware.UnderflowAdmits | controllers/beskar7machine_controller.go:353-362 | a request that does not meet its requirements and passes |
| Hardware.NoHarderPasses | controllers/beskar7machine_controller.go:319-366 | a report that passes requirements passes those that are no harder |
| Hardware.HarderFails | controllers/beskar7machine_controller.go:319-366 | for any that are harder in some minimum there is a request that passes the former and fails these |
| Hardware.OrderIrrelevant | controllers/beskar7machine_controller.go:323-363 | the order of components does not change the verdict |
| Hardware.SumThroughConversion | controllers/inspection_handler.go:151-182 | a total over converted components is the total over the posted ones |
| Endpoints.SplitAgrees | api/v1beta1/webhooks/beskar7cluster_webhook.go:175-183 | checking every piece between dots recognises exactly the grammar, whatever the length |
| Endpoints.HostnameAgrees | api/v1beta1/webhooks/beskar7cluster_webhook.go:164-184 | the recogniser accepts exactly the grammar, up to 253 characters |
| Endpoints.LabelAgrees | api/v1beta1/webhooks/beskar7cluster_webhook.go:187-198 | the label scan accepts exactly the label grammar, up to 63 characters |
| Endpoints.DoubleDotRedundant | api/v1beta1/webhooks/beskar7cluster_webhook.go:170-173 | the test for two dots in a row never decides anything |
| Endpoints.ValidateControlPlaneEndpoint | api/v1beta1/webhooks/beskar7cluster_webhook.go:94-162 | which of the four errors is reported, each exactly when it applies |
| Endpoints.Cluster.Validate | api/v1beta1/webhooks/beskar7cluster_webhook.go:72-92 | no error exactly if the endpoint is unset or has a valid host and a port in 1..65535 |
| Endpoints.Cluster.Default | api/v1beta1/webhooks/beskar7cluster_webhook.go:200-207 | a host without a port gets 6443 |
| Endpoints.Admit | api/v1beta1/webhooks/beskar7cluster_webhook.go:37-70 | defaulting then validation admits exactly unset endpoints and valid hosts with port 0..65535, and leaves them unset or complete |

## Left out

- AcquireBMCPermit's waiting between attempts, the worker's ticker and WaitForResult: an attempt, a tick or a receive is a step that may happen at any time.
- A request's Error field, its context deadline and the simulated operations: constant results and sleeps; a context may be done at any time.
- Calling Stop twice, which panics on the closed channel.
- Machine status (ready, phase, addresses, conditions) and pausing: set without a decision that feeds back into the protocol.
- Finalizers other than the controllers' own, and user edits that set a ConsumerRef on an existing host (clearing it is modelled).
- The escapes of Go's quoted strings in error messages and the text of durations; only the literal parts are modelled.
- HTTP serving, JSON decoding, Redfish, logging, events and metrics: input and output.
- controllers/beskar7cluster_controller.go, internal/security, internal/redfish: label collection, scans and library wrappers, which would only add easy members.
