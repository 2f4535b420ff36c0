# Liftr control plane: model and proofs

Liftr admits desired state for resources, drives one Operation per resource through its
phases, interprets uncertain evidence from provisioning backends, and gates work on a graph
of references between resources. This project models that logic in Dafny and proves what
every run of it keeps. `dafny verify dfyconfig.toml` checks the whole project.

## What is modelled

- **Domain and lifecycle.** `Domain` holds the values (resources, operations, conditions,
  statuses) and the transition functions; `Entities` holds the same entities as objects that
  change in place, proved against those functions, and `DomainRules` says exactly what constructors and
  transitions accept. `Lifecycle` is the stateless engine;
  `LifecycleRuns` plays it in any order and proves the status and the latest operation always
  agree; `StatusStory` proves what every condition then says about that operation, and `EngineRules`
  when each call is accepted. `OperationRuns` and `Drive` follow one operation through its phases.
- **References and the graph.** `References` is the canonical form, the shape check, the
  difference and the wait count; `Graph` is the bounded depth-first search, once as a function
  and once as an object that mutates a visited set and a budget. `Ordering` is the shared
  notion of sorting.
- **Evidence.** `Submission` interprets what a backend says, `SubmissionCode` is the same as the
  source's step-by-step code, `SubmissionRuns` plays one execution under any order of claims,
  losses, submissions and observations. `Readings` gives every outcome and every written field as a
  condition on the report, and says when acceptance is confirmed; `Acceptance` says when it is taken
  back. `Finishing` turns terminal evidence into a lifecycle outcome and models the check every
  later reader makes of it; `EvidenceMeaning` says exactly what that check accepts.
- **Outputs.** `Outputs` is the output contract, the canonical snapshot and the plan that a
  terminal success follows; `OutputMeaning` states them by the values denoted.
- **The machine.** `Store` is the set of records with its invariant (`Rows` and `Cells` hold its
  parts). `Admission` (specification) and `AdmissionCode` (the service, statement by statement) admit
  creates, updates, deletes and retries; `AdmissionRules` proves exactly when each is admitted,
  `AdmissionRefusals` what each refusal stands for, `AdmissionWrites` what is then written, and `GenerationRaces` what optimistic concurrency is worth
  over runs. `Convergence` and `ConvergenceCode` are the worker's steps, which `StepMeaning` and
  `WorkMeaning` characterize in the same way; `Dependencies` is the readiness gate and `GateDecisions`
  what it does to operations. `Defences` is about records of any kind, where the checks against corruption
  matter. `ControlPlane` plays all of them in any order, with
  every request the HTTP boundary lets through and any evidence at all; `Protection`,
  `DeleteRetry` and `Keys` prove what those runs keep, and `Quotas` what they keep when creates are
  judged by the policy on counts of the very records they join. Each store transaction is one
  atomic step, and a refused one changes nothing.
- **The machine with real evidence.** `EvidenceRuns` lets only the worker's own readings of a backend
  into the records; `Testimony` shows one reading at a time that what is written supports its
  outcome, and `GateRefusal` is a run of ten such deeds from the empty records.
- **Operators.** `Recovery` is the planner, `Operator` the audited mutation, `OperatorCode` the
  same as code, `OperatorRuns` every sequence of operator calls and worker activity, and
  `RecoveryMeaning` every assessment and admission as a condition on the rows.
- **Policy, fingerprints, keys.** `Policy` compiles, plans and decides, and `PolicyMeaning` reads the
  verdicts rule by rule; `Framing` and `Fingerprint` are the injective encodings; `KeyCache` is the
  rate-limited verification key cache, and `KeyRotation` follows a withdrawn key through it.

Instants are natural numbers with 0 as the unset time. A SHA-256 digest is any function with
64-character results; claims about fingerprints assume it does not collide on the texts at hand.
Condition and event reasons are a datatype of codes rather than strings, and a spec is its
canonical text. What a call cannot compute for itself is an input of the step: authorization
answers, spec validation and transition rules, the policy verdict (which `Quotas` computes), the
chosen provisioner, fresh identities, clock readings and everything a backend reports.

## Where the code and its expectations part

Each of these is proved, with the exact condition or a concrete input.

- **A retried delete skips the inbound check.** An ordinary delete is refused while any desired
  or applied reference points at the resource; the retry of a failed delete is not
  (`internal/application/application.go:909-1042`). So a referenced resource can be in deletion:
  `Protection.StepProtects` shows that this is the only step that causes it, and
  `DeleteRetry.ReferencedTargetIsDeletedAgain` reaches it in six steps from the empty records.
- **A later waiting target hides an earlier failed or invalid one.** `Dependencies.WaitHidesBroken` is
  such a pair; `Dependencies.GravestWinsExactly` says when the gravest class decides.
- **A slot's minimum rejects nothing.** Cardinality is checked only for slots that occur:
  `References.RequiredSlotMayBeEmpty` is an accepted source without its required reference, and
  `References.MinimaMetExactly` says which edges do meet the minima.
- **The writer and the reader of failure evidence normalize differently.** They agree exactly on
  failures with a supported kind and a reason that is not blank
  (`Finishing.SubmissionEvidenceIsAccepted`, `Finishing.ObservationEvidenceIsAccepted`).
- **The worker finishes a submission at the evidence time even if the record keeps a later one.**
  `FinishFacts.SubmittedOutcomeMeetsEvidence` says exactly when the reader's equal-times demand
  still holds.
- **An operation that its dependency gate fails cannot be replayed.** It carries no backend
  evidence, so its idempotency key answers with an error. `EvidenceRuns.EveryKeyReplays` states
  over all runs which keys replay, and `GateRefusal.GateFailsForGood` reaches the error from the
  empty records.
- **Observing a Failed resource as ready changes how a later failed delete ends.**
  `LifecycleRuns.ObservedFailureIsRevived`.
- **A rejection takes a confirmed acceptance back.** `Acceptance.ObservationTakesBackExactly` and
  `Acceptance.SubmissionTakesBackExactly` say which readings do, `Acceptance.AcceptanceSurvivesExactly`
  which runs meet one, and `Acceptance.AcceptanceIsTakenBack` is such a run.
- **Edge keys collide.** Two edges share a key exactly when one slot name, cut at a NUL, reads as the
  other edge (`References.KeysCollideExactly`), and contracts accept slot names with a NUL. An update
  can then carry a new edge in disguise, which neither the target check nor the cycle search sees:
  `References.DifferenceIsCompleteExactly` says when, and `Disguise.DisguisedUpdateBreaksRows` is an
  admitted update whose row names a resource that does not exist. The HTTP boundary refuses targets
  with a NUL, which rules it out for every contract (`ControlPlane.TransportForbidsDisguise`).
- **The dependency condition is written without a look at the status time.** In every reachable
  state the drive step writes it at a time the status allows (`Cells.WaitingCell`,
  `ConvergenceFacts.DriveKeepsInvariant`).
- **Two policy selectors share a key.** An owner of kind `type` without a type, and a type of version
  `type` without an owner (`Policy.SelectorKeyDecides`).

## Model

| member | source | states |
|---|---|---|
| Entities.BuildResourceStatus | internal/domain/status.go:107-144 | the one-pass constructor accepts exactly the statuses with unique, valid conditions that observe nothing newer than the status, and returns them unchanged |
| Entities.LiveOperation.AdvancePhase | internal/domain/operation.go:216-234 | in place, the operation becomes what the transition function computes or stays untouched with its error |
| Entities.LiveOperation.Complete | internal/domain/operation.go:263-271 | the shared terminal write, refused for a time before the request or the last phase change |
| Entities.LiveOperation.Succeed | internal/domain/operation.go:236-244 | success only from Running in the capability's final phase |
| Entities.LiveOperation.Fail | internal/domain/operation.go:246-254 | failure from Pending or Running, with a reason that is not blank |
| Entities.LiveOperation.Cancel | internal/domain/operation.go:256-261 | cancellation from Pending or Running |
| Entities.LiveResource.UpdateSpec | internal/domain/resource.go:121-136 | the generation grows by one with the new spec, or nothing changes at the 64-bit bound or for an old time |
| OperationRuns.EveryRunIsOrderedAndPersistent | internal/domain/operation.go:77-120 | after any transitions the set times are in order, a terminal operation never changes again, and restoring the snapshot gives the operation back |
| OperationRuns.RestoreKeepsSnapshot | internal/domain/operation.go:77-120 | an accepted snapshot is restored without adding or losing a field; its times are in order exactly when the start precedes the phase change, which restoring does not check |
| DomainRules.TransitionExactly | internal/domain/operation.go:211-271 | for any operation, sound or not: a transition is illegal iff state and phase do not allow it, malformed iff its time or reason is, and otherwise changes exactly the fields it owns |
| DomainRules.OperationMadeExactly | internal/domain/operation.go:140-181 | an operation is made iff its names, generation and time are set and it retries no one but another |
| DomainRules.StatusMadeExactly | internal/domain/status.go:107-144 | a status is made iff its state is known and it has at most one complete condition of each kind, none newer than itself |
| DomainRules.RestoredExactly | internal/domain/operation.go:77-138 | a snapshot is restored, field by field, iff its state, phase, times and failure fit together |
| Lifecycle.Upsert | internal/lifecycle/engine.go:471-485 | replacing a condition sets exactly its kind, keeps kinds unique, and keeps the rest well formed |
| StatusStory.RequestWrites | internal/lifecycle/engine.go:53-151 | every condition after a request: reconciling for it, not reconciled, no failure, Deleted false for creates and deletes, Ready preserved for updates and deletes and cleared for creates, the others untouched |
| StatusStory.CompleteWrites | internal/lifecycle/engine.go:190-260 | every condition after success: no failure, not reconciling, reconciled unless a newer generation waits, Ready unless it was a delete, Deleted by what it was |
| StatusStory.FailWrites | internal/lifecycle/engine.go:262-335 | every condition after failure: OperationFailed true with its reason and message, neither reconciling nor reconciled, Ready what it was unless it was a create |
| StatusStory.EveryRunTells | internal/lifecycle/engine.go:53-346 | over every run OperationFailed is true iff the latest operation failed, and then carries its own reason, message, generation and time; Deleted is true and the resource deleted iff the latest operation is a succeeded delete; Reconciling is true iff an operation is in progress; each condition tells how far the operation got and why |
| StatusStory.StepsWriteOnce | internal/lifecycle/observation.go:24-98 | DependenciesReady is what was last written there and Drifted what was last reported, true for drift and false for none; no other call touches them |
| StatusStory.StepsDecideReady | internal/lifecycle/engine.go:53-335 | every change of the Ready condition: taken away by creating and deleting, decided by success and reports, held on to by a request on a Ready resource |
| StatusStory.RequestIsTold | internal/lifecycle/engine.go:138-151 | the audit event of a request names the resource, operation and target generation, and says what was asked, whether again, and when |
| StatusStory.TransitionIsTold | internal/lifecycle/engine.go:153-335 | so does the event of every phase change, success and failure, with the phase, capability or failure reason and its time |
| EngineRules.RequestAcceptedExactly | internal/lifecycle/engine.go:389-422 | in a coherent state a request is accepted iff the capability is supported, nothing is in progress, the state allows it, names and time are set and nothing recorded is later |
| EngineRules.RequestStartsOperation | internal/lifecycle/engine.go:53-151 | it starts a pending operation at the current generation, or repeats the failed one at its own, and moves the state to Pending, Deleting or Ready |
| EngineRules.AdvanceAcceptedExactly | internal/lifecycle/engine.go:153-188 | a phase change is accepted iff it is the one that follows for the capability, in time |
| EngineRules.CompleteAcceptedExactly | internal/lifecycle/engine.go:190-260 | success is accepted iff the operation runs in its final phase, in time, and leaves Deleted for a delete and Ready otherwise |
| EngineRules.FailAcceptedExactly | internal/lifecycle/engine.go:262-335 | failure is accepted iff the operation is in progress, in time, with a reason |
| EngineRules.ObserveAcceptedExactly | internal/lifecycle/observation.go:24-74 | facts are accepted iff they are well formed, in time, and nothing is in progress; only passive ones move the state, between Ready and Unknown |
| EngineRules.RequestRefused | internal/lifecycle/engine.go:53-151 | every refusal of a request in a coherent state names its cause, and none is of the built status |
| EngineRules.MoveRefused | internal/lifecycle/engine.go:153-335 | so does every refusal of a phase change, success or failure |
| EngineRules.ForeignRequestRefused | internal/lifecycle/engine.go:348-461 | records that do not belong together, in type, resource, generation or the work in progress, refuse every request |
| EngineRules.ForeignMoveRefused | internal/lifecycle/engine.go:364-387 | and every phase change, success and failure |
| LifecycleRuns.RequestKeepsCoherent | internal/lifecycle/engine.go:53-151 | a request keeps status and operation in agreement and the status constructor never refuses what it builds |
| LifecycleRuns.AdvanceKeepsCoherent | internal/lifecycle/engine.go:153-188 | the same for a phase change |
| LifecycleRuns.CompleteKeepsCoherent | internal/lifecycle/engine.go:190-260 | the same for success |
| LifecycleRuns.FailKeepsCoherent | internal/lifecycle/engine.go:262-335 | the same for failure |
| LifecycleRuns.ObserveKeepsCoherent | internal/lifecycle/observation.go:24-74 | the same for passive and for accompanying facts |
| LifecycleRuns.DependencyKeepsCoherent | internal/lifecycle/engine.go:340-346 | the same for the dependency condition, written at or after the status time |
| LifecycleRuns.StepMovesGenerationForward | internal/lifecycle/engine.go:348-387 | no call lowers the observed generation or lifts it above the desired one |
| LifecycleRuns.EveryRunIsCoherent | internal/lifecycle/engine.go:424-461 | over every run, refused calls included, the strengthened invariant holds and the observed generation only grows |
| LifecycleRuns.EveryRunAgrees | internal/lifecycle/engine.go:449-461 | from a new resource, the operation is in progress iff Reconciling is true iff the status says so, with the same capability and generation; condition kinds are unique; the status constructor rejects nothing |
| LifecycleRuns.FailedDeleteRestores | internal/lifecycle/engine.go:296-305 | a failed delete ends Ready when requested from Ready or with a true Ready condition, and Failed otherwise, whatever came between |
| LifecycleRuns.ObservedFailureIsRevived | internal/lifecycle/observation.go:34-48 | a Failed resource observed as ready stays Failed, yet its next failed delete ends Ready |
| Drive.RequestAdmits | internal/lifecycle/engine.go:53-151 | every accepted request leaves an operation the drive loop can start with |
| Drive.RunDrive | internal/application/application.go:1094-1153 | the loop never fails and reaches Applying in three phase changes or Destroying in two, at strictly growing consecutive instants |
| Drive.WaitKeepsSchedule | internal/worker/drive.go:19-142 | waiting for dependencies any number of times does not disturb those instants |
| Graph.CycleSearch.Walk | internal/application/references.go:295-339 | the recursive search that mutates a visited set and a budget computes the specification's verdict and state |
| Graph.CycleSearch.WalkAll | internal/application/references.go:295-339 | the same over all candidate targets |
| Graph.VerdictMeaning | internal/application/references.go:295-339 | safe means no candidate reaches the source, a cycle is real, and the limit is reported only for a walk of over 32 nodes or over 4096 nodes to look at |
| Graph.VerdictDecidesWithinBounds | internal/application/references.go:295-339 | within those bounds the verdict decides reachability either way |
| Graph.RewriteKeepsAcyclic | internal/application/application.go:1946-1959 | replacing one node's targets keeps the graph acyclic when only the added targets were proved safe |
| Graph.SearchIsBounded | internal/application/references.go:295-339 | the search enters at most 4096 nodes, whatever the graph |
| References.CanonicalizeReferences | internal/application/references.go:74-116 | accepts exactly duplicate-free submissions of at most 32 pairs and returns their one sorted list |
| References.SamePairsSameList | internal/application/references.go:74-116 | two canonical lists are equal iff the submissions denote the same slot-to-target pairs |
| References.CanonicalIsUnique | internal/application/references.go:74-116 | there is one strictly sorted list for each set of edges |
| References.ValidateReferenceShape | internal/application/references.go:121-166 | accepts exactly declared slots, no self reference and counts within the maxima; minima reject nothing |
| References.ShapeAcceptedExactly | internal/application/references.go:121-166 | edges have an acceptable shape iff none leads to its source and each slot they use is declared with room for the set of its targets |
| References.MinimaMetExactly | internal/application/references.go:121-166 | edges meet every minimum iff each slot of minimum one occurs among them, which the check does not ask |
| References.RequiredSlotMayBeEmpty | internal/application/references.go:121-166 | a source without its required reference is accepted |
| References.ReferenceDifference | internal/application/references.go:183-197 | added and removed edges, in order, compared by key as the source does, for any slot names |
| References.DifferenceRebuilds | internal/application/references.go:183-197 | removing the removed and adding the added edges gives the new set |
| References.KeysCollideExactly | internal/application/references.go:199-207 | two edges share a key iff they are the same pair or one slot name, cut at a NUL, reads as the other edge |
| References.EdgeKeyIsInjective | internal/application/references.go:199-207 | keys identify slot and target when the targets hold no NUL, whatever the slots, and when the slots hold none |
| References.EdgeKeyCollides | internal/application/references.go:199-207 | two different edges with one key when a slot name holds a NUL |
| References.DifferenceIsCompleteExactly | internal/application/references.go:183-207 | the difference finds every new edge iff none has the key of another stored edge |
| References.CleanEdgesNeverDisguise | internal/application/references.go:183-207 | targets without NUL, or slots without one, leave no new edge unseen |
| References.DisguisedReplacement | internal/application/references.go:183-207 | a replacement whose only edge is new and yet taken for known |
| References.EdgesEqual | internal/application/references.go:210-221 | true iff as many edges and the key of each of the second occurs in the first |
| References.EqualMeansSamePairs | internal/application/references.go:210-221 | on sets without repetition both hold the same pairs iff they compare equal and no edge is in disguise |
| References.DistinctEdgeTargets | internal/application/references.go:342-354 | the sorted duplicate-free targets |
| References.CountDependencyWaitsForTarget | internal/application/references.go:417-431 | paging by 256 counts every row that names the target exactly once |
| SubmissionCode.InterpretSubmission | internal/application/submission.go:92-181 | the field-by-field code computes the specified records, outcome and finish |
| SubmissionCode.InterpretObservation | internal/application/submission.go:187-261 | the same for observations, errors included |
| SubmissionCode.AcceptProviderEvidence | internal/application/submission.go:311-318 | the backend clock only moves forward |
| SubmissionCode.ExecutionFailureFrom | internal/application/submission.go:344-358 | the writer's failure normalization |
| SubmissionRuns.SubmissionEffects | internal/application/submission.go:92-181 | a submission opens no attempt, finishes iff it settles the execution, and succeeds only on correlated success or on a never-accepted delete proved absent |
| SubmissionRuns.ObservationEffects | internal/application/submission.go:187-261 | an observation opens exactly one attempt, only on Retry and only while unaccepted, and succeeds only on correlated success |
| SubmissionRuns.EveryRun | internal/application/submission.go:92-261 | up to the first finish the attempt number counts the retries exactly, the backend clock never goes back, and an execution is settled iff it finished |
| SubmissionRuns.NoResubmissionAfterAcceptance | internal/application/submission.go:92-261 | once accepted, the backend is never asked again and no attempt is opened, whatever happens |
| SubmissionRuns.SuccessNeedsCorrelation | internal/application/submission.go:81-261 | a run that ends in success saw correlated success, or is a delete accepted in none of its states whose target is conclusively absent |
| Acceptance.ObservationTakesBackExactly | internal/application/submission.go:187-261 | an observation takes a confirmed acceptance back iff it is fresh and correlates negatively with a failed execution, and then finishes as failed |
| Acceptance.SubmissionTakesBackExactly | internal/application/submission.go:92-181 | a submission result does iff it is fresh, failed with a failure, and correlated as not found |
| Acceptance.AcceptanceSurvivesExactly | internal/application/submission.go:92-261 | acceptance survives a run iff no such reading is met before the finish |
| Acceptance.AcceptanceIsTakenBack | internal/application/submission.go:209-218 | claimed, seen running, then observed as not found with a failure: acceptance is gone |
| Acceptance.EveryRunFromItsClaim | internal/application/submission.go:81-261 | from an unstarted attempt on, attempts count the retries, settled means finished, and success needs correlation or a never-accepted absence |
| Readings.SubmissionOutcomes | internal/application/submission.go:92-181 | each outcome of a submission as a condition on the report alone: accepted, succeeded, failed, and ambiguous otherwise |
| Readings.SubmissionStates | internal/application/submission.go:92-181 | the execution and attempt states each outcome leaves; the attempt is resolved unless it is ambiguous |
| Readings.SubmissionConfirmsExactly | internal/application/submission.go:133-159 | a submission confirms acceptance iff it is usable and correlated as found, whatever else it reports; it unconfirms it iff nothing was launched |
| Readings.SubmissionRecords | internal/application/submission.go:113-126 | what a usable report writes into the record: itself, the correlation, the handle and the two clocks |
| Readings.UnusableSubmissionRecordsNothing | internal/application/submission.go:92-112 | a stale or malformed report leaves all of them alone and says which it was |
| Readings.SubmissionFinishes | internal/application/submission.go:140-178 | the reason, message and facts a terminal submission finishes with |
| Readings.ObservationOutcomes | internal/application/submission.go:187-261 | which observations are contradictory, stale or malformed, and each outcome of the others, as conditions on the report and the stored clocks |
| Readings.ObservationStates | internal/application/submission.go:205-261 | the states each outcome leaves; only a loss of an unaccepted execution opens another attempt |
| Readings.ObservationConfirmsExactly | internal/application/submission.go:209-241 | an observation confirms acceptance iff it is readable and correlated as found |
| Readings.ObservationFinishes | internal/application/submission.go:209-258 | what a terminal observation finishes with, and that no other does |
| Readings.AcceptedExactly | internal/application/submission.go:92-261 | over any run acceptance stands at the end iff some usable report found the execution before the finish and no rejection was met |
| Readings.FoundIsNeverResubmitted | internal/application/submission.go:92-261 | after a usable report that found the execution, no submission and no attempt follows, whatever happens |
| Readings.DispatchExactly | internal/worker/drive.go:160-200 | claims, losses and expiries: only a pending attempt is claimed, only a dispatching one is given back, lost or expired |
| Readings.SubmissionFailures | internal/application/submission.go:92-181 | which failure a usable submission leaves in the execution and its attempt |
| Readings.ObservationFailures | internal/application/submission.go:187-261 | the same for a readable observation |
| Finishing.FinishNeverErrors | internal/application/submission.go:267-286 | finishing a coherent operation never errors; state and observed generation are the engine's own whatever the facts; the result is coherent |
| Finishing.NormalizersAgree | internal/application/application.go:2396-2411 | writer and reader normalize a failure alike iff it has a supported kind and a reason that is not blank |
| Finishing.SubmissionEvidenceIsAccepted | internal/application/application.go:2595-2659 | terminal records of a submission, finished at their observation time, pass the reader iff success or a documented failure; deletes completed by absence always pass |
| Finishing.ObservationEvidenceIsAccepted | internal/application/application.go:2595-2659 | the same for an observation |
| EvidenceMeaning.SuccessAcceptedExactly | internal/application/application.go:2595-2659 | evidence of a succeeded operation is accepted iff the newest report saw success, or absence of a never-accepted delete's target, at the very time the operation was completed |
| EvidenceMeaning.FailureAcceptedExactly | internal/application/application.go:2595-2659 | evidence of a failed one is accepted iff the report, the execution and the operation give one failure, or the outputs of a seen success were rejected |
| EvidenceMeaning.OpenAcceptedExactly | internal/application/application.go:2595-2659 | evidence about an operation in progress must also not be older than what is stored of its resource |
| EvidenceMeaning.NormalizedExactly | internal/application/application.go:2396-2411 | the reader's failure has a supported kind and a reason that says something, and is otherwise the backend's own |
| EvidenceMeaning.FinishAcceptedExactly | internal/application/submission.go:267-286 | a finish is accepted iff the operation is in progress, in its final phase for a success, with a reason for a failure, and nothing recorded is later |
| EvidenceMeaning.FinishTakesFacts | internal/application/submission.go:267-300 | the facts that come along decide drift and readiness, malformed ones nothing, and neither changes the outcome |
| FinishFacts.SubmittedOutcomeMeetsEvidence | internal/worker/executor.go:822-832 | the finish time equals the recorded observation time iff the evidence was not older than the record or was lifted |
| FinishFacts.ObservedOutcomeMeetsEvidence | internal/worker/executor.go:822-832 | for observations they are always equal |
| Testimony.SubmissionSupports | internal/worker/executor.go:325-378 | a documented submission result that is not older than the record supports the finish it leads to |
| Testimony.ObservationSupports | internal/worker/worker.go:89-210 | so does every documented observation |
| Outputs.NewOutputContract | internal/resourcecontract/contract.go:63-88 | accepts exactly non-empty lists of declarable fields with distinct names, and returns them sorted |
| Outputs.Validate | internal/resourcecontract/contract.go:111-137 | no violation iff every value fits; otherwise a true violation, types before undeclared names before missing fields |
| Outputs.NewResourceOutputs | internal/domain/outputs.go:28-47 | builds exactly the canonical snapshot |
| Outputs.CanonicalKeepsMeaning | internal/domain/outputs.go:53-98 | canonical form keeps the number and the type and is final |
| Outputs.SnapshotIsFinal | internal/domain/outputs.go:28-98 | a stored snapshot builds itself again |
| Outputs.PublishedMeetsContract | internal/application/outputs.go:150-203 | the canonicalized snapshot meets the contract the raw values were checked against, at the target generation, with the same numbers |
| Outputs.OnlyNumbersAreUnpublishable | internal/domain/outputs.go:53-98 | values that meet the contract fail to publish iff a declared number has no signed 64-bit or finite form |
| OutputMeaning.RangesAreWidths | internal/domain/outputs.go:53-98 | each integer kind holds the two's complement or natural numbers of its bits |
| OutputMeaning.CanonicalExactly | internal/domain/outputs.go:53-98 | a value has a canonical form iff it denotes a scalar, no whole number above 64 signed bits; the form denotes the same |
| OutputMeaning.CanonicalIsUnique | internal/domain/outputs.go:53-98 | two values have one canonical form iff they denote the same text, flag, whole number or fraction |
| OutputMeaning.TypesTake | internal/resourcecontract/contract.go:139-180 | which values each declared type takes, by what they denote |
| OutputMeaning.MeetsExactly | internal/resourcecontract/contract.go:111-137 | values meet a contract iff each is accounted for by a field that takes it and each required field has a value |
| OutputMeaning.SnapshotExactly | internal/domain/outputs.go:28-47 | a snapshot is built iff generation and time are set and every name and value is publishable; it denotes what they denote |
| OutputMeaning.PlanExactly | internal/application/outputs.go:150-203 | each decision about outputs as a condition on contract, capability and evidence: none, deferred, published, or rejected for which reason |
| Dependencies.FindReconciled | internal/application/dependencies.go:104-157 | the scan finds a true Reconciled condition of exactly the generation |
| Dependencies.ReadyMeansConverged | internal/application/dependencies.go:104-157 | in a reachable state a target is READY iff it is Ready, its latest operation is a succeeded create or update and no drift was seen since; its generation is then current and its required outputs published and valid |
| Dependencies.EvaluateTargets | internal/application/dependencies.go:44-98 | the loop computes the combined class and the targets that block |
| Dependencies.ReadyExactlyWhenAllAre | internal/application/dependencies.go:44-98 | READY iff every target is READY iff nothing blocks; what blocks is exactly what is not ready |
| Dependencies.LastWaitDecides | internal/application/dependencies.go:77-97 | otherwise the targets after the last waiting one decide, and without a failure among them the wait stands |
| Dependencies.GravestWinsExactly | internal/application/dependencies.go:77-97 | the gravest class is the answer iff it is no failure or one of its targets has no waiting target behind it |
| Dependencies.WaitHidesBroken | internal/application/dependencies.go:77-97 | a waiting target behind a broken one hides it; in front, it does not |
| Dependencies.GateAnswers | internal/application/dependencies.go:44-98 | in a reachable state the gate always answers, is skipped iff there are no desired rows, and passes iff every desired target is READY |
| Dependencies.ClassesInHistory | internal/application/dependencies.go:104-157 | in a reachable state a target is BROKEN iff its latest operation is a delete that goes on or succeeded, TERMINAL iff it is Failed with nothing in progress, and WAITING iff it is none of these and not READY |
| Dependencies.AnswerExactly | internal/application/dependencies.go:77-97 | each answer of the gate, by the targets no waiting one stands behind |
| GateDecisions.GateDecides | internal/worker/dependencies.go:27-104 | a driven operation at the gate passes, ends as DependencyInvalid or DependencyFailed, or waits unchanged, each iff its targets' classes say so, and its condition says which |
| GateDecisions.GateEndsOnlyOverHopeless | internal/worker/dependencies.go:64-103 | the gate ends an operation only over a target that is deleted, being deleted, or Failed with nothing in progress |
| Defences.RetryChecksProvenance | internal/application/application.go:943-1000 | for any records at all: a retry is only admitted of an execution that matches its operation and resource in every field |
| Defences.PersistChecksSource | internal/application/application.go:2073-2116 | a transition is persisted iff its identity is new and it retries nothing but a failed operation of its own resource, capability and target |
| Defences.ReplayChecksRecords | internal/application/application.go:2122-2160 | a key only ever answers with an operation whose records belong together |
| Defences.ClassifyExactly | internal/application/dependencies.go:104-157 | the class of any target, from its record, the work in progress and the published snapshot |
| Defences.GateExactly | internal/application/dependencies.go:44-98 | the gate of any resource is skipped without references and closed by an unknown type, a row of another generation or a missing target |
| Admission.ValidateReferenceTargets | internal/application/references.go:374-412 | accepts iff every added target exists, has the owner, an allowed type and an eligible state, and is readable |
| AdmissionCode.CheckAddedEdges | internal/application/application.go:1804-1815 | targets are validated, then the cycle search decides; preserved edges are not looked at |
| AdmissionCode.FindActive | internal/application/application.go:1903-1910 | finds the resource's one operation in progress, if any |
| AdmissionCode.Service.PersistCreate | internal/application/application.go:1732-1850 | the create transaction commits exactly what the specification says, or nothing, and keeps the invariant |
| AdmissionCode.Service.PersistExisting | internal/application/application.go:1859-2029 | the same for updates and deletes over any catalog; the invariant is kept unless an update carries an edge in disguise |
| AdmissionCode.Service.PersistRetry | internal/application/application.go:909-1042 | the same for retries |
| AdmissionCode.Service.Commit | internal/application/application.go:2073-2116 | the writes of one admitted transition; a taken identity discards them |
| AdmissionFacts.CreateKeepsInvariant | internal/application/application.go:1732-1850 | an admitted create keeps every record invariant; a replayed one changes nothing |
| AdmissionFacts.ExistingKeepsInvariant | internal/application/application.go:1859-2029 | the same for updates and deletes, with preserved references not rechecked, unless an update carries an edge in disguise |
| AdmissionFacts.RetryKeepsInvariant | internal/application/application.go:909-1042 | the same for retries, output recovery included |
| AdmissionRules.CreateAdmittedExactly | internal/application/application.go:1732-1850 | in a reachable state a create is admitted anew iff the caller is authorized, key and identities are free, type, spec and references are acceptable, the policy agrees and a provisioner is there |
| AdmissionRules.UpdateAdmittedExactly | internal/application/application.go:1859-2029 | an update is admitted anew iff it names the stored generation of a Ready resource at rest, authorized and under a free key, with a valid spec, acceptable references and the policy's consent |
| AdmissionRules.DeleteAdmittedExactly | internal/application/application.go:1859-2029 | a delete is admitted anew iff it names the stored generation of a Ready or Failed resource at rest that no desired or applied row names |
| AdmissionRules.RetryAdmittedExactly | internal/application/application.go:909-1042 | a retry is admitted anew iff it names the stored generation and the failed latest operation of a resource in a fitting state, whose outputs can be recovered if they were what failed |
| AdmissionRules.AddedEdgesAdmittedExactly | internal/application/references.go:374-412 | added edges pass iff every target exists, is readable, has the owner, a type its slot takes and a live state, and the search proves them safe |
| AdmissionRefusals.CreateRefused | internal/application/application.go:1732-1850 | every refusal of a create in a reachable state names its cause |
| AdmissionRefusals.ExistingRefused | internal/application/application.go:1859-2029 | so does every refusal of an update or delete; another generation is answered as a concurrency conflict |
| AdmissionRefusals.RetryRefused | internal/application/application.go:909-1042 | so does every refusal of a retry |
| AdmissionRefusals.KeyAnswersExactly | internal/application/application.go:2122-2160 | what a bound key answers in a reachable state: a conflict for another kind or fingerprint, a refusal iff evidence is asked for and rejected, its own operation otherwise |
| AdmissionWrites.CreateWrites | internal/application/application.go:1732-1850 | an admitted create adds the resource at generation one, its operation, an execution never asked, its rows and its key, and nothing else |
| AdmissionWrites.UpdateWrites | internal/application/application.go:1859-2029 | an admitted update writes its spec at the next generation and moves the rows, submitted or preserved, to it |
| AdmissionWrites.DeleteWrites | internal/application/application.go:1859-2029 | an admitted delete leaves the resource's intent and every row alone |
| AdmissionWrites.RetryWrites | internal/application/application.go:909-1042 | an admitted retry repeats the failed operation at its own generation; after rejected outputs its execution only recovers those of the last attempt |
| GenerationRaces.LaterNamesLater | internal/application/application.go:1897-1902 | over any run, once an update naming a generation is admitted, no later update, delete or retry naming it is admitted anew |
| Rows.RewriteStaysAcyclic | internal/application/application.go:1931-1961 | rewriting a source's rows keeps the desired graph acyclic once the search proved the added targets safe |
| Disguise.DisguisedUpdateBreaksRows | internal/application/application.go:1931-1961 | an update over two slots that share a key is admitted and leaves a row whose target does not exist |
| Store.ActiveIsLatest | internal/application/application.go:1903-1910 | a resource has at most one nonterminal operation, and it is the latest |
| Store.GenerationCountsUpdates | internal/lifecycle/engine.go:238-245 | the generation is one more than the admitted updates and equals the observed one; no operation in progress targets an older generation |
| ConvergenceCode.Worker.ClassifyTarget | internal/application/dependencies.go:104-157 | the classification of one target, branch by branch |
| ConvergenceCode.Worker.Evaluate | internal/application/dependencies.go:44-98 | the gate as the worker runs it gives the specified answer |
| ConvergenceCode.Worker.SettleBlock | internal/worker/dependencies.go:27-104 | a refusing gate writes its condition, and fails the operation unless the wait stands |
| ConvergenceCode.Worker.DriveOnce | internal/worker/drive.go:19-142 | one drive step commits exactly what the specification says, or nothing, and keeps the invariant |
| ConvergenceCode.Worker.FinishAsSucceeded | internal/worker/executor.go:703-783 | success writes status, snapshot, operation, execution and applied rows together, or nothing |
| ConvergenceCode.Worker.FinishOnce | internal/worker/executor.go:571-783 | terminal evidence fails, defers, rejects or completes the operation as specified and keeps the invariant |
| ConvergenceCode.Worker.ObserveOnce | internal/worker/executor.go:464-569 | passive facts are applied to a resource at rest, dropped when late, and keep the invariant |
| ConvergenceFacts.DriveKeepsInvariant | internal/worker/drive.go:19-142 | a drive step keeps every record invariant and touches one resource, whatever its gate said |
| FinishFacts.FinishKeepsInvariant | internal/worker/executor.go:571-783 | a terminal step keeps every record invariant; rows change only on success, released by a delete and applied by a create or update |
| FinishFacts.MissingOutputsDefer | internal/worker/executor.go:656-667 | without usable output evidence the operation stays in progress and only its execution changes |
| FinishFacts.InvalidOutputsFail | internal/worker/executor.go:669-698 | invalid outputs fail the operation while the attempt stays succeeded and no snapshot is stored |
| FinishFacts.SuccessStoresOutputs | internal/worker/executor.go:703-783 | an operation that must publish outputs becomes Succeeded only in the step that stores its own snapshot, of its target generation, meeting the contract |
| FinishFacts.SuccessIsNeverContradicted | internal/application/application.go:1668-1697 | in reachable states the row generation check and the snapshot conflict never fire |
| FinishFacts.PassiveKeepsInvariant | internal/worker/executor.go:464-569 | passive observation keeps every record invariant and neither starts nor ends a deletion |
| StepMeaning.DriveTakenExactly | internal/worker/drive.go:19-142 | a drive is taken iff the operation in progress has a phase to enter and its execution may enter it, whatever the gate says |
| StepMeaning.DriveWrites | internal/worker/drive.go:19-142 | away from the gate it is one phase change one instant later; a final phase opens the first attempt or asks for outputs to recover |
| StepMeaning.ObservationTakenExactly | internal/worker/executor.go:464-569 | a passive report is dropped iff it is late or an operation is in progress, and otherwise taken iff it reads; it writes readiness, drift and the state alone |
| StepMeaning.DriveRefused | internal/worker/drive.go:19-142 | every refusal to drive names its cause |
| WorkMeaning.FinishTakenExactly | internal/worker/executor.go:571-783 | terminal evidence is taken iff it concerns an operation in progress and its own intent, with a reason for a failure, and for a success with fitting outputs in the final phase, unless they are deferred or rejected |
| WorkMeaning.FailureWrites | internal/worker/executor.go:571-655 | a failure ends the operation with its reason, no earlier than anything stored, and leaves rows and outputs alone |
| WorkMeaning.SuccessWrites | internal/worker/executor.go:703-783 | a success ends the operation, makes its desired rows the applied ones or releases both for a delete, stores the snapshot and starts drift anew |
| WorkMeaning.RejectionWrites | internal/worker/executor.go:669-698 | rejected outputs fail the operation, keep the attempt succeeded and give the detail in both |
| WorkMeaning.DeferralWrites | internal/worker/executor.go:656-667 | missing outputs change only the execution: succeeded, pending, one more observation due |
| WorkMeaning.PublishExactly | internal/application/fake/store.go:294-316 | publishing keeps the snapshot of the higher generation and refuses only a different one of the same generation |
| WorkMeaning.EvidenceRefused | internal/worker/executor.go:571-783 | every refusal of evidence names its cause |
| Cells.FinishedCell | internal/lifecycle/engine.go:190-335 | a finish keeps the joint invariant of one resource's record, latest operation, drift history and outputs |
| Cells.WaitingCell | internal/worker/dependencies.go:27-62 | the unchecked dependency condition is written at a time that keeps that invariant |
| ControlPlane.TransportForbidsDisguise | internal/api/http/resources.go:426-438 | an update that came over HTTP carries no edge in disguise, whatever slots its contract declares |
| ControlPlane.EveryRunKeepsInvariant | internal/application/application.go:1668-2029 | every run of admissions the HTTP boundary lets through and worker steps with any evidence, in any order, keeps all record invariants |
| ControlPlane.ReachableRowsAreSound | internal/application/application.go:1888-2024 | from the empty records the desired graph stays acyclic, desired rows carry their source's generation, rows join same-owner resources of undeleted sources, and no corruption check fires |
| ControlPlane.GenerationsCountUpdates | internal/application/application.go:1859-2029 | over any run a resource's generation is one more than its admitted, not replayed updates, is the observed one, and at most one operation is in progress, at that generation |
| Protection.ExistingProtects | internal/application/application.go:1911-1930 | an admitted update or delete without an edge in disguise keeps every reference target out of deletion |
| Protection.RetryProtects | internal/application/application.go:909-1042 | an admitted retry keeps it iff it does not reopen the delete of a referenced resource |
| Protection.FinishProtects | internal/application/application.go:1668-1697 | terminal steps keep it, the union of desired and applied rows included |
| Protection.StepProtects | internal/application/application.go:909-2029 | a step of any kind keeps it iff it is not such a retry |
| Protection.RunProtects | internal/application/application.go:909-2029 | over any run without such a retry no row ever points at a resource that is deleted or being deleted |
| DeleteRetry.RetriedDeleteIsAdmitted | internal/application/application.go:909-1042 | the retry of a failed delete is admitted whoever references the resource, and reopens it iff someone does |
| DeleteRetry.ReferencedTargetIsDeletedAgain | internal/application/application.go:909-1042 | six steps from the empty records to a referenced resource in deletion |
| Keys.BoundKeyAnswers | internal/application/application.go:2122-2160 | a bound key answers its own operation to its fingerprint and kind, a conflict to any other, and an error only for evidence a reader rejects |
| Keys.BoundKeyAddsNothing | internal/application/application.go:2122-2160 | a request under a bound key changes no record, whatever it asks |
| Keys.KeyNamesOneOperation | internal/application/application.go:2681-2689 | a bound key names the same operation in every later state, and its records keep belonging together as the resource moves on |
| Keys.RunKeepsKeysApart | internal/application/application.go:2096-2116 | over any run no two keys name one operation |
| EvidenceRuns.DeedKeepsTold | internal/worker/worker.go:89-210 | each claim, loss, submission result, observation, drive or admission keeps every operation and its execution telling one story, and moves one operation at most |
| EvidenceRuns.EveryRunIsTold | internal/application/application.go:2595-2659 | over every run with reliable readings each finished operation has evidence every later reader accepts, or none at all |
| EvidenceRuns.OverUnaskedExactly | internal/worker/drive.go:19-142 | an operation that is over has no evidence iff its dependency gate failed it |
| EvidenceRuns.EveryKeyReplays | internal/application/application.go:2122-2160 | in every such run from the empty records a key replays its operation iff its gate did not fail it and it does not wait for outputs with evidence older than its resource |
| GateRefusal.GateFailsForGood | internal/worker/dependencies.go:64-103 | ten deeds from the empty records to a gate-failed operation whose key answers with an error |
| Recovery.ObserveAllowedExactly | internal/application/recovery_planner.go:148-190 | an observation may be triggered iff the operation is in progress, registered, observable and not already observed |
| Recovery.RecoveryAllowedExactly | internal/application/recovery_planner.go:266-359 | dead work may be recovered iff its aggregate still needs it and nothing equivalent is active |
| RecoveryMeaning.OperationAssessment | internal/application/recovery_planner.go:148-190 | each assessment of an operation, and when it may be observed, as conditions on its state, execution and registration |
| RecoveryMeaning.OperationReasons | internal/application/recovery_planner.go:148-190 | it names every reason that applies and no other |
| RecoveryMeaning.ResourceAssessment | internal/application/recovery_planner.go:207-232 | a resource may be observed passively iff it is registered, not deleted, with no operation and no such observation under way; any other answer names the first obstacle |
| RecoveryMeaning.DeadOperationAssessment | internal/application/recovery_planner.go:266-359 | dead work of an operation: when it is superseded, safe, ambiguous, manual or unsupported; a dead dispatch is recovered only by observing |
| RecoveryMeaning.DeadResourceAssessment | internal/application/recovery_planner.go:266-359 | the same for dead work of a resource |
| RecoveryMeaning.CallAdmittedExactly | internal/application/operator_mutations.go:57-384 | an operator's call is admitted iff it is complete, authorized, current, under free identities, and the rows show that its target still needs it |
| RecoveryMeaning.AdmittedCallCreates | internal/application/operator_mutations.go:386-520 | the row of work it adds: the next observation, or the dead row's own kind of work again |
| OperatorCode.OperatorService.NextObserve | internal/application/operator_mutations.go:477-484 | takes the next observation number together with its row |
| OperatorCode.OperatorService.TriggerOperationObservation | internal/application/operator_mutations.go:57-121 | the staged decision for an operation |
| OperatorCode.OperatorService.TriggerResourcePassiveObservation | internal/application/operator_mutations.go:126-204 | the staged decision for a resource |
| OperatorCode.OperatorService.RecoverDead | internal/application/operator_mutations.go:210-283 | the staged decision for dead work, never another dispatch |
| OperatorCode.OperatorService.Queue | internal/application/fake/store.go:820-844 | a known row is dropped, a second active one refused, a new one inserted |
| OperatorCode.OperatorService.RunMutation | internal/application/operator_mutations.go:290-384 | work, audit row and key commit together or not at all, and the correspondence between them is kept |
| OperatorRuns.AdmittedCallAdds | internal/application/operator_mutations.go:290-384 | an admitted call adds exactly one audit row, one key and one row of work, naming each other, and moves nothing else but the number it takes |
| OperatorRuns.BoundKeyAnswers | internal/application/operator_mutations.go:306-329 | a replay answers with the recorded identities, a key bound to another request is a conflict |
| OperatorRuns.RunKeepsSound | internal/application/operator_mutations.go:290-384 | over any run audit rows, keys and operator-made rows correspond one to one and none is a dispatch |
| OperatorRuns.RunMovesCountsTogether | internal/application/operator_mutations.go:290-384 | over any run the three counts grow by exactly the admitted calls |
| OperatorRuns.ObservationNumbersGrow | internal/application/operator_mutations.go:477-484 | an operation's observation number never falls and grows strictly with each observation a call creates |
| OperatorRuns.ObservationsRecoverOnce | internal/application/operator_mutations.go:386-457 | over any run one dead observation is recovered at most once |
| OperatorRuns.RunKeepsOneActive | internal/application/fake/store.go:820-844 | over any run an aggregate has at most one active row of each kind |
| Policy.SelectorKeyDecides | internal/policy/policy.go:304-318 | selector keys are equal iff the selectors are, up to the one confusion |
| Policy.ShareKeyDecides | internal/policy/policy.go:292-302 | two well-formed rules share a semantic key iff they restrict the same thing |
| Policy.Compile | internal/policy/policy.go:126-158 | accepts iff within the rule limit with distinct identities and no shared key, and returns the one sorted order |
| Policy.CompiledOrderIsFree | internal/policy/policy.go:133-164 | the order of rules in the document makes no difference |
| Policy.MakePlan | internal/policy/policy.go:344-383 | the loop over rules computes the planned denial and the tightest quota of each dimension |
| Policy.Decide | internal/policy/policy.go:395-436 | the loop over constraints computes the specified decision or error |
| Policy.TightestMeans | internal/policy/policy.go:344-383 | the kept constraint belongs to a matching quota rule and no matching rule of its dimension is tighter |
| Policy.DecideAfterPlan | internal/policy/policy.go:344-436 | deciding a plan on available matching facts denies iff a matching deny rule or a passed quota forbids, so keeping only the tightest loses nothing |
| Policy.RuleOrderMakesNoDifference | internal/policy/policy.go:94-164 | overlays from the same rules in any order plan and decide alike |
| Policy.UpdatesNeedNoCounts | internal/policy/policy.go:344-436 | quotas never concern updates |
| Policy.ApplyKeepsQuota | internal/policy/policy.go:344-436 | one create decided on exact counts, or one deletion, leaves every count within its quota or no higher than it was |
| PolicyMeaning.VerdictMeans | internal/policy/policy.go:344-436 | the first rule that refuses decides, then the tightest quota of the owner, then that of the type, with its own count and limit; without any the mutation goes on |
| PolicyMeaning.NoVerdictExactly | internal/policy/policy.go:395-436 | no verdict is given iff the plan is of another revision, the mutation unknown, or a quota applies to facts that do not fit |
| PolicyMeaning.ConstraintsDecide | internal/policy/policy.go:412-436 | any list of constraints, well formed or not, is decided at the first that is ill formed or reached |
| PolicyMeaning.AcceptedExactly | internal/policy/policy.go:126-158 | rules are accepted iff no two share an identity or restrict the same thing |
| PolicyMeaning.CompiledOrder | internal/policy/policy.go:133-164 | a compiled overlay holds the same rules, denials before quotas, each by identity |
| PolicyMeaning.ApplyExactly | internal/policy/policy.go:344-436 | a create on exact counts takes effect iff it is new and complete, no rule refuses it and no quota bars it |
| Quotas.CreateEnters | internal/application/application.go:1776-1834 | an admitted create enters the counts of the records it joins, and only if the policy allows it on them |
| Quotas.StepIsGoverned | internal/application/fake/store.go:349-368 | no step but a create raises a count, and no deleted resource comes back into one |
| Quotas.QuotasHoldInEveryRun | internal/application/application.go:1776-1834 | over every run of the machine whose creates are judged on their own records, no count within its quota ever exceeds it, and none above it grows |
| Quotas.QuotasAreNeverExceeded | internal/application/application.go:1776-1834 | from the empty records no owner ever has more than its quotas allow |
| Framing.FrameHexIsInjective | internal/application/fingerprint.go:57-60 | lists of parts shorter than 2^32 bytes have distinct encodings |
| Framing.FrameDecimalIsInjective | internal/policy/policy.go:304-318 | lists of fields have distinct decimal framings |
| Framing.WriteFramed | internal/application/fingerprint.go:106-114 | writing part by part feeds the hash exactly the framing |
| Framing.NumeralReads | internal/policy/policy.go:304-318 | a numeral reads back as its number, without a leading zero |
| Framing.Hex8Reads | internal/application/fingerprint.go:57-60 | a length prefix has at least eight digits and reads back as the length, however long |
| Fingerprint.EqualPreimagesDenoteSamePairs | internal/application/fingerprint.go:46-55 | two accepted submissions are hashed alike iff they denote the same pairs |
| Fingerprint.FingerprintIdentifiesCommand | internal/application/fingerprint.go:62-114 | equal fingerprints mean the same kind and the same submitted parts; absent references never pass for an empty set |
| Fingerprint.PutUint | internal/application/fingerprint.go:178-190 | fills the buffer in place with the big-endian bytes |
| Fingerprint.EncodingIsInjective | internal/application/fingerprint.go:116-176 | different spec values have different encodings: number kinds, float bits, order and names all show |
| Fingerprint.EncodedExactly | internal/application/fingerprint.go:116-176 | a spec value is encoded iff no part of it is unsupported |
| Fingerprint.BigEndianReads | internal/application/fingerprint.go:178-190 | the bytes read back as the number |
| KeyCache.FetchKeySet | internal/auth/oidc.go:231-274 | builds the set from the response, or nothing |
| KeyCache.FetchedKeysArePublished | internal/auth/oidc.go:231-274 | a held key was published under its identity for an allowed algorithm, and every usable identity is held |
| KeyCache.Authenticator.VerificationKeyFor | internal/auth/oidc.go:283-327 | the answer and the new cache of one call |
| KeyCache.ReturnedKeyMatches | internal/auth/oidc.go:338-349 | a returned key has the requested algorithm and, when one is given, exactly the requested identity; otherwise it is the set's only key |
| KeyCache.OnlyRotationWithdrawsKeys | internal/auth/oidc.go:283-327 | otherwise it is returned iff the newly fetched set confirms it |
| KeyCache.RefetchesAreSpaced | internal/auth/oidc.go:283-327 | over any run with a clock that never goes back, refetches are at least thirty seconds apart |
| KeyCache.OnlySuccessfulFetchesReplaceKeys | internal/auth/oidc.go:283-327 | a run without a successful fetch leaves the key set exactly as it was |
| KeyRotation.FetchedExactly | internal/auth/oidc.go:231-274 | the fetched set holds exactly the key published last under each identity among the usable candidates |
| KeyRotation.RefetchesExactly | internal/auth/oidc.go:283-333 | a call refetches iff thirty seconds have passed since the last refetch and the set is missing, older than its time to live, or holds nothing that answers; only a delivered document replaces it |
| KeyRotation.AnswersExactly | internal/auth/oidc.go:283-349 | a call returns exactly the key that answers it in the set it leaves behind, and each refusal has its own reason |
| KeyRotation.WithdrawnIsRefused | internal/auth/oidc.go:283-333 | a key the provider withdrew is refused by the first call for it that finds the window open, the set outlived and the provider delivering |
| KeyRotation.WithdrawnStaysRefused | internal/auth/oidc.go:283-333 | and by every later call as long as it stays withdrawn |

## Left out

- PostgreSQL, HTTP (but for its check of reference targets), CLI, clients, server composition and the demo servers: I/O and wiring; the repositories are maps here.
- Provisioner adapters and their processes: what they report is an arbitrary input.
- Outbox delivery, leases, locks, heartbeats and wake-ups: the machine takes worker steps in any order, which includes every order delivery can produce.
- Record versions and optimistic concurrency: each transaction is one atomic step, so a conflicting version is a step that is not taken.
- Dependency wait rows and the wake worker: the wait count over stored rows is modelled, their registration is not.
- The eager concurrent executor and its deferred fallbacks: only the worker's steps are modelled.
- JSON and JSON Schema decoding, JWT signatures and OIDC discovery: library work; a fetched key candidate and a parsed rule are inputs.
- Stored events: the engine's audit event is computed, its storage is not.
- Authorization policies: an authorized flag and a set of readable resources per call.
- Telemetry, logging and sampling: they decide nothing.
- Older output snapshots: the records keep the newest snapshot of a resource, which is the one the gate reads.
- Operator diagnostics revisions, registrations and audit identities: inputs of each call; work identities are values instead of formatted strings.
- A worker composed without a type catalog: the catalog is always present here.
- ConvergenceCode.Worker.FinishOnce: the rejection's message is an input, because it quotes the validator's text; the reason is the source's.
- Cells.WaitingCell: stated for an operation in progress and a time up to one instant after its last phase change, which is when the worker writes it.
- SubmissionRuns.EveryRun: submission results and observations are taken in any state, which only adds runs to those the worker has.
- EvidenceRuns.EveryKeyReplays: its runs have documented failures and no submission result older than the record, because readers reject the others; `Finishing.SubmissionEvidenceIsAccepted` and `FinishFacts.SubmittedOutcomeMeetsEvidence` give the exact conditions reading by reading.
- Framing.FrameHexIsInjective: parts of 2^32 bytes and more are excluded, since their length prefix is longer than eight digits.
