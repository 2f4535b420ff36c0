/** What a provisioning backend reports, and the execution and attempt records kept about it. */
module Provisioning {
  import opened Basics
  import opened Domain

  datatype Correlation = CorrFound | CorrNotFound | CorrUnknown | CorrInvalid(text: string)

  datatype BackendState =
    | BackendAccepted | BackendRunning | BackendSucceeded | BackendFailed | BackendUnknown | BackendInvalid(text: string)

  datatype FailureKind =
    | KindInvalidRequest | KindUnsupported | KindUnavailable | KindTimeout | KindNotFound | KindExecution
    | KindUnknown | KindInvalid(text: string)

  datatype ExecutionFailure = ExecutionFailure(kind: FailureKind, reason: string, message: string)

  datatype BackendExecution = BackendExecution(
    state: BackendState,
    handle: Option<string>,
    failure: Option<ExecutionFailure>)

  // --------------------------------------------------------------- outputs

  datatype IntKind = IntWord | Int8 | Int16 | Int32 | Int64 | UintWord | Uint8 | Uint16 | Uint32 | Uint64

  datatype Float = Finite(value: real) | NotANumber | Infinite(negative: bool)

  /** A value as a backend hands it over; `OtherValue` is anything but a scalar. */
  datatype OutputValue =
    | Text(text: string) | Boolean(flag: bool) | Integer(kind: IntKind, number: int)
    | Float32(narrow: Float) | Float64(wide: Float) | OtherValue(shape: string)

  datatype OutputState = OutputsUnavailable | OutputsAvailable | OutputsInvalid | OutputStateInvalid(text: string)

  datatype OutputEvidence = OutputEvidence(
    state: OutputState,
    values: map<string, OutputValue>,
    mappingRef: string,
    reason: string)

  datatype OutputResolution = ResolutionUnset | ResolutionNone | ResolutionPending | ResolutionPublished | ResolutionRejected

  // ---------------------------------------------------------- observations

  datatype Observation = Observation(
    correlation: Correlation,
    execution: Option<BackendExecution>,
    facts: ObservedFacts,
    observedAt: Time,
    outputs: Option<OutputEvidence>)

  // --------------------------------------------------------------- records

  datatype AttemptState =
    | AttemptPending | AttemptDispatching | AttemptAccepted | AttemptSucceeded | AttemptFailed | AttemptUnknown

  /** What an execution was admitted to do. It never changes. */
  datatype Intent = Intent(
    operationID: OperationID,
    provisionerRef: string,
    resourceID: ResourceID,
    typeRef: TypeRef,
    capability: Capability,
    targetGeneration: nat,
    spec: Spec,
    recoverySource: Option<(OperationID, nat)>)

  datatype OutputProgress = OutputProgress(mappingRef: string, resolution: OutputResolution, failure: Option<Failure>)

  datatype Execution = Execution(
    intent: Intent,
    outputs: OutputProgress,
    handle: Option<string>,
    state: AttemptState,
    submission: Option<Observation>,
    acceptanceConfirmed: bool,
    lastObservation: Option<Observation>,
    lastObservedAt: Time,
    lastProviderObservedAt: Time,
    lastFailure: Option<ExecutionFailure>,
    correlation: Correlation,
    currentAttempt: nat,
    nextObservation: nat,
    version: nat)
  {
    predicate IsSettled() {
      state.AttemptSucceeded? || state.AttemptFailed?
    }

    predicate IsOutputRecovery() {
      intent.recoverySource.Some?
    }
  }

  datatype SubmissionState = SubPending | SubLeased | SubAccepted | SubRejected | SubNotFound | SubUnknown

  datatype Attempt = Attempt(
    operationID: OperationID,
    number: nat,
    state: SubmissionState,
    resolvedAt: Time,
    failure: Option<ExecutionFailure>)

  /** Terminal evidence, before the lifecycle has applied it. */
  datatype Finish = Finish(succeeded: bool, reason: string, message: string, facts: ObservedFacts)
}
