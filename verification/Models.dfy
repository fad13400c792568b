/** The rows and enumerations of `models/inference_task.go` and `models/client.go`,
    and the Relay answers of `relay/relay_task_batch.go`. */
module Models {
  import opened Wrappers

  datatype ChainTaskStatus =
    | ChainQueued
    | ChainStarted
    | ChainParametersUploaded
    | ChainErrorReported
    | ChainScoreReady
    | ChainValidated
    | ChainGroupValidated
    | ChainEndInvalidated
    | ChainEndSuccess
    | ChainEndAborted
    | ChainEndGroupRefund
    | ChainEndGroupSuccess

  datatype TaskStatus =
    | Pending
    | Created
    | Started
    | ParamsUploaded
    | ScoreReady
    | ErrorReported
    | Validated
    | EndAborted
    | EndGroupRefund
    | EndInvalidated
    | EndSuccess
    | ResultDownloaded

  datatype TaskType = SD | LLM | SDFTLora

  datatype AbortReason =
    | ReasonNone
    | Timeout
    | ModelDownloadFailed
    | IncorrectResult
    | TaskFeeTooLow
    | GroupTimeout
    | ReasonErrorReported
    | CreatorCancelled
    | CreatorValidationTimeout
    | ResultUploadTimeout
    | NodeSlashed

  datatype TaskError = ErrorNone | ParametersValidationFailed

  datatype Operation = OpNone | OpSync | OpCreate | OpValidate | OpCancel | OpResult

  datatype OperationStatus = SlotNone | SlotRunning | SlotCompleted | SlotFailed

  /** Outcomes of one item of a Relay batch mutation. */
  datatype Outcome =
    | OutcomeCreated
    | OutcomeAlreadyExists
    | OutcomeValidated
    | OutcomeAlreadyApplied
    | OutcomeCancelled
    | OutcomeAlreadyCancelled
    | OutcomeNotCancellable
    | OutcomeNotFound
    | OutcomePermanentError
    | OutcomeTemporaryError
    | OutcomeConflict

  datatype ModelFile = ModelFile(repository: string, revision: string, format: string)

  /** One item of a Relay batch status answer. */
  datatype StatusItem = StatusItem(
    found: bool,
    status: ChainTaskStatus,
    abortReason: AbortReason,
    taskError: TaskError,
    sequence: nat,
    samplingSeed: string,
    gpu: string,
    gpuVram: nat,
    modelFiles: seq<ModelFile>,
    estimatedCompletionAt: Option<int>,
    resultAvailable: bool)

  /** What a worker stored in `operation_result`. */
  datatype Reply = NoReply | StatusReply(item: StatusItem) | OutcomeReply(outcome: Outcome) | DownloadReply

  /** The operation slot of a row: type, status and stored answer. */
  datatype Slot = Slot(op: Operation, status: OperationStatus, reply: Reply)

  const EMPTY_SLOT := Slot(OpNone, SlotNone, NoReply)

  /** The part of an `inference_tasks` row that is written once, when it is inserted. */
  datatype TaskSpec = TaskSpec(
    clientId: nat,
    clientTaskId: nat,
    taskType: TaskType,
    taskArgs: string,
    taskFee: string,
    requiredGPU: string,
    requiredGPUVram: nat,
    taskId: string,
    createdAt: int)

  /** Sampling seed, VRF number and VRF proof; an empty seed means not persisted. */
  datatype Vrf = Vrf(seed: string, number: nat, proof: string)

  const NO_VRF := Vrf("", 0, "")

  /** What Relay reported about the execution of a task. */
  datatype Execution = Execution(
    gpu: string,
    gpuVram: nat,
    modelFiles: seq<ModelFile>,
    estimatedCompletionAt: Option<int>,
    resultAvailable: bool)

  const NO_EXECUTION := Execution("", 0, [], None, false)

  datatype InferenceTask = InferenceTask(
    spec: TaskSpec,
    commitment: string,
    vrf: Vrf,
    status: TaskStatus,
    sequence: nat,
    abortReason: AbortReason,
    taskError: TaskError,
    exec: Execution,
    nextActionAt: int,
    slot: Slot,
    retries: nat,
    unknown: bool,
    relayChecked: bool,
    relayFound: bool,
    submitted: bool,
    cancelRequired: bool)

  datatype ClientTaskStatus = ClientRunning | ClientSuccess | ClientFailed

  /** The task specification stored on an unexpanded client task. */
  datatype Submission = Submission(
    taskType: TaskType,
    taskArgs: string,
    taskFee: string,
    requiredGPU: string,
    requiredGPUVram: nat)

  datatype ClientTask = ClientTask(
    clientId: nat,
    taskType: TaskType,
    submission: Option<Submission>,
    repeatNum: int,
    status: ClientTaskStatus,
    failedCount: nat,
    creatorCancelled: bool,
    expanded: bool,
    nextActionAt: int)

  /** `Finished`: no further work. EndSuccess is not finished, its result must be downloaded. */
  predicate Finished(s: TaskStatus) {
    s == EndAborted || s == EndGroupRefund || s == EndInvalidated || s == ResultDownloaded
  }

  /** `terminalStatuses()`: Relay will not change the task any more. */
  predicate Terminal(s: TaskStatus) {
    Finished(s) || s == EndSuccess
  }

  predicate ChainTerminal(s: ChainTaskStatus) {
    s == ChainEndAborted || s == ChainEndInvalidated || s == ChainEndGroupRefund
    || s == ChainEndSuccess || s == ChainEndGroupSuccess
  }

  /** The task types the engine processes; fine-tuning rows belong to another component. */
  predicate EngineType(t: TaskType) {
    t == SD || t == LLM
  }

  predicate ReadyForValidation(s: TaskStatus) {
    s == ScoreReady || s == ErrorReported
  }

  /** One validation in a hundred, chosen by the VRF number. */
  predicate VrfNeedValidation(number: nat) {
    number % 100 == 0
  }

  function RelayStatusToLocal(s: ChainTaskStatus): TaskStatus {
    match s
    case ChainQueued => Created
    case ChainStarted => Started
    case ChainParametersUploaded => ParamsUploaded
    case ChainScoreReady => ScoreReady
    case ChainErrorReported => ErrorReported
    case ChainValidated => Validated
    case ChainGroupValidated => Validated
    case ChainEndAborted => EndAborted
    case ChainEndInvalidated => EndInvalidated
    case ChainEndGroupRefund => EndGroupRefund
    case ChainEndSuccess => EndSuccess
    case ChainEndGroupSuccess => EndSuccess
  }

  /** A row as it is inserted: Pending, due at once, nothing asked of Relay yet. */
  function NewTask(spec: TaskSpec, commitment: string, vrf: Vrf, now: int): InferenceTask {
    InferenceTask(spec, commitment, vrf, Pending, 0, ReasonNone, ErrorNone, NO_EXECUTION, now,
                  EMPTY_SLOT, 0, false, false, false, false, false)
  }
}
