/** The engine configuration of `taskengine/types.go`. */
module Config {
  import opened Wrappers
  import opened Models

  datatype VrfOutput = VrfOutput(number: nat, proof: string)

  /** `prove` stands for the VRF under the configured private key, `pinArgs` for the revision
      pinning of task arguments; both can fail. Durations and times are integers. */
  datatype Config = Config(
    defaultRepeatNum: int,
    scanInterval: int,
    statusPollInterval: int,
    executionPollAdvance: int,
    maxExecutionPollInterval: int,
    executionOverrunPollInterval: int,
    retryInterval: int,
    dueTaskBatchSize: int,
    createBatchSize: int,
    statusBatchSize: int,
    validationBatchSize: int,
    cancellationBatchSize: int,
    createWorkers: int,
    statusWorkers: int,
    validationWorkers: int,
    cancellationWorkers: int,
    resultWorkers: int,
    heartbeatMaxQueuedDuration: int,
    prove: string -> Option<VrfOutput>,
    pinArgs: (string, TaskType, seq<ModelFile>) -> Option<string>)
  {
    predicate Valid() {
      && defaultRepeatNum > 0
      && scanInterval > 0
      && statusPollInterval > 0
      && maxExecutionPollInterval > 0
      && executionOverrunPollInterval > 0
      && retryInterval > 0
      && executionPollAdvance >= 0
      && heartbeatMaxQueuedDuration >= 0
      && dueTaskBatchSize > 0
      && createBatchSize > 0 && statusBatchSize > 0 && validationBatchSize > 0 && cancellationBatchSize > 0
      && createWorkers > 0 && statusWorkers > 0 && validationWorkers > 0 && cancellationWorkers > 0
      && resultWorkers > 0
    }

    /** The largest number of rows one worker of this kind takes; a result worker takes one. */
    function BatchSize(op: Operation): int {
      match op
      case OpCreate => createBatchSize
      case OpSync => statusBatchSize
      case OpValidate => validationBatchSize
      case OpCancel => cancellationBatchSize
      case OpResult => 1
      case OpNone => 0
    }

    function Workers(op: Operation): int {
      match op
      case OpCreate => createWorkers
      case OpSync => statusWorkers
      case OpValidate => validationWorkers
      case OpCancel => cancellationWorkers
      case OpResult => resultWorkers
      case OpNone => 0
    }
  }
}
