/** Selection of due rows and the choice of the next operation, from `taskengine/dispatch.go`. */
module Dispatch {
  import opened Wrappers
  import opened Models
  import opened Config
  import opened Progression

  // ---- The five due queries ----

  const QUERY_COUNT: nat := 5

  predicate MatchesQuery(q: nat, t: InferenceTask) {
    match q
    case 0 => t.cancelRequired
    case 1 => t.status == EndSuccess
    case 2 => ReadyForValidation(t.status)
    case 3 => t.status == Pending && t.relayChecked && !t.relayFound && !t.unknown
    case 4 =>
      && (t.unknown || !t.relayChecked || t.relayFound
          || t.status == Created || t.status == Started || t.status == ParamsUploaded || t.status == Validated)
      && !Terminal(t.status)
    case _ => false
  }

  predicate Due(t: InferenceTask, now: int) {
    t.slot.status == SlotNone && t.nextActionAt <= now && EngineType(t.spec.taskType)
  }

  predicate SelectedBy(q: nat, t: InferenceTask, now: int) {
    Due(t, now) && MatchesQuery(q, t)
  }

  predicate Selected(t: InferenceTask, now: int) {
    exists q: nat | q < QUERY_COUNT :: SelectedBy(q, t, now)
  }

  // ---- The decision ----

  /** The order of the group query: sequence, then primary key. */
  predicate Before(tasks: Tasks, a: nat, b: nat)
    requires a in tasks && b in tasks
  {
    tasks[a].sequence < tasks[b].sequence || (tasks[a].sequence == tasks[b].sequence && a < b)
  }

  predicate GroupTimedOut(tasks: Tasks, taskId: string) {
    exists k | k in tasks ::
      tasks[k].spec.taskId == taskId && tasks[k].status == EndAborted && tasks[k].abortReason == CreatorValidationTimeout
  }

  predicate ValidationGroupReady(tasks: Tasks, taskId: string) {
    && |Group(tasks, taskId)| == 3
    && !GroupTimedOut(tasks, taskId)
    && forall k | k in tasks && tasks[k].spec.taskId == taskId ::
         ReadyForValidation(tasks[k].status) || tasks[k].status == EndAborted
  }

  /** The row is the ready member of its group that the group query lists first. */
  predicate IsOwner(tasks: Tasks, id: nat)
    requires id in tasks
  {
    && ReadyForValidation(tasks[id].status)
    && forall k | k in tasks && tasks[k].spec.taskId == tasks[id].spec.taskId && k != id ::
         ReadyForValidation(tasks[k].status) ==> Before(tasks, id, k)
  }

  function Decide(tasks: Tasks, id: nat): Operation
    requires id in tasks
  {
    var t := tasks[id];
    if t.unknown || !t.relayChecked then OpSync
    else if t.cancelRequired then OpCancel
    else if t.status == EndSuccess then OpResult
    else if Finished(t.status) then OpNone
    else if t.status == Pending then if t.relayFound then OpSync else OpCreate
    else if !ReadyForValidation(t.status) || t.submitted then OpSync
    else if |Group(tasks, t.spec.taskId)| == 1 then OpValidate
    else if ValidationGroupReady(tasks, t.spec.taskId) && IsOwner(tasks, id) then OpValidate
    else OpSync
  }
}
