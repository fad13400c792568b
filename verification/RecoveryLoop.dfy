/** The loops of crash recovery (`recover` in `taskengine/scheduler.go`): the state between two
    iterations, and why the last one is the state machine's recovery. */
module RecoveryLoop {
  import opened Models
  import opened Progression
  import opened StateMachine

  function RunningRows(tasks: Tasks): set<nat> {
    set k | k in tasks && tasks[k].slot.status == SlotRunning
  }

  /** `UPDATE ... WHERE operation_status = 'running'` */
  function FreeRunning(tasks: Tasks, now: int): Tasks {
    map k | k in tasks ::
      if tasks[k].slot.status == SlotRunning
      then tasks[k].(slot := Slot(OpNone, SlotNone, tasks[k].slot.reply), unknown := true, nextActionAt := now)
      else tasks[k]
  }

  predicate LostValidationIn(loaded: Tasks, done: set<nat>, taskId: string) {
    exists j | j in done :: j in loaded && loaded[j].slot.op == OpValidate && loaded[j].spec.taskId == taskId
  }

  /** The rows once the loop over the interrupted operations has visited `done`. */
  function UncheckedFor(loaded: Tasks, freed: Tasks, done: set<nat>, now: int): Tasks {
    map k | k in freed ::
      if LostValidationIn(loaded, done, freed[k].spec.taskId) then freed[k].(relayChecked := false, nextActionAt := now) else freed[k]
  }

  lemma UncheckedNone(loaded: Tasks, freed: Tasks, done: set<nat>, now: int)
    requires done == {}
    ensures UncheckedFor(loaded, freed, done, now) == freed
  {
  }

  lemma UncheckedNext(loaded: Tasks, freed: Tasks, done: set<nat>, j: nat, now: int)
    requires j in loaded
    ensures UncheckedFor(loaded, freed, done + {j}, now) ==
            if loaded[j].slot.op == OpValidate then MarkGroupUnchecked(UncheckedFor(loaded, freed, done, now), loaded[j].spec.taskId, now)
            else UncheckedFor(loaded, freed, done, now)
  {
    forall g
      ensures LostValidationIn(loaded, done + {j}, g) <==>
              LostValidationIn(loaded, done, g) || (loaded[j].slot.op == OpValidate && loaded[j].spec.taskId == g)
    {
      if LostValidationIn(loaded, done, g) {
        var i :| i in done && i in loaded && loaded[i].slot.op == OpValidate && loaded[i].spec.taskId == g;
        assert i in done + {j};
      }
      if loaded[j].slot.op == OpValidate && loaded[j].spec.taskId == g {
        assert j in done + {j};
      }
    }
    hide LostValidationIn;
  }

  lemma UncheckedAll(loaded: Tasks, now: int)
    ensures UncheckedFor(loaded, FreeRunning(loaded, now), RunningRows(loaded), now) == RecoveredTasks(loaded, now)
  {
    forall g
      ensures LostValidationIn(loaded, RunningRows(loaded), g) <==> ValidatingGroup(loaded, g)
    {
      if ValidatingGroup(loaded, g) {
        var k :| k in loaded && loaded[k].spec.taskId == g && loaded[k].slot.status == SlotRunning && loaded[k].slot.op == OpValidate;
        assert k in RunningRows(loaded);
      }
    }
    hide LostValidationIn, ValidatingGroup;
  }

  function RunningClients(clients: ClientTasks): set<nat> {
    set c | c in clients && clients[c].status == ClientRunning
  }

  /** The client tasks once the loop over the running ones has visited `done`. */
  function RecalculatedFor(clients: ClientTasks, tasks: Tasks, done: set<nat>): ClientTasks {
    map c | c in clients :: if c in done then Recalculated(tasks, c, clients[c]) else clients[c]
  }

  lemma RecalculatedAll(clients: ClientTasks, tasks: Tasks)
    ensures RecalculatedFor(clients, tasks, RunningClients(clients)) == RecoveredClients(clients, tasks)
  {
  }
}
