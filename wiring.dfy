/**
 * The service wired to its adapters: `schedule_task` over the in-memory store,
 * with any execution port or with the local process adapter, and fed from the
 * command line's `run` options.
 */
module Wiring {
  import opened Wrappers
  import opened Model
  import opened Ports
  import opened TaskExecution
  import opened MemoryStorage
  import LocalExecution
  import Cli

  /**
   * On an in-memory store where nothing matches the new task's identifier yet,
   * `schedule_task` appends exactly one record, whose status `task_status`
   * then answers: the executor's status on success, or the failure recorded as
   * `Error(error.to_string())`. Completion never fails there.
   */
  lemma ScheduleOnMemoryStore(tasks: seq<StoredTask>, execute: ExecutionPort, id: string, input: TaskInput)
    requires NoMatch(tasks, TaskIdOf(MakeTask(input, id)))
    ensures var task := MakeTask(input, id);
      var run := Schedule(Port(), tasks, execute, id, input);
      && |run.state| == |tasks| + 1 && run.state[..|tasks|] == tasks
      && (execute(task).Ok? ==>
            run.result == Ok(TaskIdOf(task))
            && MemoryStorage.StatusOf(run.state, TaskIdOf(task)) == Ok(execute(task).value))
      && (execute(task).Err? ==>
            run.result == Err([EXECUTION_CONTEXT, ExecutionFailedContext(id)] + ErrorChain(execute(task).error))
            && MemoryStorage.StatusOf(run.state, TaskIdOf(task)) == Ok(Error(Display(execute(task).error))))
  {
    var task := MakeTask(input, id);
    var saved := tasks + [FromTask(task)];
    var recorded := match execute(task)
      case Ok(s) => s
      case Err(e) => Error(Display(e));
    SaveCompleteStatus(tasks, task, recorded);
    var done := CompleteOf(saved, task, recorded).0;
    assert done == saved[|tasks| := Completed(task, recorded)];
    assert done[..|tasks|] == tasks;
    if execute(task).Err? {
      var e := execute(task).error;
      assert Context(Context(ErrorChain(e), ExecutionFailedContext(id)), EXECUTION_CONTEXT)
        == [EXECUTION_CONTEXT, ExecutionFailedContext(id)] + ErrorChain(e);
    }
  }

  /**
   * A named submission on an in-memory store where neither the name nor the
   * drawn id matched before: afterwards `task_status` by the name and by the
   * generated id answer the same, the executor's status or the recorded error.
   */
  lemma NamedSubmissionAnswersByNameAndId(tasks: seq<StoredTask>, execute: ExecutionPort, id: string, input: TaskInput)
    requires input.name.Some?
    requires NoMatch(tasks, Name(input.name.value)) && NoMatch(tasks, Id(id))
    ensures var task := MakeTask(input, id);
      var run := Schedule(Port(), tasks, execute, id, input);
      var recorded := if execute(task).Ok? then execute(task).value else Error(Display(execute(task).error));
      && MemoryStorage.StatusOf(run.state, Id(id)) == Ok(recorded)
      && MemoryStorage.StatusOf(run.state, Name(input.name.value)) == Ok(recorded)
  {
    var task := MakeTask(input, id);
    var recorded := if execute(task).Ok? then execute(task).value else Error(Display(execute(task).error));
    NameAndIdAgree(tasks, task, recorded);
    assert Schedule(Port(), tasks, execute, id, input).state == CompleteOf(tasks + [FromTask(task)], task, recorded).0;
  }

  /** The service's own example: an unnamed "ls /home" run with id "test_id" answers `Id("test_id")`. */
  lemma UnnamedTaskAnswersItsId(execute: ExecutionPort, out: string)
    requires execute(MakeTask(TaskInput(None, "ls /home", None), "test_id")) == Ok(Success(out))
    ensures Schedule(Port(), [], execute, "test_id", TaskInput(None, "ls /home", None)).result == Ok(Id("test_id"))
  {
    ScheduleOnMemoryStore([], execute, "test_id", TaskInput(None, "ls /home", None));
  }

  /**
   * An all-whitespace command, scheduled with the local process adapter, is
   * recorded as a failed task and reported under both contexts, and nothing
   * is spawned: the answer is the same whatever the spawner does.
   */
  lemma EmptyCommandEndToEnd(tasks: seq<StoredTask>, spawn: LocalExecution.Spawner, id: string, input: TaskInput)
    requires NoMatch(tasks, TaskIdOf(MakeTask(input, id)))
    requires forall i :: 0 <= i < |input.command| ==> LocalExecution.IsWhitespace(input.command[i])
    ensures var message := COMMAND_ERROR_PREFIX + LocalExecution.EMPTY_COMMAND;
      var task := MakeTask(input, id);
      var run := Schedule(Port(), tasks, LocalExecution.PortExecute(spawn), id, input);
      && run.result == Err([EXECUTION_CONTEXT, ExecutionFailedContext(id), message])
      && MemoryStorage.StatusOf(run.state, TaskIdOf(task)) == Ok(Error(message))
  {
    var task := MakeTask(input, id);
    LocalExecution.EmptyCommandRejected(task, spawn);
    var e := CommandError(LocalExecution.EMPTY_COMMAND);
    assert LocalExecution.PortExecute(spawn)(task) == Err(e);
    assert ErrorChain(e) == [COMMAND_ERROR_PREFIX + LocalExecution.EMPTY_COMMAND];
    ScheduleOnMemoryStore(tasks, LocalExecution.PortExecute(spawn), id, input);
    assert [EXECUTION_CONTEXT, ExecutionFailedContext(id)] + ErrorChain(e)
      == [EXECUTION_CONTEXT, ExecutionFailedContext(id), COMMAND_ERROR_PREFIX + LocalExecution.EMPTY_COMMAND];
  }

  /** A named `run` is answered by its name, whatever id the generator gave it. */
  lemma NamedRunAnswersName(tasks: seq<StoredTask>, execute: ExecutionPort, id: string, opt: Cli.TaskRunOpt)
    requires opt.name.Some?
    requires NoMatch(tasks, Name(opt.name.value))
    requires execute(MakeTask(Cli.RunInput(opt), id)).Ok?
    ensures Schedule(Port(), tasks, execute, id, Cli.RunInput(opt)).result == Ok(Name(opt.name.value))
  {
    ScheduleOnMemoryStore(tasks, execute, id, Cli.RunInput(opt));
  }

  /**
   * The service and store objects together: a `TaskScheduler` over an empty
   * in-memory store schedules one submission, then answers `task_status` for
   * its identifier with what was recorded. An `InMemoryStorageAdapter` object
   * that receives the same `save` and `complete` calls answers the same status.
   */
  method ScheduleThenStatus(execute: ExecutionPort, ids: IdSupply, input: TaskInput)
    returns (scheduled: Result<TaskId, Chain>, status: Result<TaskStatus, Chain>, direct: Result<TaskStatus, Chain>)
    ensures var task := MakeTask(input, ids(0));
      && (execute(task).Ok? ==> scheduled == Ok(TaskIdOf(task)) && status == Ok(execute(task).value))
      && (execute(task).Err? ==>
            scheduled == Err([EXECUTION_CONTEXT, ExecutionFailedContext(ids(0))] + ErrorChain(execute(task).error))
            && status == Ok(Error(Display(execute(task).error))))
    ensures direct == status
  {
    var task := MakeTask(input, ids(0));
    var service := new TaskScheduler(Port(), [], execute, ids);
    scheduled := service.ScheduleTask(input);
    ScheduleOnMemoryStore([], execute, ids(0), input);
    status := service.TaskStatus(TaskIdOf(task));

    var recorded := if execute(task).Ok? then execute(task).value else Error(Display(execute(task).error));
    var adapter := new InMemoryStorageAdapter();
    var saved := adapter.Save(task);
    var completed := adapter.Complete(task, recorded);
    assert adapter.tasks == service.store;
    direct := adapter.Status(TaskIdOf(task));
  }
}
