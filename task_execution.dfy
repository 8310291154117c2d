/**
 * The task lifecycle service: `TaskScheduler` and the free functions `task`
 * and `execute_task`.
 *
 * `ExecuteTask` and `Schedule` say what one call does to the store's state,
 * what it answers, and which port calls it makes in which order; the class
 * `TaskScheduler` performs the same steps on its fields and is proved to
 * agree with them.
 */
module TaskExecution {
  import opened Wrappers
  import opened Model
  import opened Ports

  const STORING_CONTEXT: string := "Error storing task during schedule"
  const EXECUTION_CONTEXT: string := "Error during task execution"
  const STATUS_CONTEXT: string := "Error on task status"

  function ExecutionFailedContext(id: string): string
  {
    "Error during task " + id + " execution"
  }

  function CompletionFailedContext(id: string): string
  {
    "Error executing task " + id + " and during status save execution"
  }

  /** The outcome of a service call: the store's new state, the answer, the port calls made. */
  datatype Run<S, T> = Run(state: S, result: Result<T, Chain>, calls: seq<PortCall>)

  /** `task(input, id)`: the submission with its generated id. */
  function MakeTask(input: TaskInput, id: string): (t: Task)
    ensures t.id == id
    ensures t.name == input.name && t.command == input.command && t.env == input.env
  {
    Task(id, input.name, input.command, input.env)
  }

  /**
   * `execute_task`: run the task, then record its outcome with one `complete`.
   * A failed execution is recorded as `Error(error.to_string())`.
   */
  function ExecuteTask<S>(storage: StoragePort<S>, s: S, execute: ExecutionPort, task: Task): (r: Run<S, TaskId>)
    ensures |r.calls| == 2 && r.calls[0] == Execute(task) && r.calls[1].Complete? && r.calls[1].task == task
    ensures r.calls[1].status == if execute(task).Ok? then execute(task).value else Error(Display(execute(task).error))
    ensures r.result.Ok? <==> execute(task).Ok? && storage.complete(s, task, execute(task).value).1.Ok?
    ensures r.result.Ok? ==> r.result.value == TaskIdOf(task)
  {
    match execute(task)
    case Err(e) =>
      var recorded := Error(Display(e));
      var (s', done) := storage.complete(s, task, recorded);
      var err := if done.Ok? then Context(ErrorChain(e), ExecutionFailedContext(task.id))
                 else Context(done.error, CompletionFailedContext(task.id));
      Run(s', Err(err), [Execute(task), Complete(task, recorded)])
    case Ok(status) =>
      var (s', done) := storage.complete(s, task, status);
      Run(s', if done.Ok? then Ok(TaskIdOf(task)) else Err(done.error), [Execute(task), Complete(task, status)])
  }

  /**
   * `schedule_task`: one generated id, one `save`, then `execute_task` on the
   * task `save` returned. Every failure gets the outer context
   * "Error during task execution", a failed save included.
   */
  function Schedule<S>(storage: StoragePort<S>, s: S, execute: ExecutionPort, id: string, input: TaskInput): (r: Run<S, TaskId>)
    ensures |r.calls| >= 2 && r.calls[..2] == [GenerateId(id), Save(MakeTask(input, id))]
    ensures r.result.Ok? ==> var saved := storage.save(s, MakeTask(input, id)).1;
      saved.Ok? && r.result.value == TaskIdOf(saved.value)
    ensures r.result.Err? ==> r.result.error[0] == EXECUTION_CONTEXT
  {
    var task := MakeTask(input, id);
    var (s', saved) := storage.save(s, task);
    var prefix := [GenerateId(id), Save(task)];
    match saved
    case Err(e) => Run(s', Err(Context(Context(e, STORING_CONTEXT), EXECUTION_CONTEXT)), prefix)
    case Ok(stored) =>
      var run := ExecuteTask(storage, s', execute, stored);
      var result := match run.result
                    case Ok(taskId) => Ok(taskId)
                    case Err(e) => Err(Context(e, EXECUTION_CONTEXT));
      Run(run.state, result, prefix + run.calls)
  }

  /** `task_status`: the store's answer, with context on failure. */
  function TaskStatusOf<S>(storage: StoragePort<S>, s: S, id: TaskId): (r: Run<S, TaskStatus>)
    ensures r.calls == [StatusOf(id)] && r.state == storage.status(s, id).0
    ensures r.result.Ok? <==> storage.status(s, id).1.Ok?
    ensures r.result.Ok? ==> r.result.value == storage.status(s, id).1.value
    ensures r.result.Err? ==> r.result.error[0] == STATUS_CONTEXT && r.result.error[1..] == storage.status(s, id).1.error
  {
    var (s', found) := storage.status(s, id);
    var result := match found
                  case Ok(status) => Ok(status)
                  case Err(e) => Err(Context(e, STATUS_CONTEXT));
    Run(s', result, [StatusOf(id)])
  }

  // ---- execute_task -------------------------------------------------------

  /** Execution is called once, on the given task, and then exactly one `complete` on that task. */
  lemma ExecuteTaskCallsOnce<S>(storage: StoragePort<S>, s: S, execute: ExecutionPort, task: Task)
    ensures var r := ExecuteTask(storage, s, execute, task);
      && |r.calls| == 2 && r.calls[0] == Execute(task)
      && r.calls[1].Complete? && r.calls[1].task == task
      && r.state == storage.complete(s, task, r.calls[1].status).0
  {
  }

  /** Execution succeeds and so does `complete`: the executor's exact status is recorded and the derived id returned. */
  lemma ExecuteTaskSuccess<S>(storage: StoragePort<S>, s: S, execute: ExecutionPort, task: Task)
    requires execute(task).Ok?
    requires storage.complete(s, task, execute(task).value).1.Ok?
    ensures var r := ExecuteTask(storage, s, execute, task);
      && r.calls == [Execute(task), Complete(task, execute(task).value)]
      && r.result == Ok(TaskIdOf(task))
  {
  }

  /** Execution succeeds but `complete` fails: the storage error comes out verbatim. */
  lemma ExecuteTaskCompletionFailure<S>(storage: StoragePort<S>, s: S, execute: ExecutionPort, task: Task)
    requires execute(task).Ok?
    requires storage.complete(s, task, execute(task).value).1.Err?
    ensures ExecuteTask(storage, s, execute, task).result
            == Err(storage.complete(s, task, execute(task).value).1.error)
  {
  }

  /** Execution fails and the `Error` status is stored: the execution error, under a context naming the task id. */
  lemma ExecuteTaskExecutionFailure<S>(storage: StoragePort<S>, s: S, execute: ExecutionPort, task: Task)
    requires execute(task).Err?
    requires storage.complete(s, task, Error(Display(execute(task).error))).1.Ok?
    ensures var r := ExecuteTask(storage, s, execute, task);
      && r.calls == [Execute(task), Complete(task, Error(Display(execute(task).error)))]
      && r.result == Err([ExecutionFailedContext(task.id)] + ErrorChain(execute(task).error))
  {
  }

  /**
   * Execution fails and storing the `Error` status fails too: the storage
   * error is the one reported, under a context naming the task id.
   */
  lemma ExecuteTaskDoubleFailure<S>(storage: StoragePort<S>, s: S, execute: ExecutionPort, task: Task)
    requires execute(task).Err?
    requires storage.complete(s, task, Error(Display(execute(task).error))).1.Err?
    ensures ExecuteTask(storage, s, execute, task).result
            == Err([CompletionFailedContext(task.id)] + storage.complete(s, task, Error(Display(execute(task).error))).1.error)
  {
  }

  /**
   * In that double failure the execution error is not kept anywhere in the
   * reported chain: two different execution errors whose status saves fail
   * alike report the same chain.
   */
  lemma DoubleFailureDropsExecutionError<S>(storage: StoragePort<S>, s: S, e1: ExecutionPort, e2: ExecutionPort, task: Task)
    requires e1(task).Err? && e2(task).Err?
    requires storage.complete(s, task, Error(Display(e1(task).error))).1.Err?
    requires storage.complete(s, task, Error(Display(e2(task).error))).1
             == storage.complete(s, task, Error(Display(e1(task).error))).1
    ensures ExecuteTask(storage, s, e1, task).result == ExecuteTask(storage, s, e2, task).result
  {
  }

  // ---- schedule_task ------------------------------------------------------

  /** The saved task carries the generated id and the submission's command, name and env. */
  lemma ScheduleSavesSubmission<S>(storage: StoragePort<S>, s: S, execute: ExecutionPort, id: string, input: TaskInput)
    ensures var r := Schedule(storage, s, execute, id, input);
      && |r.calls| >= 2 && r.calls[0] == GenerateId(id) && r.calls[1].Save?
      && r.calls[1].task == Task(id, input.name, input.command, input.env)
  {
  }

  /** A failed save stops the call: no execution, no completion, chain "execution" over "storing" over the storage error. */
  lemma ScheduleSaveFailure<S>(storage: StoragePort<S>, s: S, execute: ExecutionPort, id: string, input: TaskInput)
    requires storage.save(s, MakeTask(input, id)).1.Err?
    ensures var r := Schedule(storage, s, execute, id, input);
      && r.calls == [GenerateId(id), Save(MakeTask(input, id))]
      && r.state == storage.save(s, MakeTask(input, id)).0
      && r.result == Err([EXECUTION_CONTEXT, STORING_CONTEXT] + storage.save(s, MakeTask(input, id)).1.error)
  {
    var e := storage.save(s, MakeTask(input, id)).1.error;
    assert [EXECUTION_CONTEXT] + ([STORING_CONTEXT] + e) == [EXECUTION_CONTEXT, STORING_CONTEXT] + e;
  }

  /** After a successful save, the task `save` returned is executed and completed, once each. */
  lemma ScheduleRunsSavedTask<S>(storage: StoragePort<S>, s: S, execute: ExecutionPort, id: string, input: TaskInput)
    requires storage.save(s, MakeTask(input, id)).1.Ok?
    ensures var (s1, saved) := storage.save(s, MakeTask(input, id));
      var r := Schedule(storage, s, execute, id, input);
      var run := ExecuteTask(storage, s1, execute, saved.value);
      && r.calls == [GenerateId(id), Save(MakeTask(input, id)), Execute(saved.value), run.calls[1]]
      && r.state == run.state
      && (r.result.Ok? <==> run.result.Ok?)
      && (r.result.Ok? ==> r.result.value == TaskIdOf(saved.value))
      && (r.result.Err? ==> r.result.error == Context(run.result.error, EXECUTION_CONTEXT))
  {
  }

  /** Every failure of `schedule_task` has "Error during task execution" as its outermost message. */
  lemma ScheduleFailureContext<S>(storage: StoragePort<S>, s: S, execute: ExecutionPort, id: string, input: TaskInput)
    ensures var r := Schedule(storage, s, execute, id, input);
      r.result.Err? ==> r.result.error[0] == EXECUTION_CONTEXT
  {
  }

  /** `task_status` passes the identifier through unchanged and adds context on failure only. */
  lemma TaskStatusForwards<S>(storage: StoragePort<S>, s: S, id: TaskId)
    ensures var r := TaskStatusOf(storage, s, id);
      && r.calls == [StatusOf(id)]
      && r.state == storage.status(s, id).0
      && (storage.status(s, id).1.Ok? ==> r.result == storage.status(s, id).1)
      && (storage.status(s, id).1.Err? ==> r.result == Err([STATUS_CONTEXT] + storage.status(s, id).1.error))
  {
  }

  // ---- the service object -------------------------------------------------

  /**
   * `TaskScheduler`: the storage the service mutates (its state `store`), the
   * executor, and the id generator, whose calls so far are counted by `issued`.
   * `calls` is a ghost trace of every port call made through this object.
   */
  class TaskScheduler<S> {
    var store: S
    const storage: StoragePort<S>
    const execution: ExecutionPort
    const ids: IdSupply
    var issued: nat
    ghost var calls: seq<PortCall>

    /** `TaskScheduler::new`. */
    constructor (storage: StoragePort<S>, store: S, execution: ExecutionPort, ids: IdSupply)
      ensures this.storage == storage && this.store == store
      ensures this.execution == execution && this.ids == ids
      ensures issued == 0 && calls == []
    {
      this.storage := storage;
      this.store := store;
      this.execution := execution;
      this.ids := ids;
      issued := 0;
      calls := [];
    }

    /** `execute_task` on this object's storage and executor. */
    method ExecuteTaskOn(task: Task) returns (r: Result<TaskId, Chain>)
      modifies this
      ensures var run := ExecuteTask(storage, old(store), execution, task);
        && store == run.state && r == run.result && calls == old(calls) + run.calls
      ensures issued == old(issued)
    {
      var outcome := execution(task);
      if outcome.Err? {
        var recorded := Error(Display(outcome.error));
        var (s', done) := storage.complete(store, task, recorded);
        store := s';
        calls := calls + [Execute(task), Complete(task, recorded)];
        if done.Ok? {
          r := Err(Context(ErrorChain(outcome.error), ExecutionFailedContext(task.id)));
        } else {
          r := Err(Context(done.error, CompletionFailedContext(task.id)));
        }
      } else {
        var (s', done) := storage.complete(store, task, outcome.value);
        store := s';
        calls := calls + [Execute(task), Complete(task, outcome.value)];
        if done.Ok? {
          r := Ok(TaskIdOf(task));
        } else {
          r := Err(done.error);
        }
      }
    }

    /** `schedule_task`: draws exactly one id and runs the steps of `Schedule`. */
    method ScheduleTask(input: TaskInput) returns (r: Result<TaskId, Chain>)
      modifies this
      ensures issued == old(issued) + 1
      ensures var run := Schedule(storage, old(store), execution, ids(old(issued)), input);
        && store == run.state && r == run.result && calls == old(calls) + run.calls
    {
      var id := ids(issued);
      issued := issued + 1;
      var task := MakeTask(input, id);
      var (s', saved) := storage.save(store, task);
      store := s';
      calls := calls + [GenerateId(id), Save(task)];
      if saved.Err? {
        r := Err(Context(Context(saved.error, STORING_CONTEXT), EXECUTION_CONTEXT));
      } else {
        var executed := ExecuteTaskOn(saved.value);
        if executed.Err? {
          r := Err(Context(executed.error, EXECUTION_CONTEXT));
        } else {
          r := executed;
        }
      }
    }

    /** `task_status`. */
    method TaskStatus(id: TaskId) returns (r: Result<TaskStatus, Chain>)
      modifies this
      ensures issued == old(issued)
      ensures var run := TaskStatusOf(storage, old(store), id);
        && store == run.state && r == run.result && calls == old(calls) + run.calls
    {
      var (s', found) := storage.status(store, id);
      store := s';
      calls := calls + [StatusOf(id)];
      if found.Err? {
        r := Err(Context(found.error, STATUS_CONTEXT));
      } else {
        r := found;
      }
    }
  }
}
