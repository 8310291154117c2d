/**
 * The contracts between the lifecycle service and its collaborators.
 *
 * The storage port takes `&mut self`; it is modelled as three functions over
 * the store's state `S`, each returning the new state with its answer. The
 * execution port takes `&self` and is a plain function of the task. The id
 * generator is an infinite supply, the n-th call answering `supply(n)`.
 */
module Ports {
  import opened Wrappers
  import opened Model

  /** What a caller submits to `schedule_task`. */
  datatype TaskInput = TaskInput(name: Option<string>, command: string, env: Option<map<string, string>>)

  /** `TaskStoragePort`: save, status and complete, each a step of the store's state. */
  datatype StoragePort<!S> = StoragePort(
    save: (S, Task) -> (S, Result<Task, Chain>),
    status: (S, TaskId) -> (S, Result<TaskStatus, Chain>),
    complete: (S, Task, TaskStatus) -> (S, Result<(), Chain>))

  /** `TaskExecutionPort::execute`. */
  type ExecutionPort = Task -> Result<TaskStatus, TaskError>

  /** `IdGeneratorPort::generate_id`: the answer to the n-th call. */
  type IdSupply = nat -> string

  /** One call of the service into one of its ports, as recorded in a trace. */
  datatype PortCall =
    | GenerateId(id: string)
    | Save(task: Task)
    | StatusOf(taskId: TaskId)
    | Execute(task: Task)
    | Complete(task: Task, status: TaskStatus)
}
