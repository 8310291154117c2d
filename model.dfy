/**
 * The entity model of the task executor: tasks, their status, the two ways of
 * naming a task, the execution error taxonomy, and the error chains the service
 * reports (an `anyhow::Error` is a chain of messages, outermost context first).
 */
module Model {
  import opened Wrappers

  /** A unit of work: a shell command with an optional name and environment. */
  datatype Task = Task(id: string, name: Option<string>, command: string, env: Option<map<string, string>>)

  /** Lifecycle state of a task. */
  datatype TaskStatus = Scheduled | Success(output: string) | Error(message: string)

  /** A reference to a task, by generated id or by user-supplied name. */
  datatype TaskId = Id(id: string) | Name(name: string)

  /** `From<&Task> for TaskId`: the name, when the task has one, wins over the id. */
  function TaskIdOf(task: Task): (r: TaskId)
    ensures r.Name? <==> task.name.Some?
    ensures r.Id? ==> r.id == task.id
    ensures r.Name? ==> Some(r.name) == task.name
  {
    match task.name
    case Some(n) => Name(n)
    case None => Id(task.id)
  }

  lemma TaskIdOfPrefersName(task: Task)
    ensures task.name.Some? <==> TaskIdOf(task).Name?
    ensures task.name.Some? ==> TaskIdOf(task) == Name(task.name.value)
    ensures task.name.None? ==> TaskIdOf(task) == Id(task.id)
  {
  }

  /** The derived identifier reads only `id` and `name`, never `command` or `env`. */
  lemma TaskIdIgnoresCommandAndEnv(t1: Task, t2: Task)
    requires t1.id == t2.id && t1.name == t2.name
    ensures TaskIdOf(t1) == TaskIdOf(t2)
  {
  }

  /** Two tasks sharing a name derive the same identifier, whatever their ids. */
  lemma SameNameSameTaskId(t1: Task, t2: Task)
    requires t1.name.Some? && t1.name == t2.name
    ensures TaskIdOf(t1) == TaskIdOf(t2)
  {
  }

  /**
   * An `anyhow::Error`, as the list of its messages: element 0 is what
   * `Display` prints, the rest is the chain of causes.
   */
  type Chain = c: seq<string> | |c| > 0 witness ["error"]

  /** `anyhow!(msg)`: an error with a single message. */
  function Message(msg: string): Chain
  {
    [msg]
  }

  /** `.context(msg)`: a new outermost message over the existing chain. */
  function Context(c: Chain, msg: string): (r: Chain)
    ensures r[0] == msg && r[1..] == c
  {
    [msg] + c
  }

  /** `{:?}` of a `String`: the text between double quotes (escaping is not modelled). */
  function DebugString(s: string): string
  {
    "\"" + s + "\""
  }

  /** `{:?}` of a `TaskId`, as derived by `#[derive(Debug)]`. */
  function DebugTaskId(id: TaskId): string
  {
    match id
    case Id(x) => "Id(" + DebugString(x) + ")"
    case Name(n) => "Name(" + DebugString(n) + ")"
  }

  /**
   * Execution failures. `UnexpectedError` is the variant the process adapter
   * produces when an output stream is not valid UTF-8.
   */
  datatype TaskError =
    | CommandError(log: string)
    | ExecutionError(source: Chain)
    | UnexpectedError

  const COMMAND_ERROR_PREFIX: string := "Error running the command. Logs : \n "
  const EXECUTION_ERROR_DISPLAY: string := "Error executing the command"
  /** The source tree gives this variant no message; the model fixes one. */
  const UNEXPECTED_ERROR_DISPLAY: string := "Unexpected error"

  /**
   * `error.to_string()`, the `#[error(...)]` strings of the enum. A displayed
   * error starts with the command-error prefix exactly when it is a
   * `CommandError`, whose log is everything after the prefix.
   */
  function Display(e: TaskError): (r: string)
    ensures e.CommandError? <==> |COMMAND_ERROR_PREFIX| <= |r| && r[..|COMMAND_ERROR_PREFIX|] == COMMAND_ERROR_PREFIX
    ensures e.CommandError? ==> r[|COMMAND_ERROR_PREFIX|..] == e.log
  {
    match e
    case CommandError(log) => COMMAND_ERROR_PREFIX + log
    case ExecutionError(_) => EXECUTION_ERROR_DISPLAY
    case UnexpectedError => UNEXPECTED_ERROR_DISPLAY
  }

  /** `anyhow::Error::from(e)`: the display of `e`, then the chain of its source. */
  function ErrorChain(e: TaskError): (r: Chain)
    ensures r[0] == Display(e)
  {
    match e
    case ExecutionError(source) => [Display(e)] + source
    case _ => [Display(e)]
  }

  /** The displayed text of a command error keeps the captured stderr recoverable. */
  lemma CommandErrorDisplayInjective(a: string, b: string)
    requires Display(CommandError(a)) == Display(CommandError(b))
    ensures a == b
  {
    var p := COMMAND_ERROR_PREFIX;
    assert a == (p + a)[|p|..];
    assert b == (p + b)[|p|..];
  }
}
