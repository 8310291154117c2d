/**
 * The older in-memory `TaskStorageAdapter`. Its record type, conversion and
 * matching rule are those of `MemoryStorage`; it differs in `status`, which
 * answers the first matching record and never detects ambiguity, and in its
 * error messages.
 */
module LegacyStorage {
  import opened Wrappers
  import opened Model
  import Ports
  import opened MemoryStorage

  const NOT_FOUND: string := "Can't find task"

  /** `status`: `iter().find(..)`, the status of the first matching record. */
  function FirstStatusOf(tasks: seq<StoredTask>, id: TaskId): (r: Result<TaskStatus, Chain>)
    ensures r.Ok? <==> exists i :: 0 <= i < |tasks| && Matches(tasks[i], id)
    ensures r.Ok? ==> exists i :: (0 <= i < |tasks| && Matches(tasks[i], id)
      && (forall j :: 0 <= j < i ==> !Matches(tasks[j], id)) && r.value == tasks[i].status)
    ensures r.Err? ==> r.error == [NOT_FOUND]
  {
    match Position(tasks, id)
    case Some(i) => Ok(tasks[i].status)
    case None => Err(Message(NOT_FOUND))
  }

  /** `complete`: as in the newer store, but failing with "Can't find task". */
  function LegacyCompleteOf(tasks: seq<StoredTask>, task: Task, status: TaskStatus): (r: (seq<StoredTask>, Result<(), Chain>))
    ensures |r.0| == |tasks|
    ensures r.1.Ok? <==> exists i :: 0 <= i < |tasks| && Matches(tasks[i], TaskIdOf(task))
    ensures r.1.Ok? ==> exists i :: (0 <= i < |tasks| && Matches(tasks[i], TaskIdOf(task))
      && (forall j :: 0 <= j < i ==> !Matches(tasks[j], TaskIdOf(task)))
      && r.0 == tasks[i := Completed(task, status)])
    ensures r.1.Err? ==> r.0 == tasks && r.1 == Err([NOT_FOUND])
  {
    match Position(tasks, TaskIdOf(task))
    case Some(i) => (tasks[i := Completed(task, status)], Ok(()))
    case None => (tasks, Err(Message(NOT_FOUND)))
  }

  /** This store as the service sees it through `TaskStoragePort`. */
  function LegacyPort(): Ports.StoragePort<seq<StoredTask>>
  {
    Ports.StoragePort(
      (tasks: seq<StoredTask>, task: Task) => (tasks + [FromTask(task)], Ok(task)),
      (tasks: seq<StoredTask>, id: TaskId) => (tasks, FirstStatusOf(tasks, id)),
      (tasks: seq<StoredTask>, task: Task, status: TaskStatus) => LegacyCompleteOf(tasks, task, status))
  }

  /** `status` is the status of the earliest matching record, or "Can't find task" when none matches. */
  lemma FirstStatusIsEarliest(tasks: seq<StoredTask>, id: TaskId, i: nat)
    requires i < |tasks| && Matches(tasks[i], id)
    requires forall j :: 0 <= j < i ==> !Matches(tasks[j], id)
    ensures FirstStatusOf(tasks, id) == Ok(tasks[i].status)
  {
    var p := Position(tasks, id);
    assert p.Some?;
  }

  lemma FirstStatusNotFound(tasks: seq<StoredTask>, id: TaskId)
    requires NoMatch(tasks, id)
    ensures FirstStatusOf(tasks, id) == Err([NOT_FOUND])
  {
  }

  /** With exactly one matching record both snapshots answer the same status. */
  lemma SnapshotsAgreeOnOnlyMatch(tasks: seq<StoredTask>, id: TaskId, i: nat)
    requires OnlyMatch(tasks, id, i)
    ensures FirstStatusOf(tasks, id) == StatusOf(tasks, id) == Ok(tasks[i].status)
  {
    FirstStatusIsEarliest(tasks, id, i);
    StatusOfCases(tasks, id);
  }

  /** With several matching records the newer store fails while the older one answers the first. */
  lemma SnapshotsDifferOnSeveralMatches(tasks: seq<StoredTask>, id: TaskId)
    requires SeveralMatches(tasks, id)
    ensures FirstStatusOf(tasks, id).Ok? && StatusOf(tasks, id).Err?
  {
    var i, j :| 0 <= i < j < |tasks| && Matches(tasks[i], id) && Matches(tasks[j], id);
    assert Position(tasks, id).Some?;
    StatusOfCases(tasks, id);
  }

  /** Both snapshots complete alike, except for the wording of the missing-record error. */
  lemma SnapshotsCompleteAlike(tasks: seq<StoredTask>, task: Task, status: TaskStatus)
    ensures LegacyCompleteOf(tasks, task, status).0 == CompleteOf(tasks, task, status).0
    ensures LegacyCompleteOf(tasks, task, status).1.Ok? <==> CompleteOf(tasks, task, status).1.Ok?
  {
  }

  /** The older in-memory adapter. */
  class TaskStorageAdapter {
    var tasks: seq<StoredTask>

    /** `TaskStorageAdapter::new`. */
    constructor ()
      ensures tasks == []
    {
      tasks := [];
    }

    /** `save`: appends one `Scheduled` copy and hands the task back; no uniqueness check. */
    method Save(task: Task) returns (r: Result<Task, Chain>)
      modifies this
      ensures r == Ok(task)
      ensures tasks == old(tasks) + [FromTask(task)]
    {
      tasks := tasks + [FromTask(task)];
      r := Ok(task);
    }

    /** `status`: the status of the first matching record, or "Can't find task". */
    method Status(id: TaskId) returns (r: Result<TaskStatus, Chain>)
      ensures r == FirstStatusOf(tasks, id)
      ensures forall i :: 0 <= i < |tasks| && Matches(tasks[i], id) && (forall j :: 0 <= j < i ==> !Matches(tasks[j], id))
                ==> r == Ok(tasks[i].status)
      ensures NoMatch(tasks, id) ==> r == Err([NOT_FOUND])
    {
      if NoMatch(tasks, id) {
        FirstStatusNotFound(tasks, id);
      }
      var found := Position(tasks, id);
      match found
      case Some(i) => r := Ok(tasks[i].status);
      case None => r := Err(Message(NOT_FOUND));
    }

    /**
     * `complete`: replaces only the first record matching the task's derived
     * identifier; without a match the store is unchanged and the call fails.
     */
    method Complete(task: Task, status: TaskStatus) returns (r: Result<(), Chain>)
      modifies this
      ensures (tasks, r) == LegacyCompleteOf(old(tasks), task, status)
      ensures |tasks| == |old(tasks)|
      ensures match Position(old(tasks), TaskIdOf(task))
        case Some(i) => r == Ok(()) && tasks[i] == Completed(task, status)
                        && (forall j :: 0 <= j < |tasks| && j != i ==> tasks[j] == old(tasks)[j])
        case None => r == Err([NOT_FOUND]) && tasks == old(tasks)
    {
      var index := Position(tasks, TaskIdOf(task));
      match index
      case Some(i) =>
        tasks := tasks[i := Completed(task, status)];
        r := Ok(());
      case None =>
        r := Err(Message(NOT_FOUND));
    }
  }
}
