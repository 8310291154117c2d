/**
 * `InMemoryStorageAdapter`: the store as a vector of stored records, grown by
 * `save` and updated in place by `complete`. The record type, its conversion
 * from a task and the matching rule are shared, unchanged, with the older
 * `TaskStorageAdapter` (module `LegacyStorage`).
 */
module MemoryStorage {
  import opened Wrappers
  import opened Model
  import Ports

  /** One stored task with its current status. */
  datatype StoredTask = StoredTask(
    id: string, name: Option<string>, command: string, env: Option<map<string, string>>, status: TaskStatus)

  /** `StoredTask::from(&task)`: a copy of the task's fields, `Scheduled`. */
  function FromTask(task: Task): StoredTask
  {
    StoredTask(task.id, task.name, task.command, task.env, Scheduled)
  }

  /** The record `complete` writes: the task's fields with the given status. */
  function Completed(task: Task, status: TaskStatus): StoredTask
  {
    FromTask(task).(status := status)
  }

  /** `PartialEq<TaskId> for &StoredTask`: an `Id` compares ids, a `Name` needs a present, equal name. */
  predicate Matches(stored: StoredTask, id: TaskId)
  {
    match id
    case Id(x) => stored.id == x
    case Name(n) => stored.name == Some(n)
  }

  lemma MatchingRule(stored: StoredTask, x: string)
    ensures Matches(stored, Id(x)) <==> stored.id == x
    ensures Matches(stored, Name(x)) <==> stored.name == Some(x)
    ensures stored.name.None? ==> !Matches(stored, Name(x))
  {
  }

  /** A stored copy of a task, whatever its status, matches the identifier derived from the task. */
  lemma StoredCopyMatchesTask(task: Task, status: TaskStatus)
    ensures FromTask(task) == StoredTask(task.id, task.name, task.command, task.env, Scheduled)
    ensures Matches(FromTask(task), TaskIdOf(task)) && Matches(Completed(task, status), TaskIdOf(task))
  {
  }

  /** `iter().position(..)`: the first matching index. */
  function Position(tasks: seq<StoredTask>, id: TaskId): (r: Option<nat>)
    ensures r.Some? ==> r.value < |tasks| && Matches(tasks[r.value], id)
    ensures r.Some? ==> forall j :: 0 <= j < r.value ==> !Matches(tasks[j], id)
    ensures r.None? ==> forall j :: 0 <= j < |tasks| ==> !Matches(tasks[j], id)
  {
    if |tasks| == 0 then None
    else if Matches(tasks[0], id) then Some(0)
    else match Position(tasks[1..], id)
      case None => None
      case Some(k) => Some(k + 1)
  }

  /** `iter().filter(..).collect()`: the matching records, in store order. */
  function Matching(tasks: seq<StoredTask>, id: TaskId): (r: seq<StoredTask>)
    ensures |r| <= |tasks|
    ensures forall k :: 0 <= k < |r| ==> Matches(r[k], id)
  {
    if |tasks| == 0 then []
    else Matching(tasks[..|tasks| - 1], id) + (if Matches(tasks[|tasks| - 1], id) then [tasks[|tasks| - 1]] else [])
  }

  ghost predicate NoMatch(tasks: seq<StoredTask>, id: TaskId)
  {
    forall i :: 0 <= i < |tasks| ==> !Matches(tasks[i], id)
  }

  /** Index `i` is the one and only record matching `id`. */
  ghost predicate OnlyMatch(tasks: seq<StoredTask>, id: TaskId, i: int)
  {
    0 <= i < |tasks| && Matches(tasks[i], id) && forall j :: 0 <= j < |tasks| && j != i ==> !Matches(tasks[j], id)
  }

  ghost predicate SeveralMatches(tasks: seq<StoredTask>, id: TaskId)
  {
    exists i, j :: 0 <= i < j < |tasks| && Matches(tasks[i], id) && Matches(tasks[j], id)
  }

  /** Filtering distributes over concatenation. */
  lemma {:induction false} MatchingAppend(a: seq<StoredTask>, b: seq<StoredTask>, id: TaskId)
    ensures Matching(a + b, id) == Matching(a, id) + Matching(b, id)
    decreases |b|
  {
    if |b| == 0 {
      assert a + b == a;
    } else {
      var n := |b| - 1;
      assert (a + b)[..|a + b| - 1] == a + b[..n];
      MatchingAppend(a, b[..n], id);
    }
  }

  /** Filtering finds nothing exactly when no record matches. */
  lemma {:induction false} MatchingEmpty(tasks: seq<StoredTask>, id: TaskId)
    ensures |Matching(tasks, id)| == 0 <==> NoMatch(tasks, id)
    decreases |tasks|
  {
    if |tasks| > 0 {
      var n := |tasks| - 1;
      MatchingEmpty(tasks[..n], id);
      assert forall i :: 0 <= i < n ==> tasks[..n][i] == tasks[i];
    }
  }

  lemma MatchingSingle(x: StoredTask, id: TaskId)
    ensures Matching([x], id) == if Matches(x, id) then [x] else []
  {
    assert [x][..0] == [];
  }

  /** The filtered list of a store cut around index `i`. */
  lemma MatchingAround(tasks: seq<StoredTask>, id: TaskId, i: nat)
    requires i < |tasks|
    ensures Matching(tasks, id)
            == Matching(tasks[..i], id) + Matching([tasks[i]], id) + Matching(tasks[i + 1..], id)
  {
    assert tasks == tasks[..i] + [tasks[i]] + tasks[i + 1..];
    MatchingAppend(tasks[..i] + [tasks[i]], tasks[i + 1..], id);
    MatchingAppend(tasks[..i], [tasks[i]], id);
  }

  /** Cut at the first match, the filtered list is that record, then the filtered rest. */
  lemma MatchingFromFirst(tasks: seq<StoredTask>, id: TaskId, i: nat)
    requires i < |tasks| && Matches(tasks[i], id)
    requires forall j :: 0 <= j < i ==> !Matches(tasks[j], id)
    ensures Matching(tasks, id) == [tasks[i]] + Matching(tasks[i + 1..], id)
  {
    MatchingAround(tasks, id, i);
    MatchingSingle(tasks[i], id);
    var before := tasks[..i];
    assert NoMatch(before, id) by {
      assert forall j :: 0 <= j < i ==> before[j] == tasks[j];
    }
    MatchingEmpty(before, id);
  }

  /** The only match filters to itself alone. */
  lemma MatchingOnly(tasks: seq<StoredTask>, id: TaskId, i: nat)
    requires OnlyMatch(tasks, id, i)
    ensures Matching(tasks, id) == [tasks[i]]
  {
    var p := Position(tasks, id);
    assert p == Some(i);
    MatchingFromFirst(tasks, id, i);
    var rest := tasks[i + 1..];
    MatchingEmpty(rest, id);
    assert NoMatch(rest, id) by {
      assert forall k :: 0 <= k < |rest| ==> rest[k] == tasks[i + 1 + k];
    }
  }

  /** Two matching records filter to at least two. */
  lemma MatchingSeveral(tasks: seq<StoredTask>, id: TaskId, i: nat, j: nat)
    requires i < j < |tasks| && Matches(tasks[i], id) && Matches(tasks[j], id)
    ensures |Matching(tasks, id)| >= 2
  {
    MatchingAround(tasks, id, i);
    var rest := tasks[i + 1..];
    MatchingEmpty(rest, id);
    assert rest[j - i - 1] == tasks[j];
  }

  /** The length of the filtered list tells none, exactly one, or several matching records apart. */
  lemma MatchingCount(tasks: seq<StoredTask>, id: TaskId)
    ensures |Matching(tasks, id)| == 0 <==> NoMatch(tasks, id)
    ensures |Matching(tasks, id)| == 1 <==> exists i :: OnlyMatch(tasks, id, i)
    ensures forall i :: OnlyMatch(tasks, id, i) ==> Matching(tasks, id) == [tasks[i]]
    ensures |Matching(tasks, id)| >= 2 <==> SeveralMatches(tasks, id)
  {
    MatchingEmpty(tasks, id);
    forall i | OnlyMatch(tasks, id, i) ensures Matching(tasks, id) == [tasks[i]] {
      MatchingOnly(tasks, id, i);
    }
    forall i, j | 0 <= i < j < |tasks| && Matches(tasks[i], id) && Matches(tasks[j], id)
      ensures |Matching(tasks, id)| >= 2
    {
      MatchingSeveral(tasks, id, i, j);
    }
    if Position(tasks, id).Some? {
      var i := Position(tasks, id).value;
      MatchingFromFirst(tasks, id, i);
      var rest := tasks[i + 1..];
      MatchingEmpty(rest, id);
      if NoMatch(rest, id) {
        assert OnlyMatch(tasks, id, i) by {
          forall j | 0 <= j < |tasks| && j != i ensures !Matches(tasks[j], id) {
            if j > i { assert tasks[j] == rest[j - i - 1]; }
          }
        }
      } else {
        var k :| 0 <= k < |rest| && Matches(rest[k], id);
        assert Matches(tasks[i + 1 + k], id);
        assert SeveralMatches(tasks, id);
      }
    }
  }

  const NO_MATCH: string := "No task correspond to your selection"
  const SEVERAL_MATCHES: string := "More than 1 task correspond to your selection"

  /** `find_only_one`. */
  function FindOnlyOneOf(tasks: seq<StoredTask>, id: TaskId): (r: Result<StoredTask, Chain>)
    ensures r.Ok? <==> exists i :: OnlyMatch(tasks, id, i)
    ensures forall i :: OnlyMatch(tasks, id, i) ==> r == Ok(tasks[i])
    ensures NoMatch(tasks, id) ==> r == Err([NO_MATCH])
    ensures SeveralMatches(tasks, id) ==> r == Err([SEVERAL_MATCHES])
  {
    MatchingCount(tasks, id);
    var found := Matching(tasks, id);
    if |found| == 1 then Ok(found[0])
    else if |found| == 0 then Err(Message(NO_MATCH))
    else Err(Message(SEVERAL_MATCHES))
  }

  function SearchContext(id: TaskId): string
  {
    "Error searching for id " + DebugTaskId(id)
  }

  /** `status`: the status of the only matching record. */
  function StatusOf(tasks: seq<StoredTask>, id: TaskId): (r: Result<TaskStatus, Chain>)
    ensures r.Ok? <==> exists i :: OnlyMatch(tasks, id, i)
    ensures r.Err? ==> (|r.error| == 2 && r.error[0] == SearchContext(id)
      && (r.error[1] == NO_MATCH || r.error[1] == SEVERAL_MATCHES))
  {
    match FindOnlyOneOf(tasks, id)
    case Ok(stored) => Ok(stored.status)
    case Err(e) => Err(Context(e, SearchContext(id)))
  }

  /** `status` answers exactly in the three cases of the matching records. */
  lemma StatusOfCases(tasks: seq<StoredTask>, id: TaskId)
    ensures forall i :: OnlyMatch(tasks, id, i) ==> StatusOf(tasks, id) == Ok(tasks[i].status)
    ensures NoMatch(tasks, id) ==> StatusOf(tasks, id) == Err([SearchContext(id), NO_MATCH])
    ensures SeveralMatches(tasks, id) ==> StatusOf(tasks, id) == Err([SearchContext(id), SEVERAL_MATCHES])
    ensures StatusOf(tasks, id).Ok? <==> exists i :: OnlyMatch(tasks, id, i)
  {
    MatchingCount(tasks, id);
    assert Context(Message(NO_MATCH), SearchContext(id)) == [SearchContext(id), NO_MATCH];
    assert Context(Message(SEVERAL_MATCHES), SearchContext(id)) == [SearchContext(id), SEVERAL_MATCHES];
  }

  function CompletionError(task: Task): Chain
  {
    Message("Error completing task " + DebugString(task.id))
  }

  /**
   * `complete`: the first record matching the task's derived identifier is
   * replaced by the task's fields with the new status; no match is an error.
   */
  function CompleteOf(tasks: seq<StoredTask>, task: Task, status: TaskStatus): (r: (seq<StoredTask>, Result<(), Chain>))
    ensures |r.0| == |tasks|
    ensures r.1.Ok? <==> exists i :: 0 <= i < |tasks| && Matches(tasks[i], TaskIdOf(task))
    ensures r.1.Ok? ==> exists i :: (0 <= i < |tasks| && Matches(tasks[i], TaskIdOf(task))
      && (forall j :: 0 <= j < i ==> !Matches(tasks[j], TaskIdOf(task)))
      && r.0 == tasks[i := Completed(task, status)])
    ensures r.1.Err? ==> r.0 == tasks && r.1 == Err(CompletionError(task))
  {
    match Position(tasks, TaskIdOf(task))
    case Some(i) => (tasks[i := Completed(task, status)], Ok(()))
    case None => (tasks, Err(CompletionError(task)))
  }

  /** The store as the service sees it through `TaskStoragePort`. */
  function Port(): Ports.StoragePort<seq<StoredTask>>
  {
    Ports.StoragePort(
      (tasks: seq<StoredTask>, task: Task) => (tasks + [FromTask(task)], Ok(task)),
      (tasks: seq<StoredTask>, id: TaskId) => (tasks, StatusOf(tasks, id)),
      (tasks: seq<StoredTask>, task: Task, status: TaskStatus) => CompleteOf(tasks, task, status))
  }

  /** `complete` has no guard on the status it overwrites: the last completion of a task wins. */
  lemma {:induction false} LastCompletionWins(tasks: seq<StoredTask>, task: Task, s1: TaskStatus, s2: TaskStatus)
    ensures CompleteOf(CompleteOf(tasks, task, s1).0, task, s2) == CompleteOf(tasks, task, s2)
  {
    var id := TaskIdOf(task);
    match Position(tasks, id)
    case None =>
    case Some(i) =>
      var once := tasks[i := Completed(task, s1)];
      StoredCopyMatchesTask(task, s1);
      var p := Position(once, id);
      assert forall j :: 0 <= j < i ==> once[j] == tasks[j];
      assert Matches(once[i], id);
      assert p.Some? && p.value == i;
      assert once[i := Completed(task, s2)] == tasks[i := Completed(task, s2)];
  }

  /** Saving a task twice is accepted, after which its identifier is ambiguous for `status`. */
  lemma DuplicateSaveIsAmbiguous(tasks: seq<StoredTask>, task: Task)
    ensures StatusOf(tasks + [FromTask(task), FromTask(task)], TaskIdOf(task))
            == Err([SearchContext(TaskIdOf(task)), SEVERAL_MATCHES])
  {
    var after := tasks + [FromTask(task), FromTask(task)];
    StoredCopyMatchesTask(task, Scheduled);
    assert Matches(after[|tasks|], TaskIdOf(task)) && Matches(after[|tasks| + 1], TaskIdOf(task));
    assert SeveralMatches(after, TaskIdOf(task));
    StatusOfCases(after, TaskIdOf(task));
  }

  /**
   * On a store where nothing matches the task's identifier yet: save, then
   * complete with `s`, then status of that identifier answers `s`.
   */
  lemma SaveCompleteStatus(tasks: seq<StoredTask>, task: Task, s: TaskStatus)
    requires NoMatch(tasks, TaskIdOf(task))
    ensures var saved := tasks + [FromTask(task)];
      && CompleteOf(saved, task, s).1 == Ok(())
      && StatusOf(CompleteOf(saved, task, s).0, TaskIdOf(task)) == Ok(s)
  {
    var id := TaskIdOf(task);
    var saved := tasks + [FromTask(task)];
    StoredCopyMatchesTask(task, s);
    var p := Position(saved, id);
    assert p == Some(|tasks|) by {
      assert Matches(saved[|tasks|], id);
      assert forall j :: 0 <= j < |tasks| ==> saved[j] == tasks[j];
    }
    var done := saved[|tasks| := Completed(task, s)];
    assert OnlyMatch(done, id, |tasks|);
    StatusOfCases(done, id);
  }

  /**
   * A named task saved and completed on a store where neither its name nor its
   * id matched before: status by the name and status by the id answer the same
   * completed status, since the one completed record carries both.
   */
  lemma NameAndIdAgree(tasks: seq<StoredTask>, task: Task, s: TaskStatus)
    requires task.name.Some?
    requires NoMatch(tasks, Name(task.name.value)) && NoMatch(tasks, Id(task.id))
    ensures var done := CompleteOf(tasks + [FromTask(task)], task, s).0;
      && StatusOf(done, Id(task.id)) == Ok(s)
      && StatusOf(done, Name(task.name.value)) == Ok(s)
  {
    SaveCompleteStatus(tasks, task, s);
    var saved := tasks + [FromTask(task)];
    var id := TaskIdOf(task);
    assert Position(saved, id) == Some(|tasks|) by {
      StoredCopyMatchesTask(task, s);
      assert Matches(saved[|tasks|], id);
      assert forall j :: 0 <= j < |tasks| ==> saved[j] == tasks[j];
    }
    var done := saved[|tasks| := Completed(task, s)];
    assert forall j :: 0 <= j < |tasks| ==> done[j] == tasks[j];
    assert OnlyMatch(done, Id(task.id), |tasks|);
    StatusOfCases(done, Id(task.id));
  }

  /** The newer in-memory adapter. */
  class InMemoryStorageAdapter {
    var tasks: seq<StoredTask>

    /** `InMemoryStorageAdapter::new`. */
    constructor ()
      ensures tasks == []
    {
      tasks := [];
    }

    /** `save`: appends one `Scheduled` copy and hands the task back; no uniqueness check. */
    method Save(task: Task) returns (r: Result<Task, Chain>)
      modifies this
      ensures r == Ok(task)
      ensures tasks == old(tasks) + [FromTask(task)]
    {
      tasks := tasks + [FromTask(task)];
      r := Ok(task);
    }

    /** `find_only_one`: the single matching record, or which of the two errors applies. */
    method FindOnlyOne(id: TaskId) returns (r: Result<StoredTask, Chain>)
      ensures forall i :: OnlyMatch(tasks, id, i) ==> r == Ok(tasks[i])
      ensures NoMatch(tasks, id) ==> r == Err([NO_MATCH])
      ensures SeveralMatches(tasks, id) ==> r == Err([SEVERAL_MATCHES])
    {
      MatchingCount(tasks, id);
      r := FindOnlyOneOf(tasks, id);
    }

    /** `status`: reads the only matching record's status; the store is left as it was. */
    method Status(id: TaskId) returns (r: Result<TaskStatus, Chain>)
      ensures r == StatusOf(tasks, id)
      ensures forall i :: OnlyMatch(tasks, id, i) ==> r == Ok(tasks[i].status)
      ensures NoMatch(tasks, id) ==> r == Err([SearchContext(id), NO_MATCH])
      ensures SeveralMatches(tasks, id) ==> r == Err([SearchContext(id), SEVERAL_MATCHES])
    {
      StatusOfCases(tasks, id);
      var found := FindOnlyOne(id);
      match found
      case Ok(stored) => r := Ok(stored.status);
      case Err(e) => r := Err(Context(e, SearchContext(id)));
    }

    /**
     * `complete`: replaces only the first record matching the task's derived
     * identifier; without a match the store is unchanged and the call fails.
     */
    method Complete(task: Task, status: TaskStatus) returns (r: Result<(), Chain>)
      modifies this
      ensures (tasks, r) == CompleteOf(old(tasks), task, status)
      ensures |tasks| == |old(tasks)|
      ensures match Position(old(tasks), TaskIdOf(task))
        case Some(i) => r == Ok(()) && tasks[i] == Completed(task, status)
                        && (forall j :: 0 <= j < |tasks| && j != i ==> tasks[j] == old(tasks)[j])
                        && (forall j :: 0 <= j < i ==> !Matches(old(tasks)[j], TaskIdOf(task)))
        case None => r == Err(CompletionError(task)) && tasks == old(tasks)
    {
      var index := Position(tasks, TaskIdOf(task));
      match index
      case Some(i) =>
        tasks := tasks[i := Completed(task, status)];
        r := Ok(());
      case None =>
        r := Err(CompletionError(task));
    }
  }
}
