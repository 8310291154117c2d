/**
 * The database row codec: the conversion of a task and its status to a `tasks`
 * row (`From<(&Task, &TaskStatus)> for DbTask`) and back
 * (`TryInto<(Task, TaskStatus)> for DbTask` with `parse_env_var`).
 *
 * The three snapshots of the codec (two `commands.rs` files and the oldest
 * `database.rs`) compute the same function; only the oldest spells the status
 * strings as literals instead of the constants, and `UpdateColumns` checks that
 * its literals agree with them.
 *
 * The status part round-trips. The env part does not: it is written as
 * `key:value` segments but read back by splitting each segment at its first
 * `=`; `EnvAsWrittenCollapses` states the consequence and `EnvIntendedRoundTrip`
 * proves that the `key=value` encoding the comment beside the encoder announces
 * would round-trip.
 */
module RowCodec {
  import opened Wrappers
  import opened Model
  import opened Text

  const SCHEDULED: string := "SCHEDULED"
  const SUCCESS: string := "SUCCESS"
  const ERROR: string := "ERROR"

  /** The two missing-log errors; the `{}` is part of the message, since `anyhow!` is given no argument. */
  const MISSING_SUCCESS_LOG: string := "Task {} is defined in database as SUCCES but doesn't have any status_log"
  const MISSING_ERROR_LOG: string := "Task {} is defined in database as ERROR but doesn't have any status_log"

  function InvalidStatus(status: string): string
  {
    status + " is not a valid status"
  }

  /** One row of the `tasks` table. */
  datatype DbTask = DbTask(
    id: string,
    name: Option<string>,
    command: string,
    env: Option<string>,
    status: string,
    statusLog: Option<string>)

  /** Decoding the `status` and `status_log` columns. */
  function DecodeStatus(status: string, log: Option<string>): (r: Result<TaskStatus, Chain>)
    ensures r.Ok? <==> status == SCHEDULED || ((status == SUCCESS || status == ERROR) && log.Some?)
    ensures status == SCHEDULED ==> r == Ok(Scheduled)
    ensures status == SUCCESS && log.Some? ==> r == Ok(Success(log.value))
    ensures status == ERROR && log.Some? ==> r == Ok(Error(log.value))
    ensures status == SUCCESS && log.None? ==> r == Err([MISSING_SUCCESS_LOG])
    ensures status == ERROR && log.None? ==> r == Err([MISSING_ERROR_LOG])
    ensures status != SCHEDULED && status != SUCCESS && status != ERROR ==> r == Err([InvalidStatus(status)])
  {
    if status == SCHEDULED then Ok(Scheduled)
    else if status == SUCCESS then
      match log
      case Some(stdout) => Ok(Success(stdout))
      case None => Err(Message(MISSING_SUCCESS_LOG))
    else if status == ERROR then
      match log
      case Some(stderr) => Ok(Error(stderr))
      case None => Err(Message(MISSING_ERROR_LOG))
    else Err(Message(InvalidStatus(status)))
  }

  /** Encoding a status as the `status` and `status_log` columns: a log exactly for the terminal states. */
  function StatusColumns(status: TaskStatus): (r: (string, Option<string>))
    ensures r.0 == SCHEDULED || r.0 == SUCCESS || r.0 == ERROR
    ensures r.1.None? <==> status.Scheduled?
    ensures DecodeStatus(r.0, r.1) == Ok(status)
  {
    match status
    case Scheduled => (SCHEDULED, None)
    case Success(stdout) => (SUCCESS, Some(stdout))
    case Error(stderr) => (ERROR, Some(stderr))
  }

  /** Distinct status values are stored as distinct column pairs. */
  lemma StatusColumnsInjective(s: TaskStatus, t: TaskStatus)
    requires StatusColumns(s) == StatusColumns(t)
    ensures s == t
  {
    assert DecodeStatus(StatusColumns(s).0, StatusColumns(s).1) == Ok(s);
  }

  /** `order` is an iteration order of the map: every key exactly once. */
  ghost predicate KeyOrder(env: map<string, string>, order: seq<string>)
  {
    (forall k :: k in env <==> k in order) &&
    (forall i, j :: 0 <= i < j < |order| ==> order[i] != order[j])
  }

  /** The entries of the map, in the given order, each as key, separator, value. */
  function Entries(env: map<string, string>, order: seq<string>, sep: char): (r: seq<string>)
    requires forall k :: k in order ==> k in env
    ensures |r| == |order|
    ensures forall i :: 0 <= i < |order| ==> r[i] == order[i] + [sep] + env[order[i]]
    decreases |order|
  {
    if |order| == 0 then []
    else [order[0] + [sep] + env[order[0]]] + Entries(env, order[1..], sep)
  }

  /** The env column as written: `key:value` entries in iteration order, joined by `;`. */
  function EncodeEnv(env: map<string, string>, order: seq<string>): (r: string)
    requires KeyOrder(env, order)
    ensures r == "" <==> |env| == 0
  {
    assert |env| == 0 <==> |order| == 0 by {
      if |order| > 0 { assert order[0] in env; }
      if |env| > 0 { var k :| k in env; assert k in order; }
    }
    Join(Entries(env, order, ':'), ";")
  }

  /** The env column as the comment beside the encoder describes it: `KEY=VAL;KEY2=VAL2`. */
  function EncodeEnvIntended(env: map<string, string>, order: seq<string>): string
    requires KeyOrder(env, order)
  {
    Join(Entries(env, order, '='), ";")
  }

  /** One `;`-segment read back: split at the first `=`, or ("", "") without one. */
  function EnvPair(segment: string): (r: (string, string))
    ensures '=' in segment ==> segment == r.0 + "=" + r.1 && '=' !in r.0
    ensures '=' !in segment ==> r == ("", "")
  {
    match SplitOnce(segment, '=')
    case Some(pair) => pair
    case None => ("", "")
  }

  function Pairs(segments: seq<string>): (r: seq<(string, string)>)
    ensures |r| == |segments|
    ensures forall i :: 0 <= i < |segments| ==> r[i] == EnvPair(segments[i])
    decreases |segments|
  {
    if |segments| == 0 then []
    else [EnvPair(segments[0])] + Pairs(segments[1..])
  }

  /** `HashMap::from` a vector of pairs: every key of the vector, a later pair overriding an earlier one. */
  function FromPairs(pairs: seq<(string, string)>): (m: map<string, string>)
    ensures m.Keys == set i | 0 <= i < |pairs| :: pairs[i].0
    ensures forall i :: (0 <= i < |pairs| && (forall j :: i < j < |pairs| ==> pairs[j].0 != pairs[i].0)
      ==> m[pairs[i].0] == pairs[i].1)
    decreases |pairs|
  {
    if |pairs| == 0 then map[]
    else
      var init := pairs[..|pairs| - 1];
      var m := FromPairs(init)[pairs[|pairs| - 1].0 := pairs[|pairs| - 1].1];
      assert forall i :: 0 <= i < |init| ==> init[i] == pairs[i];
      m
  }

  /**
   * `parse_env_var`: never the empty map, since `split` yields at least one
   * segment, and no key holds `=` or `;`.
   */
  function ParseEnv(source: string): (r: map<string, string>)
    ensures |r| > 0
    ensures forall k :: k in r ==> '=' !in k && ';' !in k
  {
    var segments := Split(source, ';');
    var pairs := Pairs(segments);
    assert pairs[0].0 in FromPairs(pairs);
    FromPairs(pairs)
  }

  /** The row `From<(&Task, &TaskStatus)>` builds, given the env map's iteration order. */
  function ToRow(task: Task, status: TaskStatus, order: seq<string>): (r: DbTask)
    requires task.env.Some? ==> KeyOrder(task.env.value, order)
    ensures r.id == task.id && r.name == task.name && r.command == task.command
    ensures (r.status, r.statusLog) == StatusColumns(status)
    ensures r.env.None? <==> task.env.None?
    ensures task.env.Some? ==> r.env == Some(EncodeEnv(task.env.value, order))
  {
    var (status, log) := StatusColumns(status);
    DbTask(
      task.id,
      task.name,
      task.command,
      match task.env
      case Some(env) => Some(EncodeEnv(env, order))
      case None => None,
      status,
      log)
  }

  /** `TryInto<(Task, TaskStatus)>`: fails exactly when the status columns do not decode. */
  function FromRow(row: DbTask): (r: Result<(Task, TaskStatus), Chain>)
    ensures r.Ok? <==> DecodeStatus(row.status, row.statusLog).Ok?
    ensures r.Err? ==> r == Err(DecodeStatus(row.status, row.statusLog).error)
    ensures r.Ok? ==> r.value.1 == DecodeStatus(row.status, row.statusLog).value
    ensures r.Ok? ==> r.value.0.id == row.id && r.value.0.name == row.name && r.value.0.command == row.command
    ensures r.Ok? ==> (r.value.0.env.None? <==> row.env.None?)
    ensures r.Ok? && row.env.Some? ==> r.value.0.env == Some(ParseEnv(row.env.value))
  {
    match DecodeStatus(row.status, row.statusLog)
    case Err(e) => Err(e)
    case Ok(status) =>
      var env := match row.env
        case Some(source) => Some(ParseEnv(source))
        case None => None;
      Ok((Task(row.id, row.name, row.command, env), status))
  }

  /** `create_task` always inserts a `Scheduled` row: "SCHEDULED" with no log. */
  function InsertRow(task: Task, order: seq<string>): (r: DbTask)
    requires task.env.Some? ==> KeyOrder(task.env.value, order)
    ensures r.status == SCHEDULED && r.statusLog.None?
    ensures FromRow(r).Ok? && FromRow(r).value.1 == Scheduled
  {
    ToRow(task, Scheduled, order)
  }

  /**
   * The oldest store's `complete`: the key and the two columns given to
   * `update_task`, spelled with literal status strings. The key is the task's
   * id even for a named task, and the columns are those the insert encoding uses.
   */
  function UpdateColumns(task: Task, status: TaskStatus): (r: (string, string, Option<string>))
    ensures r.0 == task.id
    ensures (r.1, r.2) == StatusColumns(status)
  {
    match status
    case Scheduled => (task.id, "SCHEDULED", None)
    case Success(stdout) => (task.id, "SUCCESS", Some(stdout))
    case Error(stderr) => (task.id, "ERROR", Some(stderr))
  }

  /** Status, id, name and command survive encode-then-decode; an absent env stays absent. */
  lemma RowRoundTrip(task: Task, status: TaskStatus, order: seq<string>)
    requires task.env.Some? ==> KeyOrder(task.env.value, order)
    ensures FromRow(ToRow(task, status, order)).Ok?
    ensures FromRow(ToRow(task, status, order)).value.1 == status
    ensures FromRow(ToRow(task, status, order)).value.0.(env := task.env) == task
    ensures task.env.None? ==> FromRow(ToRow(task, status, order)) == Ok((task, status))
  {
  }

  /** A text that a key or value free of `c` cannot spoil: no entry holds `c` unless the separator is `c`. */
  lemma EntriesWithout(env: map<string, string>, order: seq<string>, sep: char, c: char)
    requires forall k :: k in order ==> k in env
    requires sep != c
    requires forall k :: k in env ==> c !in k && c !in env[k]
    ensures forall i :: 0 <= i < |order| ==> c !in Entries(env, order, sep)[i]
  {
    forall i | 0 <= i < |order|
      ensures c !in Entries(env, order, sep)[i]
    {
      assert Entries(env, order, sep)[i] == order[i] + [sep] + env[order[i]];
    }
  }

  /** A vector of ("", "") pairs, at least one, builds the map {"": ""}. */
  lemma {:induction false} FromBlankPairs(pairs: seq<(string, string)>)
    requires |pairs| > 0
    requires forall i :: 0 <= i < |pairs| ==> pairs[i] == ("", "")
    ensures FromPairs(pairs) == map["" := ""]
    decreases |pairs|
  {
    if |pairs| > 1 {
      FromBlankPairs(pairs[..|pairs| - 1]);
    }
  }

  /**
   * As written, the env column does not round-trip: a map whose keys and values
   * hold no `=`, the empty map included, is read back as {"": ""}.
   */
  lemma EnvAsWrittenCollapses(env: map<string, string>, order: seq<string>)
    requires KeyOrder(env, order)
    requires forall k :: k in env ==> '=' !in k && '=' !in env[k]
    ensures ParseEnv(EncodeEnv(env, order)) == map["" := ""]
  {
    var entries := Entries(env, order, ':');
    EntriesWithout(env, order, ':', '=');
    var source := EncodeEnv(env, order);
    var segments := Split(source, ';');
    forall i | 0 <= i < |segments|
      ensures '=' !in segments[i]
    {
      if '=' in segments[i] {
        SplitChars(source, ';', i, '=');
      }
    }
    FromBlankPairs(Pairs(segments));
  }

  /** With keys and values free of `;`, splitting the column gives back exactly the written entries. */
  lemma EncodeEnvSegments(env: map<string, string>, order: seq<string>)
    requires KeyOrder(env, order)
    requires |env| > 0
    requires forall k :: k in env ==> ';' !in k && ';' !in env[k]
    ensures Split(EncodeEnv(env, order), ';') == Entries(env, order, ':')
  {
    var k0 :| k0 in env;
    assert k0 in order;
    EntriesWithout(env, order, ':', ';');
    SplitJoin(Entries(env, order, ':'), ';');
  }

  /** A concrete instance: {"A": "1", "B": "2"} is stored as "A:1;B:2" and read back as {"": ""}. */
  lemma EnvAsWrittenExample()
    ensures EncodeEnv(map["A" := "1", "B" := "2"], ["A", "B"]) == "A:1;B:2"
    ensures ParseEnv(EncodeEnv(map["A" := "1", "B" := "2"], ["A", "B"])) == map["" := ""]
  {
    var env := map["A" := "1", "B" := "2"];
    var entries := Entries(env, ["A", "B"], ':');
    assert entries == ["A:1", "B:2"] by {
      assert entries[0] == "A" + [':'] + "1" == "A:1";
      assert entries[1] == "B" + [':'] + "2" == "B:2";
    }
    JoinPair("A:1", "B:2", ";");
    assert "A:1" + ";" + "B:2" == "A:1;B:2";
    EnvAsWrittenCollapses(env, ["A", "B"]);
  }

  /** Pairs whose keys and values follow an order of the map's keys build exactly the map's entries for those keys. */
  lemma {:induction false} FromOrderedPairs(env: map<string, string>, order: seq<string>, pairs: seq<(string, string)>)
    requires forall k :: k in order ==> k in env
    requires |pairs| == |order|
    requires forall i :: 0 <= i < |order| ==> pairs[i] == (order[i], env[order[i]])
    ensures forall k :: k in FromPairs(pairs) <==> k in order
    ensures forall k :: k in order ==> FromPairs(pairs)[k] == env[k]
    decreases |pairs|
  {
    if |pairs| > 0 {
      var n := |pairs| - 1;
      FromOrderedPairs(env, order[..n], pairs[..n]);
      assert order == order[..n] + [order[n]];
      forall k
        ensures k in FromPairs(pairs) <==> k in order
      {
        assert k in order <==> k in order[..n] || k == order[n];
      }
    }
  }

  /**
   * The intended `key=value` encoding round-trips every non-empty map whose keys
   * hold neither `=` nor `;` and whose values hold no `;`.
   */
  lemma EnvIntendedRoundTrip(env: map<string, string>, order: seq<string>)
    requires KeyOrder(env, order)
    requires |env| > 0
    requires forall k :: k in env ==> '=' !in k && ';' !in k && ';' !in env[k]
    ensures ParseEnv(EncodeEnvIntended(env, order)) == env
  {
    var pairs := IntendedPairs(env, order);
    FromOrderedPairs(env, order, pairs);
    SameEntries(FromPairs(pairs), env, order);
  }

  /** Two maps with the keys of `order` that agree on each of them are equal. */
  lemma SameEntries(m: map<string, string>, env: map<string, string>, order: seq<string>)
    requires forall k :: k in m <==> k in order
    requires forall k :: k in env <==> k in order
    requires forall k :: k in order ==> m[k] == env[k]
    ensures m == env
  {
    assert m.Keys == env.Keys;
  }

  /** Reading the intended encoding back yields one (key, value) pair per entry, in order. */
  lemma IntendedPairs(env: map<string, string>, order: seq<string>) returns (pairs: seq<(string, string)>)
    requires KeyOrder(env, order)
    requires |env| > 0
    requires forall k :: k in env ==> '=' !in k && ';' !in k && ';' !in env[k]
    ensures pairs == Pairs(Split(EncodeEnvIntended(env, order), ';'))
    ensures |pairs| == |order|
    ensures forall i :: 0 <= i < |order| ==> pairs[i] == (order[i], env[order[i]])
  {
    var k0 :| k0 in env;
    assert k0 in order;
    var entries := Entries(env, order, '=');
    EntriesWithout(env, order, '=', ';');
    SplitJoin(entries, ';');
    pairs := Pairs(entries);
    forall i | 0 <= i < |order|
      ensures pairs[i] == (order[i], env[order[i]])
    {
      SplitOnceAt(order[i], '=', env[order[i]]);
    }
  }

  /** Even the intended encoding loses the empty map: it is stored as "" and read back as {"": ""}. */
  lemma EmptyEnvCollapses()
    ensures EncodeEnv(map[], []) == EncodeEnvIntended(map[], []) == ""
    ensures ParseEnv("") == map["" := ""]
  {
    assert Split("", ';') == [""];
    FromBlankPairs(Pairs([""]));
  }

  /** The row with the env column as intended. */
  function ToRowIntended(task: Task, status: TaskStatus, order: seq<string>): (r: DbTask)
    requires task.env.Some? ==> KeyOrder(task.env.value, order)
    ensures r.(env := None) == ToRow(task, status, order).(env := None)
    ensures r.env.None? <==> task.env.None?
    ensures task.env.Some? ==> r.env == Some(EncodeEnvIntended(task.env.value, order))
  {
    match task.env
    case Some(env) => ToRow(task, status, order).(env := Some(EncodeEnvIntended(env, order)))
    case None => ToRow(task, status, order)
  }

  /** With the intended env encoding the whole row round-trips, for no env or a non-empty clean one. */
  lemma RowIntendedRoundTrip(task: Task, status: TaskStatus, order: seq<string>)
    requires task.env.Some? ==> KeyOrder(task.env.value, order)
    requires task.env.Some? ==> |task.env.value| > 0
    requires task.env.Some? ==> forall k :: k in task.env.value ==> '=' !in k && ';' !in k && ';' !in task.env.value[k]
    ensures FromRow(ToRowIntended(task, status, order)) == Ok((task, status))
  {
    if task.env.Some? {
      EnvIntendedRoundTrip(task.env.value, order);
    }
  }

  /** As written, a row whose env holds no `=` comes back with the env {"": ""}. */
  lemma RowEnvAsWritten(task: Task, status: TaskStatus, order: seq<string>)
    requires task.env.Some? && KeyOrder(task.env.value, order)
    requires forall k :: k in task.env.value ==> '=' !in k && '=' !in task.env.value[k]
    ensures FromRow(ToRow(task, status, order)) == Ok((task.(env := Some(map["" := ""])), status))
  {
    EnvAsWrittenCollapses(task.env.value, order);
  }
}
