# Task executor (blueprint-hexagonal-rust) in Dafny

This project models the core of a small hexagonal task executor. A caller submits a
shell command, optionally with a name and an environment. The **task lifecycle
service** (`TaskScheduler`) does the following:

- it gives the submission a generated id and stores it as `Scheduled`;
- it runs the command through an execution port;
- it records the outcome as `Success(stdout)` or `Error(message)`;
- it answers the task's identifier: the name if there is one, the id otherwise.

Status queries are forwarded to the store.

Around the service the model covers these adapters:

- the two in-memory stores (the newer `InMemoryStorageAdapter` and the older
  `TaskStorageAdapter`);
- the database row codec, present in three near-identical snapshots;
- the local process adapter, which tokenises the command, refuses an empty one and
  classifies the process outcome;
- the command-line and settings conversions that feed the service.

Modules, one per source component:

| module | file | models |
|---|---|---|
| `Wrappers` | wrappers.dfy | `Option`, `Result` |
| `Model` | model.dfy | `Task`, `TaskStatus`, `TaskId`, `TaskError` and its display strings, anyhow error chains |
| `Ports` | ports.dfy | the storage, execution and id-generator ports, `TaskInput`, the trace of port calls |
| `TaskExecution` | task_execution.dfy | `task`, `execute_task`, `schedule_task`, `task_status` as functions of the store state, plus the `TaskScheduler` class proved equal to them |
| `MemoryStorage` | memory_storage.dfy | the newer in-memory store: `StoredTask`, matching rule, `find_only_one`, the class with `save`/`status`/`complete` |
| `LegacyStorage` | legacy_storage.dfy | the older in-memory store (first-match `status`, "Can't find task") |
| `RowCodec` | row_codec.dfy | status columns, env column, row encode/decode, the oldest snapshot's `complete` columns |
| `Utf8` | utf8.dfy | `String::from_utf8` as the byte syntax of RFC 3629, section 4, with its encoder |
| `Text` | text.dfy | `join`, `split(c)` and `splitn(2, c)` on strings |
| `LocalExecution` | execution.dfy | `split_whitespace`, `LocalExecutionAdapter::execute`, `validate_output` |
| `Cli` | cli.dfy | `Into<TaskInput> for TaskRunOpt`, `Into<TaskId> for TaskStatusOpt` |
| `Settings` | settings.dfy | `TryFrom<Config>` for `StorageConfiguration` and `Configuration` |
| `Wiring` | wiring.dfy | the service over the in-memory store and the process adapter |

How the ports are modelled:

- The storage port mutates its adapter (`&mut self`). It is modelled as three
  functions from the store's state to the new state and an answer.
- The execution port is modelled as a function of the task.
- The id generator is modelled as an infinite supply: `ids(n)` is the answer to the
  n-th call.

An `anyhow::Error` is modelled as its chain of messages, outermost first. `Display`
prints element 0.

The model follows the code in four places that are easy to misread:

- **Double failure.** Suppose execution fails and storing the `Error` status also
  fails. `execute_task` then reports only the storage error, under "Error executing
  task {id} and during status save execution". The execution error is dropped:
  nothing in the returned chain carries it.
  `TaskExecution.DoubleFailureDropsExecutionError` states the loss.
- **Failed save.** The outer context "Error during task execution" also wraps a
  failed `save`. The chain is therefore "Error during task execution", then "Error
  storing task during schedule", then the storage error. The save context names
  no task id and sits under the execution context.
- **Adapter error type.** The process adapter returns an `anyhow::Error`, while the
  port declares `TaskError`. `LocalExecution.Execute` returns the adapter's context
  together with the `TaskError` under it. `LocalExecution.PortExecute` hands the
  `TaskError` to the service.
- **`UnexpectedError`.** `error.rs` has no `UnexpectedError` variant, but the
  adapter uses one with a boxed source. The model gives it no source and fixes its
  display as "Unexpected error".

## Model

| member | source | states |
|---|---|---|
| Model.TaskIdOfPrefersName | domain/src/executor/model/model.rs:24-31 | a named task derives `Name(name)`, an unnamed one `Id(id)` |
| Model.TaskIdIgnoresCommandAndEnv | domain/src/executor/model/model.rs:24-31 | the derived identifier depends only on id and name |
| Model.SameNameSameTaskId | domain/src/executor/model/model.rs:26-27 | two tasks sharing a name derive equal identifiers, whatever their ids |
| Model.TaskIdOf | domain/src/executor/model/model.rs:24-31 | the identifier is a `Name` exactly when the task has a name, and carries that name; otherwise it is the task's id |
| Model.Display | domain/src/executor/model/error.rs:3-12 | a displayed error starts with "Error running the command. Logs : \n " exactly when it is a `CommandError`, and what follows the prefix is the log |
| Model.Context | domain/src/executor/service/task_execution.rs:15-17 | `.context(msg)` puts `msg` outermost and keeps the whole previous chain under it |
| Model.ErrorChain | domain/src/executor/model/error.rs:3-12 | an error converted into an anyhow error displays as the enum's `#[error]` string |
| Model.CommandErrorDisplayInjective | domain/src/executor/model/error.rs:5-6 | the displayed command error determines the captured log it was built from |
| TaskExecution.ExecuteTask | domain/src/executor/service/task_execution.rs:46-56 | two port calls, `execute` then `complete` of the task, and that `complete` is always handed the executor's status or, when execution failed, `Error(error.to_string())`, whether or not it then succeeds; success exactly when execution and that `complete` both succeed, answering the task's derived identifier |
| TaskExecution.Schedule | domain/src/executor/service/task_execution.rs:13-18 | the first calls are the id generation and the `save` of the new task; success answers the identifier of the task `save` returned; every failure is under "Error during task execution" |
| TaskExecution.TaskStatusOf | domain/src/executor/service/task_execution.rs:20-23 | one `status` call on the identifier; success exactly when the store succeeds, with its status; a failure is the store's chain under "Error on task status" |
| TaskExecution.MakeTask | domain/src/executor/service/task_execution.rs:37-44 | the task has the generated id and the submission's name, command and env |
| TaskExecution.ExecuteTaskCallsOnce | domain/src/executor/service/task_execution.rs:46-56 | one `execute` of the task, then exactly one `complete` of that same task; the new store state is that `complete`'s |
| TaskExecution.ExecuteTaskSuccess | domain/src/executor/service/task_execution.rs:54-55 | on success the executor's exact status is completed and the derived `TaskId` returned |
| TaskExecution.ExecuteTaskCompletionFailure | domain/src/executor/service/task_execution.rs:54 | execution succeeds and `complete` fails: the storage error is returned verbatim |
| TaskExecution.ExecuteTaskExecutionFailure | domain/src/executor/service/task_execution.rs:48-50 | execution fails: `Error(error.to_string())` is completed, and the answer is "Error during task {id} execution" over the execution error's chain |
| TaskExecution.ExecuteTaskDoubleFailure | domain/src/executor/service/task_execution.rs:51 | execution and the completion both fail: "Error executing task {id} and during status save execution" over the storage error |
| TaskExecution.DoubleFailureDropsExecutionError | domain/src/executor/service/task_execution.rs:48-52 | in the double failure the reported chain does not depend on the execution error at all |
| TaskExecution.ScheduleSavesSubmission | domain/src/executor/service/task_execution.rs:15 | one id is generated first; the saved task carries it and the submission's name, command and env |
| TaskExecution.ScheduleSaveFailure | domain/src/executor/service/task_execution.rs:15-17 | a failed save makes no execute or complete call; the chain is the execution context, then the storing context, then the storage error |
| TaskExecution.ScheduleRunsSavedTask | domain/src/executor/service/task_execution.rs:17 | the task `save` returned is executed and completed once each; success answers its derived id, failure gets the outer context |
| TaskExecution.ScheduleFailureContext | domain/src/executor/service/task_execution.rs:17 | every failure of `schedule_task` is displayed as "Error during task execution" |
| TaskExecution.TaskStatusForwards | domain/src/executor/service/task_execution.rs:20-23 | `task_status` passes the identifier unchanged, answers the store's status, and adds "Error on task status" only on failure |
| TaskExecution.TaskScheduler.constructor | domain/src/executor/service/task_execution.rs:27-33 | the service holds the given store, executor and id generator, with no id drawn yet |
| TaskExecution.TaskScheduler.ExecuteTaskOn | domain/src/executor/service/task_execution.rs:46-56 | the store, the answer and the port calls are those of `ExecuteTask`; no id is drawn |
| TaskExecution.TaskScheduler.ScheduleTask | domain/src/executor/service/task_execution.rs:13-18 | exactly one id is drawn, the next one of the supply; the store, the answer and the calls are those of `Schedule` with that id |
| TaskExecution.TaskScheduler.TaskStatus | domain/src/executor/service/task_execution.rs:20-23 | the store, the answer and the calls are those of `TaskStatusOf` |
| MemoryStorage.MatchingRule | infra/src/secondary/adapter/storage/memory.rs:84-90 | `Id(x)` matches iff the stored id is x; `Name(n)` iff the stored name is `Some(n)`; unnamed records never match a name |
| MemoryStorage.StoredCopyMatchesTask | infra/src/secondary/adapter/storage/memory.rs:66-76 | the stored copy has the task's fields and `Scheduled`, and matches the task's derived identifier whatever its status |
| MemoryStorage.Position | infra/src/secondary/adapter/storage/memory.rs:37 | the index found is the first matching record; `None` iff no record matches |
| MemoryStorage.Matching | infra/src/secondary/adapter/storage/memory.rs:55-56 | the filter keeps only matching records |
| MemoryStorage.FindOnlyOneOf | infra/src/secondary/adapter/storage/memory.rs:54-63 | succeeds exactly when one record matches, with that record; "No task correspond to your selection" with no match, "More than 1 task correspond to your selection" with several |
| MemoryStorage.StatusOf | infra/src/secondary/adapter/storage/memory.rs:28-32 | succeeds exactly when one record matches; a failure is one of the two search messages under "Error searching for id …" |
| MemoryStorage.CompleteOf | infra/src/secondary/adapter/storage/memory.rs:35-44 | the length is kept; success exactly when some record matches the derived identifier, and then only the first match is replaced by the task with the status; otherwise the store is unchanged and the error is "Error completing task …" |
| MemoryStorage.MatchingCount | infra/src/secondary/adapter/storage/memory.rs:54-62 | the filter's length is 0, 1 or at least 2 exactly when none, one, or several records match; one match filters to itself |
| MemoryStorage.StatusOfCases | infra/src/secondary/adapter/storage/memory.rs:28-32 | `status` answers the only match's status, "No task correspond to your selection" or "More than 1 task correspond to your selection" under "Error searching for id …"; it succeeds iff exactly one record matches |
| MemoryStorage.LastCompletionWins | infra/src/secondary/adapter/storage/memory.rs:35-44 | completing twice equals completing once with the second status: no guard against overwriting a terminal status |
| MemoryStorage.DuplicateSaveIsAmbiguous | infra/src/secondary/adapter/storage/memory.rs:23-26 | saving the same task twice is accepted, after which `status` of its identifier reports several matches |
| MemoryStorage.SaveCompleteStatus | infra/src/secondary/adapter/storage/memory.rs:23-44 | with no prior match: save, then complete with s, succeeds and `status` then answers s |
| MemoryStorage.NameAndIdAgree | infra/src/secondary/adapter/storage/memory.rs:23-44 | a named task saved and completed where neither its name nor its id matched before: `status` by the name and `status` by the id both answer the completed status |
| MemoryStorage.InMemoryStorageAdapter.constructor | infra/src/secondary/adapter/storage/memory.rs:48-52 | a new store is empty |
| MemoryStorage.InMemoryStorageAdapter.Save | infra/src/secondary/adapter/storage/memory.rs:23-26 | answers `Ok(task)` and appends exactly one `Scheduled` copy, earlier records unchanged and no uniqueness check |
| MemoryStorage.InMemoryStorageAdapter.FindOnlyOne | infra/src/secondary/adapter/storage/memory.rs:54-63 | the only matching record, or the no-match or several-matches error |
| MemoryStorage.InMemoryStorageAdapter.Status | infra/src/secondary/adapter/storage/memory.rs:28-32 | the three cases of `StatusOfCases`, leaving the store unchanged |
| MemoryStorage.InMemoryStorageAdapter.Complete | infra/src/secondary/adapter/storage/memory.rs:35-44 | replaces only the first record matching the derived identifier with the task's fields and the status, length unchanged; with no match it fails with "Error completing task …" and leaves the store unchanged |
| LegacyStorage.FirstStatusOf | infra/src/adapter/secondary/storage.rs:28-33 | succeeds exactly when some record matches, answering the status of the first match; otherwise "Can't find task" |
| LegacyStorage.LegacyCompleteOf | infra/src/adapter/secondary/storage.rs:35-44 | the length is kept; success exactly when some record matches, and then only the first match is replaced; otherwise the store is unchanged and the error is "Can't find task" |
| LegacyStorage.FirstStatusIsEarliest | infra/src/adapter/secondary/storage.rs:28-31 | `status` answers the status of the earliest matching record |
| LegacyStorage.FirstStatusNotFound | infra/src/adapter/secondary/storage.rs:32 | with no match `status` fails with "Can't find task" |
| LegacyStorage.SnapshotsAgreeOnOnlyMatch | infra/src/adapter/secondary/storage.rs:28-33 | with exactly one match the old and new `status` answer the same status |
| LegacyStorage.SnapshotsDifferOnSeveralMatches | infra/src/adapter/secondary/storage.rs:28-33 | with several matches the old `status` succeeds where the new one fails: ambiguity is not detected |
| LegacyStorage.SnapshotsCompleteAlike | infra/src/adapter/secondary/storage.rs:35-44 | both snapshots' `complete` produce the same store and succeed in the same cases |
| LegacyStorage.TaskStorageAdapter.constructor | infra/src/adapter/secondary/storage.rs:47-53 | a new store is empty |
| LegacyStorage.TaskStorageAdapter.Save | infra/src/adapter/secondary/storage.rs:23-26 | answers `Ok(task)` and appends one `Scheduled` copy |
| LegacyStorage.TaskStorageAdapter.Status | infra/src/adapter/secondary/storage.rs:28-33 | the first match's status, or "Can't find task" |
| LegacyStorage.TaskStorageAdapter.Complete | infra/src/adapter/secondary/storage.rs:35-44 | replaces only the first match; otherwise fails with "Can't find task" and leaves the store unchanged |
| RowCodec.DecodeStatus | infra/src/secondary/adapter/storage/database/commands.rs:98-105 | decoding succeeds iff the status is "SCHEDULED", or "SUCCESS"/"ERROR" with a log; "SCHEDULED" ignores the log; each failure has its exact message |
| RowCodec.StatusColumns | infra/src/secondary/adapter/storage/database/commands.rs:72-76 | only the three constants are written, a log exactly for terminal states, and the columns decode back to the same status |
| RowCodec.StatusColumnsInjective | infra/src/adapter/secondary/storage/database/commands.rs:72-76 | distinct statuses are stored as distinct column pairs |
| RowCodec.EnvPair | infra/src/adapter/secondary/database.rs:144-150 | a segment is cut at its first `=`, so the key holds no `=` and the value may; without `=` it becomes ("", "") |
| RowCodec.FromPairs | infra/src/secondary/adapter/storage/database/commands.rs:117-123 | the map's keys are exactly the keys of the pairs, and each key maps to the value of its last pair, so a later pair overrides an earlier one |
| RowCodec.ParseEnv | infra/src/secondary/adapter/storage/database/commands.rs:116-124 | `parse_env_var` never yields the empty map, and no key it yields holds `=` or `;` |
| RowCodec.EncodeEnv | infra/src/secondary/adapter/storage/database/commands.rs:81-87 | the env column is empty exactly for the empty map |
| RowCodec.EncodeEnvSegments | infra/src/secondary/adapter/storage/database/commands.rs:82-87 | for a non-empty map with `;`-free keys and values, splitting the column at `;` gives back exactly the `key:value` entries, in iteration order |
| RowCodec.ToRow | infra/src/secondary/adapter/storage/database/commands.rs:69-92 | id, name and command are copied, the status columns are those of `StatusColumns`, the env column is NULL iff the env is absent and otherwise the `key:value` entries joined by `;` (`EncodeEnv`) |
| RowCodec.FromRow | infra/src/secondary/adapter/storage/database/commands.rs:94-114 | fails exactly when the status columns do not decode, with that error; otherwise id, name and command are copied and an absent env stays absent and a present one is `parse_env_var` of the column |
| RowCodec.InsertRow | infra/src/secondary/adapter/storage/database/commands.rs:30-31 | an inserted row is "SCHEDULED" with no log, and decodes as `Scheduled` |
| RowCodec.UpdateColumns | infra/src/adapter/secondary/database.rs:25-31 | `complete` updates the row keyed by the task's id, not its derived identifier, with the same columns the insert encoding uses |
| RowCodec.RowRoundTrip | infra/src/adapter/secondary/database.rs:101-153 | encode-then-decode gives back the status and the id, name and command; with no env the whole task |
| RowCodec.EnvAsWrittenCollapses | infra/src/secondary/adapter/storage/database/commands.rs:81-87 | a map whose keys and values hold no `=`, the empty map included, is read back as {"": ""} |
| RowCodec.EnvAsWrittenExample | infra/src/adapter/secondary/storage/database/commands.rs:82-87 | {"A": "1", "B": "2"} is stored as "A:1;B:2" and read back as {"": ""} |
| RowCodec.RowEnvAsWritten | infra/src/secondary/adapter/storage/database/commands.rs:106-112 | a row whose env holds no `=` decodes to the task with env {"": ""} |
| RowCodec.EnvIntendedRoundTrip | infra/src/secondary/adapter/storage/database/commands.rs:116-124 | with `key=value` entries, every non-empty map whose keys hold no `=` or `;` and whose values hold no `;` reads back unchanged |
| RowCodec.EmptyEnvCollapses | infra/src/secondary/adapter/storage/database/commands.rs:117-121 | the empty map is stored as "" under either separator, and "" reads back as {"": ""} |
| RowCodec.ToRowIntended | infra/src/secondary/adapter/storage/database/commands.rs:77-91 | the corrected row differs from the as-written one only in the env column, which holds the `key=value` entries joined by `;` (`EncodeEnvIntended`) |
| RowCodec.RowIntendedRoundTrip | infra/src/secondary/adapter/storage/database/commands.rs:69-114 | with the corrected env column the whole task and its status round-trip (no env, or a non-empty env as above) |
| Text.Join | infra/src/secondary/adapter/storage/database/commands.rs:87 | every character of the join comes from a part or the separator, and every character of every part occurs in it |
| Text.Split | infra/src/secondary/adapter/storage/database/commands.rs:117 | `split(';')` yields at least one segment and no segment holds the separator |
| Text.SplitOnce | infra/src/secondary/adapter/storage/database/commands.rs:118 | `splitn(2, "=")` yields two pieces iff `=` occurs; the first holds no `=` and the pieces rejoin to the segment |
| Text.SplitJoin | infra/src/secondary/adapter/storage/database/commands.rs:87 | splitting a `;`-join of non-empty, `;`-free entries gives the entries back |
| Text.JoinSplit | infra/src/secondary/adapter/storage/database/commands.rs:117 | joining the segments with the separator gives the original text |
| Utf8.Encode | infra/src/secondary/adapter/execution.rs:36 | each character takes one to four bytes |
| Utf8.Decode | infra/src/secondary/adapter/execution.rs:36-41 | an accepted byte sequence decodes to a string of between a quarter of its length and its full length |
| Utf8.DecodeFirst | infra/src/secondary/adapter/execution.rs:36 | a well-formed first character takes 1 to 4 bytes |
| Utf8.DecodeEncode | infra/src/secondary/adapter/execution.rs:36-38 | every string's UTF-8 encoding is accepted and decodes to that string |
| Utf8.EncodeDecode | infra/src/secondary/adapter/execution.rs:39-41 | accepted bytes are exactly the encoding of the string they decode to |
| Utf8.RejectsIllFormed | infra/src/secondary/adapter/execution.rs:37 | overlong forms, surrogates, values above U+10FFFF, stray continuation bytes and truncated sequences are refused |
| LocalExecution.IsWhitespace | infra/src/secondary/adapter/execution.rs:13 | on ASCII, the whitespace `split_whitespace` cuts at is space and tab to carriage return, vertical tab and form feed included; no whitespace lies above U+3000 |
| LocalExecution.Tokens | infra/src/secondary/adapter/execution.rs:13 | every token is a non-empty run free of whitespace |
| LocalExecution.TokensKeepNonBlank | infra/src/secondary/adapter/execution.rs:13 | the tokens, concatenated, are exactly the command's non-whitespace characters in order |
| LocalExecution.TokensSkipWhitespace | infra/src/secondary/adapter/execution.rs:13 | a leading whitespace character of any kind, tab and newline included, yields no token |
| LocalExecution.TokensEmpty | infra/src/secondary/adapter/execution.rs:13-16 | there are no tokens iff the command is empty or all whitespace |
| LocalExecution.Invocation | infra/src/secondary/adapter/execution.rs:14-18 | the program is the first token and the arguments are the remaining tokens in order; `None` iff the command is blank |
| LocalExecution.FailureChain | infra/src/secondary/adapter/execution.rs:16-22 | the adapter's error displays its context over the `TaskError`'s display |
| LocalExecution.ValidateOutput | infra/src/secondary/adapter/execution.rs:34-43 | success iff the exit succeeded and stdout is UTF-8, with stdout as the output; a command error only on a failed exit, holding stderr; `UnexpectedError` iff the selected stream is not UTF-8 |
| LocalExecution.Execute | infra/src/secondary/adapter/execution.rs:12-23 | every failure is under one of the two contexts; the validation context exactly for a blank command |
| LocalExecution.PortExecute | infra/src/secondary/adapter/execution.rs:11-23 | through the port every task gets the adapter's status, or the `TaskError` under the adapter's context |
| LocalExecution.EmptyCommandRejected | infra/src/secondary/adapter/execution.rs:14-16 | a blank command fails with `CommandError("Command can't be empty")` under "Error during command validation", whatever the spawner does |
| LocalExecution.ExecuteDependsOnInvocation | infra/src/secondary/adapter/execution.rs:17-19 | only the program and arguments reach the spawner: spawners agreeing on them give the same result |
| LocalExecution.EnvIsIgnored | infra/src/secondary/adapter/execution.rs:17-19 | the task's env does not affect execution |
| LocalExecution.SpawnFailureClassified | infra/src/secondary/adapter/execution.rs:20-22 | a spawn failure is an `ExecutionError` with the I/O error's text, under "Error during command execution" |
| LocalExecution.SuccessClassified | infra/src/secondary/adapter/execution.rs:35-38 | a successful exit with UTF-8 stdout is `Success(stdout)`, whatever stderr holds |
| LocalExecution.FailureClassified | infra/src/secondary/adapter/execution.rs:39-41 | a failed exit with UTF-8 stderr is `CommandError(stderr)`, whatever stdout holds |
| LocalExecution.InvalidUtf8Classified | infra/src/secondary/adapter/execution.rs:37-40 | a selected stream that is not UTF-8 gives `UnexpectedError` |
| Cli.RunInput | infra/src/primary/cli.rs:44-51 | the command words are joined with single spaces, the name passes unchanged and env is `None` |
| Cli.StatusTaskId | infra/src/primary/cli.rs:54-61 | `Id{id}` gives `Id(id)` and `Name{name}` gives `Name(name)` |
| Cli.StatusTaskIdBijective | infra/src/primary/cli.rs:54-61 | distinct status options give distinct identifiers, and every identifier is reachable |
| Cli.JoinedWordsTokenize | infra/src/primary/cli.rs:47 | non-empty, whitespace-free words joined by the CLI are split back into the same words by the executor |
| Cli.RunInvocation | infra/src/primary/cli.rs:44-51 | such a `run` reaches the spawner as the first word with the others as arguments |
| Settings.GetStr | infra/src/primary/settings.rs:43 | a present key answers its value; a missing key is a not-found error naming it |
| Settings.StorageFromConfig | infra/src/primary/settings.rs:39-48 | succeeds iff `storage` is "inmemory", or "database" with `DATABASE_URL` or `database.url`; the URL is `DATABASE_URL` first; a missing `storage`, another value, or a missing URL each fail with their own message |
| Settings.ConfigurationFromConfig | infra/src/primary/settings.rs:29-36 | the storage choice is wrapped unchanged; failures get "Error loading settings" over the storage error |
| Settings.OnlyThreeKeysRead | infra/src/primary/settings.rs:43-44 | configurations agreeing on `storage`, `DATABASE_URL` and `database.url` select the same storage |
| Settings.SelectorIsCaseSensitive | infra/src/primary/settings.rs:43-46 | "InMemory" is refused as not a valid configuration |
| Settings.EnvironmentUrlWins | infra/src/primary/settings.rs:44 | when both URL keys are set, `DATABASE_URL` is used |
| Wiring.ScheduleOnMemoryStore | domain/src/executor/service/task_execution.rs:13-18 | on the in-memory store with no prior match, one record is appended and `status` then answers the executor's status or the recorded `Error(error.to_string())`; the answers and chains are exact |
| Wiring.NamedSubmissionAnswersByNameAndId | domain/src/executor/service/task_execution.rs:13-18 | after a named submission on the in-memory store where neither the name nor the drawn id matched before, `task_status` by the name and by the generated id answer the same, the executor's status or the recorded `Error(error.to_string())` |
| Wiring.UnnamedTaskAnswersItsId | domain/src/executor/service/task_execution.rs:152-179 | the unnamed "ls /home" submission with id "test_id" answers `Id("test_id")` |
| Wiring.EmptyCommandEndToEnd | infra/src/secondary/adapter/execution.rs:14-16 | a blank command scheduled with the process adapter is recorded as an `Error` and reported under both contexts, whatever the spawner |
| Wiring.ScheduleThenStatus | domain/src/executor/service/task_execution.rs:13-23 | a `TaskScheduler` object over an empty in-memory store schedules a submission, and `task_status` of its identifier then answers the recorded status; an `InMemoryStorageAdapter` object given the same `save` and `complete` answers the same |
| Wiring.NamedRunAnswersName | infra/src/primary/cli.rs:44-51 | a named `run` is answered by its name whatever id was generated |

## Left out

- Diesel and SQLite I/O is not modelled: `establish_connection`, the bodies of `create_task`, `get_task`, `update_task`, and the database store adapters. Only the codec and the columns `complete` writes are modelled.
- `get_task` (decode the first matching row) is not modelled; the row decoding it applies is `RowCodec.FromRow`.
- Process spawning is the `Spawner` parameter. Its internals are out of scope: `PATH` lookup, I/O errors, exit codes beyond success or failure, and the exact `{:?}` text of an I/O error.
- LocalExecution.ValidateOutput: `UnexpectedError` carries no source, so the `FromUtf8Error` under it is not modelled.
- The UUID id generators are the `IdSupply` parameter. Freshness is not assumed, because the service never relies on it.
- Argument parsing (`parse_cli_opts`), `load_settings` (file and environment sources), `main.rs`, the storage factories, the CLI stub and the constant-result execution stub are not modelled.
- Settings.GetStr: the configuration is a flat map already loaded. Key case-folding, `_` separators, nesting of `database.url` and non-string values belong to the configuration library and are not modelled. Its not-found message is taken as `configuration property "key" not found`.
- `{:?}` of strings is modelled as the text between double quotes, without escaping. It appears in "Error searching for id …" and "Error completing task …".
- Map iteration order is the `order` parameter of the env encoder (any order listing each key once), since hash order is not specified.
- The older database snapshot formats every connection, insert, load and update error in its own way. Those are I/O errors and are not modelled.
- The `TaskScheduler` class holds the store as a value with its three port functions (`MemoryStorage.Port`), not as a reference to an `InMemoryStorageAdapter` object. The adapter's methods are proved to compute the same functions, and `Wiring.ScheduleThenStatus` runs both side by side. Aliasing of a store shared by two services is not modelled.
- Concurrency does not exist in the source. The `im` persistent structures are modelled as `seq` and `map`.
- Unenforced invariants are not claimed: unique names, at most one status transition, `env` applied at execution, env round-trip. Lemmas show the first two and the last can fail.

## Findings

| source | as written | input that shows it | evidently intended | confidence | as-written member | corrected member |
|---|---|---|---|---|---|---|
| infra/src/secondary/adapter/storage/database/commands.rs:84 | each env entry is written as `key:value`, but `parse_env_var` cuts segments at `=` (lines 117-121) | {"A": "1", "B": "2"} is stored as "A:1;B:2" and read back as {"": ""} | `key=value` entries, as the comment on line 81 says, so that a map reads back unchanged | high, not executed | RowCodec.EnvAsWrittenCollapses | RowCodec.EnvIntendedRoundTrip |

The same encoder appears in infra/src/adapter/secondary/storage/database/commands.rs:84 and
infra/src/adapter/secondary/database.rs:116. The corrected row is `RowCodec.ToRowIntended`, and
`RowCodec.RowIntendedRoundTrip` proves that the whole row round-trips with it. The empty map
still reads back as {"": ""} under either separator (`RowCodec.EmptyEnvCollapses`), because
`"".split(';')` yields one empty segment.
