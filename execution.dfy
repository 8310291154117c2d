/**
 * The local process execution adapter: the command is split on whitespace,
 * an empty command is refused before anything is spawned, and the outcome of
 * the process is classified from its exit status and the UTF-8 validity of the
 * one stream that status selects.
 *
 * Spawning the process is the one call into the operating system; it is a
 * parameter (`Spawner`) that answers, for a program and its arguments, either
 * a spawn failure (with the `{:?}` text of the I/O error) or the exit status
 * and the two captured byte streams.
 */
module LocalExecution {
  import opened Wrappers
  import opened Model
  import Ports
  import opened Utf8

  /** Unicode White_Space, the characters `split_whitespace` separates on. */
  function IsWhitespace(c: char): (r: bool)
    ensures c as int < 0x80 ==> (r <==> c == ' ' || '\t' <= c <= '\r')
    ensures r ==> c as int <= 0x3000
  {
    var n := c as int;
    (0x09 <= n <= 0x0D) || n == 0x20 || n == 0x85 || n == 0xA0 || n == 0x1680
    || (0x2000 <= n <= 0x200A) || n == 0x2028 || n == 0x2029 || n == 0x202F
    || n == 0x205F || n == 0x3000
  }

  /** A non-empty run of non-whitespace characters. */
  predicate IsWord(w: string)
  {
    |w| > 0 && forall i :: 0 <= i < |w| ==> !IsWhitespace(w[i])
  }

  /** `split_whitespace`: the maximal runs of non-whitespace characters, in order. */
  function Tokens(s: string): (r: seq<string>)
    ensures forall i :: 0 <= i < |r| ==> IsWord(r[i])
    ensures |s| > 0 && !IsWhitespace(s[0]) ==> |r| > 0 && |r[0]| > 0 && r[0][0] == s[0]
    decreases |s|
  {
    if |s| == 0 then []
    else if IsWhitespace(s[0]) then Tokens(s[1..])
    else
      var rest := Tokens(s[1..]);
      if |s| > 1 && !IsWhitespace(s[1]) then [[s[0]] + rest[0]] + rest[1..]
      else [[s[0]]] + rest
  }

  /** The characters of `s` that are not whitespace, in order. */
  function NonBlank(s: string): string
    decreases |s|
  {
    if |s| == 0 then ""
    else if IsWhitespace(s[0]) then NonBlank(s[1..])
    else [s[0]] + NonBlank(s[1..])
  }

  function Concat(words: seq<string>): string
    decreases |words|
  {
    if |words| == 0 then "" else words[0] + Concat(words[1..])
  }

  /** The tokens hold every non-whitespace character of the command, in order, and nothing else. */
  lemma {:induction false} TokensKeepNonBlank(s: string)
    ensures Concat(Tokens(s)) == NonBlank(s)
    decreases |s|
  {
    if |s| > 0 {
      TokensKeepNonBlank(s[1..]);
      var rest := Tokens(s[1..]);
      if !IsWhitespace(s[0]) && |s| > 1 && !IsWhitespace(s[1]) {
        var r := Tokens(s);
        assert r[0] == [s[0]] + rest[0] && r[1..] == rest[1..];
        assert Concat(rest) == rest[0] + Concat(rest[1..]);
      } else if !IsWhitespace(s[0]) {
        assert Tokens(s)[1..] == rest;
      }
    }
  }

  /** A command has no tokens exactly when it is empty or all whitespace. */
  lemma {:induction false} TokensEmpty(s: string)
    ensures Tokens(s) == [] <==> forall i :: 0 <= i < |s| ==> IsWhitespace(s[i])
    decreases |s|
  {
    if |s| > 0 {
      TokensEmpty(s[1..]);
      if IsWhitespace(s[0]) {
        assert forall i :: 1 <= i < |s| ==> s[i] == s[1..][i - 1];
      }
    }
  }

  /** A word followed by the end of the text or by whitespace is the first token. */
  lemma {:induction false} TokensAfterWord(w: string, rest: string)
    requires IsWord(w)
    requires |rest| == 0 || IsWhitespace(rest[0])
    ensures Tokens(w + rest) == [w] + Tokens(rest)
    decreases |w|
  {
    var s := w + rest;
    assert s[1..] == w[1..] + rest;
    if |w| == 1 {
      assert s[1..] == rest;
      assert w == [w[0]];
    } else {
      assert IsWord(w[1..]);
      TokensAfterWord(w[1..], rest);
      assert [w[0]] + w[1..] == w;
    }
  }

  /** Leading whitespace of any kind, not only a space, produces no token. */
  lemma TokensSkipWhitespace(c: char, s: string)
    requires IsWhitespace(c)
    ensures Tokens([c] + s) == Tokens(s)
  {
    assert ([c] + s)[1..] == s;
  }

  /** `"Command can't be empty"`, the error an empty command is refused with. */
  const EMPTY_COMMAND: string := "Command can't be empty"
  const VALIDATION_CONTEXT: string := "Error during command validation"
  const COMMAND_EXECUTION_CONTEXT: string := "Error during command execution"

  /** What the operating system answers when asked to run a program. */
  datatype SpawnOutcome =
    | SpawnFailed(debug: string)
    | Exited(success: bool, stdout: seq<byte>, stderr: seq<byte>)

  /** `Command::new(program).args(args).output()`. */
  type Spawner = (string, seq<string>) -> SpawnOutcome

  /** The failure `execute` returns: a context over a `TaskError`. */
  datatype ExecFailure = ExecFailure(context: string, cause: TaskError)

  /** The `anyhow::Error` an `ExecFailure` is: the context, then the error's own chain. */
  function FailureChain(f: ExecFailure): (r: Chain)
    ensures |r| >= 2 && r[0] == f.context && r[1] == Display(f.cause)
  {
    Context(ErrorChain(f.cause), f.context)
  }

  /** The program and its arguments: the first token and the remaining ones, in order. */
  function Invocation(command: string): (r: Option<(string, seq<string>)>)
    ensures r.None? <==> forall i :: 0 <= i < |command| ==> IsWhitespace(command[i])
    ensures r.Some? ==> [r.value.0] + r.value.1 == Tokens(command)
  {
    TokensEmpty(command);
    var words := Tokens(command);
    if |words| == 0 then None else Some((words[0], words[1..]))
  }

  /**
   * `validate_output`: a successful exit reads stdout into `Success`, a failed
   * one reads stderr into `CommandError`; a stream that is not UTF-8 gives
   * `UnexpectedError`. Only the stream the exit status selects is read.
   */
  function ValidateOutput(success: bool, stdout: seq<byte>, stderr: seq<byte>): (r: Result<TaskStatus, TaskError>)
    ensures r.Ok? <==> success && Decode(stdout).Some?
    ensures r.Ok? ==> r.value.Success? && Encode(r.value.output) == stdout
    ensures r.Err? && r.error.CommandError? ==> !success && Encode(r.error.log) == stderr
    ensures r == Err(UnexpectedError) <==> Decode(if success then stdout else stderr).None?
    ensures r.Err? ==> r.error.CommandError? || r.error.UnexpectedError?
  {
    if success then
      match Decode(stdout)
      case Some(out) => EncodeDecode(stdout); Ok(Success(out))
      case None => Err(UnexpectedError)
    else
      match Decode(stderr)
      case Some(err) => EncodeDecode(stderr); Err(CommandError(err))
      case None => Err(UnexpectedError)
  }

  /** `LocalExecutionAdapter::execute`. */
  function Execute(task: Task, spawn: Spawner): (r: Result<TaskStatus, ExecFailure>)
    ensures r.Err? ==> r.error.context == VALIDATION_CONTEXT || r.error.context == COMMAND_EXECUTION_CONTEXT
    ensures r.Err? && r.error.context == VALIDATION_CONTEXT <==> Invocation(task.command).None?
  {
    match Invocation(task.command)
    case None => Err(ExecFailure(VALIDATION_CONTEXT, CommandError(EMPTY_COMMAND)))
    case Some((program, args)) =>
      match spawn(program, args)
      case SpawnFailed(debug) => Err(ExecFailure(COMMAND_EXECUTION_CONTEXT, ExecutionError(Message(debug))))
      case Exited(success, stdout, stderr) =>
        match ValidateOutput(success, stdout, stderr)
        case Ok(status) => Ok(status)
        case Err(e) => Err(ExecFailure(COMMAND_EXECUTION_CONTEXT, e))
  }

  /** The adapter as the service sees it through `TaskExecutionPort`: the `TaskError` under the context. */
  function PortExecute(spawn: Spawner): (port: Ports.ExecutionPort)
    ensures forall task :: port(task).Ok? <==> Execute(task, spawn).Ok?
    ensures forall task :: port(task).Ok? ==> port(task).value == Execute(task, spawn).value
    ensures forall task :: port(task).Err? ==> port(task).error == Execute(task, spawn).error.cause
  {
    (task: Task) =>
      match Execute(task, spawn)
      case Ok(status) => Ok(status)
      case Err(f) => Err(f.cause)
  }

  /** An empty or all-whitespace command fails validation, whatever the spawner would do. */
  lemma EmptyCommandRejected(task: Task, spawn: Spawner)
    requires forall i :: 0 <= i < |task.command| ==> IsWhitespace(task.command[i])
    ensures Execute(task, spawn) == Err(ExecFailure(VALIDATION_CONTEXT, CommandError(EMPTY_COMMAND)))
    ensures FailureChain(Execute(task, spawn).error) == [VALIDATION_CONTEXT, COMMAND_ERROR_PREFIX + EMPTY_COMMAND]
  {
  }

  /** Only the invocation reaches the spawner: two spawners that agree on it give the same result. */
  lemma ExecuteDependsOnInvocation(task: Task, s1: Spawner, s2: Spawner)
    requires Invocation(task.command).Some?
    requires s1(Invocation(task.command).value.0, Invocation(task.command).value.1)
          == s2(Invocation(task.command).value.0, Invocation(task.command).value.1)
    ensures Execute(task, s1) == Execute(task, s2)
  {
  }

  /** The environment of the task is never given to the process. */
  lemma EnvIsIgnored(task: Task, env: Option<map<string, string>>, spawn: Spawner)
    ensures Execute(task.(env := env), spawn) == Execute(task, spawn)
  {
  }

  /** A spawn failure is an `ExecutionError` carrying the I/O error's text. */
  lemma SpawnFailureClassified(task: Task, spawn: Spawner, debug: string)
    requires Invocation(task.command).Some?
    requires spawn(Invocation(task.command).value.0, Invocation(task.command).value.1) == SpawnFailed(debug)
    ensures Execute(task, spawn) == Err(ExecFailure(COMMAND_EXECUTION_CONTEXT, ExecutionError([debug])))
    ensures FailureChain(Execute(task, spawn).error) == [COMMAND_EXECUTION_CONTEXT, EXECUTION_ERROR_DISPLAY, debug]
  {
    assert Context(ErrorChain(ExecutionError([debug])), COMMAND_EXECUTION_CONTEXT)
      == [COMMAND_EXECUTION_CONTEXT, EXECUTION_ERROR_DISPLAY, debug];
  }

  /** A successful exit whose stdout is the encoding of `out` is `Success(out)`, whatever stderr holds. */
  lemma SuccessClassified(task: Task, spawn: Spawner, out: string, stderr: seq<byte>)
    requires Invocation(task.command).Some?
    requires spawn(Invocation(task.command).value.0, Invocation(task.command).value.1) == Exited(true, Encode(out), stderr)
    ensures Execute(task, spawn) == Ok(Success(out))
  {
    DecodeEncode(out);
  }

  /** A failed exit whose stderr is the encoding of `err` is `CommandError(err)`, whatever stdout holds. */
  lemma FailureClassified(task: Task, spawn: Spawner, stdout: seq<byte>, err: string)
    requires Invocation(task.command).Some?
    requires spawn(Invocation(task.command).value.0, Invocation(task.command).value.1) == Exited(false, stdout, Encode(err))
    ensures Execute(task, spawn) == Err(ExecFailure(COMMAND_EXECUTION_CONTEXT, CommandError(err)))
  {
    DecodeEncode(err);
  }

  /** A selected stream that is not UTF-8 is an `UnexpectedError`. */
  lemma InvalidUtf8Classified(task: Task, spawn: Spawner, success: bool, stdout: seq<byte>, stderr: seq<byte>)
    requires Invocation(task.command).Some?
    requires spawn(Invocation(task.command).value.0, Invocation(task.command).value.1) == Exited(success, stdout, stderr)
    requires Decode(if success then stdout else stderr).None?
    ensures Execute(task, spawn) == Err(ExecFailure(COMMAND_EXECUTION_CONTEXT, UnexpectedError))
  {
  }
}
