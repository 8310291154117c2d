/**
 * The command-line front end's two conversions: the `run` options become a
 * `TaskInput`, the `status` options a `TaskId`. Parsing the arguments is the
 * argument parser's business and is not modelled.
 */
module Cli {
  import opened Wrappers
  import Model
  import Ports
  import Text
  import LocalExecution

  /** `tasc run [-n NAME] [-w] COMMAND...`. */
  datatype TaskRunOpt = TaskRunOpt(command: seq<string>, name: Option<string>, wait: bool)

  /** `tasc status id ID` or `tasc status name NAME`. */
  datatype TaskStatusOpt = Id(id: string) | Name(name: string)

  /** `Into<TaskInput> for TaskRunOpt`: the words joined by single spaces, the name unchanged, no env. */
  function RunInput(opt: TaskRunOpt): (r: Ports.TaskInput)
    ensures r.command == Text.Join(opt.command, " ")
    ensures r.name == opt.name && r.env.None?
  {
    Ports.TaskInput(opt.name, Text.Join(opt.command, " "), None)
  }

  /** `Into<TaskId> for TaskStatusOpt`: each option picks the identifier of the same kind. */
  function StatusTaskId(opt: TaskStatusOpt): (r: Model.TaskId)
    ensures r.Id? <==> opt.Id?
    ensures opt.Id? ==> r.id == opt.id
    ensures opt.Name? ==> r.name == opt.name
  {
    match opt
    case Id(id) => Model.Id(id)
    case Name(name) => Model.Name(name)
  }

  /** Every identifier comes from exactly one status option. */
  lemma StatusTaskIdBijective(a: TaskStatusOpt, b: TaskStatusOpt, id: Model.TaskId)
    ensures StatusTaskId(a) == StatusTaskId(b) ==> a == b
    ensures exists o :: StatusTaskId(o) == id
  {
    match id
    case Id(x) => assert StatusTaskId(Id(x)) == id;
    case Name(n) => assert StatusTaskId(Name(n)) == id;
  }

  /**
   * Words that are non-empty and free of whitespace, joined with single spaces,
   * are split by the executor back into the same words: the executor runs the
   * first word as the program with the others as its arguments.
   */
  lemma {:induction false} JoinedWordsTokenize(words: seq<string>)
    requires forall i :: 0 <= i < |words| ==> LocalExecution.IsWord(words[i])
    ensures LocalExecution.Tokens(Text.Join(words, " ")) == words
    decreases |words|
  {
    if |words| == 1 {
      LocalExecution.TokensAfterWord(words[0], "");
      assert words[0] + "" == words[0];
    } else if |words| > 1 {
      var tail := Text.Join(words[1..], " ");
      JoinedWordsTokenize(words[1..]);
      assert Text.Join(words, " ") == words[0] + (" " + tail);
      LocalExecution.TokensAfterWord(words[0], " " + tail);
      LocalExecution.TokensSkipWhitespace(' ', tail);
      assert [words[0]] + words[1..] == words;
    }
  }

  /** The `run` options of such words reach the spawner as the first word and the rest. */
  lemma RunInvocation(opt: TaskRunOpt)
    requires |opt.command| > 0
    requires forall i :: 0 <= i < |opt.command| ==> LocalExecution.IsWord(opt.command[i])
    ensures LocalExecution.Invocation(RunInput(opt).command) == Some((opt.command[0], opt.command[1..]))
  {
    JoinedWordsTokenize(opt.command);
    LocalExecution.TokensEmpty(RunInput(opt).command);
  }
}
