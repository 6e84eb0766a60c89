/** ExecuteCommands: the text written to one screen, assembled from the
    outputs of the script's commands in order. */
module Assembly {
  import opened Outcomes
  import opened Strings
  import opened Tokenizer
  import opened Commands

  /** What one output adds to the screen: nothing when it is empty, otherwise
      the output and a line break. */
  function Emitted(output: string): (r: string)
  {
    if output == "" then "" else output + "\n"
  }

  /** The outputs in order, each as it is emitted. */
  function Assemble(outputs: seq<string>): (r: string)
  {
    if outputs == [] then "" else Emitted(outputs[0]) + Assemble(outputs[1..])
  }

  /** The outputs that are not empty, in order. */
  function NonEmpty(outputs: seq<string>): (r: seq<string>)
  {
    if outputs == [] then []
    else if outputs[0] == "" then NonEmpty(outputs[1..])
    else [outputs[0]] + NonEmpty(outputs[1..])
  }

  /** A text before the outcome for the remaining commands. */
  function Before(text: string, rest: Result<string>): (r: Result<string>)
  {
    match rest
    case Err(f) => Err(f)
    case Ok(more) => Ok(text + more)
  }

  /** The screen text for the commands on `surface`; an exception from any
      command escapes, and nothing is written. */
  function Screen(records: seq<CommandArgumentsPair>, surface: Surface): (r: Result<string>)
  {
    if records == [] then Ok("")
    else
      match ExecuteCommand(records[0].command, records[0].arguments, surface)
      case Err(f) => Err(f)
      case Ok(output) => Before(Emitted(output), Screen(records[1..], surface))
  }

  /** The outputs of the commands, in order, when none throws. */
  function Outputs(records: seq<CommandArgumentsPair>, surface: Surface): (r: Result<seq<string>>)
  {
    if records == [] then Ok([])
    else
      match ExecuteCommand(records[0].command, records[0].arguments, surface)
      case Err(f) => Err(f)
      case Ok(output) =>
        match Outputs(records[1..], surface)
        case Err(f) => Err(f)
        case Ok(outputs) => Ok([output] + outputs)
  }

  lemma BeforeAssociates(text: string, more: string, rest: Result<string>)
    ensures Before(text, Before(more, rest)) == Before(text + more, rest)
  {
    if rest.Ok? {
      assert text + (more + rest.value) == (text + more) + rest.value;
    }
  }

  /** The screen for the commands from `i` on is the outcome of command `i`,
      emitted before the screen for the commands after it. */
  lemma ScreenFrom(records: seq<CommandArgumentsPair>, i: nat, surface: Surface, outcome: Result<string>)
    requires i < |records|
    requires outcome == ExecuteCommand(records[i].command, records[i].arguments, surface)
    ensures outcome.Err? ==> Screen(records[i..], surface) == Err(outcome.fault)
    ensures outcome.Ok? ==>
      Screen(records[i..], surface) == Before(Emitted(outcome.value), Screen(records[i + 1..], surface))
  {
    assert records[i..][0] == records[i] && records[i..][1..] == records[i + 1..];
  }

  lemma BeforeNothing(rest: Result<string>)
    ensures Before("", rest) == rest
  {
    if rest.Ok? {
      assert "" + rest.value == rest.value;
    }
  }

  lemma BeforeEnd(text: string)
    ensures Before(text, Ok("")) == Ok(text)
  {
    assert text + "" == text;
  }

  /** Appending an output as the loop does is appending what it emits. */
  lemma AppendEmitted(text: string, output: string)
    ensures text + Emitted(output) == if |output| > 0 then text + output + "\n" else text
  {
    if output == "" {
      assert text + "" == text;
    }
  }

  /** ExecuteCommands: appends each non-empty output and a line break. */
  method ExecuteCommands(records: seq<CommandArgumentsPair>, surface: Surface) returns (r: Result<string>)
    ensures r == Screen(records, surface)
  {
    var output := "";
    var i := 0;
    assert records[0..] == records;
    BeforeNothing(Screen(records, surface));
    while i < |records|
      invariant 0 <= i <= |records|
      invariant Screen(records, surface) == Before(output, Screen(records[i..], surface))
    {
      var record := records[i];
      var commandOutput := ExecuteCommand(record.command, record.arguments, surface);
      ScreenFrom(records, i, surface, commandOutput);
      if commandOutput.Err? {
        return Err(commandOutput.fault);
      }
      BeforeAssociates(output, Emitted(commandOutput.value), Screen(records[i + 1..], surface));
      AppendEmitted(output, commandOutput.value);
      if |commandOutput.value| > 0 {
        output := output + commandOutput.value + "\n";
      }
      i := i + 1;
    }
    assert records[i..] == [];
    BeforeEnd(output);
    r := Ok(output);
  }

  /** The screen text is the outputs assembled in order, and it exists exactly
      when every command's output does. */
  lemma {:induction false} ScreenAssemblesOutputs(records: seq<CommandArgumentsPair>, surface: Surface)
    ensures Screen(records, surface).Ok? <==> Outputs(records, surface).Ok?
    ensures Screen(records, surface).Ok? ==>
      Screen(records, surface).value == Assemble(Outputs(records, surface).value)
    ensures Outputs(records, surface).Ok? ==>
      && |Outputs(records, surface).value| == |records|
      && forall i :: 0 <= i < |records| ==>
           ExecuteCommand(records[i].command, records[i].arguments, surface)
             == Ok(Outputs(records, surface).value[i])
  {
    if records != [] {
      ScreenAssemblesOutputs(records[1..], surface);
      var head := ExecuteCommand(records[0].command, records[0].arguments, surface);
      if head.Ok? && Outputs(records, surface).Ok? {
        var outputs := Outputs(records, surface).value;
        assert outputs[0] == head.value && outputs[1..] == Outputs(records[1..], surface).value;
        forall i | 0 <= i < |records|
          ensures ExecuteCommand(records[i].command, records[i].arguments, surface) == Ok(outputs[i])
        {
          if i > 0 {
            assert records[i] == records[1..][i - 1];
          }
        }
      }
    }
  }

  /** Empty outputs leave no trace: the screen is empty exactly when every
      output is. */
  lemma {:induction false} AssembleEmpty(outputs: seq<string>)
    ensures Assemble(outputs) == "" <==> forall i :: 0 <= i < |outputs| ==> outputs[i] == ""
  {
    if outputs != [] {
      var rest := outputs[1..];
      AssembleEmpty(rest);
      if outputs[0] == "" {
        assert Assemble(outputs) == Assemble(rest) by {
          assert Assemble(outputs) == "" + Assemble(rest);
        }
        assert (forall i :: 0 <= i < |outputs| ==> outputs[i] == "")
           <==> (forall i :: 0 <= i < |rest| ==> rest[i] == "") by {
          assert forall i :: 0 < i < |outputs| ==> outputs[i] == rest[i - 1];
        }
      } else {
        assert |Assemble(outputs)| > 0;
      }
    }
  }

  /** Outputs without line breaks each become exactly one line of the screen:
      split at line breaks, the screen is the non-empty outputs in order, each
      terminated, so one empty piece follows the last. */
  lemma {:induction false} AssembleLines(outputs: seq<string>)
    requires forall i :: 0 <= i < |outputs| ==> '\n' !in outputs[i]
    ensures Split(Assemble(outputs), '\n') == NonEmpty(outputs) + [""]
  {
    if outputs == [] {
      assert Split("", '\n') == [""];
    } else {
      var rest := Assemble(outputs[1..]);
      assert forall i :: 0 <= i < |outputs[1..]| ==> outputs[1..][i] == outputs[i + 1];
      AssembleLines(outputs[1..]);
      if outputs[0] == "" {
        assert Assemble(outputs) == "" + rest == rest;
      } else {
        assert Assemble(outputs) == outputs[0] + ['\n'] + rest;
        SplitAtSeparator(outputs[0], '\n', rest);
        SplitWithoutSeparator(outputs[0], '\n');
        assert [outputs[0]] + (NonEmpty(outputs[1..]) + [""]) == [outputs[0]] + NonEmpty(outputs[1..]) + [""];
      }
    }
  }

  /** The screen for records whose arguments hold no line break: its lines
      are the non-empty command outputs in order, each terminated. */
  lemma ScreenLines(records: seq<CommandArgumentsPair>, surface: Surface)
    requires forall k, i :: 0 <= k < |records| && 0 <= i < |records[k].arguments| ==>
      '\n' !in records[k].arguments[i]
    requires Screen(records, surface).Ok?
    ensures Outputs(records, surface).Ok?
    ensures Split(Screen(records, surface).value, '\n') == NonEmpty(Outputs(records, surface).value) + [""]
  {
    ScreenAssemblesOutputs(records, surface);
    var outputs := Outputs(records, surface).value;
    forall i | 0 <= i < |outputs| ensures '\n' !in outputs[i]
    {
      OutputWithoutNewline(records[i].command, records[i].arguments, surface);
    }
    AssembleLines(outputs);
  }

  /** A script run on a screen: when it parses and no command throws, the
      screen's lines are the non-empty outputs of its commands, in the order
      of the script's lines. */
  lemma ScriptScreenLines(data: string, surface: Surface)
    requires ParseScript(data).Ok?
    requires Screen(ParseScript(data).value, surface).Ok?
    ensures var records := ParseScript(data).value;
      && Outputs(records, surface).Ok?
      && Split(Screen(records, surface).value, '\n') == NonEmpty(Outputs(records, surface).value) + [""]
  {
    var records := ParseScript(data).value;
    ParseScriptSingleLine(data);
    forall k, i | 0 <= k < |records| && 0 <= i < |records[k].arguments|
      ensures '\n' !in records[k].arguments[i]
    {
      assert SingleLines(records[k].arguments);
    }
    ScreenLines(records, surface);
  }
}
