/** ParseData: a block's CustomData script, split into lines, each line into a
    command name and an argument list rebuilt from its space-separated tokens. */
module Tokenizer {
  import opened Outcomes
  import opened Strings

  /** One parsed script line: the command name and its arguments. */
  datatype CommandArgumentsPair = CommandArgumentsPair(command: string, arguments: seq<string>)

  predicate StartsWithQuote(s: string) { |s| > 0 && s[0] == '"' }
  predicate EndsWithQuote(s: string) { |s| > 0 && s[|s| - 1] == '"' }

  /** The closing quote a token carries, which the fold strips. */
  function ClosingQuote(token: string): string { if EndsWithQuote(token) then "\"" else "" }

  /** How one token changes the argument list. A token that starts with a quote
      opens a new argument with its quotes removed; any other token is added,
      after one space, to the last argument, whether or not that argument was
      closed. A lone quote token, and a token with no argument to extend, throw.
      In each case putting the stripped quotes back gives the token again. */
  function FoldToken(acc: seq<string>, token: string): (r: Result<seq<string>>)
    ensures r.Err? <==> token == "\"" || (!StartsWithQuote(token) && acc == [])
    ensures r.Ok? && StartsWithQuote(token) ==>
      && |r.value| == |acc| + 1
      && r.value[..|acc|] == acc
      && "\"" + r.value[|acc|] + ClosingQuote(token) == token
    ensures r.Ok? && !StartsWithQuote(token) ==>
      && |r.value| == |acc|
      && r.value[..|acc| - 1] == acc[..|acc| - 1]
      && r.value[|acc| - 1] + ClosingQuote(token) == acc[|acc| - 1] + " " + token
  {
    if StartsWithQuote(token) && EndsWithQuote(token) then
      if |token| < 2 then Err(SubstringOutOfRange)
      else
        assert "\"" + token[1..|token| - 1] + "\"" == token;
        Ok(acc + [token[1..|token| - 1]])
    else if StartsWithQuote(token) then
      assert "\"" + token[1..] == token;
      Ok(acc + [token[1..]])
    else if acc == [] then Err(ListIndexOutOfRange)
    else if EndsWithQuote(token) then
      assert token[..|token| - 1] + "\"" == token;
      Ok(acc[..|acc| - 1] + [acc[|acc| - 1] + " " + token[..|token| - 1]])
    else
      Ok(acc[..|acc| - 1] + [acc[|acc| - 1] + " " + token])
  }

  /** The number of tokens that open an argument. */
  function Opening(tokens: seq<string>): (r: nat)
  {
    if tokens == [] then 0
    else (if StartsWithQuote(tokens[0]) then 1 else 0) + Opening(tokens[1..])
  }

  /** The Aggregate over a line's tokens after the command name, left to right;
      the first exception ends it. Every argument comes from an opening token. */
  function FoldArguments(acc: seq<string>, tokens: seq<string>): (r: Result<seq<string>>)
    ensures r.Ok? ==> |r.value| == |acc| + Opening(tokens)
    decreases |tokens|
  {
    if tokens == [] then Ok(acc)
    else
      match FoldToken(acc, tokens[0])
      case Err(f) => Err(f)
      case Ok(next) => FoldArguments(next, tokens[1..])
  }

  /** One script line. It is skipped (None) when it is empty or its first
      token is empty; otherwise the command is its first token, the longest
      space-free prefix of the line, and the other tokens are folded. */
  function ParseLine(line: string): (r: Result<Option<CommandArgumentsPair>>)
    ensures r == Ok(None) <==> line == [] || line[0] == ' '
    ensures r.Ok? && r.value.Some? ==>
      var command := r.value.value.command;
      && command != [] && ' ' !in command
      && |command| <= |line| && line[..|command|] == command
      && (|command| < |line| ==> line[|command|] == ' ')
  {
    if |line| == 0 then Ok(None)
    else
      var commandAndArguments := Split(line, ' ');
      SplitShape(line, ' ');
      SplitFirstPieceEmpty(line, ' ');
      assert commandAndArguments[0] in commandAndArguments;
      if commandAndArguments[0] == [] then Ok(None)
      else
        match FoldArguments([], commandAndArguments[1..])
        case Err(f) => Err(f)
        case Ok(arguments) => Ok(Some(CommandArgumentsPair(commandAndArguments[0], arguments)))
  }

  /** Records parsed so far, followed by the outcome for the remaining lines. */
  function Prepend(done: seq<CommandArgumentsPair>, rest: Result<seq<CommandArgumentsPair>>)
    : (r: Result<seq<CommandArgumentsPair>>)
  {
    match rest
    case Err(f) => Err(f)
    case Ok(records) => Ok(done + records)
  }

  lemma PrependAssociates(done: seq<CommandArgumentsPair>, more: seq<CommandArgumentsPair>,
                           rest: Result<seq<CommandArgumentsPair>>)
    ensures Prepend(done, Prepend(more, rest)) == Prepend(done + more, rest)
  {
    if rest.Ok? {
      assert done + (more + rest.value) == (done + more) + rest.value;
    }
  }

  /** The lines in order; an exception on any line ends the whole parse. */
  function ParseLines(lines: seq<string>): (r: Result<seq<CommandArgumentsPair>>)
  {
    if lines == [] then Ok([])
    else
      match ParseLine(lines[0])
      case Err(f) => Err(f)
      case Ok(None) => ParseLines(lines[1..])
      case Ok(Some(record)) => Prepend([record], ParseLines(lines[1..]))
  }

  /** The whole script: its lines are the pieces between newlines. */
  function ParseScript(data: string): (r: Result<seq<CommandArgumentsPair>>)
  {
    ParseLines(Split(data, '\n'))
  }

  /** ParseData: a loop over the lines and, inside, a fold over each line's
      tokens that adds to or extends the last element of an argument list. */
  method ParseData(data: string) returns (r: Result<seq<CommandArgumentsPair>>)
    ensures r == ParseScript(data)
  {
    var output: seq<CommandArgumentsPair> := [];
    var lines := Split(data, '\n');
    var n := 0;
    assert lines[0..] == lines;
    assert ParseLines(lines).Ok? ==> [] + ParseLines(lines).value == ParseLines(lines).value;
    while n < |lines|
      invariant 0 <= n <= |lines|
      invariant ParseScript(data) == Prepend(output, ParseLines(lines[n..]))
    {
      var line := lines[n];
      assert lines[n..][0] == line && lines[n..][1..] == lines[n + 1..];
      if |line| != 0 {
        var commandAndArguments := Split(line, ' ');
        if commandAndArguments[0] != [] {
          var command := commandAndArguments[0];
          var first := true;
          var acc: seq<string> := [];
          var k := 0;
          while k < |commandAndArguments|
            invariant 0 <= k <= |commandAndArguments|
            invariant first <==> k == 0
            invariant first ==> acc == []
            invariant !first ==>
              FoldArguments([], commandAndArguments[1..]) == FoldArguments(acc, commandAndArguments[k..])
          {
            var value := commandAndArguments[k];
            ghost var before := acc;
            assert k > 0 ==>
              commandAndArguments[k..][0] == value && commandAndArguments[k..][1..] == commandAndArguments[k + 1..];
            if first {
              first := false;
            } else if StartsWithQuote(value) && EndsWithQuote(value) {
              if |value| < 2 {
                return Err(SubstringOutOfRange);
              }
              acc := acc + [value[1..|value| - 1]];
            } else if StartsWithQuote(value) {
              acc := acc + [value[1..]];
            } else if acc == [] {
              return Err(ListIndexOutOfRange);
            } else if EndsWithQuote(value) {
              acc := acc[..|acc| - 1] + [acc[|acc| - 1] + " " + value[..|value| - 1]];
            } else {
              acc := acc[..|acc| - 1] + [acc[|acc| - 1] + " " + value];
            }
            assert k > 0 ==> FoldToken(before, value) == Ok(acc);
            k := k + 1;
          }
          assert commandAndArguments[k..] == [];
          assert ParseLine(line) == Ok(Some(CommandArgumentsPair(command, acc)));
          PrependAssociates(output, [CommandArgumentsPair(command, acc)], ParseLines(lines[n + 1..]));
          output := output + [CommandArgumentsPair(command, acc)];
        }
      }
      n := n + 1;
    }
    r := Ok(output);
    assert output + [] == output;
  }

  /** The fold succeeds exactly when no token is a lone quote and, if no
      argument is open yet, the first token opens one. */
  lemma {:induction false} FoldArgumentsSucceeds(acc: seq<string>, tokens: seq<string>)
    ensures FoldArguments(acc, tokens).Ok? <==>
      && (forall i :: 0 <= i < |tokens| ==> tokens[i] != "\"")
      && (acc == [] && tokens != [] ==> StartsWithQuote(tokens[0]))
    decreases |tokens|
  {
    if tokens != [] {
      var step := FoldToken(acc, tokens[0]);
      if step.Ok? {
        FoldArgumentsSucceeds(step.value, tokens[1..]);
        assert step.value != [];
        assert FoldArguments(acc, tokens) == FoldArguments(step.value, tokens[1..]);
        assert tokens[0] != "\"";
      }
    }
  }

  /** The lines that yield a record: non-empty and not starting with a space. */
  function KeptLines(lines: seq<string>): (r: seq<string>)
  {
    if lines == [] then []
    else if lines[0] == [] || lines[0][0] == ' ' then KeptLines(lines[1..])
    else [lines[0]] + KeptLines(lines[1..])
  }

  /** The parse succeeds exactly when every line parses, and then it holds one
      record per kept line, in line order, each the record of its line. */
  lemma {:induction false} ParseLinesKeepsOrder(lines: seq<string>)
    ensures ParseLines(lines).Ok? <==> forall l :: l in lines ==> ParseLine(l).Ok?
    ensures ParseLines(lines).Ok? ==>
      var records := ParseLines(lines).value;
      var kept := KeptLines(lines);
      && |records| == |kept|
      && forall i :: 0 <= i < |kept| ==> ParseLine(kept[i]) == Ok(Some(records[i]))
  {
    if lines != [] {
      assert lines == [lines[0]] + lines[1..];
      ParseLinesKeepsOrder(lines[1..]);
      var head := ParseLine(lines[0]);
      if head.Ok? && head.value.Some? && ParseLines(lines).Ok? {
        var records := ParseLines(lines).value;
        var kept := KeptLines(lines);
        {
          assert kept == [lines[0]] + KeptLines(lines[1..]);
          assert records == [head.value.value] + ParseLines(lines[1..]).value;
          forall i | 0 <= i < |kept|
            ensures ParseLine(kept[i]) == Ok(Some(records[i]))
          {
            if i > 0 {
              assert kept[i] == KeptLines(lines[1..])[i - 1];
            }
          }
        }
      }
    }
  }

  /** A line made of a command name, a space and the rest: the command is the
      name and the arguments are the fold of the rest's tokens. */
  lemma ParseLineOfCommand(command: string, rest: string)
    requires command != [] && ' ' !in command
    ensures ParseLine(command + " " + rest) ==
      match FoldArguments([], Split(rest, ' '))
      case Err(f) => Err(f)
      case Ok(arguments) => Ok(Some(CommandArgumentsPair(command, arguments)))
  {
    SplitWithoutSeparator(command, ' ');
    SplitAtSeparator(command, ' ', rest);
    assert command + " " + rest == command + [' '] + rest;
    assert Split(command + " " + rest, ' ')[1..] == Split(rest, ' ');
  }

  /** A token after a closed argument still extends it: `Echo "a" b` gives the
      one argument `a b`. */
  lemma AppendAfterClosedArgument()
    ensures FoldArguments([], ["\"a\"", "b"]) == Ok(["a b"])
  {
    var opening := "\"a\"";
    assert opening[1..|opening| - 1] == "a";
    assert FoldToken([], opening) == Ok(["a"]);
    assert "a" + " " + "b" == "a b";
    assert FoldToken(["a"], "b") == Ok(["a b"]);
    assert ["\"a\"", "b"][1..] == ["b"];
  }

  /** The two exceptions: an unquoted first argument has no argument to extend,
      and a lone quote makes Substring(1, -1). */
  lemma MalformedArguments()
    ensures FoldArguments([], ["hello"]) == Err(ListIndexOutOfRange)
    ensures FoldArguments(["a"], ["\""]) == Err(SubstringOutOfRange)
  {
  }

  /** Strings without a line break. */
  predicate SingleLines(items: seq<string>)
  {
    forall i :: 0 <= i < |items| ==> '\n' !in items[i]
  }

  /** One token keeps the arguments free of line breaks: its characters only
      move into an argument, with quotes and a space. */
  lemma FoldTokenSingleLine(acc: seq<string>, token: string)
    requires SingleLines(acc) && '\n' !in token
    ensures FoldToken(acc, token).Ok? ==> SingleLines(FoldToken(acc, token).value)
  {
    var r := FoldToken(acc, token);
    if r.Ok? {
      var n := if StartsWithQuote(token) then |acc| else |acc| - 1;
      assert r.value[..n] == acc[..n];
      forall i | 0 <= i < |r.value| ensures '\n' !in r.value[i]
      {
        if i < n {
          assert r.value[i] == r.value[..n][i] == acc[i];
        }
      }
    }
  }

  lemma {:induction false} FoldArgumentsSingleLine(acc: seq<string>, tokens: seq<string>)
    requires SingleLines(acc) && SingleLines(tokens)
    ensures FoldArguments(acc, tokens).Ok? ==> SingleLines(FoldArguments(acc, tokens).value)
    decreases |tokens|
  {
    if tokens != [] {
      var step := FoldToken(acc, tokens[0]);
      FoldTokenSingleLine(acc, tokens[0]);
      if step.Ok? {
        assert SingleLines(tokens[1..]) by {
          forall i | 0 <= i < |tokens[1..]| ensures '\n' !in tokens[1..][i] {
            assert tokens[1..][i] == tokens[i + 1];
          }
        }
        FoldArgumentsSingleLine(step.value, tokens[1..]);
      }
    }
  }

  /** The records of a parsed script hold no line break in their arguments:
      each argument stays within its line. */
  lemma {:induction false} ParseLinesSingleLine(lines: seq<string>)
    requires SingleLines(lines)
    ensures ParseLines(lines).Ok? ==>
      forall k :: 0 <= k < |ParseLines(lines).value| ==> SingleLines(ParseLines(lines).value[k].arguments)
  {
    if lines != [] {
      assert SingleLines(lines[1..]) by {
        forall i | 0 <= i < |lines[1..]| ensures '\n' !in lines[1..][i] {
          assert lines[1..][i] == lines[i + 1];
        }
      }
      ParseLinesSingleLine(lines[1..]);
      var line := lines[0];
      var head := ParseLine(line);
      if head.Ok? && head.value.Some? && ParseLines(lines).Ok? {
        var tokens := Split(line, ' ');
        SplitPiecesFromString(line, ' ', '\n');
        assert SingleLines(tokens[1..]) by {
          forall i | 0 <= i < |tokens[1..]| ensures '\n' !in tokens[1..][i] {
            assert tokens[1..][i] == tokens[i + 1];
          }
        }
        FoldArgumentsSingleLine([], tokens[1..]);
        var records := ParseLines(lines).value;
        assert records == [head.value.value] + ParseLines(lines[1..]).value;
        forall k | 0 <= k < |records| ensures SingleLines(records[k].arguments)
        {
          if k > 0 {
            assert records[k] == ParseLines(lines[1..]).value[k - 1];
          }
        }
      }
    }
  }

  /** ParseScript's records never carry a line break in an argument. */
  lemma ParseScriptSingleLine(data: string)
    ensures ParseScript(data).Ok? ==>
      forall k :: 0 <= k < |ParseScript(data).value| ==> SingleLines(ParseScript(data).value[k].arguments)
  {
    var lines := Split(data, '\n');
    SplitShape(data, '\n');
    assert SingleLines(lines) by {
      forall i | 0 <= i < |lines| ensures '\n' !in lines[i] {
        assert lines[i] in lines;
      }
    }
    ParseLinesSingleLine(lines);
  }
}
