/** The script format as a player writes it in CustomData (`Command "arg one" "arg two"`,
    one command per line), and the proof that the tokenizer reads such a script back. */
module ScriptText {
  import opened Outcomes
  import opened Strings
  import opened Tokenizer

  function Quote(argument: string): string { "\"" + argument + "\"" }

  /** Each argument in quotes, preceded by a space. */
  function QuotedArguments(arguments: seq<string>): (r: string)
  {
    if arguments == [] then "" else " " + Quote(arguments[0]) + QuotedArguments(arguments[1..])
  }

  function RenderLine(record: CommandArgumentsPair): (r: string)
  {
    record.command + QuotedArguments(record.arguments)
  }

  function RenderedLines(records: seq<CommandArgumentsPair>): (r: seq<string>)
  {
    if records == [] then [] else [RenderLine(records[0])] + RenderedLines(records[1..])
  }

  /** A script with one line per record. */
  function Render(records: seq<CommandArgumentsPair>): (r: string)
  {
    Join(RenderedLines(records), "\n")
  }

  /** An argument the quoting can carry: no quote character (there is no escape),
      no newline, and no space at either end (a quoted piece of just `"` would be
      a lone quote token). */
  predicate Representable(argument: string)
  {
    && '"' !in argument && '\n' !in argument
    && (argument != [] ==> argument[0] != ' ' && argument[|argument| - 1] != ' ')
  }

  /** A record a script line can express: a non-empty command without spaces or
      newlines, and representable arguments. */
  predicate WellFormed(record: CommandArgumentsPair)
  {
    && record.command != [] && ' ' !in record.command && '\n' !in record.command
    && forall i :: 0 <= i < |record.arguments| ==> Representable(record.arguments[i])
  }

  /** The tokens the quoted arguments split into. */
  function ArgumentTokens(arguments: seq<string>): (r: seq<string>)
  {
    if arguments == [] then [] else Split(Quote(arguments[0]), ' ') + ArgumentTokens(arguments[1..])
  }

  lemma {:induction false} SplitQuotedArguments(x: string, arguments: seq<string>)
    ensures Split(x + QuotedArguments(arguments), ' ') == Split(x, ' ') + ArgumentTokens(arguments)
    decreases |arguments|
  {
    if arguments == [] {
      assert x + "" == x;
    } else {
      SplitQuotedArguments(Quote(arguments[0]), arguments[1..]);
      SplitBeforeQuotedArguments(x, arguments);
    }
  }

  /** The quoted arguments begin with a space, at which the split cuts. */
  lemma SplitBeforeQuotedArguments(x: string, arguments: seq<string>)
    requires arguments != []
    ensures Split(x + QuotedArguments(arguments), ' ')
         == Split(x, ' ') + Split(Quote(arguments[0]) + QuotedArguments(arguments[1..]), ' ')
  {
    var tail := Quote(arguments[0]) + QuotedArguments(arguments[1..]);
    assert x + QuotedArguments(arguments) == x + [' '] + tail;
    SplitAtSeparator(x, ' ', tail);
  }

  /** Folding two runs of tokens is folding the first, then the second. */
  lemma {:induction false} FoldThen(acc: seq<string>, first: seq<string>, second: seq<string>)
    ensures FoldArguments(acc, first + second) ==
      match FoldArguments(acc, first)
      case Err(f) => Err(f)
      case Ok(middle) => FoldArguments(middle, second)
    decreases |first|
  {
    if first == [] {
      assert first + second == second;
    } else {
      assert (first + second)[0] == first[0];
      assert (first + second)[1..] == first[1..] + second;
      match FoldToken(acc, first[0])
      case Err(f) =>
      case Ok(next) => FoldThen(next, first[1..], second);
    }
  }

  /** Folding a token in front of others is one step, then the rest. */
  lemma FoldFirst(acc: seq<string>, token: string, tokens: seq<string>)
    requires FoldToken(acc, token).Ok?
    ensures FoldArguments(acc, [token] + tokens) == FoldArguments(FoldToken(acc, token).value, tokens)
  {
    assert ([token] + tokens)[0] == token && ([token] + tokens)[1..] == tokens;
  }

  /** A word without quotes extends the last argument. */
  lemma ExtendByWord(acc: seq<string>, x: string, word: string)
    requires '"' !in word
    ensures FoldToken(acc + [x], word) == Ok(acc + [x + " " + word])
  {
    assert word != [] ==> word[0] in word && word[|word| - 1] in word;
    assert (acc + [x])[..|acc|] == acc;
  }

  /** A last word with the closing quote extends the last argument by the word. */
  lemma ExtendByClosingWord(acc: seq<string>, x: string, word: string)
    requires word != [] && word[0] != '"'
    ensures FoldToken(acc + [x], word + "\"") == Ok(acc + [x + " " + word])
  {
    var token := word + "\"";
    assert token[..|token| - 1] == word;
    assert (acc + [x])[..|acc|] == acc;
  }

  /** A first word with the opening quote opens an argument holding the word. */
  lemma OpenByWord(acc: seq<string>, word: string)
    requires word != [] && word[|word| - 1] != '"'
    ensures FoldToken(acc, "\"" + word) == Ok(acc + [word])
  {
    var token := "\"" + word;
    assert token[1..] == word;
  }

  /** A quoted word opens and closes an argument holding the word. */
  lemma OpenAndClose(acc: seq<string>, word: string)
    ensures FoldToken(acc, Quote(word)) == Ok(acc + [word])
  {
    var token := Quote(word);
    assert token[1..|token| - 1] == word;
  }

  /** The tokens after an argument's first word, up to the closing quote, each
      extend that argument by a space and the word. */
  lemma {:induction false} FoldClosingWords(acc: seq<string>, x: string, rest: string)
    requires rest != [] && '"' !in rest && rest[|rest| - 1] != ' '
    ensures FoldArguments(acc + [x], Split(rest + "\"", ' ')) == Ok(acc + [x + " " + rest])
    decreases |rest|
  {
    assert rest[0] in rest;
    if ' ' !in rest {
      LastWord(acc, x, rest);
    } else {
      var word, more := FirstWord(rest);
      assert Split(rest + "\"", ' ') == Split(word + [' '] + more + "\"", ' ') by {
        assert rest + "\"" == word + [' '] + more + "\"";
      }
      ExtendThenFold(acc, x, word, more);
      FoldClosingWords(acc, x + " " + word, more);
      assert x + " " + word + " " + more == x + " " + rest;
    }
  }

  /** A quote-free text holding a space, not ending in one, is a word, a
      space and a shorter such text (or one without spaces). */
  lemma FirstWord(rest: string) returns (word: string, more: string)
    requires ' ' in rest && '"' !in rest && rest[|rest| - 1] != ' '
    ensures rest == word + " " + more
    ensures ' ' !in word && '"' !in word
    ensures more != [] && '"' !in more && more[|more| - 1] != ' '
    ensures rest[0] != ' ' ==> word != []
  {
    SplitAtFirst(rest, ' ');
    word := Split(rest, ' ')[0];
    more := rest[|word| + 1..];
    assert more != [] && more[|more| - 1] == rest[|rest| - 1] by {
      assert |more| == |rest| - |word| - 1;
    }
    assert '"' !in more by {
      assert forall i :: 0 <= i < |more| ==> more[i] == rest[|word| + 1 + i];
    }
  }

  /** The last word, with the closing quote, is the last token. */
  lemma LastWord(acc: seq<string>, x: string, rest: string)
    requires rest != [] && rest[0] != '"' && ' ' !in rest
    ensures FoldArguments(acc + [x], Split(rest + "\"", ' ')) == Ok(acc + [x + " " + rest])
  {
    var token := rest + "\"";
    SplitWithoutSeparator(token, ' ');
    ExtendByClosingWord(acc, x, rest);
    FoldFirst(acc + [x], token, []);
    assert [token] + [] == [token];
  }

  /** A quote-free word before a space extends the last argument, and the fold goes on. */
  lemma ExtendThenFold(acc: seq<string>, x: string, word: string, more: string)
    requires ' ' !in word && '"' !in word
    ensures FoldArguments(acc + [x], Split(word + [' '] + more + "\"", ' '))
         == FoldArguments(acc + [x + " " + word], Split(more + "\"", ' '))
  {
    assert word + [' '] + more + "\"" == word + [' '] + (more + "\"");
    SplitWordThenRest(word, more + "\"");
    ExtendByWord(acc, x, word);
    FoldFirst(acc + [x], word, Split(more + "\"", ' '));
  }

  lemma SplitWordThenRest(word: string, rest: string)
    requires ' ' !in word
    ensures Split(word + [' '] + rest, ' ') == [word] + Split(rest, ' ')
  {
    SplitAtSeparator(word, ' ', rest);
    SplitWithoutSeparator(word, ' ');
  }

  /** The tokens of one quoted argument fold back into exactly that argument. */
  lemma FoldQuotedArgument(acc: seq<string>, a: string)
    requires Representable(a)
    ensures FoldArguments(acc, Split(Quote(a), ' ')) == Ok(acc + [a])
  {
    var token := Quote(a);
    if ' ' !in a {
      SplitWithoutSeparator(token, ' ');
      OpenAndClose(acc, a);
      FoldFirst(acc, token, []);
      assert [token] + [] == [token];
    } else {
      var word, rest := FirstWord(a);
      var opening := "\"" + word;
      assert token == opening + [' '] + (rest + "\"");
      SplitAtSeparator(opening, ' ', rest + "\"");
      SplitWithoutSeparator(opening, ' ');
      OpenByWord(acc, word);
      FoldFirst(acc, opening, Split(rest + "\"", ' '));
      FoldClosingWords(acc, word, rest);
      assert word + " " + rest == a;
    }
  }

  lemma {:induction false} FoldQuotedArguments(acc: seq<string>, arguments: seq<string>)
    requires forall i :: 0 <= i < |arguments| ==> Representable(arguments[i])
    ensures FoldArguments(acc, ArgumentTokens(arguments)) == Ok(acc + arguments)
    decreases |arguments|
  {
    if arguments == [] {
      assert acc + [] == acc;
    } else {
      var a := arguments[0];
      var rest := arguments[1..];
      assert forall i :: 0 <= i < |rest| ==> Representable(rest[i]) by {
        assert forall i :: 0 <= i < |rest| ==> rest[i] == arguments[i + 1];
      }
      var extended := acc + [a];
      assert extended + rest == acc + arguments by {
        assert arguments == [a] + rest;
      }
      FoldQuotedStep(acc, arguments);
      FoldQuotedArguments(extended, rest);
    }
  }

  /** The first quoted argument's tokens fold into it, and the fold goes on. */
  lemma FoldQuotedStep(acc: seq<string>, arguments: seq<string>)
    requires arguments != [] && Representable(arguments[0])
    ensures FoldArguments(acc, ArgumentTokens(arguments))
         == FoldArguments(acc + [arguments[0]], ArgumentTokens(arguments[1..]))
  {
    FoldThen(acc, Split(Quote(arguments[0]), ' '), ArgumentTokens(arguments[1..]));
    FoldQuotedArgument(acc, arguments[0]);
  }

  /** A rendered line parses back into its record. */
  lemma ParseRenderedLine(record: CommandArgumentsPair)
    requires WellFormed(record)
    ensures ParseLine(RenderLine(record)) == Ok(Some(record))
  {
    var line := RenderLine(record);
    SplitQuotedArguments(record.command, record.arguments);
    SplitWithoutSeparator(record.command, ' ');
    FoldQuotedArguments([], record.arguments);
    assert [] + record.arguments == record.arguments;
    var tokens := Split(line, ' ');
    assert tokens[0] == record.command && tokens[1..] == ArgumentTokens(record.arguments);
  }

  lemma {:induction false} QuotedArgumentsWithoutNewline(arguments: seq<string>)
    requires forall i :: 0 <= i < |arguments| ==> Representable(arguments[i])
    ensures '\n' !in QuotedArguments(arguments)
    decreases |arguments|
  {
    if arguments != [] {
      QuotedArgumentsWithoutNewline(arguments[1..]);
      assert Representable(arguments[0]);
    }
  }

  lemma {:induction false} ParseRenderedLines(records: seq<CommandArgumentsPair>)
    requires forall i :: 0 <= i < |records| ==> WellFormed(records[i])
    ensures |RenderedLines(records)| == |records|
    ensures forall l :: l in RenderedLines(records) ==> '\n' !in l
    ensures ParseLines(RenderedLines(records)) == Ok(records)
    decreases |records|
  {
    if records != [] {
      var lines := RenderedLines(records);
      ParseRenderedLines(records[1..]);
      ParseRenderedLine(records[0]);
      QuotedArgumentsWithoutNewline(records[0].arguments);
      assert lines[1..] == RenderedLines(records[1..]);
      assert [records[0]] + records[1..] == records;
    }
  }

  /** Round trip: a script written from well-formed records parses back into
      exactly those records, in order. */
  lemma ParseRender(records: seq<CommandArgumentsPair>)
    requires forall i :: 0 <= i < |records| ==> WellFormed(records[i])
    ensures ParseScript(Render(records)) == Ok(records)
  {
    ParseRenderedLines(records);
    if records == [] {
      assert Split("", '\n') == [""];
      assert ParseLines([""]) == ParseLines([]);
    } else {
      SplitJoin(RenderedLines(records), '\n');
    }
  }
}
