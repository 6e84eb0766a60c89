# CoachLCD script interpreter — a Dafny model

CoachLCD is a Space Engineers in-game script. Each LCD block holds a small
script in its CustomData, one command per line (`Echo "hello world"`,
`TwoCol "Speed" "fast"`, `PistonStatus "Piston 1" "Arm" ...`). The script
interpreter reads that text and writes the resulting lines to the panel.

This project models the interpreter's core in `Program.cs` and proves its
behaviour:

- **Tokenizer** (`Tokenizer.dfy`) covers `ParseData`:
  - The text is split into lines, and each line into space-separated tokens.
  - The first token is the command.
  - The other tokens are folded into arguments by the quote rules.
  - Both exceptions the fold can raise are modelled: a lone `"` token, and a bare token before any argument exists.
- **Script text** (`ScriptText.dfy`) describes the script format a player writes. It proves that a script written from well-formed records parses back into exactly those records.
- **Layout** (`Layout.dfy`) covers:
  - `GenerateString`, as a loop proved equal to `Repeat`;
  - the two-column line;
  - centred text;
  - the unused `JoinString`.

  The screen width is an integer parameter.
- **Commands** (`Commands.dfy`) covers `ExecuteCommand`:
  - Block lookups on the grid are a map from names to blocks, and a lookup gives `Found(value)` or `Failed`.
  - Arity checks, usage lines, status selection, the PropBool case split and the `try`/`catch` fallbacks follow the source.
- **Assembly** (`Assembly.dfy`) covers `ExecuteCommands`, the loop that joins the command outputs into the screen text.
- **Outcomes** and **Strings** hold the support pieces:
  - exceptions are modelled as `Err` values, and C# `try`/`catch` as `Catch`;
  - .NET `String.Split(char)` is modelled with its round trips against `Join`.

Behaviours worth knowing:

- **An exception while tokenizing is not recovered per line.** A bare first argument indexes `acc[-1]`, and a lone `"` calls `Substring(1, -1)`. Either exception ends the whole `ParseData` call. The model returns `Err` for the whole script, not a skipped line.
- **`Echo` with no text emits nothing.** It is not a single space, so `ExecuteCommands` drops the line.
- **The two-column gap is computed as `Max(width - l - r, 1)`.** For every width of at least 2 this gap is at least 2 (`Layout.TwoColumns`).
- **Only a two-column line and the `HLine` rule are always exactly as wide as the screen** (the rule for every width of at least 0, `Commands.HLineFillsScreen`).
  - Centred text is never truncated and can be wider (`Layout.CenterOverflow`).
  - A usage line or error line has its own length.
  - A width below 2 makes `Substring` throw. The status commands' `catch` calls the layout again, which throws again, so the exception escapes (`Err`).
- **PropBool has an irregular arity rule.**
  - With exactly five arguments it shows nothing.
  - With fewer than four arguments it throws.
  - On a failed lookup it shows the fourth argument; there is no separate error text.

## Model

| member | source | states |
|---|---|---|
| Strings.Split | SpaceEngineers-CoachLCD/Program.cs:305 | String.Split(char) always yields at least one piece |
| Strings.SplitShape | SpaceEngineers-CoachLCD/Program.cs:305 | no piece holds the separator, and the first piece is the longest separator-free prefix of the string |
| Strings.SplitAtSeparator | SpaceEngineers-CoachLCD/Program.cs:309 | splitting `x + sep + y` gives the pieces of `x` followed by the pieces of `y` |
| Strings.JoinSplit | SpaceEngineers-CoachLCD/Program.cs:305 | joining the pieces of a split with the separator gives back the string |
| Strings.SplitJoin | SpaceEngineers-CoachLCD/Program.cs:305 | splitting a join of separator-free pieces gives back the pieces |
| Strings.SplitAtFirst | SpaceEngineers-CoachLCD/Program.cs:309 | a string holding the separator is its first piece, the separator and the rest |
| Strings.SplitPiecesFromString | SpaceEngineers-CoachLCD/Program.cs:305 | every character of every piece comes from the split string |
| Layout.Half | SpaceEngineers-CoachLCD/Program.cs:282 | `(int)(width / 2)` truncates toward zero: twice the half is the width, or one less for an odd positive width, one more for an odd negative width |
| Layout.Repeat | SpaceEngineers-CoachLCD/Program.cs:254-258 | exactly `max(n, 0)` characters, all equal to the given one |
| Layout.GenerateString | SpaceEngineers-CoachLCD/Program.cs:254-258 | the counting loop's result is `Repeat(character, count)` |
| Layout.TwoColumns | SpaceEngineers-CoachLCD/Program.cs:278-289 | throws exactly when fewer than two strings are given or the width is below 2; otherwise the line is exactly `width` long, starts with the first `min(width/2-1, len)` characters of the left text, ends with the same prefix of the right text, and holds only spaces between them, at least two |
| Layout.Center | SpaceEngineers-CoachLCD/Program.cs:291-300 | `max(width/2 - len/2, 0)` spaces, then the whole text |
| Layout.CenterBalanced | SpaceEngineers-CoachLCD/Program.cs:293-299 | text that fits stays within the width, and the right margin differs from the left padding by at most one |
| Layout.CenterOverflow | SpaceEngineers-CoachLCD/Program.cs:293-299 | text wider than the screen comes out unchanged, with no padding and no truncation |
| Layout.JoinString | SpaceEngineers-CoachLCD/Program.cs:247-252 | as written: the separated join followed by one extra separator; throws exactly for a single empty element with a non-empty separator |
| Layout.JoinStringKeepsTrailingSeparator | SpaceEngineers-CoachLCD/Program.cs:249 | the Aggregate fold is the separated join followed by the separator |
| Layout.TrimmedJoinString | SpaceEngineers-CoachLCD/Program.cs:247-252 | corrected: with the trailing separator removed, the result is the separated join of the elements |
| Layout.JoinStringCounterexamples | SpaceEngineers-CoachLCD/Program.cs:249-251 | `["a","b"]` with `","` gives `"a,b,"`, not `"a,b"`; the computed trim length would give `"a,"`; `[""]` throws |
| Tokenizer.FoldToken | SpaceEngineers-CoachLCD/Program.cs:320-323 | throws exactly for a lone quote or a bare token with no argument yet; an opening token adds one argument that, with its quotes put back, is the token; any other token extends the last argument by a space and the token, without its closing quote |
| Tokenizer.FoldArguments | SpaceEngineers-CoachLCD/Program.cs:313-325 | the argument count grows by the number of opening tokens |
| Tokenizer.FoldArgumentsSucceeds | SpaceEngineers-CoachLCD/Program.cs:320-323 | the fold succeeds exactly when no token is a lone quote and, if no argument is open, the first token opens one |
| Tokenizer.ParseLine | SpaceEngineers-CoachLCD/Program.cs:308-327 | a line is skipped exactly when it is empty or starts with a space; otherwise its command is the non-empty, space-free prefix followed by a space or the end of the line |
| Tokenizer.ParseData | SpaceEngineers-CoachLCD/Program.cs:302-330 | the nested loops and the in-place fold compute `ParseScript(data)` |
| Tokenizer.ParseLinesKeepsOrder | SpaceEngineers-CoachLCD/Program.cs:305-328 | the parse succeeds exactly when every line parses; then it holds one record per kept line, in line order, each being that line's record |
| Tokenizer.ParseLineOfCommand | SpaceEngineers-CoachLCD/Program.cs:309-325 | a line `command rest` yields that command and the fold of the rest's tokens |
| Tokenizer.AppendAfterClosedArgument | SpaceEngineers-CoachLCD/Program.cs:322-323 | a bare token after a closed argument still joins it: `"a" b` gives the one argument `a b` |
| Tokenizer.MalformedArguments | SpaceEngineers-CoachLCD/Program.cs:320-323 | a bare first token throws on the list index; a lone quote throws in Substring |
| Tokenizer.FoldArgumentsSingleLine | SpaceEngineers-CoachLCD/Program.cs:313-325 | tokens without line breaks fold into arguments without line breaks |
| Tokenizer.ParseScriptSingleLine | SpaceEngineers-CoachLCD/Program.cs:305-327 | no parsed argument holds a line break |
| ScriptText.ParseRender | SpaceEngineers-CoachLCD/Program.cs:302-330 | a script written from well-formed records, each argument quoted, parses back into exactly those records in order |
| ScriptText.FoldQuotedArguments | SpaceEngineers-CoachLCD/Program.cs:313-325 | the tokens of quoted arguments fold back into exactly those arguments |
| Commands.ExecuteCommand | SpaceEngineers-CoachLCD/Program.cs:120-245 | throws exactly when a two-column command with the right arity runs on a screen narrower than 2, or PropBool has fewer than four arguments; every two-column line is exactly the screen width; unknown commands give nothing |
| Commands.HLineFillsScreen | SpaceEngineers-CoachLCD/Program.cs:149-150 | HLine is a rule of `'─'` characters exactly as wide as the screen, and empty on a screen of no width |
| Commands.EchoShowsText | SpaceEngineers-CoachLCD/Program.cs:151-152 | Echo shows its first argument unchanged, and nothing without one |
| Commands.CenterShowsText | SpaceEngineers-CoachLCD/Program.cs:153-154 | Center shows the first argument (or nothing) after `max(width/2 - len/2, 0)` spaces, never cut |
| Commands.TwoColShowsColumns | SpaceEngineers-CoachLCD/Program.cs:155-157 | TwoCol with two arguments is their two-column line on a screen at least 2 wide and throws on a narrower one; any other arity gives its usage line |
| Commands.ColorAnswers | SpaceEngineers-CoachLCD/Program.cs:127-136 | Color: the usage line unless there are three arguments; then nothing when all three parse as integers, otherwise the parse error line |
| Commands.FontSizeAnswers | SpaceEngineers-CoachLCD/Program.cs:137-146 | FontSize: the usage line unless there is one argument; then nothing when it parses as a number, otherwise the parse error line |
| Commands.UsageBeforeLookup | SpaceEngineers-CoachLCD/Program.cs:181-224 | with the wrong arity a status command answers with its fixed usage line, whatever the grid and screen |
| Commands.ToggleStatusSelects | SpaceEngineers-CoachLCD/Program.cs:181-222 | Connected/Extending/Retracting show the label with the true text when the block is in the asked status, with the false text when it is not, and with the error text when the lookup fails |
| Commands.PistonStatusSelects | SpaceEngineers-CoachLCD/Program.cs:223-242 | PistonStatus shows the retracting text while retracting, the extending text while extending, the stopped text otherwise, and the error text on a failed lookup |
| Commands.PropBoolSelects | SpaceEngineers-CoachLCD/Program.cs:160-180 | PropBool: five arguments give nothing; fewer than four throw; otherwise the fourth argument for true, the fifth for false when present, and the fourth on a missing fifth or a failed lookup |
| Commands.EmptyOutput | SpaceEngineers-CoachLCD/Program.cs:120-245 | the output is empty exactly for unknown commands, accepted Color/FontSize, PropBool with five arguments, an empty Echo, and a rule or an empty centred line on a screen too narrow to hold anything |
| Commands.OutputWithoutNewline | SpaceEngineers-CoachLCD/Program.cs:120-245 | when no argument holds a line break, no output does |
| Commands.TwoColumnLineCharacters | SpaceEngineers-CoachLCD/Program.cs:285-287 | every character of a two-column line comes from its two texts or is a space |
| Assembly.ExecuteCommands | SpaceEngineers-CoachLCD/Program.cs:109-118 | the loop computes `Screen`: every non-empty output followed by a line break, in order |
| Assembly.ScreenAssemblesOutputs | SpaceEngineers-CoachLCD/Program.cs:109-118 | the screen exists exactly when every command's output does, and it is those outputs assembled in order |
| Assembly.AssembleEmpty | SpaceEngineers-CoachLCD/Program.cs:112-117 | the assembled text is empty exactly when every output is empty |
| Assembly.AssembleLines | SpaceEngineers-CoachLCD/Program.cs:112-117 | split at line breaks, the assembled text is the non-empty outputs in order, followed by one empty piece |
| Assembly.ScreenLines | SpaceEngineers-CoachLCD/Program.cs:109-118 | for records without line breaks in their arguments, the screen's lines are the non-empty command outputs in order |
| Assembly.ScriptScreenLines | SpaceEngineers-CoachLCD/Program.cs:101-103 | for a script that parses and runs, the screen's lines are the non-empty outputs of its commands, in script order |

## Left out

- `Main` and `FindTextSurfaces` are left out. They enumerate the grid's `[LCD]` blocks, configure surfaces and call `WriteText`, which is game-engine I/O. `Assembly.ScriptScreenLines` states what one surface's run yields.
- `ScreenWidth` is left out because it is float arithmetic on panel metrics. The width is an integer field of `Commands.Surface` and is fixed for one evaluation.
- `Color` and `FontSize` are modelled only by their arity checks, their parse-error lines and their empty output on success. Whether `int.Parse` or `float.Parse` accepts a text is a predicate of the surface. Setting the font colour and font size, and a new font size changing the width seen by later commands, are not modelled.
- `GetBlockWithName`, `GetValueBool` and `.Status` are modelled as a map from names to blocks. A map cannot hold two blocks of one name, so duplicate block names (where `GetBlockWithName` returns one of them) cannot be represented. A property the block does not have is a failed lookup, `Failed`; the engine's own behaviour there is not modelled.
- Commands.ExecuteCommand: each exception is a `Fault` value. Exception messages and .NET exception types are not modelled.
- `Program()` (the update frequency) and `Save()` (empty) have no behaviour worth stating.
- `String.StartsWith` and `EndsWith` are culture-sensitive in .NET. They are modelled as ordinal comparisons of the first and last character.
- Strings are sequences of characters. UTF-16 surrogate pairs are not modelled separately.

## Findings

| source | as written | input that shows it | evidently intended | confidence | as-written member | corrected member |
|---|---|---|---|---|---|---|
| SpaceEngineers-CoachLCD/Program.cs:249-251 | the trimming `Substring` result is discarded, so the trailing separator stays; its length `Length - 1 - join.Length` is also one too short; and it throws for a single empty element | `["a","b"]` with `","` gives `"a,b,"`, and the computed trim would give `"a,"`; `[""]` with `","` throws | the elements joined with the separator: `"a,b"` | not executed | Layout.JoinStringCounterexamples | Layout.TrimmedJoinString |
