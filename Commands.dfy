/** ExecuteCommand: one parsed command turned into one output line. Block
    lookups on the grid are a map from block names to blocks; the screen width,
    and whether the number parsers accept a text, come from the surface. */
module Commands {
  import opened Outcomes
  import opened Layout

  datatype ConnectorStatus = Unconnected | Connectable | Connected
  datatype PistonStatus = Stopped | Extending | Extended | Retracting | Retracted

  datatype BlockKind =
    | ShipConnector(connectorStatus: ConnectorStatus)
    | PistonBase(pistonStatus: PistonStatus)
    | OtherBlock

  /** A terminal block: its kind and its boolean terminal properties. */
  datatype Block = Block(kind: BlockKind, boolProperties: map<string, bool>)

  /** What a lookup on the grid gives: the value, or a failure (the block is
      missing or of the wrong kind, which the source turns into an exception). */
  datatype Lookup<T> = Found(value: T) | Failed

  /** The surface a script runs on. `parsesAsInt` and `parsesAsFloat` say
      whether int.Parse and float.Parse accept a text. */
  datatype Surface = Surface(
    width: int,
    grid: map<string, Block>,
    parsesAsInt: string -> bool,
    parsesAsFloat: string -> bool)

  /** GetBlockWithName(name) as IMyShipConnector, then .Status. */
  function ConnectorStatusOf(grid: map<string, Block>, name: string): (r: Lookup<ConnectorStatus>)
  {
    if name in grid && grid[name].kind.ShipConnector? then Found(grid[name].kind.connectorStatus) else Failed
  }

  /** GetBlockWithName(name) as IMyPistonBase, then .Status. */
  function PistonStatusOf(grid: map<string, Block>, name: string): (r: Lookup<PistonStatus>)
  {
    if name in grid && grid[name].kind.PistonBase? then Found(grid[name].kind.pistonStatus) else Failed
  }

  /** GetBlockWithName(name).GetValueBool(property). */
  function BoolPropertyOf(grid: map<string, Block>, name: string, property: string): (r: Lookup<bool>)
  {
    if name in grid && property in grid[name].boolProperties then Found(grid[name].boolProperties[property])
    else Failed
  }

  const HorizontalRule: char := '─'

  const ExpectedArgs := " Expected args: "
  const ColorUsage := "Color:" + ExpectedArgs + "\"<red>\" \"<green>\" \"<blue>\""
  const ColorParseError := "Error: Unable to parse arguments." + " Make sure they are integers"
  const FontSizeUsage := "FontSize:" + ExpectedArgs + "\"<font size>\""
  const FontSizeParseError := "Error: Unable to parse argument." + " Make sure it is a number"
  const TwoColUsage := "TwoCol:" + ExpectedArgs + "\"<left>\" \"<right>\""
  const StatusArgs := ExpectedArgs + "\"<block>\" \"<text>\" " + "\"<true text>\" \"<false text>\" " + "\"<error text>\""
  const PistonStatusUsage :=
    "PistonStatus:" + ExpectedArgs + "\"<block>\" \"<text>\" " + "\"<stopped text>\" \"<retracting text>\" "
    + "\"<extending text>\" \"<error text>\""

  /** The command names ExecuteCommand dispatches on. */
  predicate IsKnownCommand(command: string)
  {
    command in {"Color", "FontSize", "HLine", "Echo", "Center", "TwoCol",
                "PropBool", "Connected", "Extending", "Retracting", "PistonStatus"}
  }

  /** The commands that show one block's status as true text or false text. */
  predicate IsToggleStatus(command: string)
  {
    command == "Connected" || command == "Extending" || command == "Retracting"
  }

  /** Whether the looked-up block is in the status the command asks about. */
  function ToggleMatches(command: string, grid: map<string, Block>, name: string): (r: Lookup<bool>)
    requires IsToggleStatus(command)
  {
    if command == "Connected" then
      match ConnectorStatusOf(grid, name)
      case Found(s) => Found(s == Connected)
      case Failed => Failed
    else
      match PistonStatusOf(grid, name)
      case Found(s) => Found(if command == "Extending" then s == Extending else s == Retracting)
      case Failed => Failed
  }

  /** The commands whose output goes through the two-column layout, given
      their argument count. */
  predicate UsesTwoColumns(command: string, count: nat)
  {
    || (command == "TwoCol" && count == 2)
    || (IsToggleStatus(command) && count == 5)
    || (command == "PistonStatus" && count == 6)
    || (command == "PropBool" && count != 5)
  }

  /** Connected, Extending, Retracting with their five arguments: the label and
      the true or false text; the error text when the lookup fails or the
      layout throws in the attempt. */
  function ToggleStatusLine(command: string, arguments: seq<string>, surface: Surface): (r: Result<string>)
    requires IsToggleStatus(command) && |arguments| == 5
  {
    var attempt :=
      match ToggleMatches(command, surface.grid, arguments[0])
      case Found(b) => TwoColumns([arguments[1], if b then arguments[2] else arguments[3]], surface.width)
      case Failed => Err(LookupFailed);
    Catch(attempt, TwoColumns([arguments[1], arguments[4]], surface.width))
  }

  /** PistonStatus with its six arguments: the label and the stopped,
      retracting or extending text; the error text on failure. */
  function PistonStatusLine(arguments: seq<string>, surface: Surface): (r: Result<string>)
    requires |arguments| == 6
  {
    var attempt :=
      match PistonStatusOf(surface.grid, arguments[0])
      case Found(s) =>
        var statusText := match s
          case Retracting => arguments[3]
          case Extending => arguments[4]
          case _ => arguments[2];
        TwoColumns([arguments[1], statusText], surface.width)
      case Failed => Err(LookupFailed);
    Catch(attempt, TwoColumns([arguments[1], arguments[5]], surface.width))
  }

  /** PropBool with any count but five: the label (third argument) and the
      fourth or fifth argument by the property's value. Every failure inside
      the attempt, including reading a fifth argument that is not there, falls
      back to the fourth argument; with fewer than four the fallback throws too. */
  function PropBoolLine(arguments: seq<string>, surface: Surface): (r: Result<string>)
    requires |arguments| != 5
  {
    var attempt :=
      if |arguments| < 2 then Err(ArrayIndexOutOfRange)
      else
        match BoolPropertyOf(surface.grid, arguments[0], arguments[1])
        case Failed => Err(LookupFailed)
        case Found(value) =>
          if |arguments| < 3 then Err(ArrayIndexOutOfRange)
          else if value && |arguments| < 4 then Err(ArrayIndexOutOfRange)
          else if !value && |arguments| < 5 then Err(ArrayIndexOutOfRange)
          else TwoColumns([arguments[2], if value then arguments[3] else arguments[4]], surface.width);
    Catch(attempt,
      if |arguments| < 4 then Err(ArrayIndexOutOfRange)
      else TwoColumns([arguments[2], arguments[3]], surface.width))
  }

  /** ExecuteCommand: the output line of one command. Unknown commands give
      nothing. Exceptions that escape (a two-column line on a screen narrower
      than two characters, PropBool with fewer than four arguments) are Err;
      every two-column line is exactly as wide as the screen. */
  function ExecuteCommand(command: string, arguments: seq<string>, surface: Surface): (r: Result<string>)
    ensures r.Err? <==>
      UsesTwoColumns(command, |arguments|) && (surface.width < 2 || (command == "PropBool" && |arguments| < 4))
    ensures r.Ok? && UsesTwoColumns(command, |arguments|) ==> |r.value| == surface.width
    ensures !IsKnownCommand(command) ==> r == Ok("")
  {
    var firstArg := if |arguments| > 0 then arguments[0] else "";
    var screenWidth := surface.width;
    match command
    case "Color" =>
      if |arguments| != 3 then Ok(ColorUsage)
      else if surface.parsesAsInt(arguments[0]) && surface.parsesAsInt(arguments[1])
           && surface.parsesAsInt(arguments[2]) then Ok("")
      else Ok(ColorParseError)
    case "FontSize" =>
      if |arguments| != 1 then Ok(FontSizeUsage)
      else if surface.parsesAsFloat(firstArg) then Ok("")
      else Ok(FontSizeParseError)
    case "HLine" => Ok(Repeat(HorizontalRule, screenWidth))
    case "Echo" => Ok(firstArg)
    case "Center" => Ok(Center(firstArg, screenWidth))
    case "TwoCol" =>
      if |arguments| != 2 then Ok(TwoColUsage) else TwoColumns(arguments, screenWidth)
    case "PropBool" =>
      if |arguments| == 5 then Ok("") else PropBoolLine(arguments, surface)
    case "Connected" =>
      if |arguments| != 5 then Ok("Connected:" + StatusArgs) else ToggleStatusLine(command, arguments, surface)
    case "Extending" =>
      if |arguments| != 5 then Ok("Extending:" + StatusArgs) else ToggleStatusLine(command, arguments, surface)
    case "Retracting" =>
      if |arguments| != 5 then Ok("Retracting:" + StatusArgs) else ToggleStatusLine(command, arguments, surface)
    case "PistonStatus" =>
      if |arguments| != 6 then Ok(PistonStatusUsage) else PistonStatusLine(arguments, surface)
    case _ => Ok("")
  }

  /** A status command with the wrong number of arguments answers with its
      fixed usage line, whatever the grid and the screen: no lookup happens. */
  lemma UsageBeforeLookup(arguments: seq<string>, surface: Surface)
    ensures |arguments| != 5 ==>
      && ExecuteCommand("Connected", arguments, surface) == Ok("Connected:" + StatusArgs)
      && ExecuteCommand("Extending", arguments, surface) == Ok("Extending:" + StatusArgs)
      && ExecuteCommand("Retracting", arguments, surface) == Ok("Retracting:" + StatusArgs)
    ensures |arguments| != 6 ==> ExecuteCommand("PistonStatus", arguments, surface) == Ok(PistonStatusUsage)
  {
  }

  /** HLine: a rule of horizontal line characters exactly as wide as the
      screen (nothing on a screen of no width), whatever the arguments. */
  lemma HLineFillsScreen(arguments: seq<string>, surface: Surface)
    ensures var r := ExecuteCommand("HLine", arguments, surface);
      && r.Ok?
      && |r.value| == Max(surface.width, 0)
      && forall i :: 0 <= i < |r.value| ==> r.value[i] == HorizontalRule
  {
  }

  /** Echo shows its first argument unchanged, and nothing without one. */
  lemma EchoShowsText(arguments: seq<string>, surface: Surface)
    ensures |arguments| > 0 ==> ExecuteCommand("Echo", arguments, surface) == Ok(arguments[0])
    ensures |arguments| == 0 ==> ExecuteCommand("Echo", arguments, surface) == Ok("")
  {
  }

  /** Center shows its first argument (or nothing) after half the free width
      of spaces, the text itself never cut. */
  lemma CenterShowsText(arguments: seq<string>, surface: Surface)
    ensures var r := ExecuteCommand("Center", arguments, surface);
      var text := if |arguments| > 0 then arguments[0] else "";
      var pad := Max(Half(surface.width) - |text| / 2, 0);
      && r.Ok?
      && |r.value| == pad + |text|
      && r.value[pad..] == text
      && (forall i :: 0 <= i < pad ==> r.value[i] == ' ')
  {
  }

  /** TwoCol: with two arguments, the two-column line of them on a screen at
      least two wide, and an exception on a narrower one; with any other
      number of arguments, its fixed usage line. */
  lemma TwoColShowsColumns(arguments: seq<string>, surface: Surface)
    ensures var r := ExecuteCommand("TwoCol", arguments, surface);
      && (|arguments| != 2 ==> r == Ok(TwoColUsage))
      && (|arguments| == 2 && surface.width >= 2 ==>
            r.Ok? && IsTwoColumnLine(r.value, arguments[0], arguments[1], surface.width))
      && (|arguments| == 2 && surface.width < 2 ==> r.Err?)
  {
  }

  /** Color: its usage line unless given three arguments; then nothing when
      all three parse as integers, and the parse error line otherwise. */
  lemma ColorAnswers(arguments: seq<string>, surface: Surface)
    ensures var r := ExecuteCommand("Color", arguments, surface);
      && (|arguments| != 3 ==> r == Ok(ColorUsage))
      && (|arguments| == 3 ==>
            r == if forall i :: 0 <= i < 3 ==> surface.parsesAsInt(arguments[i]) then Ok("")
                 else Ok(ColorParseError))
  {
    if |arguments| == 3 {
      assert (forall i :: 0 <= i < 3 ==> surface.parsesAsInt(arguments[i]))
        <==> surface.parsesAsInt(arguments[0]) && surface.parsesAsInt(arguments[1])
             && surface.parsesAsInt(arguments[2]);
    }
  }

  /** FontSize: its usage line unless given one argument; then nothing when
      it parses as a number, and the parse error line otherwise. */
  lemma FontSizeAnswers(arguments: seq<string>, surface: Surface)
    ensures var r := ExecuteCommand("FontSize", arguments, surface);
      && (|arguments| != 1 ==> r == Ok(FontSizeUsage))
      && (|arguments| == 1 && surface.parsesAsFloat(arguments[0]) ==> r == Ok(""))
      && (|arguments| == 1 && !surface.parsesAsFloat(arguments[0]) ==> r == Ok(FontSizeParseError))
  {
  }

  /** Connected, Extending and Retracting with five arguments on a screen at
      least two wide: the label beside the true text when the block is in the
      status asked about, the false text when it is not, the error text when
      the lookup fails. */
  lemma ToggleStatusSelects(command: string, arguments: seq<string>, surface: Surface)
    requires IsToggleStatus(command) && |arguments| == 5 && surface.width >= 2
    ensures var r := ExecuteCommand(command, arguments, surface);
      var connector := ConnectorStatusOf(surface.grid, arguments[0]);
      var piston := PistonStatusOf(surface.grid, arguments[0]);
      var asked := if command == "Extending" then Extending else Retracting;
      && r.Ok?
      && (command == "Connected" && connector.Found? ==>
            IsTwoColumnLine(r.value, arguments[1],
              if connector.value == Connected then arguments[2] else arguments[3], surface.width))
      && (command != "Connected" && piston.Found? ==>
            IsTwoColumnLine(r.value, arguments[1],
              if piston.value == asked then arguments[2] else arguments[3], surface.width))
      && ((command == "Connected" && connector.Failed?) || (command != "Connected" && piston.Failed?) ==>
            IsTwoColumnLine(r.value, arguments[1], arguments[4], surface.width))
  {
    assert ExecuteCommand(command, arguments, surface) == ToggleStatusLine(command, arguments, surface);
  }

  /** PistonStatus with six arguments on a screen at least two wide: the
      retracting text while retracting, the extending text while extending,
      the stopped text in every other status, the error text on failure. */
  lemma PistonStatusSelects(arguments: seq<string>, surface: Surface)
    requires |arguments| == 6 && surface.width >= 2
    ensures var r := ExecuteCommand("PistonStatus", arguments, surface);
      var piston := PistonStatusOf(surface.grid, arguments[0]);
      && r.Ok?
      && (piston == Found(Retracting) ==> IsTwoColumnLine(r.value, arguments[1], arguments[3], surface.width))
      && (piston == Found(Extending) ==> IsTwoColumnLine(r.value, arguments[1], arguments[4], surface.width))
      && (piston.Found? && piston.value !in {Retracting, Extending} ==>
            IsTwoColumnLine(r.value, arguments[1], arguments[2], surface.width))
      && (piston.Failed? ==> IsTwoColumnLine(r.value, arguments[1], arguments[5], surface.width))
  {
    assert ExecuteCommand("PistonStatus", arguments, surface) == PistonStatusLine(arguments, surface);
  }

  /** PropBool on a screen at least two wide. With exactly five arguments it
      shows nothing; with fewer than four it throws. Otherwise the label (third
      argument) stands beside the fourth argument when the property is true,
      beside the fifth when it is false and there is one, and beside the fourth
      again when it is false without a fifth or the lookup fails. */
  lemma PropBoolSelects(arguments: seq<string>, surface: Surface)
    requires surface.width >= 2
    ensures var r := ExecuteCommand("PropBool", arguments, surface);
      var property := if |arguments| >= 2 then BoolPropertyOf(surface.grid, arguments[0], arguments[1]) else Failed;
      && (|arguments| == 5 ==> r == Ok(""))
      && (|arguments| < 4 ==> r.Err?)
      && (|arguments| == 4 || |arguments| >= 6 ==>
            && r.Ok?
            && (property == Found(false) && |arguments| >= 6 ==>
                  IsTwoColumnLine(r.value, arguments[2], arguments[4], surface.width))
            && (property == Found(true) || (property == Found(false) && |arguments| == 4) || property.Failed? ==>
                  IsTwoColumnLine(r.value, arguments[2], arguments[3], surface.width)))
  {
    if |arguments| != 5 {
      assert ExecuteCommand("PropBool", arguments, surface) == PropBoolLine(arguments, surface);
    }
  }

  /** When a command contributes nothing to the screen. */
  predicate GivesNothing(command: string, arguments: seq<string>, surface: Surface)
  {
    var text := if |arguments| > 0 then arguments[0] else "";
    || !IsKnownCommand(command)
    || (command == "Color" && |arguments| == 3 && surface.parsesAsInt(arguments[0])
        && surface.parsesAsInt(arguments[1]) && surface.parsesAsInt(arguments[2]))
    || (command == "FontSize" && |arguments| == 1 && surface.parsesAsFloat(arguments[0]))
    || (command == "HLine" && surface.width <= 0)
    || (command == "Echo" && text == "")
    || (command == "Center" && text == "" && surface.width <= 1)
    || (command == "PropBool" && |arguments| == 5)
  }

  /** The output is empty exactly for unknown commands, accepted settings,
      PropBool with five arguments, an empty Echo, and a rule or an empty
      centred line on a screen too narrow to hold anything. Usage lines, error
      lines and two-column lines are never empty. */
  lemma EmptyOutput(command: string, arguments: seq<string>, surface: Surface)
    ensures ExecuteCommand(command, arguments, surface) == Ok("") <==> GivesNothing(command, arguments, surface)
  {
    var text := if |arguments| > 0 then arguments[0] else "";
    if command == "Center" {
      assert |Center(text, surface.width)| == Max(Half(surface.width) - |text| / 2, 0) + |text|;
    }
  }

  /** The characters of a two-column line come from its two texts or are spaces. */
  lemma TwoColumnLineCharacters(line: string, left: string, right: string, width: int, c: char)
    requires IsTwoColumnLine(line, left, right, width)
    requires c in line
    ensures c in left || c in right || c == ' '
  {
    var keep := width / 2 - 1;
    var lw := Min(keep, |left|);
    var rw := Min(keep, |right|);
    var i :| 0 <= i < |line| && line[i] == c;
    if i < lw {
      assert line[..lw][i] == left[..lw][i];
    } else if i >= width - rw {
      assert line[width - rw..][i - (width - rw)] == right[..rw][i - (width - rw)];
    }
  }

  /** A two-column line of texts without line breaks has none. */
  lemma TwoColumnsWithoutNewline(left: string, right: string, width: int)
    requires '\n' !in left && '\n' !in right
    ensures TwoColumns([left, right], width).Ok? ==> '\n' !in TwoColumns([left, right], width).value
  {
    var r := TwoColumns([left, right], width);
    if r.Ok? && '\n' in r.value {
      TwoColumnLineCharacters(r.value, left, right, width, '\n');
    }
  }

  /** The fixed answers are single lines. */
  lemma FixedLinesWithoutNewline()
    ensures '\n' !in ColorUsage && '\n' !in ColorParseError
    ensures '\n' !in FontSizeUsage && '\n' !in FontSizeParseError
    ensures '\n' !in TwoColUsage && '\n' !in PistonStatusUsage
    ensures '\n' !in StatusArgs
  {
    UsageLinesWithoutNewline();
    ErrorLinesWithoutNewline();
    StatusArgsWithoutNewline();
    PistonStatusUsageWithoutNewline();
  }

  lemma UsageLinesWithoutNewline()
    ensures '\n' !in ColorUsage && '\n' !in FontSizeUsage && '\n' !in TwoColUsage
  {
  }

  lemma ErrorLinesWithoutNewline()
    ensures '\n' !in ColorParseError && '\n' !in FontSizeParseError
  {
  }

  lemma StatusArgsWithoutNewline()
    ensures '\n' !in StatusArgs
  {
  }

  lemma PistonStatusUsageWithoutNewline()
    ensures '\n' !in PistonStatusUsage
  {
  }

  /** No output holds a line break when no argument does, so each output is
      one line of the screen. */
  lemma OutputWithoutNewline(command: string, arguments: seq<string>, surface: Surface)
    requires forall i :: 0 <= i < |arguments| ==> '\n' !in arguments[i]
    ensures ExecuteCommand(command, arguments, surface).Ok? ==>
      '\n' !in ExecuteCommand(command, arguments, surface).value
  {
    FixedLinesWithoutNewline();
    if command == "TwoCol" {
      TwoColWithoutNewline(arguments, surface);
    } else if command == "Center" {
      CenterWithoutNewline(arguments, surface);
    } else if IsToggleStatus(command) {
      ToggleWithoutNewline(command, arguments, surface);
    } else if command == "PistonStatus" {
      PistonWithoutNewline(arguments, surface);
    } else if command == "PropBool" {
      PropBoolWithoutNewline(arguments, surface);
    }
  }

  lemma TwoColWithoutNewline(arguments: seq<string>, surface: Surface)
    requires forall i :: 0 <= i < |arguments| ==> '\n' !in arguments[i]
    ensures ExecuteCommand("TwoCol", arguments, surface).Ok? ==>
      '\n' !in ExecuteCommand("TwoCol", arguments, surface).value
  {
    FixedLinesWithoutNewline();
    if |arguments| == 2 {
      assert arguments == [arguments[0], arguments[1]];
      TwoColumnsWithoutNewline(arguments[0], arguments[1], surface.width);
    }
  }

  lemma CenterWithoutNewline(arguments: seq<string>, surface: Surface)
    requires forall i :: 0 <= i < |arguments| ==> '\n' !in arguments[i]
    ensures ExecuteCommand("Center", arguments, surface).Ok? ==>
      '\n' !in ExecuteCommand("Center", arguments, surface).value
  {
    var text := if |arguments| > 0 then arguments[0] else "";
    assert Center(text, surface.width) == Repeat(' ', Half(surface.width) - |text| / 2) + text;
  }

  lemma ToggleWithoutNewline(command: string, arguments: seq<string>, surface: Surface)
    requires IsToggleStatus(command)
    requires forall i :: 0 <= i < |arguments| ==> '\n' !in arguments[i]
    ensures ExecuteCommand(command, arguments, surface).Ok? ==>
      '\n' !in ExecuteCommand(command, arguments, surface).value
  {
    FixedLinesWithoutNewline();
    var w := surface.width;
    if |arguments| == 5 {
      assert ExecuteCommand(command, arguments, surface) == ToggleStatusLine(command, arguments, surface);
      TwoColumnsWithoutNewline(arguments[1], arguments[2], w);
      TwoColumnsWithoutNewline(arguments[1], arguments[3], w);
      TwoColumnsWithoutNewline(arguments[1], arguments[4], w);
    } else {
      UsageBeforeLookup(arguments, surface);
    }
  }

  lemma PistonWithoutNewline(arguments: seq<string>, surface: Surface)
    requires forall i :: 0 <= i < |arguments| ==> '\n' !in arguments[i]
    ensures ExecuteCommand("PistonStatus", arguments, surface).Ok? ==>
      '\n' !in ExecuteCommand("PistonStatus", arguments, surface).value
  {
    FixedLinesWithoutNewline();
    var w := surface.width;
    if |arguments| == 6 {
      TwoColumnsWithoutNewline(arguments[1], arguments[2], w);
      TwoColumnsWithoutNewline(arguments[1], arguments[3], w);
      TwoColumnsWithoutNewline(arguments[1], arguments[4], w);
      TwoColumnsWithoutNewline(arguments[1], arguments[5], w);
    }
  }

  lemma PropBoolWithoutNewline(arguments: seq<string>, surface: Surface)
    requires forall i :: 0 <= i < |arguments| ==> '\n' !in arguments[i]
    ensures ExecuteCommand("PropBool", arguments, surface).Ok? ==>
      '\n' !in ExecuteCommand("PropBool", arguments, surface).value
  {
    var w := surface.width;
    if |arguments| >= 4 {
      TwoColumnsWithoutNewline(arguments[2], arguments[3], w);
    }
    if |arguments| >= 5 {
      TwoColumnsWithoutNewline(arguments[2], arguments[4], w);
    }
  }
}
