/** Scenario scripts: one TICK line per entry, blank lines and comments in between. */
module ScriptParser {
  import opened Status
  import opened Bytes
  import opened CText
  import opened Codec
  import opened Decimal
  import opened TickLoop

  const MAX_LINE := 190

  /** The number parser of the C library: any function from a word to a number, or to nothing. */
  type Strtof = string -> Option<real>

  // --- scanning words, as sscanf does with width-limited conversions -------------

  function TakeWord(s: string, width: nat): (w: string)
    ensures |w| <= |s|
  {
    if s == "" || width == 0 || IsSpace(s[0]) then "" else [s[0]] + TakeWord(s[1..], width - 1)
  }

  /** One word per width, fewer if the line ends first; a word longer than its width continues into the next one. */
  function Scan(s: string, widths: seq<nat>): seq<string>
    decreases |widths|
  {
    if widths == [] then [] else
    var rest := SkipSpace(s);
    if rest == "" then [] else
    var w := TakeWord(rest, widths[0]);
    [w] + Scan(rest[|w|..], widths[1..])
  }

  /** A positive 32-bit number without sign. */
  function ParseUint(word: string): Option<uint32> {
    if word == "" || !AllDigits(word) then None else
    var n := DigitsValue(word);
    if 0 < n < 0x1_0000_0000 then Some(n) else None
  }

  datatype SensorLine = SensorLine(tick: uint32, reading: SensorFrame)

  const SENSOR_WIDTHS: seq<nat> := [7, 31, 7, 31, 7, 31, 7, 31, 7, 7]
  const CORRUPT_WIDTHS: seq<nat> := [7, 31, 7, 15]

  function ParseSensorLine(strtof: Strtof, line: string): Option<SensorLine> {
    var w := Scan(line, SENSOR_WIDTHS);
    if |w| != 10 then None
    else if w[0] != "TICK" || w[2] != "RPM" || w[4] != "TEMP" || w[6] != "OIL" || w[8] != "RUN" then None
    else
      var tick, rpm, temperature, oil := ParseUint(w[1]), strtof(w[3]), strtof(w[5]), strtof(w[7]);
      if tick.None? || rpm.None? || temperature.None? || oil.None? then None
      else if w[9] != "0" && w[9] != "1" then None
      else
        var s := SensorFrame(rpm.value, temperature.value, oil.value, if w[9] == "0" then 0 else 1);
        if s.Valid() then Some(SensorLine(tick.value, s)) else None
  }

  function ParseCorruptLine(line: string): Option<uint32> {
    var w := Scan(line, CORRUPT_WIDTHS);
    if |w| != 4 || w[0] != "TICK" || w[2] != "FRAME" || w[3] != "CORRUPT" then None else ParseUint(w[1])
  }

  predicate Blank(line: string) {
    forall i :: 0 <= i < |line| ==> IsSpace(line[i])
  }

  /** The first character that is not white space is a hash. */
  predicate Comment(line: string) {
    exists i :: 0 <= i < |line| && line[i] == '#' && Blank(line[..i])
  }

  predicate TooLong(line: string) { |line| > MAX_LINE }

  // --- the fold over lines --------------------------------------------------------

  datatype Script = Script(entries: seq<Entry>, warnings: uint32, lastSensor: Option<SensorFrame>)

  const EMPTY_SCRIPT := Script([], 0, None)

  /** The frame of a CORRUPT line: the previous reading with its checksum byte spoilt. */
  function Corrupted(f: Frame): Frame {
    f.(data := f.data[7 := Xor(f.data[7], 0x5A)])
  }

  /** The entry a data line adds, and the reading later CORRUPT lines repeat. */
  function DataLine(strtof: Strtof, last: Option<SensorFrame>, line: string): Option<(Entry, SensorFrame)> {
    var sensor := ParseSensorLine(strtof, line);
    if sensor.Some? then
      match Encode(sensor.value.reading)
      case Success(f) => Some((Entry(sensor.value.tick, f), sensor.value.reading))
      case Failure(_) => None
    else
      var corrupt := ParseCorruptLine(line);
      if corrupt.None? || last.None? then None else
      match Encode(last.value)
      case Success(f) => Some((Entry(corrupt.value, Corrupted(f)), last.value))
      case Failure(_) => None
  }

  function LineStep(strtof: Strtof, strict: bool, script: Script, line: string): Result<Script> {
    if TooLong(line) then Failure(ParseError)
    else if Blank(line) then Success(script)
    else if Comment(line) then
      if strict then Failure(ParseError) else Success(script.(warnings := (script.warnings + 1) % 0x1_0000_0000))
    else if |script.entries| >= MAX_TICKS then Failure(ParseError)
    else match DataLine(strtof, script.lastSensor, line)
      case None => Failure(ParseError)
      case Some((entry, sensor)) =>
        if script.entries != [] && entry.tick <= script.entries[|script.entries| - 1].tick then Failure(ParseError)
        else Success(Script(script.entries + [entry], script.warnings, Some(sensor)))
  }

  function Folded(strtof: Strtof, strict: bool, lines: seq<string>): Result<Script> {
    if lines == [] then Success(EMPTY_SCRIPT) else
    match Folded(strtof, strict, lines[..|lines| - 1])
    case Failure(status) => Failure(status)
    case Success(script) => LineStep(strtof, strict, script, lines[|lines| - 1])
  }

  /** A whole script; one without any entry is an error. */
  function Parse(strtof: Strtof, strict: bool, lines: seq<string>): Result<Script> {
    match Folded(strtof, strict, lines)
    case Failure(status) => Failure(status)
    case Success(script) => if script.entries == [] then Failure(ParseError) else Success(script)
  }

  // --- the parser as it runs --------------------------------------------------------

  method LineIsWhitespaceOnly(line: string) returns (blank: bool)
    ensures blank <==> Blank(line)
  {
    var cursor := 0;
    while cursor < |line|
      invariant 0 <= cursor <= |line|
      invariant Blank(line[..cursor])
    {
      if !IsSpace(line[cursor]) {
        return false;
      }
      cursor := cursor + 1;
    }
    assert line[..cursor] == line;
    return true;
  }

  method LineIsComment(line: string) returns (comment: bool)
    ensures comment <==> Comment(line)
  {
    var cursor := 0;
    while cursor < |line| && IsSpace(line[cursor])
      invariant 0 <= cursor <= |line|
      invariant Blank(line[..cursor])
    {
      cursor := cursor + 1;
    }
    InkDecides(line, cursor);
    return cursor < |line| && line[cursor] == '#';
  }

  lemma BlankPrefix(line: string, n: nat, i: nat)
    requires i < n <= |line| && Blank(line[..n])
    ensures IsSpace(line[i])
  {
    assert line[..n][i] == line[i];
  }

  /** The first character that is not white space decides whether the line is a comment. */
  lemma InkDecides(line: string, ink: nat)
    requires ink <= |line| && Blank(line[..ink])
    requires ink < |line| ==> !IsSpace(line[ink])
    ensures Comment(line) <==> ink < |line| && line[ink] == '#'
  {
    forall i | 0 <= i < |line| && line[i] == '#' && Blank(line[..i]) ensures i == ink {
      if i < ink {
        BlankPrefix(line, ink, i);
      } else if ink < i {
        BlankPrefix(line, i, ink);
      }
    }
  }

  /** The caller's script object, filled line by line. */
  class ScriptScenario {
    const tickValues: array<uint32>
    const sensorFrames: array<Frame>
    var tickCount: nat
    var parseWarningCount: uint32

    ghost predicate Valid() {
      tickValues.Length == MAX_TICKS && sensorFrames.Length == MAX_TICKS
    }

    constructor ()
      ensures Valid() && fresh(tickValues) && fresh(sensorFrames) && tickCount == 0
    {
      tickValues := new uint32[MAX_TICKS](_ => 0);
      sensorFrames := new Frame[MAX_TICKS](_ => Frame(0, 0, [0, 0, 0, 0, 0, 0, 0, 0]));
      tickCount, parseWarningCount := 0, 0;
    }

    /** The first rows of the two arrays hold these entries. */
    ghost predicate Holds(entries: seq<Entry>)
      reads tickValues, sensorFrames
    {
      && Valid() && |entries| <= MAX_TICKS
      && forall i :: 0 <= i < |entries| ==> entries[i] == Entry(tickValues[i], sensorFrames[i])
    }

    /** Decode one data line into the given row. */
    method ParseDataLine(strtof: Strtof, line: string, row: nat, last: Option<SensorFrame>)
      returns (sensor: Option<SensorFrame>)
      requires Valid() && row < MAX_TICKS
      modifies tickValues, sensorFrames
      ensures forall i :: 0 <= i < MAX_TICKS && i != row ==>
                tickValues[i] == old(tickValues[i]) && sensorFrames[i] == old(sensorFrames[i])
      ensures DataLine(strtof, last, line) ==
                if sensor.None? then None else Some((Entry(tickValues[row], sensorFrames[row]), sensor.value))
    {
      hide ParseSensorLine, ParseCorruptLine, Encode;
      var parsed := ParseSensorLine(strtof, line);
      if parsed.Some? {
        tickValues[row] := parsed.value.tick;
        var encoded := EncodeSensorFrame(parsed.value.reading);
        if encoded.Failure? {
          return None;
        }
        sensorFrames[row] := encoded.value;
        return Some(parsed.value.reading);
      }
      var corrupt := ParseCorruptLine(line);
      if corrupt.None? {
        return None;
      }
      tickValues[row] := corrupt.value;
      if last.None? {
        return None;
      }
      var encoded := EncodeSensorFrame(last.value);
      if encoded.Failure? {
        return None;
      }
      sensorFrames[row] := Corrupted(encoded.value);
      return last;
    }

    method ParseLines(strtof: Strtof, lines: seq<string>, strict: bool) returns (status: StatusCode)
      requires Valid()
      modifies this, tickValues, sensorFrames
      ensures match Parse(strtof, strict, lines)
              case Failure(st) => status == st && status != StatusOk && tickCount == 0
              case Success(script) =>
                status == StatusOk && tickCount == |script.entries| && Holds(script.entries)
                && parseWarningCount == script.warnings
    {
      hide DataLine, Comment, Blank, Folded;
      FoldOfNothing(strtof, strict);
      assert lines[..0] == [];
      tickCount, parseWarningCount := 0, 0;
      var parsedTicks: nat := 0;
      var lastSensor: Option<SensorFrame> := None;
      ghost var script := EMPTY_SCRIPT;
      var i := 0;
      while i < |lines|
        invariant 0 <= i <= |lines|
        invariant Folded(strtof, strict, lines[..i]) == Success(script)
        invariant tickCount == 0 && parseWarningCount == script.warnings && lastSensor == script.lastSensor
        invariant parsedTicks == |script.entries| && Holds(script.entries)
      {
        var line := lines[i];
        FoldOneMore(strtof, strict, lines, i);
        FailureSticks(strtof, strict, lines, i + 1);
        i := i + 1;
        if |line| > MAX_LINE {
          return ParseError;
        }
        var blank := LineIsWhitespaceOnly(line);
        if blank {
          continue;
        }
        var comment := LineIsComment(line);
        if comment {
          if strict {
            return ParseError;
          }
          parseWarningCount := (parseWarningCount + 1) % 0x1_0000_0000;
          script := script.(warnings := parseWarningCount);
          continue;
        }
        if parsedTicks >= MAX_TICKS {
          return ParseError;
        }
        var sensor := ParseDataLine(strtof, line, parsedTicks, lastSensor);
        if sensor.None? {
          return ParseError;
        }
        lastSensor := sensor;
        if parsedTicks > 0 && tickValues[parsedTicks] <= tickValues[parsedTicks - 1] {
          return ParseError;
        }
        script := Script(script.entries + [Entry(tickValues[parsedTicks], sensorFrames[parsedTicks])],
                         parseWarningCount, lastSensor);
        parsedTicks := parsedTicks + 1;
      }
      assert lines[..i] == lines;
      if parsedTicks == 0 {
        return ParseError;
      }
      tickCount := parsedTicks;
      return StatusOk;
    }
  }

  lemma FoldOfNothing(strtof: Strtof, strict: bool)
    ensures Folded(strtof, strict, []) == Success(EMPTY_SCRIPT)
  {
  }

  lemma FoldOneMore(strtof: Strtof, strict: bool, lines: seq<string>, i: nat)
    requires i < |lines| && Folded(strtof, strict, lines[..i]).Success?
    ensures Folded(strtof, strict, lines[..i + 1]) ==
            LineStep(strtof, strict, Folded(strtof, strict, lines[..i]).value, lines[i])
  {
    hide LineStep;
    assert lines[..i + 1][..i] == lines[..i];
  }

  /** Once a prefix of the lines is refused, so is the whole. */
  lemma {:induction false} FailureSticks(strtof: Strtof, strict: bool, lines: seq<string>, n: nat)
    requires n <= |lines|
    ensures Folded(strtof, strict, lines[..n]).Failure? ==> Folded(strtof, strict, lines) == Failure(ParseError)
    decreases |lines|
  {
    hide LineStep;
    if n == |lines| {
      assert lines[..n] == lines;
      OnlyParseErrors(strtof, strict, lines);
    } else {
      assert lines[..|lines| - 1][..n] == lines[..n];
      FailureSticks(strtof, strict, lines[..|lines| - 1], n);
    }
  }

  lemma {:induction false} OnlyParseErrors(strtof: Strtof, strict: bool, lines: seq<string>)
    ensures Folded(strtof, strict, lines).Failure? ==> Folded(strtof, strict, lines).status == ParseError
  {
    hide DataLine, Comment, Blank;
    if lines == [] {
    } else {
      OnlyParseErrors(strtof, strict, lines[..|lines| - 1]);
    }
  }
}
