/** Scripts written in the documented format: the parser takes every one of them and reads what was written. */
module ScriptFormat {
  import opened Status
  import opened CText
  import opened Codec
  import opened Decimal
  import opened TickLoop
  import opened ScriptParser

  // --- words with single spaces between them -----------------------------------------

  function Joined(words: seq<string>): string {
    if words == [] then "" else if |words| == 1 then words[0] else words[0] + (" " + Joined(words[1..]))
  }

  predicate WordFits(w: string, width: nat) {
    w != "" && |w| <= width && forall i :: 0 <= i < |w| ==> !IsSpace(w[i])
  }

  lemma {:induction false} TakeWordIs(w: string, rest: string, width: nat)
    requires |w| <= width && (forall i :: 0 <= i < |w| ==> !IsSpace(w[i]))
    requires rest == "" || IsSpace(rest[0])
    ensures TakeWord(w + rest, width) == w && (w + rest)[|w|..] == rest
  {
    if w == "" {
      assert w + rest == rest;
    } else {
      assert (w + rest)[1..] == w[1..] + rest;
      TakeWordIs(w[1..], rest, width - 1);
    }
  }

  lemma BlankIsSpace()
    ensures IsSpace(' ')
  {
  }

  /** Width-limited scanning undoes joining when every word fits its width; widths to spare find nothing. */
  lemma {:induction false} ScanJoined(words: seq<string>, widths: seq<nat>)
    requires |words| <= |widths| && forall i :: 0 <= i < |words| ==> WordFits(words[i], widths[i])
    ensures Scan(Joined(words), widths) == words && Scan(" " + Joined(words), widths) == words
    decreases |words|
  {
    hide TakeWord, IsSpace;
    BlankIsSpace();
    if words == [] {
      assert " "[1..] == "";
    } else {
      var rest := if |words| == 1 then "" else " " + Joined(words[1..]);
      var line := Joined(words);
      assert line == words[0] + rest && line[0] == words[0][0];
      TakeWordIs(words[0], rest, widths[0]);
      SkipSpaceStops(line);
      if |words| > 1 {
        ScanJoined(words[1..], widths[1..]);
      }
      assert Scan(rest, widths[1..]) == words[1..];
      assert [words[0]] + words[1..] == words;
    }
  }

  // --- script lines ---------------------------------------------------------------------

  /** What an author writes: a sensor line with its numbers as text, or a corrupt frame. */
  datatype Step =
    | Sensor(tick: uint32, rpm: string, temperature: string, oil: string, running: bool)
    | Corrupt(tick: uint32)

  function WordsOf(step: Step): seq<string> {
    match step
    case Sensor(tick, rpm, temperature, oil, running) =>
      ["TICK", PrintNat(tick), "RPM", rpm, "TEMP", temperature, "OIL", oil, "RUN", if running then "1" else "0"]
    case Corrupt(tick) => ["TICK", PrintNat(tick), "FRAME", "CORRUPT"]
  }

  function LineOf(step: Step): string { Joined(WordsOf(step)) }

  predicate NumbersFit(step: Step) {
    step.Sensor? ==> WordFits(step.rpm, 31) && WordFits(step.temperature, 31) && WordFits(step.oil, 31)
  }

  /** The reading a sensor line gives, if its numbers are numbers and in range. */
  function Given(strtof: Strtof, step: Step): (r: Option<SensorFrame>)
    requires step.Sensor?
    ensures r.Some? ==> r.value.Valid()
  {
    var rpm, temperature, oil := strtof(step.rpm), strtof(step.temperature), strtof(step.oil);
    if rpm.None? || temperature.None? || oil.None? then None else
    var s := SensorFrame(rpm.value, temperature.value, oil.value, if step.running then 1 else 0);
    if s.Valid() then Some(s) else None
  }

  lemma TickWordFits(tick: uint32)
    ensures WordFits(PrintNat(tick), 10) && ParseUint(PrintNat(tick)) == if tick == 0 then None else Some(tick)
  {
    assert Pow10(5) == 100000;
    assert Pow10(10) == 100000 * 100000;
    PrintNatLength(tick, 10);
    PrintNatReadsBack(tick);
  }

  lemma KeywordsFit()
    ensures WordFits("TICK", 7) && WordFits("RPM", 7) && WordFits("TEMP", 7) && WordFits("OIL", 7) && WordFits("RUN", 7)
    ensures WordFits("FRAME", 7) && WordFits("CORRUPT", 15) && WordFits("0", 7) && WordFits("1", 7)
  {
  }

  /** A sensor line in the documented format is read exactly when its numbers are numbers in range. */
  lemma SensorLineReads(strtof: Strtof, step: Step)
    requires step.Sensor? && step.tick > 0 && NumbersFit(step)
    ensures ParseSensorLine(strtof, LineOf(step)) ==
            match Given(strtof, step) case None => None case Some(s) => Some(SensorLine(step.tick, s))
  {
    hide Joined, Scan, PrintNat, ParseUint, WordFits;
    TickWordFits(step.tick);
    KeywordsFit();
    WiderFits(PrintNat(step.tick), 10, 31);
    ScanJoined(WordsOf(step), SENSOR_WIDTHS);
  }

  lemma WiderFits(w: string, width: nat, wider: nat)
    requires WordFits(w, width) && width <= wider
    ensures WordFits(w, wider)
  {
  }

  /** What a sensor line that is read says, word by word. */
  lemma SensorLineMeans(strtof: Strtof, line: string)
    requires ParseSensorLine(strtof, line).Some?
    ensures var w, sensor := Scan(line, [7, 31, 7, 31, 7, 31, 7, 31, 7, 7]), ParseSensorLine(strtof, line).value;
            && |w| == 10 && w[0] == "TICK" && w[2] == "RPM" && w[4] == "TEMP" && w[6] == "OIL" && w[8] == "RUN"
            && w[1] != "" && AllDigits(w[1]) && sensor.tick == DigitsValue(w[1]) > 0
            && strtof(w[3]) == Some(sensor.reading.rpm) && strtof(w[5]) == Some(sensor.reading.temperature)
            && strtof(w[7]) == Some(sensor.reading.oilPressure)
            && (w[9] == "0" || w[9] == "1") && sensor.reading.isRunning == (if w[9] == "1" then 1 else 0)
            && Encode(sensor.reading).Success?
  {
    hide Scan;
  }

  /** What a corrupt-frame line that is read says. */
  lemma CorruptLineMeans(line: string)
    requires ParseCorruptLine(line).Some?
    ensures var w := Scan(line, [7, 31, 7, 15]);
            && |w| == 4 && w[0] == "TICK" && w[2] == "FRAME" && w[3] == "CORRUPT"
            && w[1] != "" && AllDigits(w[1]) && ParseCorruptLine(line).value == DigitsValue(w[1]) > 0
  {
    hide Scan;
  }

  /** A corrupt-frame line is read as one, and not as a sensor line. */
  lemma CorruptLineReads(strtof: Strtof, step: Step)
    requires step.Corrupt? && step.tick > 0
    ensures ParseCorruptLine(LineOf(step)) == Some(step.tick) && ParseSensorLine(strtof, LineOf(step)) == None
  {
    hide Joined, Scan, PrintNat, ParseUint, WordFits;
    TickWordFits(step.tick);
    KeywordsFit();
    WiderFits(PrintNat(step.tick), 10, 31);
    WiderFits("CORRUPT", 15, 31);
    ScanJoined(WordsOf(step), CORRUPT_WIDTHS);
    ScanJoined(WordsOf(step), SENSOR_WIDTHS);
  }

  lemma StepLineIsData(step: Step)
    requires NumbersFit(step)
    ensures !TooLong(LineOf(step)) && !Blank(LineOf(step)) && !Comment(LineOf(step))
  {
    hide Joined, PrintNat;
    TickWordFits(step.tick);
    var line := LineOf(step);
    LineLength(step);
    assert line != "" && line[0] == 'T' by { LineStarts(step); }
    assert !IsSpace(line[0]);
    InkDecides(line, 0);
  }

  lemma LineStarts(step: Step)
    ensures LineOf(step) != "" && LineOf(step)[0] == 'T'
  {
    assert Joined(WordsOf(step)) == "TICK" + (" " + Joined(WordsOf(step)[1..]));
  }

  lemma LineLength(step: Step)
    requires NumbersFit(step) && |PrintNat(step.tick)| <= 10
    ensures |LineOf(step)| <= 131
  {
    hide PrintNat, Joined, WordFits;
    var number := PrintNat(step.tick);
    match step
    case Corrupt(tick) =>
      PairLength("TICK", number, ["FRAME", "CORRUPT"]);
      LastPairLength("FRAME", "CORRUPT");
      assert WordsOf(step) == ["TICK", number] + ["FRAME", "CORRUPT"];
    case Sensor(tick, rpm, temperature, oil, running) =>
      NumbersAreShort(step);
      SensorLength(number, rpm, temperature, oil, if running then "1" else "0");
  }

  lemma SensorLength(number: string, rpm: string, temperature: string, oil: string, run: string)
    ensures |Joined(["TICK", number, "RPM", rpm, "TEMP", temperature, "OIL", oil, "RUN", run])|
            == 26 + |number| + |rpm| + |temperature| + |oil| + |run|
  {
    hide Joined;
    var runs := ["RUN", run];
    LastPairLength("RUN", run);
    PairLength("OIL", oil, runs);
    PairLength("TEMP", temperature, ["OIL", oil] + runs);
    PairLength("RPM", rpm, ["TEMP", temperature] + (["OIL", oil] + runs));
    PairLength("TICK", number, ["RPM", rpm] + (["TEMP", temperature] + (["OIL", oil] + runs)));
    assert ["TICK", number, "RPM", rpm, "TEMP", temperature, "OIL", oil, "RUN", run]
        == ["TICK", number] + (["RPM", rpm] + (["TEMP", temperature] + (["OIL", oil] + runs)));
  }

  lemma LastPairLength(key: string, value: string)
    ensures |Joined([key, value])| == |key| + 1 + |value|
  {
    assert [key, value][1..] == [value];
  }

  lemma PairLength(key: string, value: string, rest: seq<string>)
    requires rest != []
    ensures |Joined([key, value] + rest)| == |key| + 1 + |value| + 1 + |Joined(rest)|
  {
    var words := [key, value] + rest;
    assert words[1..] == [value] + rest && words[1..][1..] == rest;
  }

  lemma NumbersAreShort(step: Step)
    requires step.Sensor? && NumbersFit(step)
    ensures |step.rpm| <= 31 && |step.temperature| <= 31 && |step.oil| <= 31
  {
  }

  // --- whole scripts ------------------------------------------------------------------------

  function LastGiven(strtof: Strtof, steps: seq<Step>): (r: Option<SensorFrame>)
    ensures r.Some? ==> r.value.Valid()
  {
    if steps == [] then None else
    var last := steps[|steps| - 1];
    if last.Sensor? then Given(strtof, last) else LastGiven(strtof, steps[..|steps| - 1])
  }

  /** A script worth writing: up to 64 steps, rising positive ticks, numbers in range, nothing corrupted before the first reading. */
  predicate Writable(strtof: Strtof, steps: seq<Step>) {
    steps == [] ||
    var before, last := steps[..|steps| - 1], steps[|steps| - 1];
    && Writable(strtof, before) && |steps| <= 64
    && (if before == [] then 0 else before[|before| - 1].tick) < last.tick
    && NumbersFit(last)
    && LastGiven(strtof, steps).Some?
  }

  function LinesOf(steps: seq<Step>): seq<string> {
    if steps == [] then [] else LinesOf(steps[..|steps| - 1]) + [LineOf(steps[|steps| - 1])]
  }

  /** The entries the author had in mind. */
  function EntriesOf(strtof: Strtof, steps: seq<Step>): (entries: seq<Entry>)
    requires Writable(strtof, steps)
    ensures |entries| == |steps|
    ensures steps != [] ==> entries[|steps| - 1].tick == steps[|steps| - 1].tick
  {
    if steps == [] then [] else
    var last := steps[|steps| - 1];
    var sent := Encode(LastGiven(strtof, steps).value).value;
    EntriesOf(strtof, steps[..|steps| - 1]) + [Entry(last.tick, if last.Sensor? then sent else Corrupted(sent))]
  }

  lemma StepIsRead(strtof: Strtof, steps: seq<Step>)
    requires steps != [] && Writable(strtof, steps)
    ensures var last, before := steps[|steps| - 1], steps[..|steps| - 1];
            var sent := Encode(LastGiven(strtof, steps).value).value;
            DataLine(strtof, LastGiven(strtof, before), LineOf(last)) ==
              Some((Entry(last.tick, if last.Sensor? then sent else Corrupted(sent)), LastGiven(strtof, steps).value))
  {
    hide ParseSensorLine, ParseCorruptLine, LineOf, Given, NumbersFit, Corrupted;
    var last := steps[|steps| - 1];
    EncodesIffValid(LastGiven(strtof, steps).value);
    if last.Sensor? {
      SensorLineReads(strtof, last);
    } else {
      CorruptLineReads(strtof, last);
    }
  }

  lemma {:induction false} WrittenLinesFold(strtof: Strtof, strict: bool, steps: seq<Step>)
    requires Writable(strtof, steps)
    ensures Folded(strtof, strict, LinesOf(steps)) ==
            Result.Success(Script(EntriesOf(strtof, steps), 0, LastGiven(strtof, steps)))
  {
    hide DataLine, Blank, Comment, TooLong, LineOf, LastGiven, NumbersFit, Encode, Corrupted;
    if steps == [] {
      NothingGiven(strtof);
    } else {
      var before := steps[..|steps| - 1];
      WrittenLinesFold(strtof, strict, before);
      assert LinesOf(steps)[..|LinesOf(steps)| - 1] == LinesOf(before);
      StepIsRead(strtof, steps);
      StepLineIsData(steps[|steps| - 1]);
    }
  }

  lemma NothingGiven(strtof: Strtof)
    ensures LastGiven(strtof, []) == None
  {
  }

  /**
   * Every writable script is accepted, strictly or not, without a warning, and its entries are the ones written:
   * a sensor line is its reading encoded, a corrupt frame the last reading with its checksum spoilt.
   */
  lemma WrittenScriptIsAccepted(strtof: Strtof, strict: bool, steps: seq<Step>)
    requires Writable(strtof, steps) && steps != []
    ensures Parse(strtof, strict, LinesOf(steps)) ==
            Result.Success(Script(EntriesOf(strtof, steps), 0, LastGiven(strtof, steps)))
  {
    hide Folded, LastGiven, Encode, Corrupted;
    WrittenLinesFold(strtof, strict, steps);
  }
}
