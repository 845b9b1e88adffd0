/** What an accepted script contains, and everything that can become of running it. */
module ScriptOutcome {
  import opened Status
  import opened Bytes
  import opened CText
  import opened EngineModel
  import opened Codec
  import opened ChecksumStrength
  import opened HalModel
  import opened HalHistory
  import opened TickLoop
  import opened TickGap
  import opened ModeSafety
  import opened ScriptParser

  // --- what an accepted script contains ---------------------------------------------

  /** The lines that carry an entry. */
  function DataLines(lines: seq<string>): seq<string> {
    if lines == [] then [] else
    var line := lines[|lines| - 1];
    DataLines(lines[..|lines| - 1]) + if Blank(line) || Comment(line) then [] else [line]
  }

  /** The reading of the last sensor line. */
  function LastReading(strtof: Strtof, data: seq<string>): Option<SensorFrame> {
    if data == [] then None else
    var sensor := ParseSensorLine(strtof, data[|data| - 1]);
    if sensor.Some? then Some(sensor.value.reading) else LastReading(strtof, data[..|data| - 1])
  }

  /** Entry i says what data line i says: a sensor line's own reading, or the last one before it with a spoilt checksum. */
  ghost predicate EntryOfLine(strtof: Strtof, data: seq<string>, i: nat, e: Entry)
    requires i < |data|
  {
    var sensor := ParseSensorLine(strtof, data[i]);
    var last := LastReading(strtof, data[..i]);
    if sensor.Some? then
      e.tick == sensor.value.tick && Encode(sensor.value.reading) == Success(e.frame)
    else
      && ParseCorruptLine(data[i]) == Some(e.tick) && last.Some?
      && Encode(last.value).Success? && e.frame == Corrupted(Encode(last.value).value)
  }

  ghost predicate Increasing(entries: seq<Entry>) {
    && (forall i :: 0 <= i < |entries| ==> 0 < entries[i].tick)
    && (forall i, j :: 0 <= i < j < |entries| ==> entries[i].tick < entries[j].tick)
  }

  ghost predicate ReadsAs(strtof: Strtof, data: seq<string>, entries: seq<Entry>) {
    && |entries| == |data| <= 64
    && (forall i :: 0 <= i < |data| ==> EntryOfLine(strtof, data, i, entries[i]))
    && Increasing(entries)
  }

  lemma TicksArePositive(strtof: Strtof, line: string)
    ensures ParseSensorLine(strtof, line).Some? ==> 0 < ParseSensorLine(strtof, line).value.tick
    ensures ParseCorruptLine(line).Some? ==> 0 < ParseCorruptLine(line).value
  {
    hide Scan;
  }

  lemma LastReadingOneMore(strtof: Strtof, data: seq<string>, line: string)
    ensures (data + [line])[..|data|] == data
    ensures LastReading(strtof, data + [line]) ==
              match ParseSensorLine(strtof, line) case None => LastReading(strtof, data) case Some(l) => Some(l.reading)
  {
    hide ParseSensorLine;
    assert (data + [line])[..|data|] == data && (data + [line])[|data|] == line;
  }

  lemma DataLineMeans(strtof: Strtof, data: seq<string>, line: string)
    ensures var d := DataLine(strtof, LastReading(strtof, data), line);
            d.Some? ==>
              && EntryOfLine(strtof, data + [line], |data|, d.value.0)
              && LastReading(strtof, data + [line]) == Some(d.value.1)
              && 0 < d.value.0.tick
  {
    hide Encode, ParseSensorLine, ParseCorruptLine, LastReading, Corrupted;
    TicksArePositive(strtof, line);
    LastReadingOneMore(strtof, data, line);
    assert (data + [line])[|data|] == line;
  }

  lemma ReadsAsGrows(strtof: Strtof, data: seq<string>, entries: seq<Entry>, line: string, e: Entry)
    requires ReadsAs(strtof, data, entries) && |data| < 64
    requires EntryOfLine(strtof, data + [line], |data|, e) && 0 < e.tick
    requires entries != [] ==> entries[|entries| - 1].tick < e.tick
    ensures ReadsAs(strtof, data + [line], entries + [e])
  {
    hide ParseSensorLine, ParseCorruptLine, Encode, LastReading, Corrupted;
    var all := data + [line];
    forall i | 0 <= i < |all| ensures EntryOfLine(strtof, all, i, (entries + [e])[i]) {
      if i < |data| {
        assert all[..i] == data[..i];
      }
    }
  }

  lemma {:induction false} FoldedReadsAs(strtof: Strtof, strict: bool, lines: seq<string>)
    ensures var r := Folded(strtof, strict, lines);
            r.Success? ==>
              && ReadsAs(strtof, DataLines(lines), r.value.entries)
              && r.value.lastSensor == LastReading(strtof, DataLines(lines))
  {
    hide DataLine, EntryOfLine, ParseSensorLine, Blank, Comment;
    if lines == [] {
    } else {
      var before, line := lines[..|lines| - 1], lines[|lines| - 1];
      FoldedReadsAs(strtof, strict, before);
      var r := Folded(strtof, strict, before);
      if r.Success? && !Blank(line) && !Comment(line) {
        var d := DataLine(strtof, r.value.lastSensor, line);
        DataLineMeans(strtof, DataLines(before), line);
        if LineStep(strtof, strict, r.value, line).Success? {
          ReadsAsGrows(strtof, DataLines(before), r.value.entries, line, d.value.0);
        }
      } else {
        assert DataLines(before) + [] == DataLines(before);
      }
    }
  }

  lemma SpoiltByteDiffers(a: uint8)
    ensures Xor(a, 0x5A) != a
  {
    hide Xor;
    XorTwice(a, 0x5A);
    XorIsZeroIff(a, a);
  }

  /** The HAL rejects the frame of every CORRUPT line. */
  lemma CorruptIsRejected(f: Frame)
    requires Accepted(f)
    ensures TransportValid(Corrupted(f)) && !Accepted(Corrupted(f)) && Meaning(Corrupted(f)) == Failure(ParseError)
  {
    hide Xor, Unpacked;
    SpoiltByteDiffers(f.data[7]);
    ByteChangeRejected(f.data, 7, Xor(f.data[7], 0x5A));
  }

  lemma EncodedIsAccepted(s: SensorFrame)
    requires Encode(s).Success?
    ensures Accepted(Encode(s).value) && TransportValid(Encode(s).value)
    ensures Meaning(Encode(s).value) == Success(Quantised(s))
  {
    DecodeOfEncode(s);
  }

  /**
   * An accepted script has 1 to 64 entries, one per data line, with strictly increasing positive ticks. Every frame
   * passes the HAL's transport checks; the HAL then accepts exactly the frames of sensor lines, the first among them.
   */
  lemma AcceptedScriptIsWellFormed(strtof: Strtof, strict: bool, lines: seq<string>)
    requires Parse(strtof, strict, lines).Success?
    ensures var entries := Parse(strtof, strict, lines).value.entries;
            && 1 <= |entries| <= 64 && ReadsAs(strtof, DataLines(lines), entries)
            && Accepted(entries[0].frame)
            && forall i :: 0 <= i < |entries| ==>
                 && TransportValid(entries[i].frame)
                 && (Accepted(entries[i].frame) <==> ParseSensorLine(strtof, DataLines(lines)[i]).Some?)
                 && (Meaning(entries[i].frame).Success? <==> Accepted(entries[i].frame))
  {
    hide Encode, Decode, ParseSensorLine, ParseCorruptLine, Corrupted;
    FoldedReadsAs(strtof, strict, lines);
    var entries, data := Parse(strtof, strict, lines).value.entries, DataLines(lines);
    forall i | 0 <= i < |entries|
      ensures TransportValid(entries[i].frame) && (Meaning(entries[i].frame).Success? <==> Accepted(entries[i].frame))
      ensures Accepted(entries[i].frame) <==> ParseSensorLine(strtof, data[i]).Some?
    {
      assert EntryOfLine(strtof, data, i, entries[i]);
      var sensor := ParseSensorLine(strtof, data[i]);
      if sensor.Some? {
        EncodedIsAccepted(sensor.value.reading);
      } else {
        var s := LastReading(strtof, data[..i]).value;
        EncodedIsAccepted(s);
        CorruptIsRejected(Encode(s).value);
      }
    }
    assert EntryOfLine(strtof, data, 0, entries[0]);
    assert data[..0] == [];
  }

  // --- strictness, blank lines and comments --------------------------------------------

  lemma {:induction false} WarningsOnlyGrow(strtof: Strtof, lines: seq<string>)
    requires |lines| < 0x1_0000_0000
    ensures Folded(strtof, false, lines).Success? ==> Folded(strtof, false, lines).value.warnings <= |lines|
  {
    hide DataLine, Blank, Comment;
    if lines == [] {
    } else {
      WarningsOnlyGrow(strtof, lines[..|lines| - 1]);
    }
  }

  lemma {:induction false} StrictFold(strtof: Strtof, lines: seq<string>)
    requires |lines| < 0x1_0000_0000
    ensures var strict, lax := Folded(strtof, true, lines), Folded(strtof, false, lines);
            && (strict.Success? <==> lax.Success? && lax.value.warnings == 0)
            && (strict.Success? ==> strict == lax)
  {
    hide DataLine, Blank, Comment;
    if lines == [] {
    } else {
      StrictFold(strtof, lines[..|lines| - 1]);
      WarningsOnlyGrow(strtof, lines[..|lines| - 1]);
    }
  }

  /** Strict parsing accepts what lenient parsing accepts without a warning, and yields the same script. */
  lemma StrictIsLenientWithoutWarnings(strtof: Strtof, lines: seq<string>)
    requires |lines| < 0x1_0000_0000
    ensures var strict, lax := Parse(strtof, true, lines), Parse(strtof, false, lines);
            && (strict.Success? <==> lax.Success? && lax.value.warnings == 0)
            && (strict.Success? ==> strict == lax)
  {
    StrictFold(strtof, lines);
  }

  /** How many lines are comments. */
  function CommentCount(lines: seq<string>): nat {
    if lines == [] then 0 else CommentCount(lines[1..]) + if Comment(lines[0]) then 1 else 0
  }

  lemma {:induction false} CommentCountAppends(lines: seq<string>, line: string)
    ensures CommentCount(lines + [line]) == CommentCount(lines) + if Comment(line) then 1 else 0
  {
    hide Comment;
    if lines == [] {
      assert [] + [line] == [line] && [line][1..] == [];
    } else {
      assert (lines + [line])[1..] == lines[1..] + [line];
      CommentCountAppends(lines[1..], line);
    }
  }

  lemma CommentIsNotBlank(line: string)
    ensures Comment(line) ==> !Blank(line)
  {
  }

  lemma {:induction false} FoldedComments(strtof: Strtof, strict: bool, lines: seq<string>)
    requires Folded(strtof, strict, lines).Success?
    ensures Folded(strtof, strict, lines).value.warnings == CommentCount(lines) % 0x1_0000_0000
    ensures strict ==> CommentCount(lines) == 0
    ensures forall i :: 0 <= i < |lines| ==> |lines[i]| <= 190
  {
    hide DataLine, Blank, Comment;
    if lines == [] {
    } else {
      var before, line := lines[..|lines| - 1], lines[|lines| - 1];
      FoldedComments(strtof, strict, before);
      CommentCountAppends(before, line);
      CommentIsNotBlank(line);
      assert before + [line] == lines;
      assert forall i :: 0 <= i < |before| ==> lines[i] == before[i];
    }
  }

  lemma {:induction false} NoComments(lines: seq<string>)
    ensures CommentCount(lines) == 0 <==> forall i :: 0 <= i < |lines| ==> !Comment(lines[i])
  {
    hide Comment;
    if lines == [] {
    } else {
      NoComments(lines[1..]);
      assert lines == [lines[0]] + lines[1..];
    }
  }

  /**
   * An accepted script has no overlong line, and its warnings are its comment lines, counted in 32 bits; a script
   * accepted in strict mode has no comment line at all.
   */
  lemma AcceptedComments(strtof: Strtof, strict: bool, lines: seq<string>)
    requires Parse(strtof, strict, lines).Success?
    ensures Parse(strtof, strict, lines).value.warnings == CommentCount(lines) % 0x1_0000_0000
    ensures forall i :: 0 <= i < |lines| ==> |lines[i]| <= 190 && (strict ==> !Comment(lines[i]))
  {
    hide Comment;
    FoldedComments(strtof, strict, lines);
    NoComments(lines);
  }

  /** A hash after any white space, or none, makes a comment, whatever follows; another ink character makes none. */
  lemma CommentShape(space: string, ink: char, rest: string)
    requires (forall i :: 0 <= i < |space| ==> space[i] in " \t\n\r\U{000B}\U{000C}") && !IsSpace(ink)
    ensures Comment(space + [ink] + rest) <==> ink == '#'
    ensures Blank(space) && !Blank(space + [ink] + rest)
  {
    var line := space + [ink] + rest;
    assert line[..|space|] == space && line[|space|] == ink;
    InkDecides(line, |space|);
  }

  /** A corrupt frame is the last reading's frame with the bits 0x5A of its checksum byte flipped, and no others. */
  lemma CorruptedIs(f: Frame)
    ensures var c := Corrupted(f);
            && c.id == f.id && c.dlc == f.dlc && c.data[..7] == f.data[..7]
            && Xor(f.data[7], c.data[7]) == 0x5A
  {
    XorTwice(f.data[7], 0x5A);
  }

  /** Both refused, or both accepted with the same entries. */
  predicate SameEntries(a: Result<Script>, b: Result<Script>) {
    match (a, b)
    case (Success(s), Success(t)) => s.entries == t.entries && s.lastSensor == t.lastSensor
    case (Failure(s), Failure(t)) => s == t
    case _ => false
  }

  lemma StepSeesEntriesOnly(strtof: Strtof, a: Script, b: Script, line: string)
    requires a.entries == b.entries && a.lastSensor == b.lastSensor
    ensures SameEntries(LineStep(strtof, false, a, line), LineStep(strtof, false, b, line))
  {
    hide DataLine, Blank, Comment;
  }

  lemma StepOverOtherLine(strtof: Strtof, script: Script, line: string)
    requires !TooLong(line) && (Blank(line) || Comment(line))
    ensures SameEntries(LineStep(strtof, false, script, line), Success(script))
  {
    hide DataLine, Blank, Comment;
  }

  lemma {:induction false} FoldIgnoresOtherLines(strtof: Strtof, lines: seq<string>)
    requires forall line :: line in lines ==> !TooLong(line)
    ensures SameEntries(Folded(strtof, false, lines), Folded(strtof, false, DataLines(lines)))
  {
    hide LineStep, Blank, Comment;
    if lines == [] {
    } else {
      var before, line := lines[..|lines| - 1], lines[|lines| - 1];
      FoldIgnoresOtherLines(strtof, before);
      var all, data := Folded(strtof, false, before), Folded(strtof, false, DataLines(before));
      if !Blank(line) && !Comment(line) {
        assert DataLines(lines)[..|DataLines(lines)| - 1] == DataLines(before);
        if all.Success? {
          StepSeesEntriesOnly(strtof, all.value, data.value, line);
        }
      } else {
        assert DataLines(lines) == DataLines(before);
        if all.Success? {
          StepOverOtherLine(strtof, all.value, line);
        }
      }
    }
  }

  /** Deleting the blank lines and comments of a script changes nothing but the warning count. */
  lemma BlankAndCommentLinesDoNotMatter(strtof: Strtof, lines: seq<string>)
    requires forall line :: line in lines ==> !TooLong(line)
    ensures SameEntries(Parse(strtof, false, lines), Parse(strtof, false, DataLines(lines)))
  {
    FoldIgnoresOtherLines(strtof, lines);
  }

  // --- running it ------------------------------------------------------------------------

  function Previous(current: uint32, entries: seq<Entry>, i: nat): uint32
    requires i < |entries|
  {
    if i == 0 then current else entries[i - 1].tick
  }

  /** Entry i comes five ticks or more after the one before it. */
  predicate Late(current: uint32, entries: seq<Entry>, i: nat)
    requires i < |entries|
  {
    entries[i].tick - Previous(current, entries, i) > 4
  }

  predicate Stops(current: uint32, entries: seq<Entry>, i: nat)
    requires i < |entries|
  {
    Late(current, entries, i) || !Accepted(entries[i].frame)
  }

  ghost predicate GoodUpTo(current: uint32, entries: seq<Entry>, n: nat) {
    n <= |entries| && forall i :: 0 <= i < n ==> !Stops(current, entries, i)
  }

  ghost predicate Runnable(current: uint32, entries: seq<Entry>) {
    forall i :: 0 <= i < |entries| ==>
      && Previous(current, entries, i) < entries[i].tick
      && TransportValid(entries[i].frame)
      && (Meaning(entries[i].frame).Success? <==> Accepted(entries[i].frame))
  }

  lemma TailRunnable(current: uint32, entries: seq<Entry>, n: nat)
    requires entries != [] && Runnable(current, entries) && n < |entries|
    ensures Runnable(entries[0].tick, entries[1..])
    ensures GoodUpTo(current, entries, n + 1) ==> GoodUpTo(entries[0].tick, entries[1..], n)
    ensures n + 1 < |entries| ==>
              (Late(current, entries, n + 1) <==> Late(entries[0].tick, entries[1..], n)) &&
              (Stops(current, entries, n + 1) <==> Stops(entries[0].tick, entries[1..], n))
  {
    hide Accepted, Meaning, TransportValid;
    var tail := entries[1..];
    forall i | 0 <= i < |tail|
      ensures tail[i] == entries[i + 1] && Previous(entries[0].tick, tail, i) == Previous(current, entries, i + 1)
    {
    }
    if GoodUpTo(current, entries, n + 1) {
      forall i | 0 <= i < n ensures !Stops(entries[0].tick, tail, i) {
        assert !Stops(current, entries, i + 1);
      }
    }
  }

  /** The run goes through the first n good entries; at entry n it ends, one way or the other. */
  lemma {:induction false} RunUntil(rig: Rig, w: World, current: uint32, entries: seq<Entry>, last: Verdict, n: nat)
    requires InStep(w.hal, current) && Runnable(current, entries)
    requires GoodUpTo(current, entries, n)
    requires n < |entries| ==> Stops(current, entries, n)
    ensures var o := Run(rig, w, current, entries, last);
            && |o.reports| == n && (o.completed <==> n == |entries|)
            && (n < |entries| ==> o.verdict == if Late(current, entries, n) then ResultShutdown else ResultError)
            && (n == |entries| && last != ResultError ==> o.verdict != ResultError)
    decreases |entries|
  {
    hide Tick, Meaning, Accepted, TransportValid, Sampled, Updated;
    if entries == [] {
    } else {
      assert Previous(current, entries, 0) == current;
      TickInStep(rig, w, current, entries[0]);
      if n != 0 {
        assert !Stops(current, entries, 0);
        TailRunnable(current, entries, n - 1);
        var t := Tick(rig, w, current, entries[0]);
        RunUntil(rig, t.world, entries[0].tick, entries[1..], t.report.result, n - 1);
      }
    }
  }

  /**
   * The complete outcome of an accepted script on a fresh HAL and a reset engine. Entry n is the first that is a
   * CORRUPT line or comes five ticks or more after its predecessor (after tick 0, for the first). A late entry ends
   * the run with SHUTDOWN, any other with ERROR, and in both cases no report is counted; with no such entry the run
   * goes to its end. No other exit is reachable.
   */
  lemma ScriptRunOutcome(strtof: Strtof, strict: bool, lines: seq<string>, script: Script, rig: Rig, n: nat)
    requires Parse(strtof, strict, lines) == Result.Success(script)
    requires GoodUpTo(0, script.entries, n) && (n < |script.entries| ==> Stops(0, script.entries, n))
    ensures var o := Profile(rig, World(INITIAL_STATE, FRESH_HAL), script.entries);
            && |o.reports| == n + 1
            && (o.completed <==> n == |script.entries|)
            && (n == |script.entries| ==> o.verdict != ResultError && VerdictMatches(o.verdict, o.world.engine))
            && (n < |script.entries| ==>
                  if Late(0, script.entries, n) then o.verdict == ResultShutdown
                  else o.verdict == ResultError && !Accepted(script.entries[n].frame))
  {
    hide Parse, ReadsAs, Stops, Tick, Accepted, Meaning, TransportValid, ParseSensorLine;
    AcceptedScriptIsWellFormed(strtof, strict, lines);
    var entries := script.entries;
    TicksRise(strtof, DataLines(lines), entries);
    var start := World(Started(INITIAL_STATE), FRESH_HAL);
    RunUntil(rig, start, 0, entries, ResultOk, n);
    RunVerdictMatchesMode(rig, start, 0, entries, ResultOk);
    StopIsLateOrRejected(0, entries, n);
  }

  lemma TicksRise(strtof: Strtof, data: seq<string>, entries: seq<Entry>)
    requires ReadsAs(strtof, data, entries)
    ensures forall i :: 0 <= i < |entries| ==> Previous(0, entries, i) < entries[i].tick
  {
    hide EntryOfLine;
  }

  lemma StopIsLateOrRejected(current: uint32, entries: seq<Entry>, n: nat)
    ensures n < |entries| && Stops(current, entries, n) && !Late(current, entries, n) ==> !Accepted(entries[n].frame)
  {
  }

  /** There is always exactly one such n. */
  lemma {:induction false} FirstStop(current: uint32, entries: seq<Entry>, from: nat) returns (n: nat)
    requires GoodUpTo(current, entries, from)
    ensures from <= n && GoodUpTo(current, entries, n) && (n < |entries| ==> Stops(current, entries, n))
    decreases |entries| - from
  {
    hide Stops;
    if from == |entries| || Stops(current, entries, from) {
      n := from;
    } else {
      n := FirstStop(current, entries, from + 1);
    }
  }
}
