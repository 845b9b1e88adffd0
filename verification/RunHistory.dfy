/** Whole runs told from their input: what each entry, or each script line, shows as in its row and in the verdict. */
module RunHistory {
  import opened Status
  import opened EngineModel
  import opened Control
  import opened Codec
  import opened HalModel
  import opened HalHistory
  import opened TickLoop
  import opened TickGap
  import opened Persistence
  import opened ClosedLoop
  import opened ControlAccuracy
  import opened OutputLaws
  import opened Decimal
  import opened JsonText
  import opened Report
  import opened Loader
  import opened TickRoundTrip
  import opened ReportRoundTrip
  import opened ReportedRuns
  import opened ScriptParser
  import opened ScriptOutcome

  // --- rows and entries -------------------------------------------------------------------

  ghost predicate RowOfEntry(entry: Entry, row: TickReport) {
    row.tick == entry.tick && TransportValid(entry.frame) && Meaning(entry.frame) == Result.Success(row.reading)
  }

  ghost predicate RowsOfEntries(entries: seq<Entry>, rows: seq<TickReport>) {
    |rows| <= |entries| && forall i :: 0 <= i < |rows| ==> RowOfEntry(entries[i], rows[i])
  }

  /** From an empty queue row i carries the tick and the reading of entry i. */
  lemma {:induction false} RunRowsAreItsEntries(rig: Rig, w: World, current: uint32, entries: seq<Entry>, last: Verdict)
    requires w.hal.queue == []
    ensures var o := Run(rig, w, current, entries, last);
            RowsOfEntries(entries, o.reports) && (o.completed ==> |o.reports| == |entries|)
    decreases |entries|
  {
    hide Tick, RowOfEntry;
    if entries == [] {
    } else {
      match Tick(rig, w, current, entries[0])
      case Stopped(_, _) =>
      case Advanced(w', report) =>
        AdvanceStaysInStep(rig, w, current, entries[0]);
        assert RowOfEntry(entries[0], report) by { FirstRow(rig, w, current, entries[0]); }
        RunRowsAreItsEntries(rig, w', entries[0].tick, entries[1..], report.result);
        var rest := Run(rig, w', entries[0].tick, entries[1..], report.result).reports;
        forall i | 0 <= i < |rest| + 1 ensures RowOfEntry(entries[i], ([report] + rest)[i]) {
          assert i > 0 ==> RowOfEntry(entries[1..][i - 1], rest[i - 1]);
        }
    }
  }

  lemma FirstRow(rig: Rig, w: World, current: uint32, entry: Entry)
    requires w.hal.queue == [] && Tick(rig, w, current, entry).Advanced?
    ensures RowOfEntry(entry, Tick(rig, w, current, entry).report)
  {
    hide Tick, Meaning, TransportValid;
    AdvanceStaysInStep(rig, w, current, entry);
  }

  /** The mode column of row j: the engine is STARTING at the first reading, and then where the level has put it. */
  function ModeShown(j: nat, level: Verdict): Mode {
    if j == 1 then Starting else ModeAt(level)
  }

  ghost predicate RowColumns(j: nat, row: TickReport) {
    && row.control == Held(Drive(row.reading.rpm, row.reading.temperature, row.reading.oilPressure))
    && row.mode == ModeShown(j, row.result)
  }

  lemma TickColumns(rig: Rig, w: World, current: uint32, entry: Entry)
    requires w.engine.mode != Init && Tick(rig, w, current, entry).Advanced?
    ensures var t := Tick(rig, w, current, entry);
            && RowColumns(if w.engine.mode == Starting then 1 else 2, t.report)
            && t.world.engine.mode != Init && t.world.engine.mode != Starting
  {
    hide Fetch, CountFault, Demand, Clamp, RawOutput, Held, Drive, RampUp, RampDown;
    var s := Tick(rig, w, current, entry).report.reading;
    SampledKeepsReading(rig.calibration, w.engine, s);
    OutputIsHeldDrive(s.rpm, s.temperature, s.oilPressure);
  }

  ghost predicate AllColumns(starting: bool, rows: seq<TickReport>) {
    forall i :: 0 <= i < |rows| ==> RowColumns(if starting && i == 0 then 1 else 2, rows[i])
  }

  lemma AllColumnsGrow(starting: bool, row: TickReport, rest: seq<TickReport>)
    requires RowColumns(if starting then 1 else 2, row) && AllColumns(false, rest)
    ensures AllColumns(starting, [row] + rest)
  {
    hide RowColumns;
    var rows := [row] + rest;
    forall i | 0 <= i < |rows| ensures RowColumns(if starting && i == 0 then 1 else 2, rows[i]) {
      assert i > 0 ==> rows[i] == rest[i - 1];
    }
  }

  lemma {:induction false} RunColumns(rig: Rig, w: World, current: uint32, entries: seq<Entry>, last: Verdict)
    requires w.engine.mode != Init
    ensures AllColumns(w.engine.mode == Starting, Run(rig, w, current, entries, last).reports)
    decreases |entries|
  {
    hide Tick, RowColumns;
    if entries == [] {
    } else {
      match Tick(rig, w, current, entries[0])
      case Stopped(_, _) =>
      case Advanced(w', report) =>
        TickColumns(rig, w, current, entries[0]);
        RunColumns(rig, w', entries[0].tick, entries[1..], report.result);
        AllColumnsGrow(w.engine.mode == Starting, report, Run(rig, w', entries[0].tick, entries[1..], report.result).reports);
    }
  }

  lemma SampledHolds(cal: Calibration, e: EngineState, s: SensorFrame)
    ensures var after := Sampled(cal, e, s);
            && after.rpm == s.rpm && after.temperature == s.temperature && after.oilPressure == s.oilPressure
            && after.isRunning == s.isRunning
  {
    hide CountFault, NextMode, Demand;
  }

  /** The engine holds a reading, ramped once if it runs, as it was if it does not, the shaft stopped after a shutdown. */
  ghost predicate HoldsReading(p: PhysicsConfig, s: SensorFrame, e: EngineState) {
    if e.mode == Shutdown then
      e.rpm == 0.0 && e.isRunning == 0 && e.temperature == s.temperature && e.oilPressure == s.oilPressure
    else if s.isRunning == 0 then
      e.rpm == s.rpm && e.isRunning == 0 && e.temperature == s.temperature && e.oilPressure == s.oilPressure
    else
      && e.rpm == RisingValue(s.rpm, p.targetRpm, p.rpmRampRate, 1) && e.isRunning == s.isRunning
      && e.temperature == RisingValue(s.temperature, p.targetTemperature, p.tempRampRate, 1)
      && e.oilPressure == FallingValue(s.oilPressure, p.targetOilPressure, p.oilDecayRate, 1)
  }

  lemma UpdateHolds(p: PhysicsConfig, s: SensorFrame, e: EngineState)
    requires p.Valid()
    requires e.rpm == s.rpm && e.temperature == s.temperature && e.oilPressure == s.oilPressure && e.isRunning == s.isRunning
    ensures HoldsReading(p, s, Updated(p, e))
  {
    assert 1 as real * p.rpmRampRate == p.rpmRampRate;
    assert 1 as real * p.tempRampRate == p.tempRampRate;
    assert 1 as real * p.oilDecayRate == p.oilDecayRate;
  }

  /** What a tick leaves in the engine is its reading. */
  lemma EngineAfterTick(rig: Rig, w: World, current: uint32, entry: Entry)
    requires rig.physics.Valid() && Tick(rig, w, current, entry).Advanced?
    ensures var t := Tick(rig, w, current, entry); HoldsReading(rig.physics, t.report.reading, t.world.engine)
  {
    hide Fetch, Sampled, Updated, ControlOutput, HoldsReading;
    var s := Tick(rig, w, current, entry).report.reading;
    SampledHolds(rig.calibration, w.engine, s);
    UpdateHolds(rig.physics, s, Sampled(rig.calibration, w.engine, s));
  }

  predicate AllReadable(entries: seq<Entry>) {
    forall i :: 0 <= i < |entries| ==> Meaning(entries[i].frame).Success?
  }

  /** The readings that the frames stand for. */
  function MeaningsOf(entries: seq<Entry>): (readings: seq<SensorFrame>)
    requires AllReadable(entries)
    ensures |readings| == |entries|
  {
    seq(|entries|, i requires 0 <= i < |entries| && AllReadable(entries) => Meaning(entries[i].frame).value)
  }

  lemma RowsReadAs(entries: seq<Entry>, rows: seq<TickReport>, j: nat)
    requires RowsOfEntries(entries, rows) && j <= |rows|
    ensures AllReadable(entries[..j]) && Readings(rows[..j]) == MeaningsOf(entries[..j])
  {
    hide Meaning, TransportValid;
    forall i | 0 <= i < j ensures Meaning(entries[..j][i].frame) == Result.Success(rows[i].reading) {
      assert RowOfEntry(entries[i], rows[i]);
    }
  }

  ghost predicate ToldByEntries(cal: Calibration, entries: seq<Entry>, o: RunOutcome) {
    && o.reports != [] && |o.reports| <= |entries| + 1
    && AllReadable(entries[..|o.reports| - 1])
    && (forall j :: 1 <= j < |o.reports| ==> RowToldByEntries(cal, entries, j, o.reports[j]))
    && (o.completed && entries != [] ==>
          && |o.reports| == |entries| + 1 && AllReadable(entries) && o.verdict == Level(cal, MeaningsOf(entries)))
  }

  ghost predicate RowToldByEntries(cal: Calibration, entries: seq<Entry>, j: nat, row: TickReport) {
    && 1 <= j <= |entries| && AllReadable(entries[..j])
    && row.tick == entries[j - 1].tick && row.reading == MeaningsOf(entries[..j])[j - 1]
    && row.result == Level(cal, MeaningsOf(entries[..j])) && RowColumns(j, row)
  }

  /** The row of the start: tick 0, the engine as it stood, in INIT, with verdict OK and no output. */
  lemma StartRowIs(rig: Rig, w: World, entries: seq<Entry>)
    requires w.engine.mode == Init
    ensures var e, rows := w.engine, Profile(rig, w, entries).reports;
            && rows != []
            && rows[0] == TickReport(0, SensorFrame(e.rpm, e.temperature, e.oilPressure, e.isRunning), ResultOk, 0.0, Init)
  {
    hide Run;
  }

  /**
   * Whole-run refinement told from the input. From a reset engine and an empty queue, row j shows the tick and reading
   * of entry j and the level of the readings sent up to it; a completed run returns the level of all of them.
   */
  lemma ProfileToldByEntries(rig: Rig, w: World, entries: seq<Entry>)
    requires Reset(w.engine) && w.hal.queue == []
    ensures ToldByEntries(rig.calibration, entries, Profile(rig, w, entries))
  {
    hide Level, Run, Meaning, TransportValid, AllReadable, MeaningsOf, Readings, FollowsHistory, Held, Drive;
    var o := Profile(rig, w, entries);
    var rows := Run(rig, w.(engine := Started(w.engine)), 0, entries, ResultOk).reports;
    assert o.reports == [StartReport(w.engine)] + rows && o.reports[1..] == rows;
    RunRowsAreItsEntries(rig, w.(engine := Started(w.engine)), 0, entries, ResultOk);
    ProfileFollowsHistory(rig, w, entries);
    RowsReadAs(entries, rows, |rows|);
    assert rows[..|rows|] == rows && entries[..|entries|] == entries;
    RunColumns(rig, w.(engine := Started(w.engine)), 0, entries, ResultOk);
    forall j | 1 <= j < |o.reports| ensures RowToldByEntries(rig.calibration, entries, j, o.reports[j]) {
      RowFollowsHistory(rig, w, entries, j);
      assert o.reports[1..j + 1] == rows[..j];
      RowsReadAs(entries, rows, j);
      RowShows(entries, rows, j);
      ColumnsFrom(rows, j);
    }
  }

  lemma ColumnsFrom(rows: seq<TickReport>, j: nat)
    requires 1 <= j <= |rows| && AllColumns(true, rows)
    ensures RowColumns(j, rows[j - 1])
  {
    hide Held, Drive;
    assert RowColumns(if j - 1 == 0 then 1 else 2, rows[j - 1]);
  }

  lemma RowShows(entries: seq<Entry>, rows: seq<TickReport>, j: nat)
    requires RowsOfEntries(entries, rows) && 1 <= j <= |rows|
    ensures AllReadable(entries[..j])
    ensures rows[j - 1].tick == entries[j - 1].tick && rows[j - 1].reading == MeaningsOf(entries[..j])[j - 1]
  {
    hide Meaning, TransportValid;
    RowsReadAs(entries, rows, j);
    assert RowOfEntry(entries[j - 1], rows[j - 1]);
    assert entries[..j][j - 1] == entries[j - 1];
  }

  /** Three over-temperature readings fill the factory window of three, and the run they make ends in WARNING. */
  lemma ThreeHotSamplesOnlyWarn(p: PhysicsConfig)
    ensures AllValid([HOT, HOT, HOT])
    ensures Persists(DEFAULT_CALIBRATION, OverTemperature, [HOT, HOT, HOT])
    ensures var o := Profile(Rig(DEFAULT_CALIBRATION, p), World(INITIAL_STATE, FRESH_HAL),
                             Entries(None, FramesOf([HOT, HOT, HOT])));
            && o.completed && o.verdict == ResultWarning
            && Readings(o.reports[1..]) == [HOT, HOT, HOT]
  {
    hide Level, Profile, Encode, OutputFor, Quantised, Persists, FollowsHistory;
    var rig, hot := Rig(DEFAULT_CALIBRATION, p), [HOT, HOT, HOT];
    var entries := Entries(None, FramesOf(hot));
    var o := Profile(rig, World(INITIAL_STATE, FRESH_HAL), entries);
    ValidProfileCompletes(rig, FRESH_HAL, INITIAL_STATE, hot);
    ProfileFollowsHistory(rig, World(INITIAL_STATE, FRESH_HAL), entries);
    assert HOT.OnGrid() by { HotIsOnGrid(); }
    GridReadingIsItsOwnQuantisation(HOT);
    assert Readings(o.reports[1..]) == hot;
    ThreeHotSamplesLevel();
  }

  function OilSample(oilPressure: real): SensorFrame { SensorFrame(2600.0, 82.0, oilPressure, 1) }

  /**
   * The shipped script of persistent low oil, four samples of 2.4, 2.3, 2.2 and 2.1 bar under the factory calibration:
   * WARNING at the third sample, SHUTDOWN at the fourth.
   */
  lemma OilLowScriptShutsDown(p: PhysicsConfig)
    ensures var readings := [OilSample(2.4), OilSample(2.3), OilSample(2.2), OilSample(2.1)];
            && AllValid(readings)
            && var o := Profile(Rig(DEFAULT_CALIBRATION, p), World(INITIAL_STATE, FRESH_HAL),
                                Entries(None, FramesOf(readings)));
               && o.completed && o.verdict == ResultShutdown && |o.reports| == 5
               && o.reports[2].result == ResultOk && o.reports[3].result == ResultWarning
  {
    hide Level, Profile, Encode, OutputFor, Quantised, FollowsHistory, Persists;
    var rig := Rig(DEFAULT_CALIBRATION, p);
    var readings := [OilSample(2.4), OilSample(2.3), OilSample(2.2), OilSample(2.1)];
    var w, entries := World(INITIAL_STATE, FRESH_HAL), Entries(None, FramesOf(readings));
    var o := Profile(rig, w, entries);
    ValidProfileCompletes(rig, FRESH_HAL, INITIAL_STATE, readings);
    ProfileFollowsHistory(rig, w, entries);
    forall i | 0 <= i < 4 ensures Quantised(readings[i]) == readings[i] { OilSampleIsOnGrid(readings[i].oilPressure, 24 - i); }
    assert Readings(o.reports[1..]) == readings;
    RowFollowsHistory(rig, w, entries, 2);
    RowFollowsHistory(rig, w, entries, 3);
    assert Readings(o.reports[1..3]) == readings[..2] && Readings(o.reports[1..4]) == readings[..3];
    OilLevels(readings);
  }

  lemma OilSampleIsOnGrid(oilPressure: real, tenths: int)
    requires oilPressure == tenths as real / 10.0 && 0 <= tenths <= 100
    ensures Quantised(OilSample(oilPressure)) == OilSample(oilPressure)
  {
    var s := OilSample(oilPressure);
    FloorIs(s.temperature * 10.0, 820);
    FloorIs(s.oilPressure * 100.0, 10 * tenths);
    GridReadingIsItsOwnQuantisation(s);
  }

  lemma OilLevels(readings: seq<SensorFrame>)
    requires readings == [OilSample(2.4), OilSample(2.3), OilSample(2.2), OilSample(2.1)]
    ensures Level(DEFAULT_CALIBRATION, readings[..2]) == ResultOk
    ensures Level(DEFAULT_CALIBRATION, readings[..3]) == ResultWarning
    ensures Level(DEFAULT_CALIBRATION, readings) == ResultShutdown
  {
    hide Level;
    var cal := DEFAULT_CALIBRATION;
    LevelOfOneSample(cal, readings[0]);
    LevelStep(cal, [readings[0]], readings[1]);
    LevelStep(cal, readings[..2], readings[2]);
    assert readings[..2] == [readings[0]] + [readings[1]] && readings[..3] == readings[..2] + [readings[2]];
    assert !Faulty(cal, OverTemperature, readings[..2][1]) && !Faulty(cal, HighLoad, readings[..2][1]);
    assert FaultyThroughout(cal, LowOil, readings[..3], 3);
    assert !Faulty(cal, OverTemperature, readings[..3][2]);
    assert FaultyThroughout(cal, LowOil, readings, 4);
    assert !ShutdownDue(cal, readings[..2]) && ShutdownDue(cal, readings[..3]);
    PersistentFaultShutsDown(cal, LowOil, readings);
  }

  const LOADED := SensorFrame(4000.0, 90.0, 3.0, 1)

  /** With a combined threshold of one, a run of one sample at high load fills the window and still ends in OK. */
  lemma FirstLoadedSampleStaysOk(p: PhysicsConfig)
    ensures AllValid([LOADED])
    ensures var cal := DEFAULT_CALIBRATION.(combinedPersistence := 1);
            var o := Profile(Rig(cal, p), World(INITIAL_STATE, FRESH_HAL), Entries(None, FramesOf([LOADED])));
            && cal.Valid() && Persists(cal, HighLoad, [LOADED])
            && o.completed && o.verdict == ResultOk
            && Readings(o.reports[1..]) == [LOADED]
  {
    hide Level, Profile, Encode, OutputFor, Quantised, FollowsHistory;
    var cal := DEFAULT_CALIBRATION.(combinedPersistence := 1);
    var rig, entries := Rig(cal, p), Entries(None, FramesOf([LOADED]));
    var o := Profile(rig, World(INITIAL_STATE, FRESH_HAL), entries);
    ValidProfileCompletes(rig, FRESH_HAL, INITIAL_STATE, [LOADED]);
    ProfileFollowsHistory(rig, World(INITIAL_STATE, FRESH_HAL), entries);
    assert LOADED.OnGrid() by { LoadedIsOnGrid(); }
    GridReadingIsItsOwnQuantisation(LOADED);
    assert Readings(o.reports[1..]) == [LOADED];
    LevelOfOneSample(cal, LOADED);
  }

  lemma LoadedIsOnGrid()
    ensures LOADED.OnGrid()
  {
    FloorIs(LOADED.temperature * 10.0, 900);
    FloorIs(LOADED.oilPressure * 100.0, 300);
  }

  ghost predicate RowOfArrays(rpm: real, temperature: real, oilPressure: real, flag: int, tick: nat, row: TickReport) {
    && row.tick == tick && row.reading.isRunning == flag
    && -0.5 < row.reading.rpm - rpm <= 0.5
    && -0.05 < row.reading.temperature - temperature <= 0.05
    && -0.005 < row.reading.oilPressure - oilPressure <= 0.005
  }

  /**
   * A profile given as arrays in range: row i + 1 has tick i + 1 and the values at index i of the three arrays, each
   * within half a wire step, with the run flag given, or 1 when none are.
   */
  lemma ArraysRunThrough(rig: Rig, h: HalState, e: EngineState, rpm: seq<real>, temperature: seq<real>,
                         oilPressure: seq<real>, run: Option<seq<int>>)
    requires Reset(e) && h.queue == []
    requires |rpm| == |temperature| == |oilPressure| <= 64 && (run.Some? ==> |run.value| == |rpm|)
    requires forall i :: 0 <= i < |rpm| ==> 0.0 <= rpm[i] <= 10000.0
    requires forall i :: 0 <= i < |rpm| ==> -50.0 <= temperature[i] <= 200.0
    requires forall i :: 0 <= i < |rpm| ==> 0.0 <= oilPressure[i] <= 10.0
    requires run.Some? ==> forall i :: 0 <= i < |rpm| ==> run.value[i] == 0 || run.value[i] == 1
    ensures var readings := ReadingsOf(rpm, temperature, oilPressure, run);
            && AllValid(readings)
            && var o := Profile(rig, World(e, h), Entries(None, FramesOf(readings)));
               && o.completed && |o.reports| == |rpm| + 1
               && forall i :: 0 <= i < |rpm| ==>
                    RowOfArrays(rpm[i], temperature[i], oilPressure[i], if run.None? then 1 else run.value[i], i + 1,
                                o.reports[i + 1])
  {
    hide Profile, Encode, Quantised, OutputFor, RowToldByEntries, Level;
    var readings := ReadingsOf(rpm, temperature, oilPressure, run);
    assert AllValid(readings);
    var entries := Entries(None, FramesOf(readings));
    var o := Profile(rig, World(e, h), entries);
    ValidProfileCompletes(rig, h, e, readings);
    ProfileToldByEntries(rig, World(e, h), entries);
    forall i | 0 <= i < |rpm|
      ensures RowOfArrays(rpm[i], temperature[i], oilPressure[i], if run.None? then 1 else run.value[i], i + 1, o.reports[i + 1])
    {
      assert RowToldByEntries(rig.calibration, entries, i + 1, o.reports[i + 1]);
      RowTick(rig.calibration, entries, i + 1, o.reports[i + 1]);
      assert o.reports[1..][i] == o.reports[i + 1];
      DecodeOfEncode(readings[i]);
    }
  }

  lemma RowTick(cal: Calibration, entries: seq<Entry>, j: nat, row: TickReport)
    requires RowToldByEntries(cal, entries, j, row)
    ensures 1 <= j <= |entries| && row.tick == entries[j - 1].tick
  {
    hide Level, Meaning, RowColumns;
  }

  lemma HotIsOnGrid()
    ensures HOT.OnGrid()
  {
    FloorIs(HOT.temperature * 10.0, 960);
    FloorIs(HOT.oilPressure * 100.0, 300);
  }

  // --- scripts --------------------------------------------------------------------------------

  /** What a sensor line gives: its tick, and its reading on the wire grid. */
  function LineShows(strtof: Strtof, line: string): Option<SensorLine> {
    match ParseSensorLine(strtof, line)
    case None => None
    case Some(sensor) => Some(SensorLine(sensor.tick, Quantised(sensor.reading)))
  }

  predicate AllSensorLines(strtof: Strtof, data: seq<string>) {
    forall i :: 0 <= i < |data| ==> LineShows(strtof, data[i]).Some?
  }

  function ScriptReadings(strtof: Strtof, data: seq<string>): (readings: seq<SensorFrame>)
    requires AllSensorLines(strtof, data)
    ensures |readings| == |data|
  {
    seq(|data|, i requires 0 <= i < |data| && AllSensorLines(strtof, data) => LineShows(strtof, data[i]).value.reading)
  }

  lemma LineOfReadableEntry(strtof: Strtof, data: seq<string>, i: nat, e: Entry)
    requires i < |data| && EntryOfLine(strtof, data, i, e) && Meaning(e.frame).Success?
    ensures LineShows(strtof, data[i]) == Some(SensorLine(e.tick, Meaning(e.frame).value))
  {
    hide ParseSensorLine, ParseCorruptLine, Encode, Meaning, Quantised, Corrupted, LastReading;
    if ParseSensorLine(strtof, data[i]).Some? {
      EncodedIsAccepted(ParseSensorLine(strtof, data[i]).value.reading);
    } else {
      var s := LastReading(strtof, data[..i]).value;
      EncodedIsAccepted(s);
      CorruptIsRejected(Encode(s).value);
    }
  }

  lemma EntriesReadAsLines(strtof: Strtof, data: seq<string>, entries: seq<Entry>, j: nat)
    requires ReadsAs(strtof, data, entries) && j <= |entries| && AllReadable(entries[..j])
    ensures AllSensorLines(strtof, data[..j]) && ScriptReadings(strtof, data[..j]) == MeaningsOf(entries[..j])
    ensures j > 0 ==> LineShows(strtof, data[j - 1]) == Some(SensorLine(entries[j - 1].tick, MeaningsOf(entries[..j])[j - 1]))
  {
    hide EntryOfLine, LineShows, Meaning;
    forall i | 0 <= i < j
      ensures LineShows(strtof, data[i]) == Some(SensorLine(entries[i].tick, MeaningsOf(entries[..j])[i]))
    {
      assert EntryOfLine(strtof, data, i, entries[i]);
      assert entries[..j][i] == entries[i];
      LineOfReadableEntry(strtof, data, i, entries[i]);
    }
  }

  ghost predicate RowToldByLines(cal: Calibration, strtof: Strtof, data: seq<string>, j: nat, row: TickReport) {
    && 1 <= j <= |data| && LineShows(strtof, data[j - 1]) == Some(SensorLine(row.tick, row.reading))
    && AllSensorLines(strtof, data[..j]) && row.result == Level(cal, ScriptReadings(strtof, data[..j]))
    && RowColumns(j, row)
  }

  ghost predicate ToldByLines(cal: Calibration, strtof: Strtof, data: seq<string>, o: RunOutcome) {
    && o.reports != [] && |o.reports| <= |data| + 1
    && (forall j :: 1 <= j < |o.reports| ==> RowToldByLines(cal, strtof, data, j, o.reports[j]))
    && (o.completed ==>
          && |o.reports| == |data| + 1 && AllSensorLines(strtof, data)
          && o.verdict == Level(cal, ScriptReadings(strtof, data)))
  }

  /**
   * An accepted script from a fresh start: row j shows the tick of data line j, its reading on the wire grid, and the
   * level of the readings written so far; a script that runs to its end returns the level of all of them.
   */
  lemma ScriptToldByLines(strtof: Strtof, strict: bool, lines: seq<string>, script: Script, rig: Rig)
    requires Parse(strtof, strict, lines) == Result.Success(script)
    ensures ToldByLines(rig.calibration, strtof, DataLines(lines),
                        Profile(rig, World(INITIAL_STATE, FRESH_HAL), script.entries))
  {
    hide Level, Profile, Parse, LineShows, AllReadable, MeaningsOf, AllSensorLines, ScriptReadings, ReadsAs,
         RowToldByEntries, RowToldByLines, Accepted, Meaning, TransportValid, ParseSensorLine;
    var data, o := DataLines(lines), Profile(rig, World(INITIAL_STATE, FRESH_HAL), script.entries);
    AcceptedScriptIsWellFormed(strtof, strict, lines);
    LengthsAgree(strtof, data, script.entries);
    ProfileToldByEntries(rig, World(INITIAL_STATE, FRESH_HAL), script.entries);
    forall j | 1 <= j < |o.reports| ensures RowToldByLines(rig.calibration, strtof, data, j, o.reports[j]) {
      RowToldEitherWay(rig.calibration, strtof, data, script.entries, j, o.reports[j]);
    }
    if o.completed {
      assert script.entries[..|script.entries|] == script.entries && data[..|data|] == data;
      EntriesReadAsLines(strtof, data, script.entries, |data|);
    }
  }

  lemma LengthsAgree(strtof: Strtof, data: seq<string>, entries: seq<Entry>)
    requires ReadsAs(strtof, data, entries)
    ensures |data| == |entries|
  {
  }

  lemma RowToldEitherWay(cal: Calibration, strtof: Strtof, data: seq<string>, entries: seq<Entry>, j: nat, row: TickReport)
    requires ReadsAs(strtof, data, entries) && RowToldByEntries(cal, entries, j, row)
    ensures RowToldByLines(cal, strtof, data, j, row)
  {
    hide Level, LineShows, EntryOfLine, Meaning;
    EntriesReadAsLines(strtof, data, entries, j);
  }

  // --- scripts and the visualizer ----------------------------------------------------------------

  lemma {:induction false} LoadedTicksAt(rows: seq<TickReport>, j: nat)
    requires j < |rows|
    ensures |LoadedTicks(rows)| == |rows| && LoadedTicks(rows)[j] == Loaded(rows[j])
    decreases |rows|
  {
    hide Loaded;
    if |rows| == 1 {
    } else {
      LoadedTicksAt(rows[1..], if j == 0 then 0 else j - 1);
    }
  }

  ghost predicate TickToldByLines(cal: Calibration, strtof: Strtof, data: seq<string>, j: nat, t: TickData) {
    && 1 <= j <= |data|
    && LineShows(strtof, data[j - 1]) == Some(SensorLine(t.tick, SensorFrame(t.rpm, t.temp, t.oil, t.run)))
    && AllSensorLines(strtof, data[..j])
    && t.result == LevelName(Level(cal, ScriptReadings(strtof, data[..j])))
    && t.engineMode == (if j == 1 then "STARTING" else if t.result == "OK" then "RUNNING" else t.result)
    && -0.005 <= t.control - Held(Drive(t.rpm, t.temp, t.oil)) <= 0.005
  }

  /** The word for a level in a report. */
  function LevelName(level: Verdict): string {
    match level
    case ResultWarning => "WARNING"
    case ResultShutdown => "SHUTDOWN"
    case _ => "OK"
  }

  lemma NamesAreLevels(level: Verdict)
    requires level != ResultError
    ensures ResultName(level) == LevelName(level)
    ensures ModeName(ModeAt(level)) == if level == ResultOk then "RUNNING" else LevelName(level)
    ensures ModeName(Starting) == "STARTING" && ModeName(Init) == "INIT"
  {
  }

  lemma TickToldByRow(cal: Calibration, strtof: Strtof, data: seq<string>, j: nat, row: TickReport)
    requires RowToldByLines(cal, strtof, data, j, row)
    ensures TickToldByLines(cal, strtof, data, j, Loaded(row))
  {
    hide Level, LineShows, AllSensorLines, ScriptReadings, FixedValue, Held, Drive, ResultName, ModeName, ModeAt;
    LevelIsAVerdict(cal, ScriptReadings(strtof, data[..j]));
    NamesAreLevels(row.result);
    FixedError(row.control);
    LevelNamesDiffer(row.result);
  }

  lemma LevelNamesDiffer(level: Verdict)
    requires level != ResultError
    ensures LevelName(level) == "OK" <==> level == ResultOk
  {
  }

  lemma LoadedStartRow()
    ensures Loaded(StartReport(INITIAL_STATE)) == TickData(0, 0.0, 25.0, 3.0, 0, "OK", 0.0, "INIT")
  {
    assert Cents(0.0) == 0;
  }

  /**
   * From script lines to the visualizer's rows. An accepted script without late or CORRUPT entries, reported and loaded
   * again, shows in row j the tick and the reading of data line j and the level of the lines up to it, and as expected
   * verdict the level of the whole script.
   */
  lemma LoadedScriptToldByLines(strtof: Strtof, strict: bool, lines: seq<string>, script: Script, rig: Rig,
                                commit: string, limit: nat)
    requires Parse(strtof, strict, lines) == Result.Success(script)
    requires GoodUpTo(0, script.entries, |script.entries|)
    requires PlainCommit(commit) && limit > 0
    ensures var o := Profile(rig, World(INITIAL_STATE, FRESH_HAL), script.entries);
            var run := RunReport(SCRIPT_NAME, SCRIPT_REQUIREMENT, o.verdict, o);
            var loaded := Load(Render(Document(commit, [run], 1)), limit);
            var data := DataLines(lines);
            && AllSensorLines(strtof, data)
            && loaded.Some? && |loaded.value| == 1 && |loaded.value[0].ticks| == |data| + 1
            && loaded.value[0].expected == LevelName(Level(rig.calibration, ScriptReadings(strtof, data)))
            && loaded.value[0].ticks[0] == TickData(0, 0.0, 25.0, 3.0, 0, "OK", 0.0, "INIT")
            && forall j :: 1 <= j <= |data| ==>
                 TickToldByLines(rig.calibration, strtof, data, j, loaded.value[0].ticks[j])
  {
    hide Level, Profile, Parse, Load, Render, Document, LineShows, ScriptReadings, AllSensorLines, ResultName,
         GoodUpTo, ReadsAs, ModeName, FixedValue, LoadedTicks, Loaded, ObjectFits, RowToldByLines, TickToldByLines;
    var n, data := |script.entries|, DataLines(lines);
    ScriptReportLoadsBack(strtof, strict, lines, script, rig, n, commit, limit);
    ScriptToldByLines(strtof, strict, lines, script, rig);
    ScriptRunOutcome(strtof, strict, lines, script, rig, n);
    var o := Profile(rig, World(INITIAL_STATE, FRESH_HAL), script.entries);
    LoadedTicksAt(o.reports, 0);
    StartRowIs(rig, World(INITIAL_STATE, FRESH_HAL), script.entries);
    LoadedStartRow();
    LevelIsAVerdict(rig.calibration, ScriptReadings(strtof, data));
    NamesAreLevels(o.verdict);
    forall j | 1 <= j <= |data| ensures TickToldByLines(rig.calibration, strtof, data, j, LoadedTicks(o.reports)[j]) {
      TickToldByRow(rig.calibration, strtof, data, j, o.reports[j]);
      LoadedTicksAt(o.reports, j);
    }
  }
}
