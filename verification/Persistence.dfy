/** The verdict of every report, told from the sensor history alone: which faults persisted, and since when. */
module Persistence {
  import opened Status
  import opened EngineModel
  import opened Control
  import opened Codec
  import opened TickLoop

  datatype FaultKind = OverTemperature | LowOil | HighLoad

  /** A sample shows a fault: strictly past the temperature or oil limit, or at or past both load thresholds. */
  predicate Faulty(cal: Calibration, k: FaultKind, s: SensorFrame) {
    match k
    case OverTemperature => s.temperature > cal.temperatureLimit
    case LowOil => s.oilPressure < cal.oilPressureLimit
    case HighLoad => s.rpm >= cal.highRpmThreshold && s.temperature >= cal.highTempThreshold
  }

  function Threshold(cal: Calibration, k: FaultKind): uint32 {
    match k
    case OverTemperature => cal.tempPersistence
    case LowOil => cal.oilPersistence
    case HighLoad => cal.combinedPersistence
  }

  ghost predicate FaultyThroughout(cal: Calibration, k: FaultKind, samples: seq<SensorFrame>, n: nat) {
    n <= |samples| && forall i :: |samples| - n <= i < |samples| ==> Faulty(cal, k, samples[i])
  }

  /** The last samples, as many as the calibration asks for, all show the fault. Thresholds past the counter limit never fire. */
  ghost predicate Persists(cal: Calibration, k: FaultKind, samples: seq<SensorFrame>) {
    Threshold(cal, k) <= 1_000_000 && FaultyThroughout(cal, k, samples, Threshold(cal, k))
  }

  ghost predicate ShutdownDue(cal: Calibration, samples: seq<SensorFrame>) {
    Persists(cal, OverTemperature, samples) || Persists(cal, LowOil, samples)
  }

  ghost predicate EscalationDue(cal: Calibration, samples: seq<SensorFrame>) {
    ShutdownDue(cal, samples) || Persists(cal, HighLoad, samples)
  }

  /** An escalation was due at sample a. The first sample is seen while the engine is still starting, and does not count. */
  ghost predicate WarnedAt(cal: Calibration, samples: seq<SensorFrame>, a: nat) {
    2 <= a <= |samples| && EscalationDue(cal, samples[..a])
  }

  ghost predicate ShutAt(cal: Calibration, samples: seq<SensorFrame>, a: nat, b: nat) {
    WarnedAt(cal, samples, a) && a < b <= |samples| && ShutdownDue(cal, samples[..b])
  }

  /** The specification: WARNING once an escalation was due, SHUTDOWN once a shutdown was due after that. */
  ghost function Level(cal: Calibration, samples: seq<SensorFrame>): Verdict {
    if exists a, b :: ShutAt(cal, samples, a, b) then ResultShutdown
    else if exists a :: WarnedAt(cal, samples, a) then ResultWarning
    else ResultOk
  }

  // --- the history level, one sample at a time ---------------------------------

  lemma {:induction false} LevelStep(cal: Calibration, samples: seq<SensorFrame>, s: SensorFrame)
    ensures Level(cal, samples + [s]) ==
      match Level(cal, samples)
      case ResultShutdown => ResultShutdown
      case ResultWarning => if ShutdownDue(cal, samples + [s]) then ResultShutdown else ResultWarning
      case _ => if samples != [] && EscalationDue(cal, samples + [s]) then ResultWarning else ResultOk
  {
    hide EscalationDue, ShutdownDue;
    var all := samples + [s];
    var n := |all|;
    forall a: nat | a <= |samples| ensures all[..a] == samples[..a] {}
    assert all[..n] == all;
    forall a: nat | a <= |samples|
      ensures WarnedAt(cal, all, a) <==> WarnedAt(cal, samples, a) {}
    forall a: nat, b: nat | b <= |samples|
      ensures ShutAt(cal, all, a, b) <==> ShutAt(cal, samples, a, b) {}
    if exists a, b :: ShutAt(cal, samples, a, b) {
      var a, b :| ShutAt(cal, samples, a, b);
      assert ShutAt(cal, all, a, b);
    } else if exists a :: WarnedAt(cal, samples, a) {
      var a :| WarnedAt(cal, samples, a);
      assert WarnedAt(cal, all, a);
      if ShutdownDue(cal, all) {
        assert ShutAt(cal, all, a, n);
      }
      assert forall a, b :: ShutAt(cal, all, a, b) ==> b == n;
    } else {
      assert forall a :: WarnedAt(cal, all, a) ==> a == n;
      assert WarnedAt(cal, all, n) <==> samples != [] && EscalationDue(cal, all);
    }
  }

  // --- the counters count the current streak ------------------------------------

  function Streak(cal: Calibration, k: FaultKind, samples: seq<SensorFrame>): nat {
    if samples == [] || !Faulty(cal, k, samples[|samples| - 1]) then 0
    else Streak(cal, k, samples[..|samples| - 1]) + 1
  }

  function Capped(n: nat): uint32 { if n < 1_000_000 then n else 1_000_000 }

  lemma {:induction false} StreakIsWindow(cal: Calibration, k: FaultKind, samples: seq<SensorFrame>, n: nat)
    ensures n <= Streak(cal, k, samples) <==> FaultyThroughout(cal, k, samples, n)
    decreases n
  {
    if n != 0 && samples != [] {
      var last := |samples| - 1;
      StreakIsWindow(cal, k, samples[..last], n - 1);
      if FaultyThroughout(cal, k, samples[..last], n - 1) && Faulty(cal, k, samples[last]) {
        forall i | |samples| - n <= i < |samples| ensures Faulty(cal, k, samples[i]) {
          assert i < last ==> samples[i] == samples[..last][i];
        }
      }
      if FaultyThroughout(cal, k, samples, n) {
        assert Faulty(cal, k, samples[last]);
        forall i | last - (n - 1) <= i < last ensures Faulty(cal, k, samples[..last][i]) {
          assert samples[i] == samples[..last][i];
        }
      }
    }
  }

  lemma CountStreak(cal: Calibration, k: FaultKind, samples: seq<SensorFrame>, s: SensorFrame)
    ensures Capped(Streak(cal, k, samples + [s])) == CountFault(Faulty(cal, k, s), Capped(Streak(cal, k, samples)))
    ensures Persists(cal, k, samples + [s]) <==> Threshold(cal, k) <= Capped(Streak(cal, k, samples + [s]))
  {
    var all := samples + [s];
    assert all[..|samples|] == samples;
    StreakIsWindow(cal, k, all, Threshold(cal, k));
  }

  // --- the controller implements the history level -------------------------------

  function ModeAt(level: Verdict): Mode {
    match level
    case ResultWarning => Warning
    case ResultShutdown => Shutdown
    case _ => Running
  }

  /** An engine that has been through these samples: counters hold the capped streaks, the mode holds the level. */
  ghost predicate Tracks(cal: Calibration, samples: seq<SensorFrame>, e: EngineState) {
    && e.tempFaults == Capped(Streak(cal, OverTemperature, samples))
    && e.oilFaults == Capped(Streak(cal, LowOil, samples))
    && e.combinedFaults == Capped(Streak(cal, HighLoad, samples))
    && e.mode == if samples == [] then Starting else ModeAt(Level(cal, samples))
  }

  lemma LevelOfOneSample(cal: Calibration, s: SensorFrame)
    ensures Level(cal, []) == Level(cal, [s]) == ResultOk
  {
  }

  lemma SampleTracks(rig: Rig, samples: seq<SensorFrame>, e: EngineState, s: SensorFrame)
    requires Tracks(rig.calibration, samples, e)
    ensures var e' := Sampled(rig.calibration, e, s);
            && VerdictOfMode(e'.mode) == Level(rig.calibration, samples + [s])
            && Tracks(rig.calibration, samples + [s], Updated(rig.physics, e'))
  {
    hide Level, Persists;
    var cal := rig.calibration;
    CountStreak(cal, OverTemperature, samples, s);
    CountStreak(cal, LowOil, samples, s);
    CountStreak(cal, HighLoad, samples, s);
    LevelStep(cal, samples, s);
    LevelOfOneSample(cal, s);
    LevelIsAVerdict(cal, samples);
    assert samples == [] ==> samples + [s] == [s];
  }

  lemma LevelIsAVerdict(cal: Calibration, samples: seq<SensorFrame>)
    ensures Level(cal, samples) != ResultError
  {
  }

  function Readings(reports: seq<TickReport>): seq<SensorFrame> {
    seq(|reports|, i requires 0 <= i < |reports| => reports[i].reading)
  }

  ghost predicate FollowsHistory(cal: Calibration, samples: seq<SensorFrame>, reports: seq<TickReport>) {
    forall j :: 0 <= j < |reports| ==> reports[j].result == Level(cal, samples + Readings(reports[..j + 1]))
  }

  lemma {:induction false} RunFollowsHistory(rig: Rig, w: World, current: uint32, entries: seq<Entry>, last: Verdict,
                                             samples: seq<SensorFrame>)
    requires Tracks(rig.calibration, samples, w.engine)
    ensures var o := Run(rig, w, current, entries, last);
            && FollowsHistory(rig.calibration, samples, o.reports)
            && (o.completed ==>
                  && |o.reports| == |entries|
                  && o.verdict == (if entries == [] then last else Level(rig.calibration, samples + Readings(o.reports)))
                  && Tracks(rig.calibration, samples + Readings(o.reports), o.world.engine))
    decreases |entries|
  {
    hide Level, Tracks, Fetch, Sampled, Updated, TimedOut, ControlOutput;
    var o := Run(rig, w, current, entries, last);
    assert samples + Readings([]) == samples;
    if entries == [] {
    } else {
      match Tick(rig, w, current, entries[0])
      case Stopped(w', verdict) =>
      case Advanced(w', report) =>
        SampleTracks(rig, samples, w.engine, report.reading);
        RunFollowsHistory(rig, w', entries[0].tick, entries[1..], report.result, samples + [report.reading]);
        var rest := Run(rig, w', entries[0].tick, entries[1..], report.result);
        assert o.reports == [report] + rest.reports;
        assert samples + [report.reading] + Readings([]) == samples + [report.reading];
        HistoryShift(rig.calibration, samples, report, rest.reports);
    }
  }

  lemma HistoryShift(cal: Calibration, samples: seq<SensorFrame>, report: TickReport, rest: seq<TickReport>)
    requires report.result == Level(cal, samples + [report.reading])
    requires FollowsHistory(cal, samples + [report.reading], rest)
    ensures FollowsHistory(cal, samples, [report] + rest)
    ensures samples + Readings([report] + rest) == samples + [report.reading] + Readings(rest)
  {
    hide Level;
    var all := [report] + rest;
    forall j | 0 <= j < |all| ensures all[j].result == Level(cal, samples + Readings(all[..j + 1])) {
      if j == 0 {
        assert samples + Readings(all[..1]) == samples + [report.reading];
      } else {
        assert samples + Readings(all[..j + 1]) == samples + [report.reading] + Readings(rest[..j]);
      }
    }
  }

  /** An engine as engine_reset leaves it, apart from its sensor fields. */
  predicate Reset(e: EngineState) {
    e.mode == Init && e.tempFaults == e.oilFaults == e.combinedFaults == 0
  }

  /**
   * Whole-run refinement. In any run from a reset engine, whatever the HAL holds, whatever the frames, ticks,
   * calibration and plant, every report carries the verdict of its sensor history; and a run that goes to its end
   * returns the verdict of the whole history.
   */
  lemma ProfileFollowsHistory(rig: Rig, w: World, entries: seq<Entry>)
    requires Reset(w.engine)
    ensures var o := Profile(rig, w, entries);
            && o.reports != [] && FollowsHistory(rig.calibration, [], o.reports[1..])
            && (o.completed && entries != [] ==> o.verdict == Level(rig.calibration, Readings(o.reports[1..])))
            && (o.completed ==> |o.reports| == |entries| + 1)
  {
    hide Level, Tick;
    var start := w.(engine := Started(w.engine));
    assert Tracks(rig.calibration, [], start.engine);
    RunFollowsHistory(rig, start, 0, entries, ResultOk, []);
    var run := Run(rig, start, 0, entries, ResultOk);
    assert Profile(rig, w, entries).reports[1..] == run.reports;
    assert [] + Readings(run.reports) == Readings(run.reports);
  }

  // --- escalation latency ---------------------------------------------------------

  /**
   * One sample more than the threshold, all over-temperature or all low-oil, brings the level to SHUTDOWN. The only
   * exception is a threshold of one with the streak starting at the very first sample, which is only WARNING then.
   */
  lemma PersistentFaultShutsDown(cal: Calibration, k: FaultKind, samples: seq<SensorFrame>)
    requires k != HighLoad && 1 <= Threshold(cal, k) <= 1_000_000
    requires FaultyThroughout(cal, k, samples, Threshold(cal, k) + 1)
    ensures Level(cal, samples) == if Threshold(cal, k) == 1 && |samples| == 2 then ResultWarning else ResultShutdown
  {
    var n := |samples|;
    var earlier := samples[..n - 1];
    assert samples[..n] == samples;
    forall i | n - 1 - Threshold(cal, k) <= i < n - 1 ensures Faulty(cal, k, earlier[i]) {
      assert earlier[i] == samples[i];
    }
    assert Persists(cal, k, samples) && Persists(cal, k, earlier);
    if n == 2 {
      assert WarnedAt(cal, samples, 2);
      assert !exists a, b :: ShutAt(cal, samples, a, b);
    } else {
      assert ShutAt(cal, samples, n - 1, n);
    }
  }

  function OtherShutdownFault(k: FaultKind): FaultKind {
    if k == OverTemperature then LowOil else OverTemperature
  }

  /**
   * The safety case asks for SHUTDOWN as soon as the window of a shutdown fault is full. The code gives it exactly when
   * it was in SHUTDOWN before, or in WARNING with a threshold the counter can reach (or with the other fault's window
   * full as well). From OK a full window only gives WARNING.
   */
  lemma FullWindowShutsDownIffWarned(cal: Calibration, k: FaultKind, samples: seq<SensorFrame>)
    requires samples != [] && k != HighLoad && FaultyThroughout(cal, k, samples, Threshold(cal, k))
    ensures Level(cal, samples) == ResultShutdown <==>
              match Level(cal, samples[..|samples| - 1])
              case ResultShutdown => true
              case ResultWarning => Threshold(cal, k) <= 1_000_000 || Persists(cal, OtherShutdownFault(k), samples)
              case _ => false
  {
    hide Level, FaultyThroughout;
    var n := |samples| - 1;
    assert samples == samples[..n] + [samples[n]];
    LevelStep(cal, samples[..n], samples[n]);
    LevelIsAVerdict(cal, samples[..n]);
  }

  /**
   * The safety case asks for WARNING as soon as the window of the combined fault is full. The code leaves OK exactly
   * when this is not the first sample and the threshold is one the counter can reach, or the level was raised before,
   * or a shutdown fault is due.
   */
  lemma FullLoadWindowWarnsIff(cal: Calibration, samples: seq<SensorFrame>)
    requires samples != [] && FaultyThroughout(cal, HighLoad, samples, Threshold(cal, HighLoad))
    ensures Level(cal, samples) != ResultOk <==>
              && |samples| >= 2
              && (|| Threshold(cal, HighLoad) <= 1_000_000
                  || Level(cal, samples[..|samples| - 1]) != ResultOk
                  || ShutdownDue(cal, samples))
  {
    hide Level, FaultyThroughout;
    var n := |samples| - 1;
    assert samples == samples[..n] + [samples[n]];
    LevelStep(cal, samples[..n], samples[n]);
    LevelIsAVerdict(cal, samples[..n]);
    if n == 0 {
      LevelOfOneSample(cal, samples[0]);
      assert samples == [samples[0]] && samples[..0] == [];
    }
  }

  /** The factory calibration: faults past 95 degrees, below 2.5 bar, and from 3500 rpm at 85 degrees, for 3, 3 and 2 samples. */
  lemma FactoryFaults(s: SensorFrame)
    ensures DEFAULT_CALIBRATION.Valid()
    ensures Faulty(DEFAULT_CALIBRATION, OverTemperature, s) <==> s.temperature > 95.0
    ensures Faulty(DEFAULT_CALIBRATION, LowOil, s) <==> s.oilPressure < 2.5
    ensures Faulty(DEFAULT_CALIBRATION, HighLoad, s) <==> s.rpm >= 3500.0 && s.temperature >= 85.0
    ensures Threshold(DEFAULT_CALIBRATION, OverTemperature) == 3 && Threshold(DEFAULT_CALIBRATION, LowOil) == 3
    ensures Threshold(DEFAULT_CALIBRATION, HighLoad) == 2
  {
  }

  const HOT := SensorFrame(3000.0, 96.0, 3.0, 1)

  /** With the factory calibration three hot samples fill the window, and the level is only WARNING. */
  lemma ThreeHotSamplesLevel()
    ensures Persists(DEFAULT_CALIBRATION, OverTemperature, [HOT, HOT, HOT])
    ensures Level(DEFAULT_CALIBRATION, [HOT, HOT, HOT]) == ResultWarning
  {
    var cal, samples := DEFAULT_CALIBRATION, [HOT, HOT, HOT];
    assert samples[..3] == samples && samples[..2] == [HOT, HOT];
    assert FaultyThroughout(cal, OverTemperature, samples, 3);
    assert WarnedAt(cal, samples, 3);
    assert !Faulty(cal, LowOil, samples[..2][1]) && !Faulty(cal, HighLoad, samples[..2][1]);
    assert !WarnedAt(cal, samples, 2);
  }

  /** Nothing else shuts the engine down: the first SHUTDOWN has a full fault window behind it and a WARNING before it. */
  lemma ShutdownHasCause(cal: Calibration, samples: seq<SensorFrame>)
    requires samples != []
    requires Level(cal, samples) == ResultShutdown && Level(cal, samples[..|samples| - 1]) != ResultShutdown
    ensures Level(cal, samples[..|samples| - 1]) == ResultWarning
    ensures exists k :: k != HighLoad && Persists(cal, k, samples)
  {
    hide Level;
    var n := |samples| - 1;
    assert samples == samples[..n] + [samples[n]];
    LevelStep(cal, samples[..n], samples[n]);
    LevelIsAVerdict(cal, samples[..n]);
    assert Persists(cal, OverTemperature, samples) || Persists(cal, LowOil, samples);
  }

  /** Row j of a run from a reset engine, row 0 being the start, has the level of the samples up to it. */
  lemma RowFollowsHistory(rig: Rig, w: World, entries: seq<Entry>, j: nat)
    requires Reset(w.engine) && 1 <= j < |Profile(rig, w, entries).reports|
    ensures var reports := Profile(rig, w, entries).reports;
            reports[j].result == Level(rig.calibration, Readings(reports[1..j + 1]))
  {
    hide Level, Profile;
    var reports := Profile(rig, w, entries).reports;
    ProfileFollowsHistory(rig, w, entries);
    var rows := reports[1..];
    assert rows[j - 1] == reports[j] && rows[..j] == reports[1..j + 1];
    assert [] + Readings(rows[..j]) == Readings(rows[..j]);
  }

  /** The samples seen one row earlier. */
  lemma SeenBefore(reports: seq<TickReport>, j: nat)
    requires 2 <= j < |reports|
    ensures var seen := Readings(reports[1..j + 1]);
            |seen| == j && seen[..|seen| - 1] == Readings(reports[1..j])
  {
    var seen, before := Readings(reports[1..j + 1]), Readings(reports[1..j]);
    assert |seen| == j && |before| == j - 1;
    forall i | 0 <= i < j - 1 ensures seen[i] == before[i] {
      assert reports[1..j + 1][i] == reports[i + 1] == reports[1..j][i];
    }
  }

  /**
   * In any run a shutdown fault that has lasted one sample longer than its threshold shows as SHUTDOWN; only a
   * threshold of one, met by the first two samples of the run, shows as WARNING.
   */
  lemma RunEscalates(rig: Rig, w: World, entries: seq<Entry>, j: nat, k: FaultKind)
    requires Reset(w.engine) && 1 <= j < |Profile(rig, w, entries).reports|
    requires k != HighLoad && 1 <= Threshold(rig.calibration, k) <= 1_000_000
    requires FaultyThroughout(rig.calibration, k, Readings(Profile(rig, w, entries).reports[1..j + 1]),
                              Threshold(rig.calibration, k) + 1)
    ensures Profile(rig, w, entries).reports[j].result ==
              if Threshold(rig.calibration, k) == 1 && j == 2 then ResultWarning else ResultShutdown
  {
    hide Level, Profile, FaultyThroughout;
    RowFollowsHistory(rig, w, entries, j);
    PersistentFaultShutsDown(rig.calibration, k, Readings(Profile(rig, w, entries).reports[1..j + 1]));
  }

  /** The same for a row of any run, with the row before it in place of the history. */
  lemma RunFullWindowShutsDownIffWarned(rig: Rig, w: World, entries: seq<Entry>, j: nat, k: FaultKind)
    requires Reset(w.engine) && 2 <= j < |Profile(rig, w, entries).reports| && k != HighLoad
    requires FaultyThroughout(rig.calibration, k, Readings(Profile(rig, w, entries).reports[1..j + 1]),
                              Threshold(rig.calibration, k))
    ensures var reports := Profile(rig, w, entries).reports;
            reports[j].result == ResultShutdown <==>
              match reports[j - 1].result
              case ResultShutdown => true
              case ResultWarning =>
                || Threshold(rig.calibration, k) <= 1_000_000
                || Persists(rig.calibration, OtherShutdownFault(k), Readings(reports[1..j + 1]))
              case _ => false
  {
    hide Level, Profile, FaultyThroughout, Persists;
    RowFollowsHistory(rig, w, entries, j);
    RowFollowsHistory(rig, w, entries, j - 1);
    var reports := Profile(rig, w, entries).reports;
    var seen := Readings(reports[1..j + 1]);
    SeenBefore(reports, j);
    FullWindowShutsDownIffWarned(rig.calibration, k, seen);
  }

  /** The same for a row of any run. */
  lemma RunFullLoadWindowWarnsIff(rig: Rig, w: World, entries: seq<Entry>, j: nat)
    requires Reset(w.engine) && 1 <= j < |Profile(rig, w, entries).reports|
    requires FaultyThroughout(rig.calibration, HighLoad, Readings(Profile(rig, w, entries).reports[1..j + 1]),
                              Threshold(rig.calibration, HighLoad))
    ensures var reports := Profile(rig, w, entries).reports;
            reports[j].result != ResultOk <==>
              && j >= 2
              && (|| Threshold(rig.calibration, HighLoad) <= 1_000_000
                  || reports[j - 1].result != ResultOk
                  || ShutdownDue(rig.calibration, Readings(reports[1..j + 1])))
  {
    hide Level, Profile, FaultyThroughout, ShutdownDue;
    RowFollowsHistory(rig, w, entries, j);
    var reports := Profile(rig, w, entries).reports;
    var seen := Readings(reports[1..j + 1]);
    if j >= 2 {
      RowFollowsHistory(rig, w, entries, j - 1);
      SeenBefore(reports, j);
    }
    FullLoadWindowWarnsIff(rig.calibration, seen);
  }

  /** In any run the first SHUTDOWN row follows a WARNING row and ends a full window of a shutdown fault. */
  lemma RunShutdownHasCause(rig: Rig, w: World, entries: seq<Entry>, j: nat)
    requires Reset(w.engine) && 2 <= j < |Profile(rig, w, entries).reports|
    requires var reports := Profile(rig, w, entries).reports;
             reports[j].result == ResultShutdown && reports[j - 1].result != ResultShutdown
    ensures var reports := Profile(rig, w, entries).reports;
            && reports[j - 1].result == ResultWarning
            && ShutdownDue(rig.calibration, Readings(reports[1..j + 1]))
  {
    hide Level, Profile, Persists;
    RowFollowsHistory(rig, w, entries, j);
    RowFollowsHistory(rig, w, entries, j - 1);
    var reports := Profile(rig, w, entries).reports;
    var seen := Readings(reports[1..j + 1]);
    SeenBefore(reports, j);
    ShutdownHasCause(rig.calibration, seen);
  }

  /** The row of the first sample is always OK. */
  lemma FirstRowIsOk(rig: Rig, w: World, entries: seq<Entry>)
    requires Reset(w.engine) && 2 <= |Profile(rig, w, entries).reports|
    ensures Profile(rig, w, entries).reports[1].result == ResultOk
  {
    hide Level, Profile;
    RowFollowsHistory(rig, w, entries, 1);
    var seen := Readings(Profile(rig, w, entries).reports[1..2]);
    assert seen == [seen[0]];
    LevelOfOneSample(rig.calibration, seen[0]);
  }

  /** Levels never fall as the history grows. */
  lemma LevelNeverFalls(cal: Calibration, samples: seq<SensorFrame>, s: SensorFrame)
    ensures Rank(ModeAt(Level(cal, samples))) <= Rank(ModeAt(Level(cal, samples + [s])))
            <= Rank(ModeAt(Level(cal, samples))) + 1
  {
    hide Level;
    LevelStep(cal, samples, s);
    LevelIsAVerdict(cal, samples);
  }
}
