/** What comes of the two drivers: the scenario catalog, and a script, each from its input to the loaded report. */
module DriverOutcome {
  import opened Status
  import opened EngineModel
  import opened Control
  import opened Codec
  import opened HalModel
  import opened JsonText
  import opened TickLoop
  import opened TwoRuns
  import opened ControlAccuracy
  import opened Persistence
  import opened Report
  import opened Loader
  import opened ReportRoundTrip
  import opened ReportedRuns
  import opened CatalogRoundTrip
  import opened ScriptParser
  import opened ScriptOutcome

  // --- the catalog -----------------------------------------------------------------------

  /** A catalog entry: a profile of readings without tick values, and the verdict expected of it. */
  datatype Case = Case(name: string, requirementId: string, expected: Verdict, readings: seq<SensorFrame>)
  {
    predicate Playable() {
      1 <= |readings| <= 64 && AllValid(readings) && NamesAreSafe(name, requirementId, expected)
    }
  }

  predicate AllPlayable(cases: seq<Case>) {
    forall i :: 0 <= i < |cases| ==> cases[i].Playable()
  }

  function FramesOfCases(cases: seq<Case>): (profiles: seq<seq<Frame>>)
    requires AllPlayable(cases)
    ensures |profiles| == |cases|
    ensures forall i :: 0 <= i < |profiles| ==> profiles[i] == FramesOf(cases[i].readings)
  {
    seq(|cases|, i requires 0 <= i < |cases| && AllPlayable(cases) => FramesOf(cases[i].readings))
  }

  function QuantisedAll(readings: seq<SensorFrame>): (q: seq<SensorFrame>)
    ensures |q| == |readings|
  {
    seq(|readings|, i requires 0 <= i < |readings| => Quantised(readings[i]))
  }

  function RunOf(c: Case, o: RunOutcome): ScenarioRun {
    RunReport(c.name, c.requirementId, c.expected, o)
  }

  function RunsOf(cases: seq<Case>, outcomes: seq<RunOutcome>): (runs: seq<ScenarioRun>)
    requires |cases| == |outcomes|
    ensures |runs| == |cases| && forall i :: 0 <= i < |runs| ==> runs[i] == RunOf(cases[i], outcomes[i])
  {
    seq(|cases|, i requires 0 <= i < |cases| == |outcomes| => RunOf(cases[i], outcomes[i]))
  }

  ghost predicate ComesOutWhole(cal: Calibration, c: Case, o: RunOutcome) {
    && o.completed && |o.reports| == |c.readings| + 1
    && o.verdict == Level(cal, QuantisedAll(c.readings)) != ResultError
    && LoadableRun(RunOf(c, o)) && Recoverable(RunOf(c, o))
  }

  lemma CaseComesOutWhole(rig: Rig, c: Case, o: RunOutcome)
    requires c.Playable()
    requires SameButHal(o, Profile(rig, World(INITIAL_STATE, FRESH_HAL), Entries(None, FramesOf(c.readings))))
    ensures ComesOutWhole(rig.calibration, c, o)
  {
    hide Level, Profile, Encode, Quantised, OutputFor, LoadableReports, FollowsHistory;
    var entries := Entries(None, FramesOf(c.readings));
    var alone := Profile(rig, World(INITIAL_STATE, FRESH_HAL), entries);
    ValidProfileCompletes(rig, FRESH_HAL, INITIAL_STATE, c.readings);
    ProfileFollowsHistory(rig, World(INITIAL_STATE, FRESH_HAL), entries);
    ProfileRowsAreLoadable(rig, FRESH_HAL, entries);
    assert Readings(alone.reports[1..]) == QuantisedAll(c.readings);
    LevelIsAVerdict(rig.calibration, QuantisedAll(c.readings));
  }

  lemma {:induction false} KeptAll(runs: seq<ScenarioRun>)
    requires forall i :: 0 <= i < |runs| ==> runs[i].actual != ResultError
    ensures Kept(runs) == runs
  {
    if runs == [] {
    } else {
      KeptAll(runs[1..]);
      assert runs == [runs[0]] + runs[1..];
    }
  }

  lemma {:induction false} AllPassIff(runs: seq<ScenarioRun>, from: nat)
    requires from <= |runs|
    ensures PassedFrom(runs, from) <= |runs| - from
    ensures PassedFrom(runs, from) == |runs| - from <==> forall i :: from <= i < |runs| ==> Passes(runs[i])
    decreases |runs| - from
  {
    hide Passes;
    if from == |runs| {
    } else {
      AllPassIff(runs, from + 1);
    }
  }

  /**
   * The catalog, from its readings to the loaded report. On a HAL with an empty queue every profile of valid readings
   * completes with the level of its readings as verdict, whatever ran before it. So no run is left out, the report is
   * the document of all runs with commas between them only, it loads back whole, and all scenarios pass exactly when
   * each expected verdict is the level of its readings.
   */
  lemma CatalogComesOutWhole(rig: Rig, h: HalState, cases: seq<Case>, commit: string, limit: nat)
    requires h.queue == [] && AllPlayable(cases) && PlainCommit(commit) && 1 <= |cases| <= limit
    ensures var outcomes := Catalog(rig, h, FramesOfCases(cases));
            var runs := RunsOf(cases, outcomes);
            && (forall i :: 0 <= i < |cases| ==> ComesOutWhole(rig.calibration, cases[i], outcomes[i]))
            && Kept(runs) == runs
            && CatalogReport(commit, runs) == Render(Document(commit, runs, PassedFrom(runs, 0)))
            && Load(CatalogReport(commit, runs), limit) == Some(LoadedRuns(runs))
            && (PassedFrom(runs, 0) == |runs| <==>
                  forall i :: 0 <= i < |cases| ==> cases[i].expected == Level(rig.calibration, QuantisedAll(cases[i].readings)))
  {
    hide Level, Catalog, Profile, SameButHal, CatalogReport, Render, Load, HeaderThen, ObjectsThen, CatalogThen, Footer,
         LoadableRun, Recoverable, ObjectFits, QuantisedAll, LoadedRuns, Entries, FramesOf, PassedFrom;
    var outcomes := Catalog(rig, h, FramesOfCases(cases));
    var runs := RunsOf(cases, outcomes);
    CatalogOrderDoesNotMatter(rig, h, FramesOfCases(cases));
    forall i | 0 <= i < |cases| ensures ComesOutWhole(rig.calibration, cases[i], outcomes[i]) && ObjectFits(runs[i]) {
      CaseComesOutWhole(rig, cases[i], outcomes[i]);
      LoadableRunFits(runs[i]);
    }
    KeptAll(runs);
    AllPassIff(runs, 0);
    CatalogReportIs(commit, runs);
    CatalogIs(runs, Footer(None, PassedFrom(runs, 0), |runs|));
    assert [] + ObjectsThen(runs, 0, Footer(None, PassedFrom(runs, 0), |runs|))
        == ObjectsThen(runs, 0, Footer(None, PassedFrom(runs, 0), |runs|));
    CatalogLoadsBackIff(commit, runs, limit);
  }

  // --- scripts ------------------------------------------------------------------------------

  /**
   * The complete outcome of an accepted script, from its lines to the visualizer. Entry n is the first that stops the
   * run (see ScriptRunOutcome). With no such entry the report loads back whole; otherwise, whether the script was lost
   * to a late entry or to a CORRUPT one, what the driver prints is refused.
   */
  lemma ScriptReportOutcome(strtof: Strtof, strict: bool, lines: seq<string>, script: Script, rig: Rig, n: nat,
                            commit: string, error: ErrorInfo, limit: nat)
    requires Parse(strtof, strict, lines) == Result.Success(script)
    requires GoodUpTo(0, script.entries, n) && (n < |script.entries| ==> Stops(0, script.entries, n))
    requires PlainCommit(commit) && PlainError(error) && limit > 0
    ensures var o := Profile(rig, World(INITIAL_STATE, FRESH_HAL), script.entries);
            var run := RunReport(SCRIPT_NAME, SCRIPT_REQUIREMENT, o.verdict, o);
            && (n < |script.entries| ==>
                  o.verdict == if Late(0, script.entries, n) then ResultShutdown else ResultError)
            && Load(Render(ScriptedDocument(commit, run, error)), limit) ==
                 if n == |script.entries| then Some([LoadedRun(run)]) else None
  {
    hide Parse, Profile, Load, Render, ScriptedDocument, LoadedRun, Stops, Late, Accepted, ReadsAs, LoadableReports;
    AcceptedScriptIsWellFormed(strtof, strict, lines);
    ScriptRunOutcome(strtof, strict, lines, script, rig, n);
    var o := Profile(rig, World(INITIAL_STATE, FRESH_HAL), script.entries);
    var run := RunReport(SCRIPT_NAME, SCRIPT_REQUIREMENT, o.verdict, o);
    ScriptNamesAreSafe(o.verdict);
    ProfileRowsAreLoadable(rig, FRESH_HAL, script.entries);
    NoRowsAreLoadable();
    assert LoadableRun(run);
    ScriptedReportLoadsBackIff(commit, run, error, limit);
  }
}
