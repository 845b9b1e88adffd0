/** From a run to its report and back: what the tick loop yields can be printed, and what was printed loads again. */
module ReportedRuns {
  import opened Status
  import opened EngineModel
  import opened Control
  import opened Codec
  import opened HalModel
  import opened CText
  import opened Decimal
  import opened JsonText
  import opened TickLoop
  import opened Report
  import opened Loader
  import opened TickRoundTrip
  import opened ReportRoundTrip
  import opened ScriptParser
  import opened ScriptOutcome

  // --- the rows of a run --------------------------------------------------------------------

  lemma FetchedIsOnGrid(h: HalState, current: uint32, entry: Entry)
    ensures var a := Fetch(h, current, entry).arrival; a.Reading? ==> a.s.OnGrid()
  {
    hide Decode, Poll;
    var f := Fetch(h, current, entry).arrival;
    if f.Reading? {
      var queued := Ingest(Poll(h, current + 1, entry.tick).hal, entry.frame).hal;
      ReadingsAreValid(queued, entry.tick);
      EncodeOfDecode(queued.queue[0]);
    }
  }

  ghost predicate RisesAt(current: uint32, reports: seq<TickReport>, i: nat)
    requires i < |reports|
  {
    Loadable(reports[i]) && (if i == 0 then current else reports[i - 1].tick) < reports[i].tick
  }

  ghost predicate RisingFrom(current: uint32, reports: seq<TickReport>) {
    forall i :: 0 <= i < |reports| ==> RisesAt(current, reports, i)
  }

  lemma {:induction false} RunRowsAreLoadable(rig: Rig, w: World, current: uint32, entries: seq<Entry>, last: Verdict)
    ensures var o := Run(rig, w, current, entries, last);
            RisingFrom(current, o.reports) && |o.reports| <= |entries|
    decreases |entries|
  {
    hide Fetch, Sampled, Updated, ControlOutput;
    if entries == [] {
    } else {
      match Tick(rig, w, current, entries[0])
      case Stopped(_, _) =>
      case Advanced(w', report) =>
        FetchedIsOnGrid(w.hal, current, entries[0]);
        AdvanceMeansLater(rig, w, current, entries[0]);
        RunRowsAreLoadable(rig, w', entries[0].tick, entries[1..], report.result);
        var rest := Run(rig, w', entries[0].tick, entries[1..], report.result).reports;
        RisingRow(current, report, rest);
    }
  }

  lemma AdvanceMeansLater(rig: Rig, w: World, current: uint32, entry: Entry)
    requires Tick(rig, w, current, entry).Advanced?
    ensures current < entry.tick
  {
    hide Sampled, Updated, Poll, Read;
  }

  lemma RisingRow(current: uint32, first: TickReport, rest: seq<TickReport>)
    requires Loadable(first) && current < first.tick && RisingFrom(first.tick, rest)
    ensures RisingFrom(current, [first] + rest)
  {
    hide Loadable;
    var all := [first] + rest;
    forall i | 0 <= i < |all| ensures RisesAt(current, all, i) {
      if i > 0 {
        assert RisesAt(first.tick, rest, i - 1);
        assert all[i] == rest[i - 1];
      }
    }
  }

  lemma InitialReadingIsOnGrid()
    ensures StartReport(INITIAL_STATE).reading.OnGrid()
  {
  }

  /** Every row a run from a reset engine reports, whatever it ran on, is one the loader can take. */
  lemma ProfileRowsAreLoadable(rig: Rig, h: HalState, entries: seq<Entry>)
    requires |entries| <= 64
    ensures LoadableReports(Profile(rig, World(INITIAL_STATE, h), entries).reports)
  {
    hide Run;
    InitialReadingIsOnGrid();
    var start := World(Started(INITIAL_STATE), h);
    RunRowsAreLoadable(rig, start, 0, entries, ResultOk);
    var rows := Run(rig, start, 0, entries, ResultOk).reports;
    var all := [StartReport(INITIAL_STATE)] + rows;
    forall i | 0 < i < |all| ensures all[i - 1].tick < all[i].tick && Loadable(all[i]) {
      assert RisesAt(0, rows, i - 1);
      assert all[i] == rows[i - 1];
    }
  }

  // --- printing succeeds --------------------------------------------------------------------------

  lemma TickKeysAreShort()
    ensures |KeyName(TickKey)| <= 4 && |KeyName(RpmKey)| <= 4 && |KeyName(TempKey)| <= 4 && |KeyName(OilKey)| <= 4
    ensures |KeyName(RunKey)| <= 4 && |KeyName(ResultKey)| <= 6 && |KeyName(ControlKey)| <= 7 && |KeyName(ModeKey)| <= 11
    ensures |KeyName(ScenarioKey)| <= 20 && |KeyName(RequirementKey)| <= 20
  {
  }

  lemma FixedIsShort(x: real)
    requires -10000.0 <= x <= 10000.0
    ensures |PrintFixed(x)| <= 9
  {
    assert Cents(x) <= 1000000;
    assert Pow10(5) == 100000;
    PrintNatLength(Cents(x) / 100, 5);
    LastTwoLength(Cents(x));
  }

  lemma NumbersAreShort(t: TickReport)
    requires Loadable(t)
    ensures |PrintNat(t.tick)| <= 10 && |PrintInt(t.reading.isRunning)| <= 1
    ensures |PrintFixed(t.reading.rpm)| <= 9 && |PrintFixed(t.reading.temperature)| <= 9
    ensures |PrintFixed(t.reading.oilPressure)| <= 9 && |PrintFixed(t.control)| <= 9
  {
    hide PrintFixed;
    assert Pow10(5) == 100000;
    assert Pow10(10) == 100000 * 100000;
    PrintNatLength(t.tick, 10);
    FixedIsShort(t.reading.rpm);
    FixedIsShort(t.reading.temperature);
    FixedIsShort(t.reading.oilPressure);
    FixedIsShort(t.control);
  }

  lemma RenderTen(ps: seq<Piece>, n: nat)
    requires |ps| == 10 && n <= 10
    ensures |Render(ps[n..])| == if n == 10 then 0 else |RenderPiece(ps[n])| + |Render(ps[n + 1..])|
  {
    if n < 10 {
      RenderFrom(ps, n);
    }
  }

  lemma SensorFieldsAreShort(t: TickReport)
    requires Loadable(t)
    ensures |Render(SensorFields(t))| <= 110
  {
    hide KeyName, PrintNat, PrintInt, PrintFixed, Render, Loadable;
    TickKeysAreShort();
    NumbersAreShort(t);
    TenPieces(SensorFields(t));
  }

  /** The length of ten rendered pieces. */
  lemma TenPieces(ps: seq<Piece>)
    requires |ps| == 10
    ensures |Render(ps)| == |RenderPiece(ps[0])| + |RenderPiece(ps[1])| + |RenderPiece(ps[2])| + |RenderPiece(ps[3])|
                          + |RenderPiece(ps[4])| + |RenderPiece(ps[5])| + |RenderPiece(ps[6])| + |RenderPiece(ps[7])|
                          + |RenderPiece(ps[8])| + |RenderPiece(ps[9])|
  {
    hide RenderPiece, Render;
    assert ps[0..] == ps;
    RenderTen(ps, 0); RenderTen(ps, 1); RenderTen(ps, 2); RenderTen(ps, 3); RenderTen(ps, 4); RenderTen(ps, 5);
    RenderTen(ps, 6); RenderTen(ps, 7); RenderTen(ps, 8); RenderTen(ps, 9); RenderTen(ps, 10);
  }

  lemma OutcomeFieldsAreShort(t: TickReport)
    requires Loadable(t)
    ensures |Render(OutcomeFields(t))| <= 100
  {
    hide KeyName, ResultName, ModeName, PrintFixed, Render, Loadable;
    TickKeysAreShort();
    NumbersAreShort(t);
    KeyShape(TickKey, t.result, t.mode);
    RenderAppends(OutcomeFields(t), [Text("")]);
    TenPieces(OutcomeFields(t) + [Text("")]);
  }

  lemma TickLineFits(t: TickReport, last: bool)
    requires Loadable(t)
    ensures Fits(TickLine(t, last))
  {
    hide SensorFields, OutcomeFields, Render, Loadable;
    SensorFieldsAreShort(t);
    OutcomeFieldsAreShort(t);
    var separator := if last then "\n" else ",\n";
    var close := [Text("}"), Text(separator)];
    assert close == [Text("}")] + ([Text(separator)] + []);
    RenderText("}", [Text(separator)] + []);
    RenderText(separator, []);
    assert Render([]) == "" by { NothingRenders(); }
    RenderAppends(SensorFields(t), OutcomeFields(t));
    RenderAppends(TickFields(t), close);
    assert TickLine(t, last) == [Text("        ")] + ([Text("{")] + (TickFields(t) + close));
    RenderText("        ", [Text("{")] + (TickFields(t) + close));
    RenderText("{", TickFields(t) + close);
  }

  /** The printer never runs out of line buffer on a run the loader can take. */
  lemma LoadableRunFits(run: ScenarioRun)
    requires LoadableRun(run)
    ensures ObjectFits(run)
  {
    hide Fits, TickLine, TextLine, Unmarked;
    ShortLineFits(ScenarioKey, run.name);
    ShortLineFits(RequirementKey, run.requirementId);
    forall i | 0 <= i < |run.reports| ensures Fits(TickLine(run.reports[i], i + 1 == |run.reports|)) {
      TickLineFits(run.reports[i], i + 1 == |run.reports|);
    }
  }

  // --- runs, reports and back ----------------------------------------------------------------------

  /** The report of a run from a reset engine: only a completed run hands its rows on. */
  function RunReport(name: string, requirementId: string, expected: Verdict, o: RunOutcome): ScenarioRun {
    ScenarioRun(name, requirementId, if o.completed then o.reports else [], expected, o.verdict)
  }

  predicate NamesAreSafe(name: string, requirementId: string, expected: Verdict) {
    && Unmarked(name) && |name| < 64 && Unmarked(requirementId) && |requirementId| < 32
    && if name == "expected" then requirementId == ResultName(expected) else requirementId != "expected"
  }

  /**
   * A single run, printed and loaded: the loader returns it, with sensor values exact, exactly when the run went to
   * its end. A run that was shut down by a sensor timeout reports no ticks, and its report is refused.
   */
  lemma RunLoadsBackIffCompleted(rig: Rig, h: HalState, entries: seq<Entry>, name: string, requirementId: string,
                                 expected: Verdict, commit: string, passed: int, limit: nat)
    requires |entries| <= 64 && NamesAreSafe(name, requirementId, expected)
    requires PlainCommit(commit) && limit > 0
    ensures var o := Profile(rig, World(INITIAL_STATE, h), entries);
            var run := RunReport(name, requirementId, expected, o);
            var loaded := Load(Render(Document(commit, [run], passed)), limit);
            && ObjectFits(run)
            && (o.completed ==> loaded == Some([LoadedRun(run)]))
            && (!o.completed ==> loaded == None)
  {
    hide Profile, Load, Render, Document, ResultName, LoadedTicks, ObjectFits, LoadableReports;
    var o := Profile(rig, World(INITIAL_STATE, h), entries);
    var run := RunReport(name, requirementId, expected, o);
    ProfileRowsAreLoadable(rig, h, entries);
    NoRowsAreLoadable();
    assert LoadableRun(run);
    LoadableRunFits(run);
    ProfileHasRows(rig, World(INITIAL_STATE, h), entries);
    ReportLoadsBackIff(commit, [run], passed, limit);
    LoadedSingly(run);
    assert [run][0] == run;
    if !o.completed {
      EmptyRunIsRefused(commit, [run], passed, limit, 0);
    } else {
      assert AllRecoverable([run]);
    }
  }

  const SCRIPT_NAME := "scripted_scenario"
  const SCRIPT_REQUIREMENT := "REQ-ENG-SCRIPT-001"

  lemma ScriptNamesAreSafe(v: Verdict)
    ensures NamesAreSafe(SCRIPT_NAME, SCRIPT_REQUIREMENT, v)
  {
  }

  /**
   * From script lines to the visualizer. Entry n is the first that stops the run (see ScriptRunOutcome). With no such
   * entry the report loads back whole, with one row per entry and one for the start; when the run is lost to a late
   * entry, the report that is printed is one the loader refuses.
   */
  lemma ScriptReportLoadsBack(strtof: Strtof, strict: bool, lines: seq<string>, script: Script, rig: Rig, n: nat,
                              commit: string, limit: nat)
    requires Parse(strtof, strict, lines) == Result.Success(script)
    requires GoodUpTo(0, script.entries, n) && (n < |script.entries| ==> Stops(0, script.entries, n))
    requires PlainCommit(commit) && limit > 0
    ensures var o := Profile(rig, World(INITIAL_STATE, FRESH_HAL), script.entries);
            var run := RunReport(SCRIPT_NAME, SCRIPT_REQUIREMENT, o.verdict, o);
            var loaded := Load(Render(Document(commit, [run], 1)), limit);
            && ObjectFits(run)
            && (n == |script.entries| ==> loaded == Some([LoadedRun(run)]) && |run.reports| == n + 1)
            && (n < |script.entries| && Late(0, script.entries, n) ==> o.verdict == ResultShutdown && loaded == None)
  {
    hide Parse, Profile, Load, Render, Document, LoadedRun, ObjectFits, NamesAreSafe, Stops, Late, Accepted, ReadsAs;
    AcceptedScriptIsWellFormed(strtof, strict, lines);
    ScriptRunOutcome(strtof, strict, lines, script, rig, n);
    var o := Profile(rig, World(INITIAL_STATE, FRESH_HAL), script.entries);
    ScriptNamesAreSafe(o.verdict);
    RunLoadsBackIffCompleted(rig, FRESH_HAL, script.entries, SCRIPT_NAME, SCRIPT_REQUIREMENT, o.verdict, commit, 1, limit);
  }

  lemma LoadedSingly(run: ScenarioRun)
    ensures LoadedRuns([run]) == [LoadedRun(run)]
  {
    assert [run][1..] == [];
  }

  lemma NoRowsAreLoadable()
    ensures LoadableReports([])
  {
  }

  lemma ProfileHasRows(rig: Rig, w: World, entries: seq<Entry>)
    ensures Profile(rig, w, entries).reports != []
  {
    hide Run;
  }

  /** A report with a run without ticks in it is refused altogether. */
  lemma EmptyRunIsRefused(commit: string, runs: seq<ScenarioRun>, passed: int, limit: nat, k: nat)
    requires PlainCommit(commit) && AllLoadable(runs) && k < |runs| <= limit && runs[k].reports == []
    ensures Load(Render(Document(commit, runs, passed)), limit) == None
  {
    hide Render, HeaderThen, ObjectsThen, Footer, FindClose, Strstr, Strchr, ParseScenarios, VersionsAccepted, Tidy,
         LoadableRun, Quoted, Ending, Load;
    var closing := [Text("]")] + Ending(passed, |runs|);
    var tail := [Text("\n  ")] + closing;
    FooterIs(passed, |runs|);
    TidyText("]", Ending(passed, |runs|));
    TidyText("\n  ", closing);
    var objects := ObjectsThen(runs, 0, tail);
    ObjectsAreTidy(runs, 0, tail);
    HeaderIsAccepted(commit, objects);
    ScenariosKeyIsFound(commit, objects);
    assert [] + objects == objects;
    ScenarioArrayEnds([], runs, Ending(passed, |runs|));
    LoadGoesThrough(Render(HeaderThen(commit, objects)), limit, "[\n" + Render(objects), Render(closing));
    EmptyRunStopsTheLoop(runs, 0, closing, "[\n", limit, [], k);
  }

  lemma {:induction false} EmptyRunStopsTheLoop(runs: seq<ScenarioRun>, i: nat, rest: seq<Piece>, lead: string,
                                                limit: nat, done: seq<ScenarioData>, k: nat)
    requires AllLoadable(runs) && i <= k < |runs| <= limit && Tidy(rest) && |done| == i && runs[k].reports == []
    requires '{' !in lead
    ensures ParseScenarios(lead + Render(ObjectsThen(runs, i, [Text("\n  ")] + rest)), |Render(rest)|, limit, done) == None
    decreases k - i
  {
    hide Render, FindClose, Strchr, ObjectThen, ItemFrom, QuotedValue, ParseTickArray, Tidy, LoadableRun, Inside;
    var tail := [Text("\n  ")] + rest;
    RenderText("\n  ", rest);
    TidyText("\n  ", rest);
    var later := ObjectsThen(runs, i + 1, tail);
    assert LoadableRun(runs[i]);
    ObjectsAreTidy(runs, i + 1, tail);
    ScenarioTurn(runs, i, tail, lead);
    ObjectsAreLonger(runs, i, tail);
    TickArrayReadsBack(runs[i], later);
    var parsed := ParseScenario(Render(ItemFrom(runs[i], later)), |"}" + Render(later)|);
    assert ("}" + Render(later))[1..] == Render(later) == "" + Render(later);
    if parsed.Some? {
      EmptyRunStopsTheLoop(runs, i + 1, rest, "", limit, done + [parsed.value], k);
    }
  }

  /** What loading leaves of a row: all of it, except that the control output is rounded to hundredths. */
  lemma LoadedRowIsFaithful(t: TickReport)
    requires Loadable(t)
    ensures var l := Loaded(t);
            && l.tick == t.tick && l.run == t.reading.isRunning
            && l.rpm == t.reading.rpm && l.temp == t.reading.temperature && l.oil == t.reading.oilPressure
            && -0.005 <= l.control - t.control <= 0.005
            && ValidTick(l)
  {
    FixedError(t.control);
    FixedInPercent(t.control);
  }

  /** A scenario called "expected" does not survive: its requirement id comes back as the expected verdict. */
  lemma ScenarioNamedExpectedIsMisread(limit: nat)
    requires limit > 0
    ensures var run := ScenarioRun("expected", "REQ-ENG-001", [StartReport(INITIAL_STATE)], ResultOk, ResultOk);
            Load(Render(Document("unknown", [run], 1)), limit) != Some([LoadedRun(run)])
  {
    hide Load, Render, Document, LoadedTicks;
    var run := ScenarioRun("expected", "REQ-ENG-001", [StartReport(INITIAL_STATE)], ResultOk, ResultOk);
    InitialReadingIsOnGrid();
    assert Unmarked("expected") && Unmarked("REQ-ENG-001");
    assert LoadableRun(run);
    ReportLoadsBackIff("unknown", [run], 1, limit);
    LoadedSingly(run);
    assert run in [run] && !Recoverable(run);
  }
}
