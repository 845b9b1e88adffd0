/** The reports the two drivers print, with runs left out and errors shown, and what the loader makes of them. */
module CatalogRoundTrip {
  import opened Status
  import opened CText
  import opened Decimal
  import opened JsonText
  import opened Report
  import opened Loader
  import opened TickRoundTrip
  import opened ReportRoundTrip
  import opened ReportedRuns

  /** The runs that did not end in ERROR, in order. */
  function Kept(runs: seq<ScenarioRun>): seq<ScenarioRun> {
    if runs == [] then [] else (if runs[0].actual == ResultError then [] else [runs[0]]) + Kept(runs[1..])
  }

  /** The objects of the catalog from an index on as pieces, with what follows them. */
  function CatalogThen(runs: seq<ScenarioRun>, from: nat, rest: seq<Piece>): seq<Piece>
    requires from <= |runs|
    decreases |runs| - from
  {
    if from == |runs| then rest
    else if runs[from].actual == ResultError then CatalogThen(runs, from + 1, rest)
    else (if from > 0 then COMMA else []) + ObjectThen(runs[from], CatalogThen(runs, from + 1, rest))
  }

  lemma {:induction false} CatalogTextIs(runs: seq<ScenarioRun>, from: nat, rest: seq<Piece>)
    requires from <= |runs| && forall run :: run in Kept(runs[from..]) ==> ObjectFits(run)
    ensures CatalogText(runs, from) + Render(rest) == Render(CatalogThen(runs, from, rest))
    decreases |runs| - from
  {
    hide Render, ObjectThen, ObjectFits, ObjectWritten;
    if from == |runs| {
      assert "" + Render(rest) == Render(rest);
    } else {
      var run, later := runs[from], CatalogThen(runs, from + 1, rest);
      assert runs[from..][0] == run && runs[from..][1..] == runs[from + 1..];
      KeptFirst(runs[from..]);
      CatalogTextIs(runs, from + 1, rest);
      if run.actual != ResultError {
        assert ObjectFits(run);
        assert [] + later == later;
        ObjectThenSplits(run, [], later);
        RenderAppends(ObjectThen(run, []), later);
        RenderAppends(COMMA, ObjectThen(run, later));
        assert [] + ObjectThen(run, later) == ObjectThen(run, later);
        var comma, body := if from > 0 then Render(COMMA) else "", Render(ObjectThen(run, []));
        assert comma + body + CatalogText(runs, from + 1) + Render(rest) == comma + (body + Render(later));
      } else {
        assert "" + CatalogText(runs, from + 1) == CatalogText(runs, from + 1);
      }
    }
  }

  lemma KeptFirst(runs: seq<ScenarioRun>)
    requires runs != []
    ensures runs[0].actual != ResultError ==> runs[0] in Kept(runs)
    ensures forall run :: run in Kept(runs[1..]) ==> run in Kept(runs)
  {
  }

  /** Away from the front every kept object has its comma before it, as in a report of the kept runs alone. */
  lemma {:induction false} LaterObjects(runs: seq<ScenarioRun>, from: nat, kept: seq<ScenarioRun>, at: nat, rest: seq<Piece>)
    requires 1 <= from <= |runs| && 1 <= at <= |kept| && kept[at..] == Kept(runs[from..])
    ensures CatalogThen(runs, from, rest) == ObjectsThen(kept, at, rest)
    decreases |runs| - from
  {
    hide ObjectThen;
    if from == |runs| {
    } else {
      assert runs[from..][0] == runs[from] && runs[from..][1..] == runs[from + 1..];
      if runs[from].actual == ResultError {
        assert [] + Kept(runs[from + 1..]) == Kept(runs[from + 1..]);
        LaterObjects(runs, from + 1, kept, at, rest);
      } else {
        assert kept[at..][0] == kept[at] == runs[from] && kept[at..][1..] == kept[at + 1..] == Kept(runs[from + 1..]);
        LaterObjects(runs, from + 1, kept, at + 1, rest);
      }
    }
  }

  /** A stray comma before the first object, when the first run of the catalog was left out. */
  function Lead(runs: seq<ScenarioRun>): seq<Piece>
    requires runs != []
  {
    if runs[0].actual == ResultError then COMMA else []
  }

  lemma {:induction false} SkippedStart(runs: seq<ScenarioRun>, from: nat, rest: seq<Piece>)
    requires 1 <= from <= |runs| && Kept(runs[from..]) != []
    ensures CatalogThen(runs, from, rest) == COMMA + ObjectsThen(Kept(runs[from..]), 0, rest)
    decreases |runs| - from
  {
    hide ObjectThen;
    if from == |runs| {
      assert false;
    } else {
      assert runs[from..][0] == runs[from] && runs[from..][1..] == runs[from + 1..];
      var kept := Kept(runs[from..]);
      if runs[from].actual == ResultError {
        assert [] + Kept(runs[from + 1..]) == Kept(runs[from + 1..]);
        SkippedStart(runs, from + 1, rest);
      } else {
        assert kept[0] == runs[from] && kept[1..] == Kept(runs[from + 1..]);
        LaterObjects(runs, from + 1, kept, 1, rest);
      }
    }
  }

  lemma CatalogIs(runs: seq<ScenarioRun>, rest: seq<Piece>)
    requires Kept(runs) != []
    ensures runs != [] && CatalogThen(runs, 0, rest) == Lead(runs) + ObjectsThen(Kept(runs), 0, rest)
  {
    hide ObjectThen;
    var kept := Kept(runs);
    if runs[0].actual == ResultError {
      assert [] + Kept(runs[1..]) == Kept(runs[1..]);
      SkippedStart(runs, 1, rest);
    } else {
      assert kept[0] == runs[0] && kept[1..] == Kept(runs[1..]);
      LaterObjects(runs, 1, kept, 1, rest);
    }
  }

  lemma CatalogReportIs(commit: string, runs: seq<ScenarioRun>)
    requires forall run :: run in Kept(runs) ==> ObjectFits(run)
    ensures CatalogReport(commit, runs) ==
            Render(HeaderThen(commit, CatalogThen(runs, 0, Footer(None, PassedFrom(runs, 0), |runs|))))
  {
    hide Render, HeaderThen, Footer, ObjectFits, CatalogText, CatalogThen, PassedFrom, Kept;
    var footer := Footer(None, PassedFrom(runs, 0), |runs|);
    assert runs[0..] == runs;
    CatalogTextIs(runs, 0, footer);
    HeaderSplits(commit, CatalogThen(runs, 0, footer));
    RenderAppends(HeaderThen(commit, []), CatalogThen(runs, 0, footer));
    var header, objects := Render(HeaderThen(commit, [])), CatalogText(runs, 0);
    assert header + objects + Render(footer) == header + (objects + Render(footer));
  }

  /**
   * The catalog's report loads back, whatever runs were left out of it and whatever verdicts failed: the loader returns
   * the runs that did not end in ERROR, in order, exactly when each of them has ticks and a findable expected verdict.
   */
  lemma CatalogLoadsBackIff(commit: string, runs: seq<ScenarioRun>, limit: nat)
    requires PlainCommit(commit) && AllLoadable(Kept(runs)) && 1 <= |Kept(runs)| <= limit
    ensures Load(CatalogReport(commit, runs), limit) == Some(LoadedRuns(Kept(runs))) <==> AllRecoverable(Kept(runs))
  {
    hide Render, HeaderThen, ObjectsThen, Footer, Load, LoadableRun, AllRecoverable, LoadedRuns, ObjectFits, CatalogThen,
         CatalogReport;
    var kept, passed := Kept(runs), PassedFrom(runs, 0);
    forall run | run in kept ensures ObjectFits(run) { LoadableRunFits(run); }
    CatalogReportIs(commit, runs);
    CatalogIs(runs, Footer(None, passed, |runs|));
    LedReportLoadsBackIff(commit, Lead(runs), kept, passed, |runs|, limit);
  }

  // --- a report without scenarios ----------------------------------------------------------------------

  predicate PlainError(e: ErrorInfo) { QuoteFree(e.origin) && QuoteFree(e.operation) }

  lemma NamesAreQuoteFree(e: ErrorInfo)
    ensures QuoteFree(StatusName(e.code)) && QuoteFree(SeverityName(e.severity))
  {
  }

  lemma FieldIsTidy(name: string, value: string)
    requires QuoteFree(name) && QuoteFree(value)
    ensures Tidy(TextField(name, value))
  {
  }

  lemma ErrorLineIsTidy(e: ErrorInfo)
    requires PlainError(e)
    ensures Tidy(ErrorLine(e))
  {
    hide Tidy, TextField, StatusName, SeverityName, PrintNat;
    NamesAreQuoteFree(e);
    FieldIsTidy("code", StatusName(e.code));
    FieldIsTidy("severity", SeverityName(e.severity));
    var recoverability := if e.recoverable then "RECOVERABLE" else "NON_RECOVERABLE";
    FieldIsTidy("recoverability", recoverability);
    FieldIsTidy("module", e.origin);
    FieldIsTidy("function", e.operation);
    ErrorEndsAreTidy(e.tick);
    var end := [Word("tick"), Text(": " + PrintNat(e.tick)), Text("},\n")];
    TidyAppends(TextField("function", e.operation), end);
    TidyAppends(TextField("module", e.origin), TextField("function", e.operation) + end);
    TidyAppends(TextField("recoverability", recoverability),
                TextField("module", e.origin) + (TextField("function", e.operation) + end));
    TidyAppends(TextField("severity", SeverityName(e.severity)), TextField("recoverability", recoverability) +
                (TextField("module", e.origin) + (TextField("function", e.operation) + end)));
    TidyAppends(TextField("code", StatusName(e.code)), TextField("severity", SeverityName(e.severity)) +
                (TextField("recoverability", recoverability) +
                (TextField("module", e.origin) + (TextField("function", e.operation) + end))));
    TidyAppends([Text("  "), Word("error"), Text(": {")], TextField("code", StatusName(e.code)) +
                (TextField("severity", SeverityName(e.severity)) + (TextField("recoverability", recoverability) +
                (TextField("module", e.origin) + (TextField("function", e.operation) + end)))));
  }

  lemma ErrorEndsAreTidy(tick: uint32)
    ensures Tidy([Word("tick"), Text(": " + PrintNat(tick)), Text("},\n")])
    ensures Tidy([Text("  "), Word("error"), Text(": {")])
  {
    hide PrintNat;
    PrintedNumbersArePlain(tick, 0, 0.0);
    assert QuoteFree(": " + PrintNat(tick));
  }

  /** What follows the bracket that closes the empty scenario array. */
  function ErrorEnding(error: ErrorInfo): seq<Piece> {
    [Text(",\n")] + (ErrorPart(Some(error)) + SummaryLine(0, 0))
  }

  lemma ErrorFooterIs(error: ErrorInfo)
    requires PlainError(error)
    ensures Footer(Some(error), 0, 0) == [Text("\n  ")] + ([Text("]")] + ErrorEnding(error))
    ensures Tidy([Text("]")] + ErrorEnding(error)) && Tidy([Text("\n  ")] + ([Text("]")] + ErrorEnding(error)))
  {
    hide Tidy, ErrorLine, SummaryLine;
    SummaryIsTidy(0, 0);
    ErrorLineIsTidy(error);
    assert Tidy([]) by { NothingIsTidy(); }
    TidyAppends(ErrorPart(Some(error)), SummaryLine(0, 0));
    TidyText(",\n", ErrorPart(Some(error)) + SummaryLine(0, 0));
    TidyText("]", ErrorEnding(error));
    TidyText("\n  ", [Text("]")] + ErrorEnding(error));
    assert CLOSE_SCENARIOS == [Text("\n  ")] + ([Text("]")] + [Text(",\n")]);
  }

  /** An array of white space ends at its bracket, and nothing is found in it. */
  lemma EmptyArrayEnds(end: string)
    requires end != "" && end[0] == ']'
    ensures FindClose("[\n\n  " + end, '[', ']') == Some(end)
    ensures Strchr("[\n\n  " + end, '{') == Strchr(end, '{')
  {
    hide FindClose, Strchr, Balanced;
    PlainIsBalanced("\n\n  ", '[', ']');
    assert end == "]" + end[1..];
    FindCloseAfter("\n\n  ", end[1..], '[', ']');
    assert "[\n\n  " + end == "[" + ("\n\n  " + ("]" + end[1..]));
    StrchrSkips("[\n\n  ", end, '{');
  }

  /** A report of an error alone, with no scenario in it, is refused. */
  lemma ErrorReportIsRefused(commit: string, error: ErrorInfo, limit: nat)
    requires PlainCommit(commit) && PlainError(error) && limit > 0
    ensures Load(Render(HeaderThen(commit, Footer(Some(error), 0, 0))), limit) == None
  {
    hide Render, HeaderThen, Footer, ErrorEnding, FindClose, Strstr, Strchr, VersionsAccepted, Tidy, Quoted, Load;
    var closing := [Text("]")] + ErrorEnding(error);
    var footer := [Text("\n  ")] + closing;
    ErrorFooterIs(error);
    HeaderIsAccepted(commit, footer);
    ScenariosKeyIsFound(commit, footer);
    RenderText("\n  ", closing);
    RenderText("]", ErrorEnding(error));
    var end := Render(closing);
    EmptyArrayEnds(end);
    assert "[\n" + Render(footer) == "[\n\n  " + end;
    LoadGoesThrough(Render(HeaderThen(commit, footer)), limit, "[\n\n  " + end, end);
    EmptyArray("[\n\n  " + end, end, limit);
  }

  lemma NothingIsTidy()
    ensures Tidy([])
  {
  }

  lemma SummaryIsTidy(passed: int, total: int)
    ensures Tidy(SummaryLine(passed, total))
  {
    hide Tidy, SummaryLine;
    FooterIs(passed, total);
    TidyTail(Ending(passed, total), 1);
    assert Ending(passed, total)[1..] == SummaryLine(passed, total);
  }

  lemma EmptyArray(start: string, end: string, limit: nat)
    requires start == "[\n\n  " + end && Strchr(start, '{') == Strchr(end, '{')
    ensures ParseScenarios(start, |end|, limit, []) == Some([])
  {
    hide FindClose, ParseScenario;
  }

  /**
   * The complete report of a scripted run. Its output loads back to the run when the run was printed and has ticks, and
   * is refused when it ended in ERROR or lost its sensor.
   */
  lemma ScriptedReportLoadsBackIff(commit: string, run: ScenarioRun, error: ErrorInfo, limit: nat)
    requires PlainCommit(commit) && PlainError(error) && limit > 0
    requires LoadableRun(run) && ExpectedIsFindable(run) && run.expected == run.actual
    ensures Load(Render(ScriptedDocument(commit, run, error)), limit) ==
              if run.actual != ResultError && run.reports != [] then Some([LoadedRun(run)]) else None
  {
    hide Render, HeaderThen, Document, Footer, Load, LoadableRun, LoadedRun, ExpectedIsFindable;
    if run.actual == ResultError {
      ErrorReportIsRefused(commit, error, limit);
    } else if run.reports == [] {
      assert [run][0].reports == [];
      EmptyRunIsRefused(commit, [run], 1, limit, 0);
    } else {
      ReportLoadsBackIff(commit, [run], 1, limit);
      LoadedSingly(run);
    }
  }
}
