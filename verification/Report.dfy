/** The JSON report: a header, one object per scenario run, and a summary. */
module Report {
  import opened Status
  import opened EngineModel
  import opened Decimal
  import opened JsonText
  import opened TickLoop

  const LINE_BUFFER := 256
  const SCHEMA_VERSION := "1.0.0"
  const SOFTWARE_VERSION := "1.4.6"

  function ResultName(v: Verdict): string {
    match v
    case ResultOk => "OK"
    case ResultWarning => "WARNING"
    case ResultShutdown => "SHUTDOWN"
    case ResultError => "ERROR"
  }

  function ModeName(m: Mode): string {
    match m
    case Init => "INIT"
    case Starting => "STARTING"
    case Running => "RUNNING"
    case Warning => "WARNING"
    case Shutdown => "SHUTDOWN"
  }

  /** The keys of the report. */
  datatype Key =
    | TickKey | RpmKey | TempKey | OilKey | RunKey | ResultKey | ControlKey | ModeKey
    | ScenarioKey | RequirementKey | TicksKey | ExpectedKey | ActualKey | PassKey
    | SchemaKey | SoftwareKey | CommitKey | ScenariosKey | SummaryKey | PassedKey | TotalKey

  function KeyName(k: Key): string {
    match k
    case TickKey => "tick" case RpmKey => "rpm" case TempKey => "temp" case OilKey => "oil" case RunKey => "run"
    case ResultKey => "result" case ControlKey => "control" case ModeKey => "engine_mode"
    case ScenarioKey => "scenario" case RequirementKey => "requirement_id" case TicksKey => "ticks"
    case ExpectedKey => "expected" case ActualKey => "actual" case PassKey => "pass"
    case SchemaKey => "schema_version" case SoftwareKey => "software_version" case CommitKey => "build_commit"
    case ScenariosKey => "scenarios" case SummaryKey => "summary" case PassedKey => "passed" case TotalKey => "total"
  }

  function StatusName(code: StatusCode): string {
    match code
    case StatusOk => "STATUS_OK"
    case InvalidArgument => "STATUS_INVALID_ARGUMENT"
    case ParseError => "STATUS_PARSE_ERROR"
    case IoError => "STATUS_IO_ERROR"
    case Timeout => "STATUS_TIMEOUT"
    case BufferOverflow => "STATUS_BUFFER_OVERFLOW"
    case InternalError => "STATUS_INTERNAL_ERROR"
  }

  datatype Severity = SeverityInfo | SeverityWarning | SeverityError | SeverityFatal

  function SeverityName(s: Severity): string {
    match s
    case SeverityInfo => "INFO"
    case SeverityWarning => "WARNING"
    case SeverityError => "ERROR"
    case SeverityFatal => "FATAL"
  }

  datatype ErrorInfo = ErrorInfo(code: StatusCode, severity: Severity, recoverable: bool, origin: string, operation: string,
                                 tick: uint32)

  /** A scenario run as it is reported; expected is the verdict printed as such. */
  datatype ScenarioRun = ScenarioRun(name: string, requirementId: string, reports: seq<TickReport>,
                                     expected: Verdict, actual: Verdict)

  // --- the printed lines --------------------------------------------------------------

  function Number(n: string): Piece { Text(": " + (n + ", ")) }

  function TickLine(t: TickReport, last: bool): seq<Piece> {
    [Text("        "), Text("{")] + (TickFields(t) + [Text("}"), Text(if last then "\n" else ",\n")])
  }

  function SensorFields(t: TickReport): seq<Piece> {
    [Word(KeyName(TickKey)), Number(PrintNat(t.tick)),
     Word(KeyName(RpmKey)), Number(PrintFixed(t.reading.rpm)),
     Word(KeyName(TempKey)), Number(PrintFixed(t.reading.temperature)),
     Word(KeyName(OilKey)), Number(PrintFixed(t.reading.oilPressure)),
     Word(KeyName(RunKey)), Number(PrintInt(t.reading.isRunning))]
  }

  function OutcomeFields(t: TickReport): seq<Piece> {
    [Word(KeyName(ResultKey)), Text(": "), Word(ResultName(t.result)), Text(", "),
     Word(KeyName(ControlKey)), Number(PrintFixed(t.control)),
     Word(KeyName(ModeKey)), Text(": "), Word(ModeName(t.mode))]
  }

  function TickFields(t: TickReport): seq<Piece> {
    SensorFields(t) + OutcomeFields(t)
  }

  function TextLine(key: Key, value: string): seq<Piece> {
    [Text("      "), Word(KeyName(key)), Text(": "), Word(value), Text(",\n")]
  }

  // What is printed is described together with the rest of the document that follows it.

  function TicksThen(reports: seq<TickReport>, from: nat, rest: seq<Piece>): seq<Piece>
    requires from <= |reports|
    decreases |reports| - from
  {
    if from == |reports| then rest
    else TickLine(reports[from], from + 1 == |reports|) + TicksThen(reports, from + 1, rest)
  }

  const OPEN_OBJECT := [Text("    "), Text("{"), Text("\n")]
  const OPEN_TICKS := [Text("      "), Word(KeyName(TicksKey)), Text(": "), Text("[\n")]
  const CLOSE_TICKS := [Text("      "), Text("]"), Text(",\n")]
  const CLOSE_OBJECT := [Text("    "), Text("}")]

  function PassLine(pass: bool): seq<Piece> {
    [Text("      "), Word(KeyName(PassKey)), Text(if pass then ": true\n" else ": false\n")]
  }

  function ObjectEnd(run: ScenarioRun, rest: seq<Piece>): seq<Piece> {
    CLOSE_TICKS + (TextLine(ExpectedKey, ResultName(run.expected)) +
    (TextLine(ActualKey, ResultName(run.actual)) + (PassLine(run.expected == run.actual) + (CLOSE_OBJECT + rest))))
  }

  function ObjectThen(run: ScenarioRun, rest: seq<Piece>): seq<Piece> {
    OPEN_OBJECT + (TextLine(ScenarioKey, run.name) + (TextLine(RequirementKey, run.requirementId) +
    (OPEN_TICKS + TicksThen(run.reports, 0, ObjectEnd(run, rest)))))
  }

  function HeaderLine(key: Key, value: string): seq<Piece> {
    [Text("  "), Word(KeyName(key)), Text(": "), Word(value), Text(",\n")]
  }

  const OPEN_DOCUMENT := [Text("{\n")]
  const OPEN_SCENARIOS := [Text("  "), Word(KeyName(ScenariosKey)), Text(": "), Text("[\n")]
  const CLOSE_SCENARIOS := [Text("\n  "), Text("]"), Text(",\n")]

  function HeaderThen(commit: string, rest: seq<Piece>): seq<Piece> {
    OPEN_DOCUMENT + (HeaderLine(SchemaKey, SCHEMA_VERSION) + (HeaderLine(SoftwareKey, SOFTWARE_VERSION) +
    (HeaderLine(CommitKey, commit) + (OPEN_SCENARIOS + rest))))
  }

  function SummaryLine(passed: int, total: int): seq<Piece> {
    [Text("  "), Word(KeyName(SummaryKey)), Text(": {"), Word(KeyName(PassedKey)), Number(PrintInt(passed)),
     Word(KeyName(TotalKey)), Text(": " + PrintInt(total)), Text("}\n}\n")]
  }

  function TextField(name: string, value: string): seq<Piece> {
    [Word(name), Text(": "), Word(value), Text(", ")]
  }

  function ErrorLine(e: ErrorInfo): seq<Piece> {
    [Text("  "), Word("error"), Text(": {")] + (TextField("code", StatusName(e.code)) +
    (TextField("severity", SeverityName(e.severity)) +
    (TextField("recoverability", if e.recoverable then "RECOVERABLE" else "NON_RECOVERABLE") +
    (TextField("module", e.origin) + (TextField("function", e.operation) +
    [Word("tick"), Text(": " + PrintNat(e.tick)), Text("},\n")])))))
  }

  function ErrorPart(error: Option<ErrorInfo>): seq<Piece> {
    if error.None? || error.value.code == StatusOk then [] else ErrorLine(error.value)
  }

  function Footer(error: Option<ErrorInfo>, passed: int, total: int): seq<Piece> {
    CLOSE_SCENARIOS + (ErrorPart(error) + SummaryLine(passed, total))
  }

  const COMMA := [Text(",\n")]

  /** Objects from an index on, each but the first with a comma before it. */
  function ObjectsThen(runs: seq<ScenarioRun>, from: nat, rest: seq<Piece>): seq<Piece>
    requires from <= |runs|
    decreases |runs| - from
  {
    if from == |runs| then rest
    else if from == 0 then ObjectThen(runs[0], ObjectsThen(runs, 1, rest))
    else COMMA + ObjectThen(runs[from], ObjectsThen(runs, from + 1, rest))
  }

  function Document(commit: string, runs: seq<ScenarioRun>, passed: int): seq<Piece> {
    HeaderThen(commit, ObjectsThen(runs, 0, Footer(None, passed, |runs|)))
  }

  // --- the printers as they run ---------------------------------------------------------

  predicate Fits(line: seq<Piece>) { |Render(line)| < LINE_BUFFER }

  predicate TicksFit(reports: seq<TickReport>) {
    forall i :: 0 <= i < |reports| ==> Fits(TickLine(reports[i], i + 1 == |reports|))
  }

  predicate ObjectFits(run: ScenarioRun) {
    Fits(TextLine(ScenarioKey, run.name)) && Fits(TextLine(RequirementKey, run.requirementId)) && TicksFit(run.reports)
  }

  // What reaches the output when a line does not fit: everything before it.

  function TicksWritten(reports: seq<TickReport>, from: nat): string
    requires from <= |reports|
    decreases |reports| - from
  {
    if from == |reports| then "" else
    var line := TickLine(reports[from], from + 1 == |reports|);
    if !Fits(line) then "" else Render(line) + TicksWritten(reports, from + 1)
  }

  /** The lines of an object before its ticks. */
  function ObjectStart(run: ScenarioRun): seq<Piece> {
    OPEN_OBJECT + (TextLine(ScenarioKey, run.name) + (TextLine(RequirementKey, run.requirementId) + OPEN_TICKS))
  }

  function ObjectWritten(run: ScenarioRun): string {
    var name, id := TextLine(ScenarioKey, run.name), TextLine(RequirementKey, run.requirementId);
    if !Fits(name) then Render(OPEN_OBJECT)
    else if !Fits(id) then Render(OPEN_OBJECT + name)
    else Render(ObjectStart(run)) + TicksWritten(run.reports, 0)
  }

  const HEADER_START := OPEN_DOCUMENT + (HeaderLine(SchemaKey, SCHEMA_VERSION) + HeaderLine(SoftwareKey, SOFTWARE_VERSION))

  /** A scenario object as it is written, whole or not. */
  function ObjectText(run: ScenarioRun): string {
    if ObjectFits(run) then Render(ObjectThen(run, [])) else ObjectWritten(run)
  }

  lemma ObjectStartThen(run: ScenarioRun, rest: seq<Piece>)
    ensures Render(OPEN_OBJECT + (TextLine(ScenarioKey, run.name) + (TextLine(RequirementKey, run.requirementId) +
                   (OPEN_TICKS + rest)))) == Render(ObjectStart(run)) + Render(rest)
  {
    hide TextLine, Render;
    var name, id := TextLine(ScenarioKey, run.name), TextLine(RequirementKey, run.requirementId);
    Regroup(id, OPEN_TICKS, rest);
    Regroup(name, id + OPEN_TICKS, rest);
    Regroup(OPEN_OBJECT, name + (id + OPEN_TICKS), rest);
    RenderAppends(ObjectStart(run), rest);
  }

  lemma HeaderStartThen(commit: string, rest: seq<Piece>)
    ensures Render(HeaderThen(commit, rest)) ==
            Render(HEADER_START) + Render(HeaderLine(CommitKey, commit) + (OPEN_SCENARIOS + rest))
  {
    hide HeaderLine, Render;
    var schema, software := HeaderLine(SchemaKey, SCHEMA_VERSION), HeaderLine(SoftwareKey, SOFTWARE_VERSION);
    var after := HeaderLine(CommitKey, commit) + (OPEN_SCENARIOS + rest);
    Regroup(schema, software, after);
    Regroup(OPEN_DOCUMENT, schema + software, after);
    RenderAppends(HEADER_START, after);
  }

  lemma Regroup<T>(a: seq<T>, b: seq<T>, c: seq<T>)
    ensures a + b + c == a + (b + c)
  {
  }

  lemma ShortLineFits(key: Key, value: string)
    requires |value| <= 200
    ensures Fits(TextLine(key, value)) && Fits(HeaderLine(key, value))
  {
    RenderFive(TextLine(key, value));
    RenderFive(HeaderLine(key, value));
  }

  lemma RenderFive(ps: seq<Piece>)
    requires |ps| == 5
    ensures |Render(ps)| == |RenderPiece(ps[0])| + |RenderPiece(ps[1])| + |RenderPiece(ps[2])| + |RenderPiece(ps[3])| + |RenderPiece(ps[4])|
  {
    assert ps[0..] == ps && ps[5..] == [];
    RenderFrom(ps, 0);
    RenderFrom(ps, 1);
    RenderFrom(ps, 2);
    RenderFrom(ps, 3);
    RenderFrom(ps, 4);
  }

  /** How long the three names of a report may be. */
  lemma NamesFitIff(value: string)
    ensures Fits(TextLine(ScenarioKey, value)) <==> |value| <= 233
    ensures Fits(TextLine(RequirementKey, value)) <==> |value| <= 227
    ensures Fits(HeaderLine(CommitKey, value)) <==> |value| <= 233
  {
    hide Render;
    RenderFive(TextLine(ScenarioKey, value));
    RenderFive(TextLine(RequirementKey, value));
    RenderFive(HeaderLine(CommitKey, value));
  }

  lemma PassLineFits(pass: bool)
    ensures Fits(PassLine(pass))
  {
    var line := PassLine(pass);
    assert line[0..] == line && line[3..] == [];
    RenderFrom(line, 0);
    RenderFrom(line, 1);
    RenderFrom(line, 2);
  }

  lemma FixedLinesFit(pass: bool)
    ensures Fits(OPEN_OBJECT) && Fits(OPEN_TICKS) && Fits(CLOSE_TICKS) && Fits(CLOSE_OBJECT) && Fits(PassLine(pass))
    ensures Fits(OPEN_DOCUMENT) && Fits(OPEN_SCENARIOS) && Fits(CLOSE_SCENARIOS) && Fits(COMMA)
  {
    hide PassLine;
    PassLineFits(pass);
  }

  /** Standard output. */
  class Output {
    var text: string

    constructor ()
      ensures text == ""
    {
      text := "";
    }

    /**
     * Format into the line buffer, then write: a line that does not fit is not written. The ghost argument is what is
     * still to be printed after it.
     */
    method PrintLine(line: seq<Piece>, ghost rest: seq<Piece>) returns (status: StatusCode)
      modifies this
      ensures status == if |Render(line)| <= 255 then StatusOk else BufferOverflow
      ensures status == StatusOk <==> Fits(line)
      ensures text == if Fits(line) then old(text) + Render(line) else old(text)
      ensures Fits(line) ==> text + Render(rest) == old(text) + Render(line + rest)
    {
      if |Render(line)| >= LINE_BUFFER {
        return BufferOverflow;
      }
      text := text + Render(line);
      RenderAppends(line, rest);
      return StatusOk;
    }

    method PrintTicks(reports: seq<TickReport>, ghost rest: seq<Piece>) returns (status: StatusCode)
      modifies this
      ensures status == if TicksFit(reports) then StatusOk else BufferOverflow
      ensures status == StatusOk ==> text + Render(rest) == old(text) + Render(TicksThen(reports, 0, rest))
      ensures status != StatusOk ==> text == old(text) + TicksWritten(reports, 0)
    {
      hide Fits, TickLine, Render;
      var index := 0;
      while index < |reports|
        invariant 0 <= index <= |reports|
        invariant text + Render(TicksThen(reports, index, rest)) == old(text) + Render(TicksThen(reports, 0, rest))
        invariant text + TicksWritten(reports, index) == old(text) + TicksWritten(reports, 0)
        invariant forall i :: 0 <= i < index ==> Fits(TickLine(reports[i], i + 1 == |reports|))
      {
        status := PrintLine(TickLine(reports[index], index + 1 == |reports|), TicksThen(reports, index + 1, rest));
        if status != StatusOk {
          return BufferOverflow;
        }
        index := index + 1;
      }
      return StatusOk;
    }

    /** The lines before the ticks. */
    method PrintObjectStart(run: ScenarioRun) returns (status: StatusCode)
      modifies this
      ensures var name, id := TextLine(ScenarioKey, run.name), TextLine(RequirementKey, run.requirementId);
              && status == (if Fits(name) && Fits(id) then StatusOk else BufferOverflow)
              && text == old(text) + if status == StatusOk then Render(ObjectStart(run)) else ObjectWritten(run)
    {
      hide Render, TicksWritten, TextLine, Fits;
      FixedLinesFit(true);
      NothingRenders();
      ghost var before, name, id := text, TextLine(ScenarioKey, run.name), TextLine(RequirementKey, run.requirementId);
      status := PrintLine(OPEN_OBJECT, name + (id + OPEN_TICKS));
      status := PrintLine(TextLine(ScenarioKey, run.name), id + OPEN_TICKS);
      if status != StatusOk {
        return BufferOverflow;
      }
      assert text == before + Render(OPEN_OBJECT + name) by {
        RenderAppends(OPEN_OBJECT, name);
        assert before + Render(OPEN_OBJECT) + Render(name) == before + (Render(OPEN_OBJECT) + Render(name));
      }
      status := PrintLine(TextLine(RequirementKey, run.requirementId), OPEN_TICKS);
      if status != StatusOk {
        return BufferOverflow;
      }
      assert OPEN_TICKS + [] == OPEN_TICKS;
      status := PrintLine(OPEN_TICKS, []);
      assert text + "" == text;
    }

    /** The lines after the ticks, which always fit. */
    method PrintObjectEnd(run: ScenarioRun, ghost rest: seq<Piece>) returns (status: StatusCode)
      modifies this
      ensures status == StatusOk
      ensures text + Render(rest) == old(text) + Render(ObjectEnd(run, rest))
    {
      hide Render, TextLine, PassLine, Fits;
      FixedLinesFit(run.expected == run.actual);
      ShortLineFits(ExpectedKey, ResultName(run.expected));
      ShortLineFits(ActualKey, ResultName(run.actual));
      ghost var afterPass := CLOSE_OBJECT + rest;
      ghost var afterActual := PassLine(run.expected == run.actual) + afterPass;
      ghost var afterExpected := TextLine(ActualKey, ResultName(run.actual)) + afterActual;
      status := PrintLine(CLOSE_TICKS, TextLine(ExpectedKey, ResultName(run.expected)) + afterExpected);
      status := PrintLine(TextLine(ExpectedKey, ResultName(run.expected)), afterExpected);
      if status != StatusOk {
        return BufferOverflow;
      }
      status := PrintLine(TextLine(ActualKey, ResultName(run.actual)), afterActual);
      if status != StatusOk {
        return BufferOverflow;
      }
      status := PrintLine(PassLine(run.expected == run.actual), afterPass);
      if status != StatusOk {
        return BufferOverflow;
      }
      status := PrintLine(CLOSE_OBJECT, rest);
    }

    /**
     * scenario_report_print_json_scenario_object; without an expectation the actual verdict is printed as expected, and
     * a line that does not fit ends the object there.
     */
    method PrintScenarioObject(run: ScenarioRun, hasExpected: bool, ghost rest: seq<Piece>) returns (status: StatusCode)
      modifies this
      ensures status == if ObjectFits(run) then StatusOk else BufferOverflow
      ensures var shown := if hasExpected then run else run.(expected := run.actual);
              status == StatusOk ==> text + Render(rest) == old(text) + Render(ObjectThen(shown, rest))
      ensures status != StatusOk ==> text == old(text) + ObjectWritten(run)
    {
      hide Render, TicksWritten, TextLine, TicksThen, TicksFit, Fits, ObjectEnd, ObjectStart;
      var shown := if hasExpected then run else run.(expected := run.actual);
      ghost var ticks, start := TicksThen(run.reports, 0, ObjectEnd(shown, rest)), ObjectStart(run);
      ObjectStartThen(run, ticks);
      status := PrintObjectStart(run);
      if status != StatusOk {
        return BufferOverflow;
      }
      assert old(text) + Render(start) + Render(ticks) == old(text) + (Render(start) + Render(ticks));
      status := PrintTicks(run.reports, ObjectEnd(shown, rest));
      if status != StatusOk {
        return BufferOverflow;
      }
      status := PrintObjectEnd(shown, rest);
    }

    /** The header up to the versions, which always fit. */
    method PrintVersions() returns (status: StatusCode)
      modifies this
      ensures status == StatusOk && text == old(text) + Render(HEADER_START)
    {
      hide Render, HeaderLine, Fits;
      FixedLinesFit(true);
      NothingRenders();
      ShortLineFits(SchemaKey, SCHEMA_VERSION);
      ShortLineFits(SoftwareKey, SOFTWARE_VERSION);
      ghost var software := HeaderLine(SoftwareKey, SOFTWARE_VERSION);
      status := PrintLine(OPEN_DOCUMENT, HeaderLine(SchemaKey, SCHEMA_VERSION) + software);
      status := PrintLine(HeaderLine(SchemaKey, SCHEMA_VERSION), software);
      if status != StatusOk {
        return BufferOverflow;
      }
      assert software + [] == software;
      status := PrintLine(HeaderLine(SoftwareKey, SOFTWARE_VERSION), []);
      assert text + "" == text;
    }

    method PrintHeader(commit: string, ghost rest: seq<Piece>) returns (status: StatusCode)
      modifies this
      ensures status == if Fits(HeaderLine(CommitKey, commit)) then StatusOk else BufferOverflow
      ensures status == StatusOk ==> text + Render(rest) == old(text) + Render(HeaderThen(commit, rest))
      ensures status != StatusOk ==> text == old(text) + Render(HEADER_START)
    {
      hide Render, HeaderLine, HeaderThen, HEADER_START, Fits;
      FixedLinesFit(true);
      ghost var before, afterStart := text, HeaderLine(CommitKey, commit) + (OPEN_SCENARIOS + rest);
      HeaderStartThen(commit, rest);
      status := PrintVersions();
      if status != StatusOk {
        return BufferOverflow;
      }
      assert before + Render(HEADER_START) + Render(afterStart) == before + (Render(HEADER_START) + Render(afterStart));
      status := PrintLine(HeaderLine(CommitKey, commit), OPEN_SCENARIOS + rest);
      if status != StatusOk {
        return BufferOverflow;
      }
      status := PrintLine(OPEN_SCENARIOS, rest);
    }

    /** scenario_report_print_json_footer; an error line that does not fit ends it with an I/O error. */
    method PrintFooter(error: Option<ErrorInfo>, passed: int, total: int) returns (status: StatusCode)
      modifies this
      ensures status == if !Fits(ErrorPart(error)) then IoError
                        else if !Fits(SummaryLine(passed, total)) then BufferOverflow else StatusOk
      ensures text == old(text) + FooterText(error, passed, total)
    {
      hide Fits, SummaryLine, ErrorLine, Render;
      FixedLinesFit(true);
      ghost var summary := SummaryLine(passed, total);
      RenderAppends(CLOSE_SCENARIOS, ErrorPart(error));
      RenderAppends(ErrorPart(error), summary);
      RenderAppends(CLOSE_SCENARIOS, ErrorPart(error) + summary);
      NothingFits();
      NothingRenders();
      ghost var before := text;
      ghost var close, part := Render(CLOSE_SCENARIOS), Render(ErrorPart(error));
      assert before + close + part == before + (close + part);
      assert before + close + part + Render(summary) == before + (close + (part + Render(summary)));
      assert before + close + "" == before + close;
      status := PrintLine(CLOSE_SCENARIOS, []);
      if error.Some? && error.value.code != StatusOk {
        status := PrintLine(ErrorLine(error.value), []);
        if status != StatusOk {
          return IoError;
        }
      }
      status := PrintLine(SummaryLine(passed, total), []);
    }

    /** One scenario of the catalog: a run that ended in ERROR is left out, and one that does not fit cannot pass. */
    method PrintTestCase(run: ScenarioRun, first: bool) returns (passed: bool)
      modifies this
      ensures text == old(text) + CaseText(run, first)
      ensures passed == Passes(run)
    {
      hide Render, Fits, ObjectFits, ObjectThen, ObjectWritten;
      if run.actual == ResultError {
        return false;
      }
      ghost var before := text;
      NothingRenders();
      if !first {
        CommaFits();
        var _ := PrintLine(COMMA, []);
      }
      ghost var comma := if first then "" else Render(COMMA);
      assert text == before + comma;
      var status := PrintScenarioObject(run, true, []);
      assert text + Render([]) == text;
      assert text == before + comma + ObjectText(run) == before + (comma + ObjectText(run));
      return status == StatusOk && run.actual == run.expected;
    }

    /** The report of the scenario catalog; after an object that does not fit the driver goes on with the next. */
    method PrintCatalog(commit: string, runs: seq<ScenarioRun>) returns (status: StatusCode)
      modifies this
      ensures status == if Fits(HeaderLine(CommitKey, commit)) && Fits(SummaryLine(PassedFrom(runs, 0), |runs|)) &&
                           PassedFrom(runs, 0) == |runs| then StatusOk else InternalError
      ensures !Fits(HeaderLine(CommitKey, commit)) ==> text == old(text) + Render(HEADER_START)
      ensures Fits(HeaderLine(CommitKey, commit)) ==>
                text == old(text) + if Fits(SummaryLine(PassedFrom(runs, 0), |runs|)) then CatalogReport(commit, runs)
                                    else Render(HeaderThen(commit, [])) + CatalogText(runs, 0) + Render(CLOSE_SCENARIOS)
    {
      hide Render, HeaderThen, Footer, Fits, HeaderLine, SummaryLine, CaseText, Passes, HEADER_START, CLOSE_SCENARIOS;
      NothingRenders();
      status := PrintHeader(commit, []);
      if status != StatusOk {
        return InternalError;
      }
      assert text == old(text) + Render(HeaderThen(commit, [])) by { assert text + "" == text; }
      ghost var header := text;
      var passed := 0;
      var index := 0;
      while index < |runs|
        invariant 0 <= index <= |runs|
        invariant text + CatalogText(runs, index) == header + CatalogText(runs, 0)
        invariant passed + PassedFrom(runs, index) == PassedFrom(runs, 0)
      {
        ghost var written := text;
        var pass := PrintTestCase(runs[index], index == 0);
        assert written + CatalogText(runs, index) == text + CatalogText(runs, index + 1);
        passed := passed + if pass then 1 else 0;
        index := index + 1;
      }
      assert text == header + CatalogText(runs, 0) by { assert text + "" == text; }
      ErrorFreeFits();
      assert CLOSE_SCENARIOS + ErrorPart(None) == CLOSE_SCENARIOS;
      status := PrintFooter(None, passed, |runs|);
      if status != StatusOk || passed != |runs| {
        return InternalError;
      }
    }

    /** The report of a scripted run: its own verdict is the expected one, and a run that ended in ERROR shows the error only. */
    method PrintScripted(commit: string, run: ScenarioRun, error: ErrorInfo) returns (status: StatusCode)
      requires run.expected == run.actual
      modifies this
      ensures text == old(text) + ScriptedText(commit, run, error)
      ensures status == if run.actual != ResultError && ScriptedFits(commit, run, error) then StatusOk else InternalError
    {
      hide Render, HeaderThen, ObjectThen, Fits, HeaderLine, SummaryLine, ObjectFits, ErrorPart, HEADER_START,
           FooterText, ObjectWritten;
      ErrorFreeFits();
      NothingRenders();
      ghost var before := text;
      status := PrintHeader(commit, []);
      if status != StatusOk {
        return InternalError;
      }
      assert text + "" == text;
      if run.actual == ResultError {
        status := PrintFooter(Some(error), 0, 0);
        assert text == before + (Render(HeaderThen(commit, [])) + FooterText(Some(error), 0, 0));
        return InternalError;
      }
      status := PrintScenarioObject(run, true, []);
      assert text + "" == text;
      assert text == before + (Render(HeaderThen(commit, [])) + ObjectText(run));
      if status != StatusOk {
        return InternalError;
      }
      status := PrintFooter(None, 1, 1);
      assert text == before + (Render(HeaderThen(commit, [])) + ObjectText(run) + FooterText(None, 1, 1));
      if status != StatusOk {
        return InternalError;
      }
    }
  }

  // --- the drivers' reports ---------------------------------------------------------------

  function CaseText(run: ScenarioRun, first: bool): string {
    if run.actual == ResultError then "" else (if first then "" else Render(COMMA)) + ObjectText(run)
  }

  /** The objects of the catalog from an index on; the comma goes by the place in the catalog. */
  function CatalogText(runs: seq<ScenarioRun>, from: nat): string
    requires from <= |runs|
    decreases |runs| - from
  {
    if from == |runs| then "" else CaseText(runs[from], from == 0) + CatalogText(runs, from + 1)
  }

  /** The footer as it is written, whole or not. */
  function FooterText(error: Option<ErrorInfo>, passed: int, total: int): string {
    if !Fits(ErrorPart(error)) then Render(CLOSE_SCENARIOS)
    else if !Fits(SummaryLine(passed, total)) then Render(CLOSE_SCENARIOS + ErrorPart(error))
    else Render(Footer(error, passed, total))
  }

  /** The scripted report as it is written, whole or not. */
  function ScriptedText(commit: string, run: ScenarioRun, error: ErrorInfo): string {
    if !Fits(HeaderLine(CommitKey, commit)) then Render(HEADER_START) else
    var header := Render(HeaderThen(commit, []));
    if run.actual == ResultError then header + FooterText(Some(error), 0, 0)
    else if !ObjectFits(run) then header + ObjectText(run)
    else header + ObjectText(run) + FooterText(None, 1, 1)
  }

  function CatalogReport(commit: string, runs: seq<ScenarioRun>): string {
    Render(HeaderThen(commit, [])) + CatalogText(runs, 0) + Render(Footer(None, PassedFrom(runs, 0), |runs|))
  }

  predicate Passes(run: ScenarioRun) {
    run.actual != ResultError && run.actual == run.expected && ObjectFits(run)
  }

  function PassedFrom(runs: seq<ScenarioRun>, from: nat): nat
    requires from <= |runs|
    decreases |runs| - from
  {
    if from == |runs| then 0 else (if Passes(runs[from]) then 1 else 0) + PassedFrom(runs, from + 1)
  }

  function ScriptedDocument(commit: string, run: ScenarioRun, error: ErrorInfo): seq<Piece> {
    if run.actual == ResultError then HeaderThen(commit, Footer(Some(error), 0, 0)) else Document(commit, [run], 1)
  }

  predicate ScriptedFits(commit: string, run: ScenarioRun, error: ErrorInfo) {
    && Fits(HeaderLine(CommitKey, commit))
    && if run.actual == ResultError then Fits(ErrorPart(Some(error))) && Fits(SummaryLine(0, 0))
       else ObjectFits(run) && Fits(SummaryLine(1, 1))
  }

  /** When every line fits, what is written is the whole document. */
  lemma ScriptedTextIsDocument(commit: string, run: ScenarioRun, error: ErrorInfo)
    requires ScriptedFits(commit, run, error)
    ensures ScriptedText(commit, run, error) == Render(ScriptedDocument(commit, run, error))
  {
    hide HeaderThen, ObjectThen, Footer, Fits, HeaderLine, ErrorPart, SummaryLine, ObjectFits, ObjectWritten, Render;
    if run.actual == ResultError {
      HeaderSplits(commit, Footer(Some(error), 0, 0));
      RenderAppends(HeaderThen(commit, []), Footer(Some(error), 0, 0));
    } else {
      var footer := Footer(None, 1, 1);
      ErrorFreeFits();
      assert ObjectsThen([run], 1, footer) == footer && [] + footer == footer;
      ObjectThenSplits(run, [], footer);
      RenderAppends(ObjectThen(run, []), footer);
      HeaderSplits(commit, ObjectThen(run, footer));
      RenderAppends(HeaderThen(commit, []), ObjectThen(run, footer));
    }
  }

  lemma HeaderSplits(commit: string, rest: seq<Piece>)
    ensures HeaderThen(commit, rest) == HeaderThen(commit, []) + rest
  {
    hide HeaderLine;
    var schema, software := HeaderLine(SchemaKey, SCHEMA_VERSION), HeaderLine(SoftwareKey, SOFTWARE_VERSION);
    var build := HeaderLine(CommitKey, commit);
    Regroup(OPEN_SCENARIOS, [], rest);
    Regroup(build, OPEN_SCENARIOS + [], rest);
    Regroup(software, build + (OPEN_SCENARIOS + []), rest);
    Regroup(schema, software + (build + (OPEN_SCENARIOS + [])), rest);
    Regroup(OPEN_DOCUMENT, schema + (software + (build + (OPEN_SCENARIOS + []))), rest);
    assert [] + rest == rest;
  }

  lemma {:induction false} TicksThenSplits(reports: seq<TickReport>, i: nat, a: seq<Piece>, b: seq<Piece>)
    requires i <= |reports|
    ensures TicksThen(reports, i, a + b) == TicksThen(reports, i, a) + b
    decreases |reports| - i
  {
    hide TickLine;
    if i == |reports| {
    } else {
      TicksThenSplits(reports, i + 1, a, b);
      var line := TickLine(reports[i], i + 1 == |reports|);
      assert line + (TicksThen(reports, i + 1, a) + b) == line + TicksThen(reports, i + 1, a) + b;
    }
  }

  lemma ObjectEndSplits(run: ScenarioRun, a: seq<Piece>, b: seq<Piece>)
    ensures ObjectEnd(run, a + b) == ObjectEnd(run, a) + b
  {
    hide TextLine, PassLine;
    var expected, actual := TextLine(ExpectedKey, ResultName(run.expected)), TextLine(ActualKey, ResultName(run.actual));
    var pass := PassLine(run.expected == run.actual);
    Regroup(CLOSE_OBJECT, a, b);
    Regroup(pass, CLOSE_OBJECT + a, b);
    Regroup(actual, pass + (CLOSE_OBJECT + a), b);
    Regroup(expected, actual + (pass + (CLOSE_OBJECT + a)), b);
    Regroup(CLOSE_TICKS, expected + (actual + (pass + (CLOSE_OBJECT + a))), b);
  }

  lemma ObjectThenSplits(run: ScenarioRun, a: seq<Piece>, b: seq<Piece>)
    ensures ObjectThen(run, a + b) == ObjectThen(run, a) + b
  {
    hide TextLine, TicksThen, ObjectEnd;
    var name, id := TextLine(ScenarioKey, run.name), TextLine(RequirementKey, run.requirementId);
    var ticks := TicksThen(run.reports, 0, ObjectEnd(run, a));
    ObjectEndSplits(run, a, b);
    TicksThenSplits(run.reports, 0, ObjectEnd(run, a), b);
    Regroup(OPEN_TICKS, ticks, b);
    Regroup(id, OPEN_TICKS + ticks, b);
    Regroup(name, id + (OPEN_TICKS + ticks), b);
    Regroup(OPEN_OBJECT, name + (id + (OPEN_TICKS + ticks)), b);
  }

  lemma NothingRenders()
    ensures Render([]) == ""
  {
  }

  lemma NothingFits()
    ensures Fits([])
  {
  }

  lemma ErrorFreeFits()
    ensures Fits(ErrorPart(None))
  {
    NothingFits();
  }

  lemma CommaFits()
    ensures Fits(COMMA)
  {
    FixedLinesFit(true);
  }
}
