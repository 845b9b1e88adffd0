/** The fields of a report that the loader does not read, found by the searches it uses for the others. */
module ReportFields {
  import opened Status
  import opened EngineModel
  import opened CText
  import opened Decimal
  import opened JsonText
  import opened TickLoop
  import opened Report
  import opened Loader
  import opened TickRoundTrip
  import opened ReportRoundTrip
  import opened CatalogRoundTrip

  // --- pieces without a word ------------------------------------------------------------------

  ghost predicate Hides(ps: seq<Piece>, word: string) {
    forall i :: 0 <= i < |ps| ==> ps[i] != Word(word)
  }

  lemma HidesAppends(a: seq<Piece>, b: seq<Piece>, word: string)
    requires Hides(a, word) && Hides(b, word)
    ensures Hides(a + b, word)
  {
  }

  /** A search passes over pieces that do not have its word. */
  lemma SearchPasses(a: seq<Piece>, b: seq<Piece>, word: string)
    requires Tidy(a + b) && KeyLike(word) && Hides(a, word)
    ensures ValueOf(Render(a + b), word) == ValueOf(Render(b), word)
    ensures forall size: nat :: QuotedValue(Render(a + b), word, size) == QuotedValue(Render(b), word, size)
    ensures IntValue(Render(a + b), word) == IntValue(Render(b), word)
  {
    hide Render, Tidy, KeyLike, Strstr, Strchr;
    SkipOtherPieces(a + b, word, |a|);
    assert (a + b)[|a|..] == b;
  }

  /** Keys that no tick line has. */
  predicate OutsideTicks(k: Key) {
    k == ExpectedKey || k == ActualKey || k == PassKey || k == SummaryKey || k == PassedKey || k == TotalKey
  }

  lemma TickLineHides(t: TickReport, last: bool, k: Key)
    requires OutsideTicks(k)
    ensures Hides(TickLine(t, last), KeyName(k))
  {
    hide TickFields, KeyName, ResultName, ModeName, PrintNat, PrintInt, PrintFixed;
    FieldLayout(t);
    forall other: Key | other != k ensures KeyName(other) != KeyName(k) { KeysDiffer(other, k); }
    NamesAreNotKeys(k, t.result, t.mode);
    assert Hides(TickFields(t), KeyName(k));
    HidesAppends(TickFields(t), [Text("}"), Text(if last then "\n" else ",\n")], KeyName(k));
  }

  lemma {:induction false} TicksHide(reports: seq<TickReport>, from: nat, k: Key)
    requires from <= |reports| && OutsideTicks(k)
    ensures Hides(TicksThen(reports, from, []), KeyName(k))
    decreases |reports| - from
  {
    hide TickLine, KeyName;
    if from == |reports| {
    } else {
      TicksHide(reports, from + 1, k);
      TickLineHides(reports[from], from + 1 == |reports|, k);
      HidesAppends(TickLine(reports[from], from + 1 == |reports|), TicksThen(reports, from + 1, []), KeyName(k));
    }
  }

  lemma LineHides(key: Key, value: string, k: Key)
    requires key != k && value != KeyName(k)
    ensures Hides(TextLine(key, value), KeyName(k)) && Hides(HeaderLine(key, value), KeyName(k))
  {
    hide KeyName;
    KeysDiffer(key, k);
  }

  /** An object up to the end of its ticks. */
  function Front(run: ScenarioRun): seq<Piece> {
    OPEN_OBJECT + (TextLine(ScenarioKey, run.name) + (TextLine(RequirementKey, run.requirementId) +
    (OPEN_TICKS + TicksThen(run.reports, 0, []))))
  }

  lemma FrontThen(run: ScenarioRun, rest: seq<Piece>)
    ensures ObjectThen(run, rest) == Front(run) + ObjectEnd(run, rest)
  {
    hide TextLine, TicksThen, ObjectEnd;
    var name, id := TextLine(ScenarioKey, run.name), TextLine(RequirementKey, run.requirementId);
    var ticks, end := TicksThen(run.reports, 0, []), ObjectEnd(run, rest);
    assert [] + end == end;
    TicksThenSplits(run.reports, 0, [], end);
    Regroup(OPEN_TICKS, ticks, end);
    Regroup(id, OPEN_TICKS + ticks, end);
    Regroup(name, id + (OPEN_TICKS + ticks), end);
    Regroup(OPEN_OBJECT, name + (id + (OPEN_TICKS + ticks)), end);
  }

  lemma FrontHides(run: ScenarioRun, k: Key)
    requires OutsideTicks(k) && run.name != KeyName(k) && run.requirementId != KeyName(k)
    ensures Hides(Front(run), KeyName(k))
  {
    hide TextLine, TicksThen, KeyName;
    var name, id := TextLine(ScenarioKey, run.name), TextLine(RequirementKey, run.requirementId);
    var ticks := TicksThen(run.reports, 0, []);
    LineHides(ScenarioKey, run.name, k);
    LineHides(RequirementKey, run.requirementId, k);
    TicksHide(run.reports, 0, k);
    KeysDiffer(TicksKey, k);
    HidesAppends(OPEN_TICKS, ticks, KeyName(k));
    HidesAppends(id, OPEN_TICKS + ticks, KeyName(k));
    HidesAppends(name, id + (OPEN_TICKS + ticks), KeyName(k));
    HidesAppends(OPEN_OBJECT, name + (id + (OPEN_TICKS + ticks)), KeyName(k));
  }

  // --- the verdict lines of an object ------------------------------------------------------------

  lemma EndLayout(run: ScenarioRun, rest: seq<Piece>)
    ensures var ps := ObjectEnd(run, rest);
            && |ps| > 16 && ps[0] == Text("      ") && ps[1] == Text("]") && ps[2] == Text(",\n") && ps[3] == Text("      ")
            && ps[4] == Word(KeyName(ExpectedKey)) && ps[5] == Text(": ") && ps[6] == Word(ResultName(run.expected))
            && ps[7] == Text(",\n") && ps[8] == Text("      ")
            && ps[9] == Word(KeyName(ActualKey)) && ps[10] == Text(": ") && ps[11] == Word(ResultName(run.actual))
            && ps[12] == Text(",\n") && ps[13] == Text("      ")
            && ps[14] == Word(KeyName(PassKey))
            && ps[15] == Text(if run.expected == run.actual then ": true\n" else ": false\n") && ps[16] == Text("    ")
  {
    hide KeyName, ResultName;
  }

  /** The word a verdict is printed as. */
  function VerdictWord(v: Verdict): string {
    if v == ResultOk then "OK" else if v == ResultWarning then "WARNING" else if v == ResultShutdown then "SHUTDOWN"
    else "ERROR"
  }

  lemma EndKeyAt(run: ScenarioRun, rest: seq<Piece>, k: Key, j: nat)
    requires Tidy(rest) && match k case ExpectedKey => j == 4 case ActualKey => j == 9 case PassKey => j == 14 case _ => false
    ensures KeyThenColon(ObjectEnd(run, rest), KeyName(k), j, j + 1)
  {
    hide KeyName, ResultName, ObjectEnd, Tidy, KeyLike;
    EndLayout(run, rest);
    ObjectEndIsTidy(run, rest);
    KeyShape(k, ResultOk, Init);
    ColonFree(KeyName(k));
    forall other: Key | other != k ensures KeyName(other) != KeyName(k) { KeysDiffer(other, k); }
    NamesAreNotKeys(k, run.expected, Init);
    NamesAreNotKeys(k, run.actual, Init);
  }

  /** No name leads the search for a key astray: neither the scenario's nor the requirement's reads like it. */
  predicate NamesAvoid(run: ScenarioRun, word: string) {
    QuoteFree(run.name) && QuoteFree(run.requirementId) && run.name != word && run.requirementId != word
  }

  lemma SearchObject(run: ScenarioRun, rest: seq<Piece>, k: Key)
    requires OutsideTicks(k) && Tidy(rest) && NamesAvoid(run, KeyName(k))
    ensures var text, end := Render(ObjectThen(run, rest)), Render(ObjectEnd(run, rest));
            && ValueOf(text, KeyName(k)) == ValueOf(end, KeyName(k))
            && forall size: nat :: QuotedValue(text, KeyName(k), size) == QuotedValue(end, KeyName(k), size)
  {
    hide KeyName, ObjectThen, ObjectEnd, Front, Tidy, Render, KeyLike, ValueOf, QuotedValue, IntValue;
    FrontThen(run, rest);
    FrontHides(run, k);
    ObjectIsTidyThen(run, rest);
    KeyShape(k, ResultOk, Init);
    SearchPasses(Front(run), ObjectEnd(run, rest), KeyName(k));
  }

  /** The quoted value behind "actual" is the word for the actual verdict. */
  lemma ActualIsShown(run: ScenarioRun, rest: seq<Piece>)
    requires Tidy(rest) && NamesAvoid(run, "actual")
    ensures QuotedValue(Render(ObjectThen(run, rest)), "actual", 16) == Some(VerdictWord(run.actual))
  {
    hide ObjectThen, ObjectEnd, Tidy, Render, KeyThenColon, QuotedValue;
    SearchObject(run, rest, ActualKey);
    EndLayout(run, rest);
    EndKeyAt(run, rest, ActualKey, 9);
    QuotedValueAt(ObjectEnd(run, rest), "actual", 9, 10, ResultName(run.actual), 16);
  }

  /** The value behind "pass" begins with true exactly when the verdicts agree, and with false exactly when they do not. */
  lemma PassIsShown(run: ScenarioRun, rest: seq<Piece>)
    requires Tidy(rest) && NamesAvoid(run, "pass")
    ensures var value := ValueOf(Render(ObjectThen(run, rest)), "pass");
            && value.Some?
            && ("true" <= value.value <==> run.expected == run.actual)
            && ("false" <= value.value <==> run.expected != run.actual)
  {
    hide ObjectThen, ObjectEnd, Tidy, Render, KeyThenColon, ValueOf;
    SearchObject(run, rest, PassKey);
    var ps := ObjectEnd(run, rest);
    EndLayout(run, rest);
    EndKeyAt(run, rest, PassKey, 14);
    var word, after := if run.expected == run.actual then "true\n" else "false\n", Render(ps[16..]);
    assert ps[15] == Text(": " + word);
    assert (word + after)[0] == word[0];
    ValueAt(ps, "pass", 14, 15, word, after);
  }

  /** A name that reads like the key hides the field: what is found is then no truth value. */
  lemma PassIsHidden(run: ScenarioRun, rest: seq<Piece>)
    requires LoadableRun(run) && Tidy(rest) && (run.name == "pass" || run.requirementId == "pass")
    ensures var value := ValueOf(Render(ItemFrom(run, rest)), "pass");
            value.Some? && !("true" <= value.value) && !("false" <= value.value)
  {
    hide KeyName, ItemFrom, Tidy, Render, KeyThenColon, ValueOf, KeyLike, TicksThen, ObjectEnd, LoadableReports;
    var ps := ItemFrom(run, rest);
    assert KeyName(PassKey) == "pass" by { PassWord(); }
    ItemLayout(run, rest);
    if run.name == "pass" {
      HeadKeyAt(run, rest, PassKey, 5, 9);
      var after := Render(ps[10..]);
      RenderFrom(ps, 10);
      assert after == "\"" + (run.requirementId + ("\"" + Render(ps[11..])));
      assert "" + after == after && ": " + "" == ": " && after[0] == '"';
      ValueAt(ps, "pass", 5, 9, "", after);
    } else {
      HeadKeyAt(run, rest, PassKey, 10, 14);
      var after := Render(ps[15..]);
      RenderFrom(ps, 15);
      assert "" + after == after && ": " + "" == ": " && after[0] == '[';
      ValueAt(ps, "pass", 10, 14, "", after);
    }
  }

  lemma PassWord()
    ensures KeyName(PassKey) == "pass"
  {
  }

  // --- the document around the objects ----------------------------------------------------------------

  lemma {:induction false} ObjectsHide(runs: seq<ScenarioRun>, from: nat, k: Key)
    requires from <= |runs| && (k == SummaryKey || k == PassedKey || k == TotalKey)
    requires forall run :: run in runs ==> NamesAvoid(run, KeyName(k))
    ensures Hides(ObjectsThen(runs, from, []), KeyName(k))
    decreases |runs| - from
  {
    hide ObjectThen, KeyName, Front, ObjectEnd;
    if from == |runs| {
    } else {
      var run, later := runs[from], ObjectsThen(runs, from + 1, []);
      ObjectsHide(runs, from + 1, k);
      assert run in runs && NamesAvoid(run, KeyName(k));
      FrontThen(run, later);
      FrontHides(run, k);
      EndHides(run, k);
      assert [] + later == later;
      ObjectEndSplits(run, [], later);
      HidesAppends(ObjectEnd(run, []), later, KeyName(k));
      HidesAppends(Front(run), ObjectEnd(run, later), KeyName(k));
      HidesAppends(COMMA, ObjectThen(run, later), KeyName(k));
    }
  }

  lemma EndHides(run: ScenarioRun, k: Key)
    requires k == SummaryKey || k == PassedKey || k == TotalKey
    ensures Hides(ObjectEnd(run, []), KeyName(k))
  {
    hide KeyName, ResultName, TextLine, PassLine;
    NamesAreNotKeys(k, run.expected, Init);
    NamesAreNotKeys(k, run.actual, Init);
    var expected, actual := TextLine(ExpectedKey, ResultName(run.expected)), TextLine(ActualKey, ResultName(run.actual));
    var pass := PassLine(run.expected == run.actual);
    LineHides(ExpectedKey, ResultName(run.expected), k);
    LineHides(ActualKey, ResultName(run.actual), k);
    PassLineHides(run.expected == run.actual, k);
    HidesAppends(pass, CLOSE_OBJECT + [], KeyName(k));
    HidesAppends(actual, pass + (CLOSE_OBJECT + []), KeyName(k));
    HidesAppends(expected, actual + (pass + (CLOSE_OBJECT + [])), KeyName(k));
    HidesAppends(CLOSE_TICKS, expected + (actual + (pass + (CLOSE_OBJECT + []))), KeyName(k));
  }

  lemma PassLineHides(pass: bool, k: Key)
    requires k != PassKey
    ensures Hides(PassLine(pass), KeyName(k))
  {
    hide KeyName;
    KeysDiffer(PassKey, k);
  }

  lemma HeaderHides(commit: string, k: Key)
    requires k == SummaryKey || k == PassedKey || k == TotalKey
    requires commit != KeyName(k)
    ensures Hides(HeaderThen(commit, []), KeyName(k))
  {
    hide HeaderThen, KeyName;
    DocumentLayout(commit, []);
    VersionsAreNotKeys(k);
    forall other: Key | other != k ensures KeyName(other) != KeyName(k) { KeysDiffer(other, k); }
    assert |HeaderThen(commit, [])| == 20 by { HeaderLength(commit); }
  }

  lemma HeaderLength(commit: string)
    ensures |HeaderThen(commit, [])| == 20
  {
    hide KeyName;
  }

  /** The summary of a report of these runs, as a search from the start of the document finds it. */
  lemma SummaryIsShown(commit: string, runs: seq<ScenarioRun>, passed: int)
    requires PlainCommit(commit) && AllLoadable(runs)
    requires -0x8000_0000 <= passed < 0x8000_0000 && |runs| < 0x8000_0000
    requires commit != "passed" && commit != "total"
    requires forall run :: run in runs ==> NamesAvoid(run, "passed") && NamesAvoid(run, "total")
    ensures var text := Render(Document(commit, runs, passed));
            IntValue(text, "passed") == Some(passed) && IntValue(text, "total") == Some(|runs|)
  {
    hide HeaderThen, ObjectsThen, Tidy, Render, KeyName, SummaryLine, KeyLike, IntValue, LoadableRun, QuotedValue, ValueOf;
    var summary, footer := SummaryLine(passed, |runs|), Footer(None, passed, |runs|);
    var objects, front := ObjectsThen(runs, 0, []), HeaderThen(commit, ObjectsThen(runs, 0, []));
    assert KeyName(PassedKey) == "passed" && KeyName(TotalKey) == "total" by { SummaryWords(); }
    FooterIs(passed, |runs|);
    DocumentIsTidy(commit, runs, passed);
    assert [] + footer == footer;
    ObjectsThenSplits(runs, 0, [], footer);
    HeaderSplits(commit, objects + footer);
    HeaderSplits(commit, objects);
    Regroup(HeaderThen(commit, []), objects, footer);
    assert [] + summary == summary && footer == CLOSE_SCENARIOS + summary;
    Regroup(front, CLOSE_SCENARIOS, summary);
    forall k: Key | k == PassedKey || k == TotalKey
      ensures IntValue(Render(Document(commit, runs, passed)), KeyName(k)) == IntValue(Render(summary), KeyName(k))
    {
      HeaderHides(commit, k);
      ObjectsHide(runs, 0, k);
      HidesAppends(HeaderThen(commit, []), objects, KeyName(k));
      HidesAppends(front, CLOSE_SCENARIOS, KeyName(k));
      KeyShape(k, ResultOk, Init);
      SearchPasses(front + CLOSE_SCENARIOS, summary, KeyName(k));
    }
    SummaryLineReads(passed, |runs|);
  }

  lemma SummaryWords()
    ensures KeyName(PassedKey) == "passed" && KeyName(TotalKey) == "total"
  {
  }

  lemma DocumentIsTidy(commit: string, runs: seq<ScenarioRun>, passed: int)
    requires PlainCommit(commit) && AllLoadable(runs)
    ensures Tidy(Document(commit, runs, passed))
  {
    hide HeaderThen, ObjectsThen, Tidy, Footer, LoadableRun, Ending;
    FooterIs(passed, |runs|);
    TidyText("]", Ending(passed, |runs|));
    TidyText("\n  ", [Text("]")] + Ending(passed, |runs|));
    ObjectsAreTidy(runs, 0, Footer(None, passed, |runs|));
    HeaderIsTidy(commit, ObjectsThen(runs, 0, Footer(None, passed, |runs|)));
  }

  lemma SummaryLayout(passed: int, total: int)
    ensures var ps := SummaryLine(passed, total);
            && |ps| == 8 && ps[0] == Text("  ") && ps[1] == Word(KeyName(SummaryKey)) && ps[2] == Text(": {")
            && ps[3] == Word(KeyName(PassedKey)) && ps[4] == Number(PrintInt(passed))
            && ps[5] == Word(KeyName(TotalKey)) && ps[6] == Text(": " + PrintInt(total)) && ps[7] == Text("}\n}\n")
  {
  }

  lemma SummaryKeyAt(passed: int, total: int, k: Key, j: nat)
    requires (k == PassedKey && j == 3) || (k == TotalKey && j == 5)
    ensures Tidy(SummaryLine(passed, total)) && KeyThenColon(SummaryLine(passed, total), KeyName(k), j, j + 1)
  {
    hide SummaryLine, KeyName, Tidy, KeyLike, PrintInt;
    var ps := SummaryLine(passed, total);
    SummaryLayout(passed, total);
    FooterIs(passed, total);
    TidyTail(Ending(passed, total), 1);
    assert Ending(passed, total)[1..] == ps;
    KeysDiffer(SummaryKey, k);
    KeysDiffer(PassedKey, TotalKey);
    KeyShape(k, ResultOk, Init);
    ColonFree(KeyName(k));
  }

  lemma SummaryEnds(passed: int, total: int)
    ensures Render(SummaryLine(passed, total)[7..]) == "}\n}\n"
  {
    hide SummaryLine, Render;
    var ps := SummaryLine(passed, total);
    SummaryLayout(passed, total);
    RenderFrom(ps, 7);
    assert ps[8..] == [];
    NothingRenders();
  }

  lemma SummaryLineReads(passed: int, total: int)
    requires -0x8000_0000 <= passed < 0x8000_0000 && -0x8000_0000 <= total < 0x8000_0000
    ensures IntValue(Render(SummaryLine(passed, total)), KeyName(PassedKey)) == Some(passed)
    ensures IntValue(Render(SummaryLine(passed, total)), KeyName(TotalKey)) == Some(total)
  {
    hide SummaryLine, KeyName, KeyThenColon, Render, PrintInt, ReadInt, ValueOf;
    var ps := SummaryLine(passed, total);
    SummaryLayout(passed, total);
    SummaryKeyAt(passed, total, PassedKey, 3);
    IntAt(ps, KeyName(PassedKey), 3, passed);
    SummaryKeyAt(passed, total, TotalKey, 5);
    SummaryEnds(passed, total);
    PrintedNumbersArePlain(0, total, 0.0);
    assert (PrintInt(total) + "}\n}\n")[0] == PrintInt(total)[0];
    ValueAt(ps, KeyName(TotalKey), 5, 6, PrintInt(total), "}\n}\n");
    ReadIntOfPrinted(total, "}\n}\n");
  }

  /** The header fields: the versions, and the build commit if it fits the buffer it is read into. */
  lemma HeaderIsShown(commit: string, rest: seq<Piece>, size: nat)
    requires QuoteFree(commit) && Tidy(rest) && |commit| < size
    ensures var text := Render(HeaderThen(commit, rest));
            && QuotedValue(text, "schema_version", 16) == Some("1.0.0")
            && QuotedValue(text, "software_version", 32) == Some("1.4.6")
            && QuotedValue(text, "build_commit", size) == Some(commit)
  {
    hide HeaderThen, Tidy, KeyThenColon, QuotedValue, Render;
    var ps := HeaderThen(commit, rest);
    DocumentLayout(commit, rest);
    HeaderKeyAt(commit, rest, SchemaKey, 2);
    QuotedValueAt(ps, "schema_version", 2, 3, SCHEMA_VERSION, 16);
    HeaderKeyAt(commit, rest, SoftwareKey, 7);
    QuotedValueAt(ps, "software_version", 7, 8, SOFTWARE_VERSION, 32);
    HeaderKeyAt(commit, rest, CommitKey, 12);
    QuotedValueAt(ps, "build_commit", 12, 13, commit, size);
  }

  // --- the error object -----------------------------------------------------------------------------------

  /** The words of an error object that are keys. */
  predicate ErrorKey(w: string) {
    w == "code" || w == "severity" || w == "recoverability" || w == "module" || w == "function" || w == "tick"
  }

  lemma ErrorLayout(e: ErrorInfo)
    ensures var ps := ErrorLine(e);
            && |ps| == 26 && ps[0] == Text("  ") && ps[1] == Word("error") && ps[2] == Text(": {")
            && ps[3] == Word("code") && ps[4] == Text(": ") && ps[5] == Word(StatusName(e.code)) && ps[6] == Text(", ")
            && ps[7] == Word("severity") && ps[8] == Text(": ") && ps[9] == Word(SeverityName(e.severity)) && ps[10] == Text(", ")
            && ps[11] == Word("recoverability") && ps[12] == Text(": ")
            && ps[13] == Word(if e.recoverable then "RECOVERABLE" else "NON_RECOVERABLE") && ps[14] == Text(", ")
            && ps[15] == Word("module") && ps[16] == Text(": ") && ps[17] == Word(e.origin) && ps[18] == Text(", ")
            && ps[19] == Word("function") && ps[20] == Text(": ") && ps[21] == Word(e.operation) && ps[22] == Text(", ")
            && ps[23] == Word("tick") && ps[24] == Text(": " + PrintNat(e.tick)) && ps[25] == Text("},\n")
  {
    hide StatusName, SeverityName, PrintNat;
    SevenParts([Text("  "), Word("error"), Text(": {")],
      TextField("code", StatusName(e.code)), TextField("severity", SeverityName(e.severity)),
      TextField("recoverability", if e.recoverable then "RECOVERABLE" else "NON_RECOVERABLE"),
      TextField("module", e.origin), TextField("function", e.operation),
      [Word("tick"), Text(": " + PrintNat(e.tick)), Text("},\n")]);
  }

  lemma SevenParts<T>(a: seq<T>, b: seq<T>, c: seq<T>, d: seq<T>, e: seq<T>, f: seq<T>, g: seq<T>)
    requires |a| == |g| == 3 && |b| == |c| == |d| == |e| == |f| == 4
    ensures var s := a + (b + (c + (d + (e + (f + g)))));
            && |s| == 26 && s[0] == a[0] && s[1] == a[1] && s[2] == a[2]
            && s[3] == b[0] && s[4] == b[1] && s[5] == b[2] && s[6] == b[3]
            && s[7] == c[0] && s[8] == c[1] && s[9] == c[2] && s[10] == c[3]
            && s[11] == d[0] && s[12] == d[1] && s[13] == d[2] && s[14] == d[3]
            && s[15] == e[0] && s[16] == e[1] && s[17] == e[2] && s[18] == e[3]
            && s[19] == f[0] && s[20] == f[1] && s[21] == f[2] && s[22] == f[3]
            && s[23] == g[0] && s[24] == g[1] && s[25] == g[2]
  {
  }

  /** The word a status is printed as. */
  function StatusWord(code: StatusCode): string {
    "STATUS_" + match code
                case StatusOk => "OK"
                case InvalidArgument => "INVALID_ARGUMENT"
                case ParseError => "PARSE_ERROR"
                case IoError => "IO_ERROR"
                case Timeout => "TIMEOUT"
                case BufferOverflow => "BUFFER_OVERFLOW"
                case InternalError => "INTERNAL_ERROR"
  }

  function SeverityWord(s: Severity): string {
    if s == SeverityInfo then "INFO" else if s == SeverityWarning then "WARNING" else if s == SeverityError then "ERROR"
    else "FATAL"
  }

  lemma StatusWords(code: StatusCode)
    ensures StatusName(code) == StatusWord(code) && |StatusName(code)| < 32
  {
    match code
    case StatusOk => assert "STATUS_" + "OK" == "STATUS_OK";
    case InvalidArgument => assert "STATUS_" + "INVALID_ARGUMENT" == "STATUS_INVALID_ARGUMENT";
    case ParseError => assert "STATUS_" + "PARSE_ERROR" == "STATUS_PARSE_ERROR";
    case IoError => assert "STATUS_" + "IO_ERROR" == "STATUS_IO_ERROR";
    case Timeout => assert "STATUS_" + "TIMEOUT" == "STATUS_TIMEOUT";
    case BufferOverflow => assert "STATUS_" + "BUFFER_OVERFLOW" == "STATUS_BUFFER_OVERFLOW";
    case InternalError => assert "STATUS_" + "INTERNAL_ERROR" == "STATUS_INTERNAL_ERROR";
  }

  lemma ErrorWords(e: ErrorInfo)
    ensures StatusName(e.code) == StatusWord(e.code) && |StatusName(e.code)| < 32
    ensures SeverityName(e.severity) == SeverityWord(e.severity) && |SeverityName(e.severity)| < 32
  {
    hide StatusName, StatusWord;
    StatusWords(e.code);
  }

  predicate UpperCase(w: string) { w != "" && 'A' <= w[0] <= 'Z' }

  lemma ErrorWordsAreUpperCase(e: ErrorInfo)
    ensures UpperCase(StatusName(e.code)) && UpperCase(SeverityName(e.severity))
  {
  }

  /** The key at index j, given that it is none of the words before it. */
  lemma ErrorKeyAt(e: ErrorInfo, k: string, j: nat)
    requires Tidy(ErrorLine(e)) && KeyLike(k) && 'a' <= k[0] <= 'z' && ':' !in k
    requires j == 3 || j == 7 || j == 11 || j == 15 || j == 19
    requires j < |ErrorLine(e)| && ErrorLine(e)[j] == Word(k)
    requires k != "error" && (j > 3 ==> k != "code") && (j > 7 ==> k != "severity") && (j > 11 ==> k != "recoverability")
    requires j > 15 ==> k != "module" && k != e.origin
    ensures KeyThenColon(ErrorLine(e), k, j, j + 1)
  {
    hide ErrorLine, Tidy, StatusName, SeverityName, PrintNat, KeyLike;
    ErrorLayout(e);
    ErrorWordsAreUpperCase(e);
    ColonFree(k);
    assert UpperCase("RECOVERABLE") && UpperCase("NON_RECOVERABLE");
    var ps := ErrorLine(e);
    forall i | 0 <= i < j ensures ps[i] != Word(k) {
      if ps[i].Word? {
        assert UpperCase(ps[i].word) || i == 1 || i == 3 || i == 7 || i == 11 || i == 15 || i == 17;
      }
    }
  }

  lemma ErrorKeyShape(k: string)
    requires ErrorKey(k)
    ensures KeyLike(k) && 'a' <= k[0] <= 'z' && ':' !in k && k != "error"
  {
  }

  lemma ErrorFieldShown(e: ErrorInfo, k: string, j: nat, w: string, size: nat)
    requires Tidy(ErrorLine(e)) && ErrorKey(k) && !ErrorKey(e.origin) && |w| < size
    requires j == 3 || j == 7 || j == 11 || j == 15 || j == 19
    requires |ErrorLine(e)| == 26 && ErrorLine(e)[j] == Word(k)
    requires ErrorLine(e)[j + 1] == Text(": ") && ErrorLine(e)[j + 2] == Word(w)
    requires (j > 3 ==> k != "code") && (j > 7 ==> k != "severity") && (j > 11 ==> k != "recoverability") && (j > 15 ==> k != "module")
    ensures QuotedValue(Render(ErrorLine(e)), k, size) == Some(w)
  {
    hide ErrorLine, Tidy, KeyThenColon, QuotedValue, Render, ErrorKey;
    ErrorKeyShape(k);
    ErrorKeyAt(e, k, j);
    QuotedValueAt(ErrorLine(e), k, j, j + 1, w, size);
  }

  lemma ErrorKeysAre()
    ensures ErrorKey("code") && ErrorKey("severity") && ErrorKey("recoverability") && ErrorKey("module") && ErrorKey("function")
  {
  }

  /** The fields of a printed error, each found behind its key, unless the module's name reads like one of the keys. */
  lemma ErrorIsShown(e: ErrorInfo)
    requires PlainError(e) && !ErrorKey(e.origin)
    requires |e.origin| < 32 && |e.operation| < 64
    ensures var text := Render(ErrorLine(e));
            && QuotedValue(text, "code", 32) == Some(StatusWord(e.code))
            && QuotedValue(text, "severity", 32) == Some(SeverityWord(e.severity))
            && QuotedValue(text, "recoverability", 32) == Some(if e.recoverable then "RECOVERABLE" else "NON_RECOVERABLE")
            && QuotedValue(text, "module", 32) == Some(e.origin)
            && QuotedValue(text, "function", 64) == Some(e.operation)
  {
    hide ErrorLine, Tidy, QuotedValue, Render, StatusName, SeverityName, StatusWord, SeverityWord, PrintNat, ErrorKey;
    ErrorLineIsTidy(e);
    ErrorLayout(e);
    ErrorWords(e);
    ErrorKeysAre();
    ErrorFieldShown(e, "code", 3, StatusName(e.code), 32);
    ErrorFieldShown(e, "severity", 7, SeverityName(e.severity), 32);
    ErrorFieldShown(e, "recoverability", 11, if e.recoverable then "RECOVERABLE" else "NON_RECOVERABLE", 32);
    ErrorFieldShown(e, "module", 15, e.origin, 32);
    ErrorFieldShown(e, "function", 19, e.operation, 64);
  }

  // --- the number of passed runs --------------------------------------------------------------------------

  /** The summary counts the runs that were printed whole, did not end in ERROR, and have the expected verdict. */
  lemma {:induction false} PassedCounts(runs: seq<ScenarioRun>, from: nat)
    requires from <= |runs|
    ensures PassedFrom(runs, from) ==
            |set i | from <= i < |runs| && ObjectFits(runs[i]) && runs[i].actual != ResultError && runs[i].actual == runs[i].expected|
    decreases |runs| - from
  {
    hide ObjectFits;
    var here := set i | from <= i < |runs| && ObjectFits(runs[i]) && runs[i].actual != ResultError && runs[i].actual == runs[i].expected;
    if from == |runs| {
      assert here == {};
    } else {
      PassedCounts(runs, from + 1);
      var later := set i | from + 1 <= i < |runs| && ObjectFits(runs[i]) && runs[i].actual != ResultError && runs[i].actual == runs[i].expected;
      assert here == if Passes(runs[from]) then {from} + later else later;
    }
  }
}
