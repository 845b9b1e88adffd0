/** Printing a report and loading it again. */
module ReportRoundTrip {
  import opened Status
  import opened EngineModel
  import opened CText
  import opened Decimal
  import opened JsonText
  import opened TickLoop
  import opened Report
  import opened Loader
  import opened TickRoundTrip

  // --- the ticks of a run ------------------------------------------------------------------

  function LoadedTicks(reports: seq<TickReport>): seq<TickData> {
    if reports == [] then [] else [Loaded(reports[0])] + LoadedTicks(reports[1..])
  }

  /** Tick rows the loader can take: readings on the wire grid, control in percent, ticks rising, not too many. */
  ghost predicate LoadableReports(reports: seq<TickReport>) {
    && |reports| <= 512
    && (forall i :: 0 <= i < |reports| ==> Loadable(reports[i]))
    && (forall i :: 0 < i < |reports| ==> reports[i - 1].tick < reports[i].tick)
  }

  function Separator(reports: seq<TickReport>, i: nat): string {
    if i + 1 == |reports| then "\n" else ",\n"
  }

  lemma TicksThenAt(reports: seq<TickReport>, i: nat, rest: seq<Piece>)
    requires i < |reports|
    ensures TicksThen(reports, i, rest) ==
            [Text("        ")] + ObjectFrom(reports[i], [Text(Separator(reports, i))] + TicksThen(reports, i + 1, rest))
  {
    hide TickFields;
  }

  lemma TidyText(t: string, rest: seq<Piece>)
    requires QuoteFree(t) && Tidy(rest)
    ensures Tidy([Text(t)] + rest)
  {
    assert Tidy([Text(t)]);
    TidyAppends([Text(t)], rest);
  }

  lemma {:induction false} TicksAreTidy(reports: seq<TickReport>, i: nat, rest: seq<Piece>)
    requires i <= |reports| && Tidy(rest)
    ensures Tidy(TicksThen(reports, i, rest))
    decreases |reports| - i
  {
    hide Tidy, ObjectFrom, TickLine;
    if i == |reports| {
    } else {
      TicksAreTidy(reports, i + 1, rest);
      TicksThenAt(reports, i, rest);
      TidyText(Separator(reports, i), TicksThen(reports, i + 1, rest));
      ObjectIsTidy(reports[i], [Text(Separator(reports, i))] + TicksThen(reports, i + 1, rest));
      TidyText("        ", ObjectFrom(reports[i], [Text(Separator(reports, i))] + TicksThen(reports, i + 1, rest)));
    }
  }

  lemma {:induction false} TicksAreLonger(reports: seq<TickReport>, i: nat, rest: seq<Piece>)
    requires i <= |reports|
    ensures |Render(TicksThen(reports, i, rest))| >= |Render(rest)|
    decreases |reports| - i
  {
    hide TickLine;
    if i == |reports| {
    } else {
      TicksAreLonger(reports, i + 1, rest);
      RenderAppends(TickLine(reports[i], i + 1 == |reports|), TicksThen(reports, i + 1, rest));
    }
  }

  lemma RenderText(t: string, rest: seq<Piece>)
    ensures Render([Text(t)] + rest) == t + Render(rest)
  {
    assert ([Text(t)] + rest)[1..] == rest;
  }

  /** One turn of the loader's tick loop, on a cursor that stands before tick i. */
  lemma TickTurn(reports: seq<TickReport>, i: nat, rest: seq<Piece>, lead: string)
    requires i < |reports| && '{' !in lead
    ensures var later := [Text(Separator(reports, i))] + TicksThen(reports, i + 1, rest);
            var item := Render(ObjectFrom(reports[i], later));
            && Strchr(lead + Render(TicksThen(reports, i, rest)), '{') == Some(item)
            && FindClose(item, '{', '}') == Some("}" + (Separator(reports, i) + Render(TicksThen(reports, i + 1, rest))))
            && |item| > |Render(rest)|
  {
    hide TickFields, FindClose, TicksThen, Strchr;
    var later := [Text(Separator(reports, i))] + TicksThen(reports, i + 1, rest);
    var pieces := ObjectFrom(reports[i], later);
    TicksThenAt(reports, i, rest);
    RenderText("        ", pieces);
    RenderText("{", TickFields(reports[i]) + ([Text("}")] + later));
    assert lead + ("        " + Render(pieces)) == (lead + "        ") + Render(pieces);
    StrchrAt(lead + "        ", Render(pieces), '{');
    TickObjectEnds(reports[i], later);
    RenderText(Separator(reports, i), TicksThen(reports, i + 1, rest));
    TicksAreLonger(reports, i + 1, rest);
    RenderAppends(TickFields(reports[i]), [Text("}")] + later);
    RenderText("}", later);
  }

  /** The loader's tick loop reads the printed ticks back; end is where the text after the last tick line begins. */
  lemma {:induction false} TicksReadBack(reports: seq<TickReport>, i: nat, rest: seq<Piece>, lead: string, done: seq<TickData>)
    requires LoadableReports(reports) && i <= |reports| && Tidy(rest)
    requires lead != "" && '{' !in lead && |done| == i
    requires i > 0 ==> done[i - 1].tick == reports[i - 1].tick
    ensures ParseTicks(lead + Render(TicksThen(reports, i, [Text("      ")] + rest)), |Render(rest)|, done)
            == Some(done + LoadedTicks(reports[i..]))
    decreases |reports| - i
  {
    hide ParseTick, TickLine, ObjectFrom, Render, FindClose, Strchr, Tidy, Loadable;
    var tail := [Text("      ")] + rest;
    var end := |Render(rest)|;
    var cursor := lead + Render(TicksThen(reports, i, tail));
    RenderText("      ", rest);
    if i == |reports| {
      assert cursor == (lead + "      ") + Render(rest);
      StrchrSkips(lead + "      ", Render(rest), '{');
      assert reports[i..] == [] && done + [] == done;
    } else {
      TidyText("      ", rest);
      var separator := Separator(reports, i);
      var later := [Text(separator)] + TicksThen(reports, i + 1, tail);
      TicksAreTidy(reports, i + 1, tail);
      TidyText(separator, TicksThen(reports, i + 1, tail));
      TickTurn(reports, i, tail, lead);
      assert Loadable(reports[i]);
      TickReadsBack(reports[i], later);
      TicksAreLonger(reports, i, tail);
      TicksAreLonger(reports, i + 1, tail);
      var closing := "}" + (separator + Render(TicksThen(reports, i + 1, tail)));
      assert closing[1..] == separator + Render(TicksThen(reports, i + 1, tail));
      var t := Loaded(reports[i]);
      TicksReadBack(reports, i + 1, rest, separator, done + [t]);
      assert reports[i..][0] == reports[i] && reports[i..][1..] == reports[i + 1..];
      assert done + [t] + LoadedTicks(reports[i + 1..]) == done + LoadedTicks(reports[i..]);
    }
  }

  // --- one scenario object ---------------------------------------------------------------------

  /** The object up to its closing brace. */
  function Inside(run: ScenarioRun): seq<Piece> {
    [Text("\n")] + (TextLine(ScenarioKey, run.name) + (TextLine(RequirementKey, run.requirementId) +
    (OPEN_TICKS + TicksThen(run.reports, 0, [Text("      ")] + AfterTicks(run)))))
  }

  function AfterTicks(run: ScenarioRun): seq<Piece> {
    [Text("]"), Text(",\n")] + (TextLine(ExpectedKey, ResultName(run.expected)) +
    (TextLine(ActualKey, ResultName(run.actual)) + (PassLine(run.expected == run.actual) + [Text("    ")])))
  }

  /** From the opening brace on. */
  function ItemFrom(run: ScenarioRun, rest: seq<Piece>): seq<Piece> {
    [Text("{")] + (Inside(run) + ([Text("}")] + rest))
  }

  lemma ObjectEndIs(run: ScenarioRun, rest: seq<Piece>)
    ensures ObjectEnd(run, rest) == [Text("      ")] + (AfterTicks(run) + ([Text("}")] + rest))
  {
    hide TextLine, PassLine;
    var close := [Text("}")] + rest;
    var expected, actual := TextLine(ExpectedKey, ResultName(run.expected)), TextLine(ActualKey, ResultName(run.actual));
    var pass := PassLine(run.expected == run.actual);
    assert CLOSE_OBJECT + rest == [Text("    ")] + close;
    Regroup(pass, [Text("    ")], close);
    Regroup(actual, pass + [Text("    ")], close);
    Regroup(expected, actual + (pass + [Text("    ")]), close);
    Regroup([Text("]"), Text(",\n")], expected + (actual + (pass + [Text("    ")])), close);
    assert CLOSE_TICKS == [Text("      ")] + [Text("]"), Text(",\n")];
  }

  lemma ObjectThenIs(run: ScenarioRun, rest: seq<Piece>)
    ensures ObjectThen(run, rest) == [Text("    ")] + ItemFrom(run, rest)
  {
    hide TextLine, TicksThen, ObjectEnd, AfterTicks;
    var close := [Text("}")] + rest;
    var name, id := TextLine(ScenarioKey, run.name), TextLine(RequirementKey, run.requirementId);
    var ticks := TicksThen(run.reports, 0, [Text("      ")] + AfterTicks(run));
    ObjectEndIs(run, rest);
    Regroup([Text("      ")], AfterTicks(run), close);
    TicksThenSplits(run.reports, 0, [Text("      ")] + AfterTicks(run), close);
    Regroup(OPEN_TICKS, ticks, close);
    Regroup(id, OPEN_TICKS + ticks, close);
    Regroup(name, id + (OPEN_TICKS + ticks), close);
    Regroup([Text("\n")], name + (id + (OPEN_TICKS + ticks)), close);
    assert OPEN_OBJECT == [Text("    ")] + ([Text("{")] + [Text("\n")]);
  }

  /** The first sixteen pieces of an object, and what the others are. */
  lemma ItemLayout(run: ScenarioRun, rest: seq<Piece>)
    ensures var ps := ItemFrom(run, rest);
            && |ps| >= 16
            && ps[0] == Text("{") && ps[1] == Text("\n")
            && ps[2] == Text("      ") && ps[3] == Word(KeyName(ScenarioKey)) && ps[4] == Text(": ")
            && ps[5] == Word(run.name) && ps[6] == Text(",\n")
            && ps[7] == Text("      ") && ps[8] == Word(KeyName(RequirementKey)) && ps[9] == Text(": ")
            && ps[10] == Word(run.requirementId) && ps[11] == Text(",\n")
            && ps[12] == Text("      ") && ps[13] == Word(KeyName(TicksKey)) && ps[14] == Text(": ") && ps[15] == Text("[\n")
            && ps[16..] == TicksThen(run.reports, 0, ObjectEnd(run, rest))
  {
    hide TicksThen, ObjectEnd, KeyName, TextLine, ItemFrom;
    ObjectThenIs(run, rest);
    var ps := ItemFrom(run, rest);
    var ticks := TicksThen(run.reports, 0, ObjectEnd(run, rest));
    var name, id := TextLine(ScenarioKey, run.name), TextLine(RequirementKey, run.requirementId);
    var open := [Text("{"), Text("\n")];
    LineLayout(ScenarioKey, run.name);
    LineLayout(RequirementKey, run.requirementId);
    assert OPEN_OBJECT == [Text("    ")] + open;
    assert ps == ObjectThen(run, rest)[1..] == open + (name + (id + (OPEN_TICKS + ticks)));
    Chunks(open, name, id, OPEN_TICKS, ticks);
  }

  lemma LineLayout(key: Key, value: string)
    ensures var ps := TextLine(key, value);
            && |ps| == 5 && ps[0] == Text("      ") && ps[1] == Word(KeyName(key)) && ps[2] == Text(": ")
            && ps[3] == Word(value) && ps[4] == Text(",\n")
  {
    hide KeyName;
  }

  lemma Chunks<T>(a: seq<T>, b: seq<T>, c: seq<T>, d: seq<T>, e: seq<T>)
    requires |a| == 2 && |b| == |c| == 5 && |d| == 4
    ensures var s := a + (b + (c + (d + e)));
            && |s| == 16 + |e| && s[16..] == e
            && s[0] == a[0] && s[1] == a[1]
            && s[2] == b[0] && s[3] == b[1] && s[4] == b[2] && s[5] == b[3] && s[6] == b[4]
            && s[7] == c[0] && s[8] == c[1] && s[9] == c[2] && s[10] == c[3] && s[11] == c[4]
            && s[12] == d[0] && s[13] == d[1] && s[14] == d[2] && s[15] == d[3]
  {
  }

  lemma LineIsTidy(key: Key, value: string)
    requires QuoteFree(value)
    ensures Tidy(TextLine(key, value))
  {
    hide KeyName;
    KeyIsQuoteFree(key);
  }

  lemma KeyIsQuoteFree(key: Key)
    ensures QuoteFree(KeyName(key))
  {
    KeyShape(key, ResultOk, Init);
  }

  lemma NameIsQuoteFree(v: Verdict)
    ensures QuoteFree(ResultName(v))
  {
    NameIsUnmarked(v, Init);
  }

  lemma FixedLinesAreTidy(pass: bool)
    ensures Tidy(OPEN_OBJECT) && Tidy(OPEN_TICKS) && Tidy(CLOSE_TICKS) && Tidy(CLOSE_OBJECT) && Tidy(PassLine(pass))
  {
    hide KeyName;
    KeyIsQuoteFree(TicksKey);
    KeyIsQuoteFree(PassKey);
  }

  lemma ObjectEndIsTidy(run: ScenarioRun, rest: seq<Piece>)
    requires Tidy(rest)
    ensures Tidy(ObjectEnd(run, rest))
  {
    hide Tidy, TextLine, PassLine;
    var pass := PassLine(run.expected == run.actual);
    var actual, expected := TextLine(ActualKey, ResultName(run.actual)), TextLine(ExpectedKey, ResultName(run.expected));
    FixedLinesAreTidy(run.expected == run.actual);
    NameIsQuoteFree(run.actual);
    NameIsQuoteFree(run.expected);
    LineIsTidy(ActualKey, ResultName(run.actual));
    LineIsTidy(ExpectedKey, ResultName(run.expected));
    TidyAppends(CLOSE_OBJECT, rest);
    TidyAppends(pass, CLOSE_OBJECT + rest);
    TidyAppends(actual, pass + (CLOSE_OBJECT + rest));
    TidyAppends(expected, actual + (pass + (CLOSE_OBJECT + rest)));
    TidyAppends(CLOSE_TICKS, expected + (actual + (pass + (CLOSE_OBJECT + rest))));
  }

  lemma ObjectIsTidyThen(run: ScenarioRun, rest: seq<Piece>)
    requires QuoteFree(run.name) && QuoteFree(run.requirementId) && Tidy(rest)
    ensures Tidy(ObjectThen(run, rest)) && Tidy(ItemFrom(run, rest))
  {
    hide Tidy, TextLine, TicksThen, ObjectEnd, ItemFrom;
    var name, id := TextLine(ScenarioKey, run.name), TextLine(RequirementKey, run.requirementId);
    var ticks := TicksThen(run.reports, 0, ObjectEnd(run, rest));
    FixedLinesAreTidy(true);
    LineIsTidy(ScenarioKey, run.name);
    LineIsTidy(RequirementKey, run.requirementId);
    ObjectEndIsTidy(run, rest);
    TicksAreTidy(run.reports, 0, ObjectEnd(run, rest));
    TidyAppends(OPEN_TICKS, ticks);
    TidyAppends(id, OPEN_TICKS + ticks);
    TidyAppends(name, id + (OPEN_TICKS + ticks));
    TidyAppends(OPEN_OBJECT, name + (id + (OPEN_TICKS + ticks)));
    ObjectThenIs(run, rest);
    TidyTail(ObjectThen(run, rest), 1);
    assert ObjectThen(run, rest)[1..] == ItemFrom(run, rest);
  }

  // --- brackets ------------------------------------------------------------------------------------

  predicate BracketPair(open: char, close: char) { (open == '{' && close == '}') || (open == '[' && close == ']') }

  lemma UnmarkedIsBalanced(ps: seq<Piece>, open: char, close: char)
    requires AllUnmarked(ps) && BracketPair(open, close)
    ensures Balanced(Render(ps), open, close)
  {
    UnmarkedLacks(ps, open);
    UnmarkedLacks(ps, close);
    LackingPieces(ps, open);
    LackingPieces(ps, close);
    PlainIsBalanced(Render(ps), open, close);
  }

  lemma BalancedThen(ps: seq<Piece>, rest: seq<Piece>, open: char, close: char)
    requires AllUnmarked(ps) && BracketPair(open, close) && Balanced(Render(rest), open, close)
    ensures Balanced(Render(ps + rest), open, close)
  {
    hide Render, Balanced, AllUnmarked;
    UnmarkedIsBalanced(ps, open, close);
    RenderAppends(ps, rest);
    BalancedAppends(Render(ps), Render(rest), open, close);
  }

  lemma OneTickIsBalanced(t: TickReport, rest: seq<Piece>, open: char, close: char)
    requires BracketPair(open, close) && Balanced(Render(rest), open, close)
    ensures Balanced(Render(ObjectFrom(t, rest)), open, close)
  {
    hide Render, Balanced, AllUnmarked, TickFields;
    var fields := TickFields(t);
    FieldsAreUnmarked(t);
    UnmarkedIsBalanced(fields, open, close);
    RenderText("{", fields + ([Text("}")] + rest));
    RenderAppends(fields, [Text("}")] + rest);
    RenderText("}", rest);
    var inner := Render(fields);
    if open == '{' {
      BracketedIsBalanced(inner, open, close);
      assert "{" + (inner + ("}" + Render(rest))) == ("{" + (inner + "}")) + Render(rest);
      BalancedAppends("{" + (inner + "}"), Render(rest), open, close);
    } else {
      PlainIsBalanced("{", open, close);
      PlainIsBalanced("}", open, close);
      BalancedAppends("}", Render(rest), open, close);
      BalancedAppends(inner, "}" + Render(rest), open, close);
      BalancedAppends("{", inner + ("}" + Render(rest)), open, close);
    }
  }

  lemma {:induction false} TicksAreBalanced(reports: seq<TickReport>, i: nat, rest: seq<Piece>, open: char, close: char)
    requires i <= |reports| && BracketPair(open, close) && Balanced(Render(rest), open, close)
    ensures Balanced(Render(TicksThen(reports, i, rest)), open, close)
    decreases |reports| - i
  {
    hide Render, Balanced, ObjectFrom, TickLine;
    if i == |reports| {
    } else {
      TicksAreBalanced(reports, i + 1, rest, open, close);
      TicksThenAt(reports, i, rest);
      var separator := [Text(Separator(reports, i))];
      BalancedThen(separator, TicksThen(reports, i + 1, rest), open, close);
      OneTickIsBalanced(reports[i], separator + TicksThen(reports, i + 1, rest), open, close);
      BalancedThen([Text("        ")], ObjectFrom(reports[i], separator + TicksThen(reports, i + 1, rest)), open, close);
    }
  }

  lemma LineIsUnmarked(key: Key, value: string)
    requires Unmarked(KeyName(key)) && Unmarked(value)
    ensures AllUnmarked(TextLine(key, value))
  {
    hide KeyName;
  }

  lemma ObjectKeysAreUnmarked()
    ensures Unmarked(KeyName(ScenarioKey)) && Unmarked(KeyName(RequirementKey)) && Unmarked(KeyName(TicksKey))
    ensures Unmarked(KeyName(ExpectedKey)) && Unmarked(KeyName(ActualKey)) && Unmarked(KeyName(PassKey))
  {
  }

  /** The lines after the tick array, without the bracket that closes it. */
  function Closing(run: ScenarioRun): seq<Piece> {
    [Text(",\n")] + (TextLine(ExpectedKey, ResultName(run.expected)) +
    (TextLine(ActualKey, ResultName(run.actual)) + (PassLine(run.expected == run.actual) + [Text("    ")])))
  }

  lemma AfterTicksIs(run: ScenarioRun)
    ensures AfterTicks(run) == [Text("]")] + Closing(run)
  {
    hide TextLine, PassLine;
    assert [Text("]"), Text(",\n")] == [Text("]")] + [Text(",\n")];
  }

  lemma ClosingIsBalanced(run: ScenarioRun, open: char, close: char)
    requires BracketPair(open, close)
    ensures Balanced(Render(Closing(run)), open, close)
  {
    hide Render, Balanced, TextLine, KeyName, ResultName;
    ObjectKeysAreUnmarked();
    NameIsUnmarked(run.expected, Init);
    NameIsUnmarked(run.actual, Init);
    LineIsUnmarked(ExpectedKey, ResultName(run.expected));
    LineIsUnmarked(ActualKey, ResultName(run.actual));
    var expected, actual := TextLine(ExpectedKey, ResultName(run.expected)), TextLine(ActualKey, ResultName(run.actual));
    var pass := PassLine(run.expected == run.actual);
    UnmarkedIsBalanced([Text("    ")], open, close);
    BalancedThen(pass, [Text("    ")], open, close);
    BalancedThen(actual, pass + [Text("    ")], open, close);
    BalancedThen(expected, actual + (pass + [Text("    ")]), open, close);
    BalancedThen([Text(",\n")], expected + (actual + (pass + [Text("    ")])), open, close);
  }

  /** The tick array with its brackets, and the text around it. */
  lemma TickArrayIs(run: ScenarioRun, rest: seq<Piece>)
    ensures Render([Text("[\n")] + TicksThen(run.reports, 0, [Text("      ")] + ([Text("]")] + rest))) ==
            "[" + (("\n" + Render(TicksThen(run.reports, 0, [Text("      ")]))) + ("]" + Render(rest)))
  {
    hide Render, TicksThen;
    var ticks := TicksThen(run.reports, 0, [Text("      ")]);
    var close := [Text("]")] + rest;
    TicksThenSplits(run.reports, 0, [Text("      ")], close);
    RenderText("[\n", ticks + close);
    RenderAppends(ticks, close);
    RenderText("]", rest);
    assert "[\n" == "[" + "\n";
  }

  lemma TickTextIsBalanced(run: ScenarioRun, open: char, close: char)
    requires BracketPair(open, close)
    ensures Balanced("\n" + Render(TicksThen(run.reports, 0, [Text("      ")])), open, close)
  {
    hide Render, Balanced, TicksThen;
    UnmarkedIsBalanced([Text("      ")], open, close);
    TicksAreBalanced(run.reports, 0, [Text("      ")], open, close);
    PlainIsBalanced("\n", open, close);
    BalancedAppends("\n", Render(TicksThen(run.reports, 0, [Text("      ")])), open, close);
  }

  lemma TickArrayIsBalanced(run: ScenarioRun, open: char, close: char)
    requires BracketPair(open, close)
    ensures Balanced(Render([Text("[\n")] + TicksThen(run.reports, 0, [Text("      ")] + AfterTicks(run))), open, close)
  {
    hide Render, Balanced, TicksThen, Closing;
    AfterTicksIs(run);
    TickArrayIs(run, Closing(run));
    TickTextIsBalanced(run, open, close);
    ClosingIsBalanced(run, open, close);
    var inner, closing := "\n" + Render(TicksThen(run.reports, 0, [Text("      ")])), Render(Closing(run));
    if open == '[' {
      BracketedIsBalanced(inner, open, close);
      assert "[" + (inner + ("]" + closing)) == ("[" + (inner + "]")) + closing;
      BalancedAppends("[" + (inner + "]"), closing, open, close);
    } else {
      PlainIsBalanced("[", open, close);
      PlainIsBalanced("]", open, close);
      BalancedAppends("]", closing, open, close);
      BalancedAppends(inner, "]" + closing, open, close);
      BalancedAppends("[", inner + ("]" + closing), open, close);
    }
  }

  lemma InsideIsBalanced(run: ScenarioRun, open: char, close: char)
    requires BracketPair(open, close) && Unmarked(run.name) && Unmarked(run.requirementId)
    ensures Balanced(Render(Inside(run)), open, close)
  {
    hide Render, Balanced, TicksThen, TextLine, KeyName, AfterTicks;
    var ticksArray := [Text("[\n")] + TicksThen(run.reports, 0, [Text("      ")] + AfterTicks(run));
    TickArrayIsBalanced(run, open, close);
    ObjectKeysAreUnmarked();
    var key := [Text("      "), Word(KeyName(TicksKey)), Text(": ")];
    BalancedThen(key, ticksArray, open, close);
    assert OPEN_TICKS == key + [Text("[\n")];
    Regroup(key, [Text("[\n")], TicksThen(run.reports, 0, [Text("      ")] + AfterTicks(run)));
    var name, id := TextLine(ScenarioKey, run.name), TextLine(RequirementKey, run.requirementId);
    LineIsUnmarked(ScenarioKey, run.name);
    LineIsUnmarked(RequirementKey, run.requirementId);
    BalancedThen(id, key + ticksArray, open, close);
    BalancedThen(name, id + (key + ticksArray), open, close);
    BalancedThen([Text("\n")], name + (id + (key + ticksArray)), open, close);
  }

  /** The object's own closing brace is the one the loader finds. */
  lemma ItemEnds(run: ScenarioRun, rest: seq<Piece>)
    requires Unmarked(run.name) && Unmarked(run.requirementId)
    ensures FindClose(Render(ItemFrom(run, rest)), '{', '}') == Some("}" + Render(rest))
    ensures Render(ItemFrom(run, rest)) == "{" + (Render(Inside(run)) + ("}" + Render(rest)))
  {
    hide Render, Balanced, Inside;
    InsideIsBalanced(run, '{', '}');
    RenderText("{", Inside(run) + ([Text("}")] + rest));
    RenderAppends(Inside(run), [Text("}")] + rest);
    RenderText("}", rest);
    FindCloseAfter(Render(Inside(run)), Render(rest), '{', '}');
  }

  // --- what the loader finds in an object --------------------------------------------------------

  /** A run the loader's buffers can take; names without quotes, braces and brackets. */
  ghost predicate LoadableRun(run: ScenarioRun) {
    && Unmarked(run.name) && |run.name| < 64
    && Unmarked(run.requirementId) && |run.requirementId| < 32
    && LoadableReports(run.reports)
  }

  lemma HeadKeyAt(run: ScenarioRun, rest: seq<Piece>, k: Key, j: nat, m: nat)
    requires QuoteFree(run.name) && QuoteFree(run.requirementId) && Tidy(rest)
    requires match k
             case ScenarioKey => j == 3 && m == 4
             case RequirementKey => j == (if run.name == KeyName(k) then 5 else 8) && m == 9
             case ExpectedKey => (j == 5 && m == 9 && run.name == KeyName(k))
                              || (j == 10 && m == 14 && run.name != KeyName(k) && run.requirementId == KeyName(k))
             case PassKey => (j == 5 && m == 9 && run.name == KeyName(k))
                          || (j == 10 && m == 14 && run.name != KeyName(k) && run.requirementId == KeyName(k))
             case _ => false
    ensures KeyThenColon(ItemFrom(run, rest), KeyName(k), j, m)
  {
    hide ItemFrom, KeyName, Tidy, KeyLike, TicksThen, ObjectEnd;
    var ps := ItemFrom(run, rest);
    ItemLayout(run, rest);
    ObjectIsTidyThen(run, rest);
    KeyShape(k, ResultOk, Init);
    KeyShape(RequirementKey, ResultOk, Init);
    KeyShape(TicksKey, ResultOk, Init);
    ColonFree(KeyName(k));
    ColonFree(KeyName(RequirementKey));
    ColonFree(KeyName(TicksKey));
    forall other: Key | other != k ensures KeyName(other) != KeyName(k) { KeysDiffer(other, k); }
  }

  lemma NameIsFound(run: ScenarioRun, rest: seq<Piece>)
    requires LoadableRun(run) && Tidy(rest)
    ensures var s := Render(ItemFrom(run, rest));
            && QuotedValue(s, KeyName(ScenarioKey), 64) == Some(run.name)
            && QuotedValue(s, KeyName(RequirementKey), 32) == Some(run.requirementId)
  {
    hide ItemFrom, KeyName, Tidy, KeyThenColon, QuotedValue, Render, LoadableReports, TicksThen, ObjectEnd;
    var ps := ItemFrom(run, rest);
    ItemLayout(run, rest);
    HeadKeyAt(run, rest, ScenarioKey, 3, 4);
    QuotedValueAt(ps, KeyName(ScenarioKey), 3, 4, run.name, 64);
    var j := if run.name == KeyName(RequirementKey) then 5 else 8;
    HeadKeyAt(run, rest, RequirementKey, j, 9);
    QuotedValueAt(ps, KeyName(RequirementKey), j, 9, run.requirementId, 32);
  }

  lemma {:induction false} TicksHideNoExpected(reports: seq<TickReport>, i: nat, rest: seq<Piece>)
    requires i <= |reports| && Tidy(rest)
    ensures Strstr(Render(TicksThen(reports, i, rest)), Quoted(KeyName(ExpectedKey)))
         == Strstr(Render(rest), Quoted(KeyName(ExpectedKey)))
    decreases |reports| - i
  {
    hide Render, Strstr, Quoted, KeyName, TickFields, ObjectFrom, Tidy, TickLine, KeyLike;
    if i == |reports| {
    } else {
      TicksHideNoExpected(reports, i + 1, rest);
      TicksThenAt(reports, i, rest);
      TicksAreTidy(reports, i, rest);
      var t := reports[i];
      var later := [Text(Separator(reports, i))] + TicksThen(reports, i + 1, rest);
      var ps := [Text("        ")] + ObjectFrom(t, later);
      TickPiecesAreNotExpected(t, later);
      KeyShape(ExpectedKey, t.result, t.mode);
      SkipOtherPieces(ps, KeyName(ExpectedKey), 23);
      assert ps[23..] == TicksThen(reports, i + 1, rest) by { ObjectTailIs(t, later); }
    }
  }

  lemma ObjectTailIs(t: TickReport, later: seq<Piece>)
    requires later != []
    ensures var ps := [Text("        ")] + ObjectFrom(t, later); |ps| >= 23 && ps[23..] == later[1..]
  {
    assert |TickFields(t)| == 19;
    hide TickFields;
  }

  lemma TickPiecesAreNotExpected(t: TickReport, later: seq<Piece>)
    requires later != [] && later[0].Text?
    ensures var ps := [Text("        ")] + ObjectFrom(t, later);
            |ps| >= 23 && forall i :: 0 <= i < 23 ==> ps[i] != Word(KeyName(ExpectedKey))
  {
    hide KeyName, ResultName, ModeName, ObjectFrom, TickFields, PrintNat, PrintInt, PrintFixed;
    FieldLayout(t);
    ObjectLayout(t, later);
    FieldsAreNotExpected(t);
    var item := ObjectFrom(t, later);
    var ps := [Text("        ")] + item;
    assert item[21] == later[0] by { ObjectLater(t, later); }
    forall i | 0 <= i < 23 ensures ps[i] != Word(KeyName(ExpectedKey)) {
      if 2 <= i < 21 {
        assert ps[i] == item[i - 1] == TickFields(t)[i - 2];
      }
    }
  }

  lemma ObjectLater(t: TickReport, later: seq<Piece>)
    requires later != []
    ensures |ObjectFrom(t, later)| > 21 && ObjectFrom(t, later)[21] == later[0]
  {
    assert |TickFields(t)| == 19;
    hide TickFields;
  }

  lemma FieldsAreNotExpected(t: TickReport)
    ensures |TickFields(t)| == 19 && forall i :: 0 <= i < 19 ==> TickFields(t)[i] != Word(KeyName(ExpectedKey))
  {
    hide KeyName, ResultName, ModeName, TickFields, PrintNat, PrintInt, PrintFixed;
    FieldLayout(t);
    forall other: Key | other != ExpectedKey ensures KeyName(other) != KeyName(ExpectedKey) { KeysDiffer(other, ExpectedKey); }
    NamesAreNotKeys(ExpectedKey, t.result, t.mode);
  }

  lemma SameSearch(s: string, s': string, key: string, size: nat)
    requires Strstr(s, Quoted(key)) == Strstr(s', Quoted(key))
    ensures QuotedValue(s, key, size) == QuotedValue(s', key, size)
  {
  }

  lemma ObjectEndLayout(run: ScenarioRun, rest: seq<Piece>)
    ensures var ps := ObjectEnd(run, rest);
            && |ps| > 6 && ps[0] == Text("      ") && ps[1] == Text("]") && ps[2] == Text(",\n") && ps[3] == Text("      ")
            && ps[4] == Word(KeyName(ExpectedKey)) && ps[5] == Text(": ") && ps[6] == Word(ResultName(run.expected))
  {
    hide KeyName, ResultName, PassLine;
  }

  lemma ExpectedLine(run: ScenarioRun, rest: seq<Piece>)
    requires Tidy(rest)
    ensures QuotedValue(Render(ObjectEnd(run, rest)), KeyName(ExpectedKey), 16) == Some(ResultName(run.expected))
  {
    hide KeyName, ResultName, ObjectEnd, Tidy, Render, QuotedValue, KeyLike;
    var ps := ObjectEnd(run, rest);
    ObjectEndLayout(run, rest);
    ObjectEndIsTidy(run, rest);
    KeyShape(ExpectedKey, run.expected, Init);
    ColonFree(KeyName(ExpectedKey));
    QuotedValueAt(ps, KeyName(ExpectedKey), 4, 5, ResultName(run.expected), 16);
  }

  /** The name or the id being the word "expected" is what leads the search for that key astray. */
  predicate ExpectedIsFindable(run: ScenarioRun) {
    if run.name == "expected" then run.requirementId == ResultName(run.expected) else run.requirementId != "expected"
  }

  lemma ExpectedInOrder(run: ScenarioRun, rest: seq<Piece>)
    requires LoadableRun(run) && Tidy(rest)
    requires run.name != KeyName(ExpectedKey) && run.requirementId != KeyName(ExpectedKey)
    ensures QuotedValue(Render(ItemFrom(run, rest)), KeyName(ExpectedKey), 16) == Some(ResultName(run.expected))
  {
    hide KeyName, ItemFrom, Tidy, Render, QuotedValue, KeyLike, TicksThen, ObjectEnd, LoadableReports, Strstr, Quoted;
    var ps := ItemFrom(run, rest);
    ItemLayout(run, rest);
    ObjectIsTidyThen(run, rest);
    ObjectEndIsTidy(run, rest);
    KeyShape(ExpectedKey, ResultOk, Init);
    KeysDiffer(ScenarioKey, ExpectedKey);
    KeysDiffer(RequirementKey, ExpectedKey);
    KeysDiffer(TicksKey, ExpectedKey);
    SkipOtherPieces(ps, KeyName(ExpectedKey), 16);
    TicksHideNoExpected(run.reports, 0, ObjectEnd(run, rest));
    SameSearch(Render(ps), Render(ObjectEnd(run, rest)), KeyName(ExpectedKey), 16);
    ExpectedLine(run, rest);
  }

  lemma ExpectedAsName(run: ScenarioRun, rest: seq<Piece>)
    requires LoadableRun(run) && Tidy(rest) && run.name == KeyName(ExpectedKey)
    ensures QuotedValue(Render(ItemFrom(run, rest)), KeyName(ExpectedKey), 16) ==
              if |run.requirementId| < 16 then Some(run.requirementId) else None
  {
    hide KeyName, ItemFrom, Tidy, Render, QuotedValue, KeyLike, TicksThen, ObjectEnd, LoadableReports;
    ItemLayout(run, rest);
    HeadKeyAt(run, rest, ExpectedKey, 5, 9);
    QuotedValueAt(ItemFrom(run, rest), KeyName(ExpectedKey), 5, 9, run.requirementId, 16);
  }

  lemma ExpectedAsId(run: ScenarioRun, rest: seq<Piece>)
    requires LoadableRun(run) && Tidy(rest)
    requires run.name != KeyName(ExpectedKey) && run.requirementId == KeyName(ExpectedKey)
    ensures QuotedValue(Render(ItemFrom(run, rest)), KeyName(ExpectedKey), 16) == None
  {
    hide KeyName, ItemFrom, Tidy, Render, KeyThenColon, ValueOf, KeyLike, TicksThen, ObjectEnd, LoadableReports;
    var ps := ItemFrom(run, rest);
    ItemLayout(run, rest);
    HeadKeyAt(run, rest, ExpectedKey, 10, 14);
    RenderFrom(ps, 15);
    var value := "[\n" + Render(ps[16..]);
    assert ": " + "" == ": " && "" + value == value;
    ValueAt(ps, KeyName(ExpectedKey), 10, 14, "", value);
  }

  /** What the search for the expected verdict comes back with is the printed one exactly when it is findable. */
  lemma ExpectedIsFoundIff(run: ScenarioRun, rest: seq<Piece>)
    requires LoadableRun(run) && Tidy(rest)
    ensures QuotedValue(Render(ItemFrom(run, rest)), "expected", 16) == Some(ResultName(run.expected))
            <==> ExpectedIsFindable(run)
  {
    hide ItemFrom, Tidy, Render, QuotedValue, ResultName, LoadableReports;
    KeyShape(ExpectedKey, run.expected, Init);
    NamesAreNotKeys(ExpectedKey, run.expected, Init);
    if run.name == KeyName(ExpectedKey) {
      ExpectedAsName(run, rest);
    } else if run.requirementId == KeyName(ExpectedKey) {
      ExpectedAsId(run, rest);
    } else {
      ExpectedInOrder(run, rest);
    }
  }

  /** From the ticks key, wherever the search finds it, the first opening bracket is that of the tick array. */
  lemma TicksKeyIsFound(run: ScenarioRun, rest: seq<Piece>)
    requires LoadableRun(run) && Tidy(rest)
    ensures var ps := ItemFrom(run, rest);
            && |ps| >= 16
            && Strstr(Render(ps), Quoted(KeyName(TicksKey))).Some?
            && var key := Strstr(Render(ps), Quoted(KeyName(TicksKey))).value;
               && |key| >= |Render(ps[15..])|
               && Strchr(key, '[') == Some(Render(ps[15..]))
  {
    hide KeyName, ItemFrom, Tidy, Render, KeyLike, TicksThen, ObjectEnd, LoadableReports, Strstr, Strchr;
    var ps := ItemFrom(run, rest);
    ItemLayout(run, rest);
    ObjectIsTidyThen(run, rest);
    KeyShape(TicksKey, ResultOk, Init);
    KeysDiffer(ScenarioKey, TicksKey);
    KeysDiffer(RequirementKey, TicksKey);
    var j := if run.name == KeyName(TicksKey) then 5 else if run.requirementId == KeyName(TicksKey) then 10 else 13;
    FindWord(ps, KeyName(TicksKey), j);
    var key := ps[j..];
    HeadLacksBracket(run, rest, j);
    SkipPieces(key, '[', 15 - j);
    assert key[15 - j..] == ps[15..];
    SuffixIsShorter(key, 15 - j);
    RenderFrom(ps, 15);
    ChrAtStart("[\n" + Render(ps[16..]), '[');
  }

  lemma ChrAtStart(s: string, c: char)
    requires s != "" && s[0] == c
    ensures Strchr(s, c) == Some(s)
  {
  }

  lemma HeadLacksBracket(run: ScenarioRun, rest: seq<Piece>, j: nat)
    requires Unmarked(run.name) && Unmarked(run.requirementId) && 5 <= j <= 15
    ensures var ps := ItemFrom(run, rest);
            |ps| >= 16 && forall i :: 0 <= i < 15 - j ==> '[' !in RenderPiece(ps[j..][i])
  {
    hide ItemFrom, KeyName, TicksThen, ObjectEnd;
    var ps := ItemFrom(run, rest);
    ItemLayout(run, rest);
    ObjectKeysAreUnmarked();
    forall i | 5 <= i < 15 ensures '[' !in RenderPiece(ps[i]) {
      assert UnmarkedPiece(ps[i]);
    }
    forall i | 0 <= i < 15 - j ensures '[' !in RenderPiece(ps[j..][i]) {
      assert ps[j..][i] == ps[i + j];
    }
  }

  /** The tick array of a printed object, read back; a run without ticks is refused. */
  lemma TickArrayReadsBack(run: ScenarioRun, rest: seq<Piece>)
    requires LoadableRun(run) && Tidy(rest)
    ensures ParseTickArray(Render(ItemFrom(run, rest)), |"}" + Render(rest)|) ==
              if run.reports == [] then None else Some(LoadedTicks(run.reports))
  {
    hide ItemFrom, Tidy, Render, TicksThen, LoadableReports, Strstr, Strchr, FindClose, ParseTicks, Closing, AfterTicks, Balanced, Quoted, Unmarked;
    var ps := ItemFrom(run, rest);
    TicksKeyIsFound(run, rest);
    ItemLayout(run, rest);
    var close := [Text("}")] + rest;
    var after := Closing(run) + close;
    ObjectEndIs(run, rest);
    AfterTicksIs(run);
    Regroup([Text("]")], Closing(run), close);
    RenderFrom(ps, 15);
    var start := Render(ps[15..]);
    var ticks := TicksThen(run.reports, 0, [Text("      ")] + ([Text("]")] + after));
    assert start == "[\n" + Render(ticks);
    RenderText("[\n", ticks);
    TickArrayIs(run, after);
    TickTextIsBalanced(run, '[', ']');
    FindCloseAfter("\n" + Render(TicksThen(run.reports, 0, [Text("      ")])), Render(after), '[', ']');
    RenderText("]", after);
    RenderText("}", rest);
    RenderAppends(Closing(run), close);
    ObjectEndIsTidy(run, rest);
    assert ObjectEnd(run, rest) == [Text("      ")] + ([Text("]")] + after);
    TidyTail(ObjectEnd(run, rest), 1);
    assert ObjectEnd(run, rest)[1..] == [Text("]")] + after;
    TicksReadBack(run.reports, 0, [Text("]")] + after, "[\n", []);
    assert run.reports[0..] == run.reports && [] + LoadedTicks(run.reports) == LoadedTicks(run.reports);
    TicksAreLonger(run.reports, 0, [Text("      ")] + ([Text("]")] + after));
    RenderText("      ", [Text("]")] + after);
  }

  // --- the whole report ----------------------------------------------------------------------------

  function LoadedRun(run: ScenarioRun): ScenarioData {
    ScenarioData(run.name, run.requirementId, ResultName(run.expected), LoadedTicks(run.reports))
  }

  /** What a caller can check before printing: there are ticks to load, and the expected verdict can be found again. */
  predicate Recoverable(run: ScenarioRun) {
    run.reports != [] && ExpectedIsFindable(run)
  }

  lemma ScenarioReadsBackIff(run: ScenarioRun, rest: seq<Piece>)
    requires LoadableRun(run) && Tidy(rest)
    ensures var parsed := ParseScenario(Render(ItemFrom(run, rest)), |"}" + Render(rest)|);
            parsed == Some(LoadedRun(run)) <==> Recoverable(run)
  {
    hide ItemFrom, Tidy, Render, QuotedValue, ParseTickArray, LoadableReports, ExpectedIsFindable, Unmarked, ResultName;
    NameIsFound(run, rest);
    ExpectedIsFoundIff(run, rest);
    TickArrayReadsBack(run, rest);
  }

  function LoadedRuns(runs: seq<ScenarioRun>): seq<ScenarioData> {
    if runs == [] then [] else [LoadedRun(runs[0])] + LoadedRuns(runs[1..])
  }

  ghost predicate AllRecoverable(runs: seq<ScenarioRun>) {
    forall run :: run in runs ==> Recoverable(run)
  }

  ghost predicate AllLoadable(runs: seq<ScenarioRun>) {
    forall run :: run in runs ==> LoadableRun(run)
  }

  lemma {:induction false} ObjectsAreTidy(runs: seq<ScenarioRun>, i: nat, rest: seq<Piece>)
    requires i <= |runs| && AllLoadable(runs) && Tidy(rest)
    ensures Tidy(ObjectsThen(runs, i, rest))
    decreases |runs| - i
  {
    hide Tidy, ObjectThen, LoadableReports;
    if i == |runs| {
    } else {
      ObjectsAreTidy(runs, i + 1, rest);
      assert LoadableRun(runs[i]);
      UnmarkedIsQuoteFree(runs[i].name);
      UnmarkedIsQuoteFree(runs[i].requirementId);
      ObjectIsTidyThen(runs[i], ObjectsThen(runs, i + 1, rest));
      TidyText(",\n", ObjectThen(runs[i], ObjectsThen(runs, i + 1, rest)));
    }
  }

  lemma UnmarkedIsQuoteFree(s: string)
    requires Unmarked(s)
    ensures QuoteFree(s)
  {
  }

  lemma {:induction false} ObjectsAreLonger(runs: seq<ScenarioRun>, i: nat, rest: seq<Piece>)
    requires i <= |runs|
    ensures |Render(ObjectsThen(runs, i, rest))| >= |Render(rest)|
    decreases |runs| - i
  {
    hide ObjectThen, Render, ItemFrom;
    if i == |runs| {
    } else {
      var later := ObjectsThen(runs, i + 1, rest);
      ObjectsAreLonger(runs, i + 1, rest);
      ObjectIsLonger(runs[i], later);
      RenderText(",\n", ObjectThen(runs[i], later));
    }
  }

  lemma ObjectIsLonger(run: ScenarioRun, rest: seq<Piece>)
    ensures |Render(ObjectThen(run, rest))| > |Render(rest)|
    ensures Render(ObjectThen(run, rest)) == "    " + Render(ItemFrom(run, rest))
    ensures |Render(ItemFrom(run, rest))| > |Render(rest)|
  {
    hide Render, Inside, ObjectThen;
    ObjectThenIs(run, rest);
    RenderText("    ", ItemFrom(run, rest));
    RenderText("{", Inside(run) + ([Text("}")] + rest));
    RenderAppends(Inside(run), [Text("}")] + rest);
    RenderText("}", rest);
  }

  function Comma(i: nat): string { if i == 0 then "" else ",\n" }

  /** One turn of the loader's scenario loop, on a cursor that stands before object i. */
  lemma ScenarioTurn(runs: seq<ScenarioRun>, i: nat, rest: seq<Piece>, lead: string)
    requires i < |runs| && LoadableRun(runs[i]) && '{' !in lead
    ensures var later := ObjectsThen(runs, i + 1, rest);
            var item := Render(ItemFrom(runs[i], later));
            && Strchr(lead + Render(ObjectsThen(runs, i, rest)), '{') == Some(item)
            && FindClose(item, '{', '}') == Some("}" + Render(later))
            && |item| > |Render(rest)| && |Render(later)| >= |Render(rest)|
  {
    hide Render, FindClose, Strchr, ObjectThen, ItemFrom, LoadableReports, Inside, Unmarked;
    var later := ObjectsThen(runs, i + 1, rest);
    var item := Render(ItemFrom(runs[i], later));
    ObjectIsLonger(runs[i], later);
    RenderText(",\n", ObjectThen(runs[i], later));
    var before := lead + (Comma(i) + "    ");
    assert lead + Render(ObjectsThen(runs, i, rest)) == before + item;
    ItemEnds(runs[i], later);
    StrchrAt(before, item, '{');
    ObjectsAreLonger(runs, i + 1, rest);
  }

  /** The loader's scenario loop reads all objects back exactly when each of them is recoverable. */
  lemma {:induction false} ScenariosReadBackIff(runs: seq<ScenarioRun>, i: nat, rest: seq<Piece>, lead: string,
                                                limit: nat, done: seq<ScenarioData>)
    requires AllLoadable(runs) && i <= |runs| <= limit && Tidy(rest) && |done| == i
    requires '{' !in lead && (lead != "" || i > 0)
    ensures var parsed := ParseScenarios(lead + Render(ObjectsThen(runs, i, [Text("\n  ")] + rest)), |Render(rest)|, limit, done);
            parsed == Some(done + LoadedRuns(runs[i..])) <==> AllRecoverable(runs[i..])
    decreases |runs| - i
  {
    hide Render, FindClose, Strchr, ObjectThen, ItemFrom, ParseScenario, Tidy, LoadableRun, Recoverable, LoadedRun, Inside;
    var tail := [Text("\n  ")] + rest;
    var cursor := lead + Render(ObjectsThen(runs, i, tail));
    RenderText("\n  ", rest);
    if i == |runs| {
      assert cursor == (lead + "\n  ") + Render(rest);
      StrchrSkips(lead + "\n  ", Render(rest), '{');
      assert runs[i..] == [] && done + [] == done;
    } else {
      var run := runs[i];
      var later := ObjectsThen(runs, i + 1, tail);
      assert LoadableRun(run);
      TidyText("\n  ", rest);
      ObjectsAreTidy(runs, i + 1, tail);
      ScenarioTurn(runs, i, tail, lead);
      ObjectsAreLonger(runs, i, tail);
      ScenarioReadsBackIff(run, later);
      var item := Render(ItemFrom(run, later));
      var parsed := ParseScenario(item, |"}" + Render(later)|);
      assert ("}" + Render(later))[1..] == Render(later) == "" + Render(later);
      assert runs[i..][0] == run && runs[i..][1..] == runs[i + 1..];
      RecoverableFirst(runs, i);
      if parsed.Some? {
        var next := done + [parsed.value];
        ResultExtends("" + Render(later), |Render(rest)|, limit, next);
        assert next[|done|] == parsed.value;
        assert (done + LoadedRuns(runs[i..]))[|done|] == LoadedRun(run);
        if Recoverable(run) {
          ScenariosReadBackIff(runs, i + 1, rest, "", limit, next);
          assert next + LoadedRuns(runs[i + 1..]) == done + LoadedRuns(runs[i..]);
        }
      }
    }
  }

  /** What has been parsed stays at the front of the result. */
  lemma {:induction false} ResultExtends(cursor: string, end: nat, limit: nat, scenarios: seq<ScenarioData>)
    ensures var r := ParseScenarios(cursor, end, limit, scenarios); r.Some? ==> scenarios <= r.value
    decreases |cursor|
  {
    hide FindClose, Strchr, ParseScenario;
    if |cursor| <= end {
    } else {
      var item := Strchr(cursor, '{');
      if item.Some? && |item.value| > end {
        var itemEnd := FindClose(item.value, '{', '}');
        if itemEnd.Some? && |itemEnd.value| >= end && |scenarios| < limit {
          var parsed := ParseScenario(item.value, |itemEnd.value|);
          if parsed.Some? {
            ResultExtends(itemEnd.value[1..], end, limit, scenarios + [parsed.value]);
          }
        }
      }
    }
  }

  lemma RecoverableFirst(runs: seq<ScenarioRun>, i: nat)
    requires i < |runs|
    ensures AllRecoverable(runs[i..]) <==> Recoverable(runs[i]) && AllRecoverable(runs[i + 1..])
  {
    hide Recoverable;
    assert runs[i..] == [runs[i]] + runs[i + 1..];
  }

  // --- the document around the objects ---------------------------------------------------------------

  lemma {:induction false} ObjectsThenSplits(runs: seq<ScenarioRun>, i: nat, a: seq<Piece>, b: seq<Piece>)
    requires i <= |runs|
    ensures ObjectsThen(runs, i, a + b) == ObjectsThen(runs, i, a) + b
    decreases |runs| - i
  {
    hide ObjectThen;
    if i == |runs| {
    } else {
      ObjectsThenSplits(runs, i + 1, a, b);
      ObjectThenSplits(runs[i], ObjectsThen(runs, i + 1, a), b);
    }
  }

  lemma {:induction false} ObjectsAreBalanced(runs: seq<ScenarioRun>, i: nat, rest: seq<Piece>)
    requires i <= |runs| && AllLoadable(runs) && Balanced(Render(rest), '[', ']')
    ensures Balanced(Render(ObjectsThen(runs, i, rest)), '[', ']')
    decreases |runs| - i
  {
    hide Render, Balanced, ObjectThen, ItemFrom, Inside, LoadableReports, Unmarked;
    if i == |runs| {
    } else {
      var run, later := runs[i], ObjectsThen(runs, i + 1, rest);
      assert LoadableRun(run);
      ObjectsAreBalanced(runs, i + 1, rest);
      ObjectIsLonger(run, later);
      ItemEnds(run, later);
      InsideIsBalanced(run, '[', ']');
      PlainIsBalanced("{", '[', ']');
      PlainIsBalanced("}", '[', ']');
      PlainIsBalanced("    ", '[', ']');
      PlainIsBalanced(",\n", '[', ']');
      BalancedAppends("}", Render(later), '[', ']');
      BalancedAppends(Render(Inside(run)), "}" + Render(later), '[', ']');
      BalancedAppends("{", Render(Inside(run)) + ("}" + Render(later)), '[', ']');
      BalancedAppends("    ", Render(ItemFrom(run, later)), '[', ']');
      RenderText(",\n", ObjectThen(run, later));
      BalancedAppends(",\n", Render(ObjectThen(run, later)), '[', ']');
    }
  }

  /** What follows the bracket that closes the scenario array. */
  function Ending(passed: int, total: int): seq<Piece> {
    [Text(",\n")] + SummaryLine(passed, total)
  }

  lemma FooterIs(passed: int, total: int)
    ensures Footer(None, passed, total) == [Text("\n  ")] + ([Text("]")] + Ending(passed, total))
    ensures Tidy(Ending(passed, total))
  {
    hide KeyName, PrintInt;
    PrintedNumbersArePlain(0, passed, 0.0);
    PrintedNumbersArePlain(0, total, 0.0);
    NumberIsUnmarked(PrintInt(passed));
    KeyIsQuoteFree(SummaryKey);
    KeyIsQuoteFree(PassedKey);
    KeyIsQuoteFree(TotalKey);
  }

  /** A build commit the loader cannot trip over. */
  predicate PlainCommit(commit: string) {
    '"' !in commit && '[' !in commit
  }

  lemma DocumentLayout(commit: string, rest: seq<Piece>)
    ensures var ps := HeaderThen(commit, rest);
            && |ps| >= 20
            && ps[0] == Text("{\n") && ps[1] == Text("  ") && ps[2] == Word(KeyName(SchemaKey)) && ps[3] == Text(": ")
            && ps[4] == Word(SCHEMA_VERSION) && ps[5] == Text(",\n")
            && ps[6] == Text("  ") && ps[7] == Word(KeyName(SoftwareKey)) && ps[8] == Text(": ")
            && ps[9] == Word(SOFTWARE_VERSION) && ps[10] == Text(",\n")
            && ps[11] == Text("  ") && ps[12] == Word(KeyName(CommitKey)) && ps[13] == Text(": ")
            && ps[14] == Word(commit) && ps[15] == Text(",\n")
            && ps[16] == Text("  ") && ps[17] == Word(KeyName(ScenariosKey)) && ps[18] == Text(": ") && ps[19] == Text("[\n")
            && ps[20..] == rest
  {
    hide KeyName;
    var head := [Text("{\n"),
      Text("  "), Word(KeyName(SchemaKey)), Text(": "), Word(SCHEMA_VERSION), Text(",\n"),
      Text("  "), Word(KeyName(SoftwareKey)), Text(": "), Word(SOFTWARE_VERSION), Text(",\n"),
      Text("  "), Word(KeyName(CommitKey)), Text(": "), Word(commit), Text(",\n"),
      Text("  "), Word(KeyName(ScenariosKey)), Text(": "), Text("[\n")];
    assert HeaderThen(commit, rest) == head + rest;
  }

  lemma HeaderIsTidy(commit: string, rest: seq<Piece>)
    requires QuoteFree(commit) && Tidy(rest)
    ensures Tidy(HeaderThen(commit, rest))
  {
    hide Tidy, HeaderLine;
    var schema, software := HeaderLine(SchemaKey, SCHEMA_VERSION), HeaderLine(SoftwareKey, SOFTWARE_VERSION);
    var build := HeaderLine(CommitKey, commit);
    VersionsAreQuoteFree();
    HeaderLineIsTidy(SchemaKey, SCHEMA_VERSION);
    HeaderLineIsTidy(SoftwareKey, SOFTWARE_VERSION);
    HeaderLineIsTidy(CommitKey, commit);
    TidyAppends(OPEN_SCENARIOS, rest);
    TidyAppends(build, OPEN_SCENARIOS + rest);
    TidyAppends(software, build + (OPEN_SCENARIOS + rest));
    TidyAppends(schema, software + (build + (OPEN_SCENARIOS + rest)));
    TidyAppends(OPEN_DOCUMENT, schema + (software + (build + (OPEN_SCENARIOS + rest))));
  }

  lemma VersionsAreQuoteFree()
    ensures QuoteFree(SCHEMA_VERSION) && QuoteFree(SOFTWARE_VERSION)
    ensures Tidy(OPEN_DOCUMENT) && Tidy(OPEN_SCENARIOS)
  {
    hide KeyName;
    KeyIsQuoteFree(ScenariosKey);
  }

  lemma HeaderLineIsTidy(key: Key, value: string)
    requires QuoteFree(value)
    ensures Tidy(HeaderLine(key, value))
  {
    hide KeyName;
    KeyIsQuoteFree(key);
  }

  lemma HeaderKeyAt(commit: string, rest: seq<Piece>, k: Key, j: nat)
    requires QuoteFree(commit) && Tidy(rest)
    requires match k case SchemaKey => j == 2 case SoftwareKey => j == 7 case CommitKey => j == 12 case _ => false
    ensures KeyThenColon(HeaderThen(commit, rest), KeyName(k), j, j + 1)
  {
    hide HeaderThen, KeyName, Tidy, KeyLike;
    DocumentLayout(commit, rest);
    HeaderIsTidy(commit, rest);
    KeyShape(k, ResultOk, Init);
    ColonFree(KeyName(k));
    KeysDiffer(SchemaKey, SoftwareKey);
    KeysDiffer(SchemaKey, CommitKey);
    KeysDiffer(SoftwareKey, CommitKey);
    VersionsAreNotKeys(k);
  }

  lemma VersionsAreNotKeys(k: Key)
    ensures SCHEMA_VERSION != KeyName(k) && SOFTWARE_VERSION != KeyName(k)
  {
    hide KeyName;
    KeyShape(k, ResultOk, Init);
    assert SCHEMA_VERSION[0] == '1' && SOFTWARE_VERSION[0] == '1';
  }

  lemma HeaderIsAccepted(commit: string, rest: seq<Piece>)
    requires QuoteFree(commit) && Tidy(rest)
    ensures VersionsAccepted(Render(HeaderThen(commit, rest)))
  {
    hide HeaderThen, Tidy, KeyThenColon, QuotedValue, Render;
    var ps := HeaderThen(commit, rest);
    DocumentLayout(commit, rest);
    HeaderKeyAt(commit, rest, SchemaKey, 2);
    QuotedValueAt(ps, "schema_version", 2, 3, SCHEMA_VERSION, 16);
    HeaderKeyAt(commit, rest, SoftwareKey, 7);
    QuotedValueAt(ps, "software_version", 7, 8, SOFTWARE_VERSION, 32);
  }

  /** From the scenarios key, or a build commit of that name, the first opening bracket is that of the scenario array. */
  lemma ScenariosKeyIsFound(commit: string, rest: seq<Piece>)
    requires PlainCommit(commit) && Tidy(rest)
    ensures var text := Render(HeaderThen(commit, rest));
            && Strstr(text, Quoted(KeyName(ScenariosKey))).Some?
            && Strchr(Strstr(text, Quoted(KeyName(ScenariosKey))).value, '[') == Some("[\n" + Render(rest))
  {
    hide HeaderThen, KeyName, Tidy, KeyLike, Render, Strstr, Strchr;
    var ps := HeaderThen(commit, rest);
    DocumentLayout(commit, rest);
    HeaderIsTidy(commit, rest);
    KeyShape(ScenariosKey, ResultOk, Init);
    KeysDiffer(SchemaKey, ScenariosKey);
    KeysDiffer(SoftwareKey, ScenariosKey);
    KeysDiffer(CommitKey, ScenariosKey);
    VersionsAreNotKeys(ScenariosKey);
    var j := if commit == KeyName(ScenariosKey) then 14 else 17;
    FindWord(ps, KeyName(ScenariosKey), j);
    var key := ps[j..];
    HeaderLacksBracket(commit, rest, j);
    SkipPieces(key, '[', 19 - j);
    assert key[19 - j..] == ps[19..];
    RenderFrom(ps, 19);
    ChrAtStart("[\n" + Render(rest), '[');
  }

  lemma HeaderLacksBracket(commit: string, rest: seq<Piece>, j: nat)
    requires '[' !in commit && 14 <= j <= 19
    ensures var ps := HeaderThen(commit, rest);
            |ps| >= 20 && forall i :: 0 <= i < 19 - j ==> '[' !in RenderPiece(ps[j..][i])
  {
    hide HeaderThen;
    var ps := HeaderThen(commit, rest);
    DocumentLayout(commit, rest);
    forall i | 14 <= i < 19 ensures '[' !in RenderPiece(ps[i]) {}
    forall i | 0 <= i < 19 - j ensures '[' !in RenderPiece(ps[j..][i]) {
      assert ps[j..][i] == ps[i + j];
    }
  }

  /** What may stand between the opening bracket and the first object. */
  predicate PlainLead(lead: seq<Piece>) { lead == [] || lead == COMMA }

  lemma LeadIs(lead: seq<Piece>, rest: seq<Piece>)
    requires PlainLead(lead)
    ensures Render(lead + rest) == Render(lead) + Render(rest)
    ensures var t := Render(lead); QuoteFree(t) && '{' !in t && '[' !in t && ']' !in t
    ensures Tidy(rest) ==> Tidy(lead + rest)
  {
    hide Tidy, Render;
    RenderAppends(lead, rest);
    if lead == [] {
      assert Render([]) == "" by { NothingRenders(); }
      assert lead + rest == rest;
    } else {
      RenderText(",\n", []);
      assert [Text(",\n")] + [] == COMMA;
      assert Render([]) == "" by { NothingRenders(); }
      if Tidy(rest) {
        TidyText(",\n", rest);
      }
    }
  }

  /** The scenario array ends at the bracket of the footer. */
  lemma ScenarioArrayEnds(lead: seq<Piece>, runs: seq<ScenarioRun>, ending: seq<Piece>)
    requires AllLoadable(runs) && PlainLead(lead)
    ensures FindClose("[\n" + Render(lead + ObjectsThen(runs, 0, [Text("\n  ")] + ([Text("]")] + ending))), '[', ']')
            == Some(Render([Text("]")] + ending))
  {
    hide Render, Balanced, ObjectsThen, FindClose, LoadableRun;
    var objects := ObjectsThen(runs, 0, [Text("\n  ")]);
    var close := [Text("]")] + ending;
    ObjectsThenSplits(runs, 0, [Text("\n  ")], close);
    RenderAppends(objects, close);
    LeadIs(lead, objects + close);
    UnmarkedIsBalanced([Text("\n  ")], '[', ']');
    ObjectsAreBalanced(runs, 0, [Text("\n  ")]);
    var start := "\n" + Render(lead);
    PlainIsBalanced(start, '[', ']');
    BalancedAppends(start, Render(objects), '[', ']');
    RenderText("]", ending);
    FindCloseAfter(start + Render(objects), Render(ending), '[', ']');
    assert "[\n" + (Render(lead) + (Render(objects) + ("]" + Render(ending))))
        == "[" + ((start + Render(objects)) + ("]" + Render(ending)));
  }

  /** The round trip of a report of these runs, with or without a stray comma before the first, and any summary. */
  lemma LedReportLoadsBackIff(commit: string, lead: seq<Piece>, runs: seq<ScenarioRun>, passed: int, total: int, limit: nat)
    requires PlainCommit(commit) && PlainLead(lead) && AllLoadable(runs) && 1 <= |runs| <= limit
    ensures var text := Render(HeaderThen(commit, lead + ObjectsThen(runs, 0, Footer(None, passed, total))));
            Load(text, limit) == Some(LoadedRuns(runs)) <==> AllRecoverable(runs)
  {
    hide Render, HeaderThen, ObjectsThen, Footer, FindClose, Strstr, Strchr, ParseScenarios, VersionsAccepted, Tidy,
         LoadableRun, AllRecoverable, LoadedRun, Quoted, Ending, Load, PlainLead;
    var closing := [Text("]")] + Ending(passed, total);
    var tail := [Text("\n  ")] + closing;
    FooterIs(passed, total);
    TidyText("]", Ending(passed, total));
    TidyText("\n  ", closing);
    var objects := ObjectsThen(runs, 0, tail);
    ObjectsAreTidy(runs, 0, tail);
    LeadIs(lead, objects);
    HeaderIsAccepted(commit, lead + objects);
    ScenariosKeyIsFound(commit, lead + objects);
    ScenarioArrayEnds(lead, runs, Ending(passed, total));
    var start := "[\n" + Render(lead);
    assert "[\n" + Render(lead + objects) == start + Render(objects);
    LoadGoesThrough(Render(HeaderThen(commit, lead + objects)), limit, start + Render(objects), Render(closing));
    ScenariosReadBackIff(runs, 0, closing, start, limit, []);
    LoadedRunsAreSome(runs);
    assert runs[0..] == runs && [] + LoadedRuns(runs) == LoadedRuns(runs);
  }

  /**
   * Emit/load round trip. A printed report loads back to the same scenarios, with the same names, requirement ids,
   * expected verdicts and ticks, exactly when every run in it has ticks and none of them hides its expected verdict
   * behind a name or requirement id that reads "expected".
   */
  lemma ReportLoadsBackIff(commit: string, runs: seq<ScenarioRun>, passed: int, limit: nat)
    requires PlainCommit(commit) && AllLoadable(runs) && 1 <= |runs| <= limit
    ensures Load(Render(Document(commit, runs, passed)), limit) == Some(LoadedRuns(runs)) <==> AllRecoverable(runs)
  {
    hide Render, HeaderThen, ObjectsThen, Footer, LoadableRun, AllRecoverable, LoadedRuns, Load;
    LedReportLoadsBackIff(commit, [], runs, passed, |runs|, limit);
    var objects := ObjectsThen(runs, 0, Footer(None, passed, |runs|));
    assert [] + objects == objects;
  }

  lemma LoadedRunsAreSome(runs: seq<ScenarioRun>)
    requires runs != []
    ensures LoadedRuns(runs) != []
  {
  }

  lemma LoadGoesThrough(text: string, limit: nat, start: string, end: string)
    requires limit > 0 && VersionsAccepted(text)
    requires Strstr(text, Quoted(KeyName(ScenariosKey))).Some?
    requires Strchr(Strstr(text, Quoted(KeyName(ScenariosKey))).value, '[') == Some(start)
    requires FindClose(start, '[', ']') == Some(end)
    ensures Load(text, limit) ==
            match ParseScenarios(start, |end|, limit, [])
            case None => None
            case Some(scenarios) => if scenarios == [] then None else Some(scenarios)
  {
    hide VersionsAccepted, Strstr, Strchr, FindClose, ParseScenarios;
  }
}
