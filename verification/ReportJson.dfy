/** What a printed report is: white space apart, the text of one JSON value, commas, brackets and all. */
module ReportJson {
  import opened Status
  import opened EngineModel
  import opened CText
  import opened Decimal
  import opened JsonText
  import opened TickLoop
  import opened Report
  import opened TickRoundTrip

  // --- JSON values ------------------------------------------------------------------------

  datatype Json = Str(s: string) | Num(text: string) | Bool(b: bool) | Arr(elements: seq<Json>) | Obj(fields: seq<Field>)

  datatype Field = Field(key: string, value: Json)

  /** The text of a value without white space; strings as they are, for those without quotes and backslashes. */
  function Compact(j: Json): string
    decreases j, 1
  {
    match j
    case Str(s) => Quoted(s)
    case Num(text) => text
    case Bool(b) => if b then "true" else "false"
    case Arr(elements) => "[" + (ElementsText(elements) + "]")
    case Obj(fields) => "{" + (FieldsText(fields) + "}")
  }

  function ElementsText(elements: seq<Json>): string
    decreases elements, 0
  {
    if elements == [] then "" else
    Compact(elements[0]) + if |elements| == 1 then "" else "," + ElementsText(elements[1..])
  }

  function FieldsText(fields: seq<Field>): string
    decreases fields, 0
  {
    if fields == [] then "" else
    Quoted(fields[0].key) + (":" + Compact(fields[0].value)) + if |fields| == 1 then "" else "," + FieldsText(fields[1..])
  }

  // --- the value of a report -----------------------------------------------------------------

  function TickJson(t: TickReport): Json {
    Obj([Field("tick", Num(PrintNat(t.tick)))] +
       ([Field("rpm", Num(PrintFixed(t.reading.rpm)))] +
       ([Field("temp", Num(PrintFixed(t.reading.temperature)))] +
       ([Field("oil", Num(PrintFixed(t.reading.oilPressure)))] +
       ([Field("run", Num(PrintInt(t.reading.isRunning)))] +
       ([Field("result", Str(ResultName(t.result)))] +
       ([Field("control", Num(PrintFixed(t.control)))] +
       [Field("engine_mode", Str(ModeName(t.mode)))])))))))
  }

  function TickJsons(reports: seq<TickReport>, from: nat): seq<Json>
    requires from <= |reports|
    decreases |reports| - from
  {
    if from == |reports| then [] else [TickJson(reports[from])] + TickJsons(reports, from + 1)
  }

  function RunJson(run: ScenarioRun): Json {
    Obj([Field("scenario", Str(run.name))] +
       ([Field("requirement_id", Str(run.requirementId))] +
       ([Field("ticks", Arr(TickJsons(run.reports, 0)))] +
       ([Field("expected", Str(ResultName(run.expected)))] +
       ([Field("actual", Str(ResultName(run.actual)))] +
       [Field("pass", Bool(run.expected == run.actual))])))))
  }

  function RunJsons(runs: seq<ScenarioRun>, from: nat): seq<Json>
    requires from <= |runs|
    decreases |runs| - from
  {
    if from == |runs| then [] else [RunJson(runs[from])] + RunJsons(runs, from + 1)
  }

  function SummaryJson(passed: int, total: int): Json {
    Obj([Field("passed", Num(PrintInt(passed)))] + [Field("total", Num(PrintInt(total)))])
  }

  function ErrorJson(e: ErrorInfo): Json {
    Obj([Field("code", Str(StatusName(e.code)))] +
       ([Field("severity", Str(SeverityName(e.severity)))] +
       ([Field("recoverability", Str(if e.recoverable then "RECOVERABLE" else "NON_RECOVERABLE"))] +
       ([Field("module", Str(e.origin))] +
       ([Field("function", Str(e.operation))] +
       [Field("tick", Num(PrintNat(e.tick)))])))))
  }

  /** The end of a report: the error, if there is one, and the summary. */
  function EndFields(error: Option<ErrorInfo>, passed: int, total: int): seq<Field> {
    (if error.Some? && error.value.code != StatusOk then [Field("error", ErrorJson(error.value))] else []) +
    [Field("summary", SummaryJson(passed, total))]
  }

  function ReportValue(commit: string, runs: seq<ScenarioRun>, error: Option<ErrorInfo>, passed: int, total: int): Json {
    Obj([Field("schema_version", Str("1.0.0"))] +
       ([Field("software_version", Str("1.4.6"))] +
       ([Field("build_commit", Str(commit))] +
       ([Field("scenarios", Arr(RunJsons(runs, 0)))] +
       EndFields(error, passed, total)))))
  }

  // --- white space ------------------------------------------------------------------------------

  /** The text without the white space that stands outside of strings. */
  function Squeeze(s: string): string
    decreases |s|
  {
    if s == "" then "" else if s[0] == '"' then "\"" + SqueezeInside(s[1..])
    else if IsSpace(s[0]) then Squeeze(s[1..]) else [s[0]] + Squeeze(s[1..])
  }

  function SqueezeInside(s: string): string
    decreases |s|
  {
    if s == "" then ""
    else if s[0] == '\\' && |s| > 1 then s[..2] + SqueezeInside(s[2..])
    else if s[0] == '"' then "\"" + Squeeze(s[1..])
    else [s[0]] + SqueezeInside(s[1..])
  }

  function Strip(t: string): string {
    if t == "" then "" else if IsSpace(t[0]) then Strip(t[1..]) else [t[0]] + Strip(t[1..])
  }

  /** The pieces without white space in the text between words. */
  function Compacted(ps: seq<Piece>): string {
    if ps == [] then "" else
    (match ps[0] case Word(w) => Quoted(w) case Text(t) => Strip(t)) + Compacted(ps[1..])
  }

  predicate Plain(w: string) { '"' !in w && '\\' !in w }

  ghost predicate PlainPieces(ps: seq<Piece>) {
    forall i :: 0 <= i < |ps| ==> match ps[i] case Word(w) => Plain(w) case Text(t) => '"' !in t
  }

  lemma {:induction false} SqueezePassesText(t: string, rest: string)
    requires '"' !in t
    ensures Squeeze(t + rest) == Strip(t) + Squeeze(rest)
  {
    if t == "" {
      assert t + rest == rest;
    } else {
      assert (t + rest)[0] == t[0] && (t + rest)[1..] == t[1..] + rest;
      SqueezePassesText(t[1..], rest);
    }
  }

  lemma {:induction false} SqueezeKeepsWord(w: string, rest: string)
    requires Plain(w)
    ensures SqueezeInside(w + ("\"" + rest)) == w + ("\"" + Squeeze(rest))
  {
    var s := w + ("\"" + rest);
    if w == "" {
      assert s == "\"" + rest && s[1..] == rest;
    } else {
      assert s[0] == w[0] && s[1..] == w[1..] + ("\"" + rest);
      SqueezeKeepsWord(w[1..], rest);
      assert w == [w[0]] + w[1..];
    }
  }

  lemma SqueezeQuoted(w: string, rest: string)
    requires Plain(w)
    ensures Squeeze(Quoted(w) + rest) == Quoted(w) + Squeeze(rest)
  {
    hide SqueezeInside;
    var s := Quoted(w) + rest;
    assert s[0] == '"' && s[1..] == w + ("\"" + rest);
    SqueezeKeepsWord(w, rest);
    assert "\"" + (w + ("\"" + Squeeze(rest))) == Quoted(w) + Squeeze(rest);
  }

  lemma {:induction false} SqueezeIsCompacted(ps: seq<Piece>)
    requires PlainPieces(ps)
    ensures Squeeze(Render(ps)) == Compacted(ps)
  {
    hide Squeeze, Strip, Quoted, Plain;
    if ps == [] {
      assert Squeeze("") == "" by { NothingSqueezed(); }
    } else {
      var rest := Render(ps[1..]);
      SqueezeIsCompacted(ps[1..]);
      match ps[0]
      case Text(t) => SqueezePassesText(t, rest);
      case Word(w) => SqueezeQuoted(w, rest);
    }
  }

  lemma NothingSqueezed()
    ensures Squeeze("") == ""
  {
  }

  // --- fields and elements, one at a time ------------------------------------------------------------

  lemma {:induction false} StripAppends(a: string, b: string)
    ensures Strip(a + b) == Strip(a) + Strip(b)
  {
    if a == "" {
      assert a + b == b;
    } else {
      assert (a + b)[0] == a[0] && (a + b)[1..] == a[1..] + b;
      StripAppends(a[1..], b);
    }
  }

  lemma {:induction false} StripOfNumber(n: string)
    requires forall i :: 0 <= i < |n| ==> NumberChar(n[i])
    ensures Strip(n) == n
  {
    if n == "" {
    } else {
      StripOfNumber(n[1..]);
      assert n == [n[0]] + n[1..];
    }
  }

  lemma {:induction false} CompactedAppends(a: seq<Piece>, b: seq<Piece>)
    ensures Compacted(a + b) == Compacted(a) + Compacted(b)
  {
    if a == [] {
      assert a + b == b;
    } else {
      assert (a + b)[1..] == a[1..] + b;
      CompactedAppends(a[1..], b);
    }
  }

  lemma CompactedWord(w: string, ps: seq<Piece>)
    ensures Compacted([Word(w)] + ps) == Quoted(w) + Compacted(ps)
  {
    assert ([Word(w)] + ps)[1..] == ps;
  }

  lemma CompactedText(t: string, ps: seq<Piece>)
    ensures Compacted([Text(t)] + ps) == Strip(t) + Compacted(ps)
  {
    assert ([Text(t)] + ps)[1..] == ps;
  }

  lemma FieldsCons(f: Field, fields: seq<Field>)
    requires fields != []
    ensures FieldsText([f] + fields) == Quoted(f.key) + (":" + Compact(f.value)) + ("," + FieldsText(fields))
  {
    assert ([f] + fields)[1..] == fields;
  }

  /** Pieces that start with a field, given that what follows are the other fields and then the tail. */
  lemma FieldThen(f: Field, ps: seq<Piece>, rest: seq<Piece>, fields: seq<Field>, tail: string)
    requires fields != []
    requires Compacted(ps) == Quoted(f.key) + (":" + Compact(f.value)) + ("," + Compacted(rest))
    requires Compacted(rest) == FieldsText(fields) + tail
    ensures Compacted(ps) == FieldsText([f] + fields) + tail
  {
    hide Compacted, Compact, FieldsText, Quoted;
    FieldsCons(f, fields);
    var head := Quoted(f.key) + (":" + Compact(f.value));
    assert head + ("," + (FieldsText(fields) + tail)) == head + ("," + FieldsText(fields)) + tail;
  }

  lemma NumberText2(n: string)
    requires NumberText(n)
    ensures Strip(": " + (n + ", ")) == ":" + (n + ",")
  {
    StripOfNumber(n);
    StripAppends(": ", n + ", ");
    StripAppends(n, ", ");
    assert Strip(": ") == ":" && Strip(", ") == ",";
  }

  lemma NumberThen(key: string, n: string, rest: seq<Piece>, fields: seq<Field>, tail: string)
    requires NumberText(n) && fields != [] && Compacted(rest) == FieldsText(fields) + tail
    ensures Compacted([Word(key)] + ([Number(n)] + rest)) == FieldsText([Field(key, Num(n))] + fields) + tail
  {
    hide Compacted, FieldsText, Strip, Quoted;
    CompactedWord(key, [Number(n)] + rest);
    CompactedText(": " + (n + ", "), rest);
    NumberText2(n);
    var ps := [Word(key)] + ([Number(n)] + rest);
    assert Quoted(key) + (":" + (n + ",") + Compacted(rest)) == Quoted(key) + (":" + n) + ("," + Compacted(rest));
    FieldThen(Field(key, Num(n)), ps, rest, fields, tail);
  }

  /** A quoted field, with the text before it and behind it that white space stripping leaves empty and a comma. */
  lemma StringThen(key: string, value: string, comma: string, rest: seq<Piece>, fields: seq<Field>, tail: string)
    requires Strip(comma) == "," && fields != [] && Compacted(rest) == FieldsText(fields) + tail
    ensures Compacted([Word(key)] + ([Text(": ")] + ([Word(value)] + ([Text(comma)] + rest))))
            == FieldsText([Field(key, Str(value))] + fields) + tail
  {
    hide Compacted, FieldsText, Strip, Quoted;
    var ps := [Word(key)] + ([Text(": ")] + ([Word(value)] + ([Text(comma)] + rest)));
    CompactedWord(key, [Text(": ")] + ([Word(value)] + ([Text(comma)] + rest)));
    CompactedText(": ", [Word(value)] + ([Text(comma)] + rest));
    CompactedWord(value, [Text(comma)] + rest);
    CompactedText(comma, rest);
    assert Strip(": ") == ":" by { ColonStrips(); }
    assert Quoted(key) + (":" + (Quoted(value) + ("," + Compacted(rest))))
        == Quoted(key) + (":" + Quoted(value)) + ("," + Compacted(rest));
    FieldThen(Field(key, Str(value)), ps, rest, fields, tail);
  }

  lemma BlanksStrip()
    ensures Strip("\n") == "" && Strip("  ") == "" && Strip("\n  ") == "" && Strip("    ") == "" && Strip("      ") == ""
  {
    assert Strip("  ") == "";
    assert Strip("    ") == Strip("  ") == "";
  }

  lemma MarksStrip()
    ensures Strip(": ") == ":" && Strip(", ") == "," && Strip(",\n") == ","
    ensures Strip("{") == "{" && Strip("}") == "}" && Strip("]") == "]" && Strip("[\n") == "[" && Strip("{\n") == "{"
    ensures Strip(": {") == ":{" && Strip("},\n") == "},"
  {
  }

  lemma ClosingStrips()
    ensures Strip("}\n}\n") == "}}"
  {
    StripAppends("}\n", "}\n");
    assert "}\n" + "}\n" == "}\n}\n" && Strip("}\n") == "}";
  }

  lemma {:induction false} StripKeepsInk(s: string)
    requires forall i :: 0 <= i < |s| ==> !IsSpace(s[i])
    ensures Strip(s) == s
  {
    if s == "" {
    } else {
      StripKeepsInk(s[1..]);
      assert s == [s[0]] + s[1..];
    }
  }

  lemma TruthStrips()
    ensures Strip(": true\n") == ":true" && Strip(": false\n") == ":false"
  {
    hide Strip;
    MarksStrip();
    BlanksStrip();
    forall word | word == "true" || word == "false" ensures Strip(": " + (word + "\n")) == ":" + word {
      StripKeepsInk(word);
      StripAppends(word, "\n");
      StripAppends(": ", word + "\n");
    }
    assert ": " + ("true" + "\n") == ": true\n" && ": " + ("false" + "\n") == ": false\n";
    assert ":" + "true" == ":true" && ":" + "false" == ":false";
  }

  /** What white space stripping leaves of the text between the words. */
  lemma ColonStrips()
    ensures Strip(": ") == ":" && Strip(", ") == "," && Strip(",\n") == "," && Strip("\n") == ""
    ensures Strip("      ") == "" && Strip("    ") == "" && Strip("  ") == "" && Strip("\n  ") == ""
    ensures Strip("{") == "{" && Strip("}") == "}" && Strip("]") == "]" && Strip("[\n") == "[" && Strip("{\n") == "{"
    ensures Strip(": {") == ":{" && Strip("}\n}\n") == "}}" && Strip("},\n") == "},"
    ensures Strip(": true\n") == ":true" && Strip(": false\n") == ":false"
  {
    hide Strip;
    BlanksStrip();
    MarksStrip();
    ClosingStrips();
    TruthStrips();
  }

  // --- a tick ------------------------------------------------------------------------------------------

  lemma LastString(key: string, value: string, close: string, rest: seq<Piece>)
    requires Strip(close) == "}"
    ensures Compacted([Word(key)] + ([Text(": ")] + ([Word(value)] + ([Text(close)] + rest))))
            == FieldsText([Field(key, Str(value))]) + ("}" + Compacted(rest))
  {
    hide Compacted, Strip, Quoted;
    CompactedWord(key, [Text(": ")] + ([Word(value)] + ([Text(close)] + rest)));
    CompactedText(": ", [Word(value)] + ([Text(close)] + rest));
    CompactedWord(value, [Text(close)] + rest);
    CompactedText(close, rest);
    ColonStrips();
    assert FieldsText([Field(key, Str(value))]) == Quoted(key) + (":" + Quoted(value)) + "";
    assert Quoted(key) + (":" + (Quoted(value) + ("}" + Compacted(rest))))
        == Quoted(key) + (":" + Quoted(value)) + "" + ("}" + Compacted(rest));
  }

  /** The fields of a tick line, regrouped as a chain. */
  function TickChain(t: TickReport, rest: seq<Piece>): seq<Piece> {
    [Word("tick")] + ([Number(PrintNat(t.tick))] +
    ([Word("rpm")] + ([Number(PrintFixed(t.reading.rpm))] +
    ([Word("temp")] + ([Number(PrintFixed(t.reading.temperature))] +
    ([Word("oil")] + ([Number(PrintFixed(t.reading.oilPressure))] +
    ([Word("run")] + ([Number(PrintInt(t.reading.isRunning))] +
    ([Word("result")] + ([Text(": ")] + ([Word(ResultName(t.result))] + ([Text(", ")] +
    ([Word("control")] + ([Number(PrintFixed(t.control))] +
    ([Word("engine_mode")] + ([Text(": ")] + ([Word(ModeName(t.mode))] + ([Text("}")] + rest)))))))))))))))))))
  }

  lemma Ten<T>(s: seq<T>, rest: seq<T>)
    requires |s| == 10
    ensures s + rest == [s[0]] + ([s[1]] + ([s[2]] + ([s[3]] + ([s[4]] + ([s[5]] + ([s[6]] + ([s[7]] + ([s[8]] +
                        ([s[9]] + rest)))))))))
  {
  }

  lemma Nine<T>(s: seq<T>, rest: seq<T>)
    requires |s| == 9
    ensures s + rest == [s[0]] + ([s[1]] + ([s[2]] + ([s[3]] + ([s[4]] + ([s[5]] + ([s[6]] + ([s[7]] + ([s[8]] + rest))))))))
  {
  }

  lemma SensorChain(t: TickReport, rest: seq<Piece>)
    ensures SensorFields(t) + rest ==
            [Word("tick")] + ([Number(PrintNat(t.tick))] +
            ([Word("rpm")] + ([Number(PrintFixed(t.reading.rpm))] +
            ([Word("temp")] + ([Number(PrintFixed(t.reading.temperature))] +
            ([Word("oil")] + ([Number(PrintFixed(t.reading.oilPressure))] +
            ([Word("run")] + ([Number(PrintInt(t.reading.isRunning))] + rest)))))))))
  {
    hide PrintNat, PrintInt, PrintFixed, Number;
    Ten(SensorFields(t), rest);
  }

  lemma OutcomeChain(t: TickReport, rest: seq<Piece>)
    ensures OutcomeFields(t) + rest ==
            [Word("result")] + ([Text(": ")] + ([Word(ResultName(t.result))] + ([Text(", ")] +
            ([Word("control")] + ([Number(PrintFixed(t.control))] +
            ([Word("engine_mode")] + ([Text(": ")] + ([Word(ModeName(t.mode))] + rest))))))))
  {
    hide PrintFixed, Number, ResultName, ModeName;
    Nine(OutcomeFields(t), rest);
  }

  lemma TickChainIs(t: TickReport, last: bool, rest: seq<Piece>)
    ensures TickLine(t, last) + rest ==
            [Text("        ")] + ([Text("{")] + TickChain(t, [Text(if last then "\n" else ",\n")] + rest))
  {
    hide PrintNat, PrintInt, PrintFixed, Number, ResultName, ModeName, SensorFields, OutcomeFields;
    var close := [Text("}"), Text(if last then "\n" else ",\n")];
    var end := [Text("}")] + ([Text(if last then "\n" else ",\n")] + rest);
    var start := [Text("        "), Text("{")];
    assert close + rest == end;
    Regroup(start, TickFields(t) + close, rest);
    Regroup(TickFields(t), close, rest);
    Regroup(SensorFields(t), OutcomeFields(t), end);
    SensorChain(t, OutcomeFields(t) + end);
    OutcomeChain(t, end);
    TwoFirst(start, TickFields(t) + end);
  }

  lemma TwoFirst<T>(s: seq<T>, rest: seq<T>)
    requires |s| == 2
    ensures s + rest == [s[0]] + ([s[1]] + rest)
  {
  }

  lemma TickChainText(t: TickReport, rest: seq<Piece>)
    ensures Compacted([Text("{")] + TickChain(t, rest)) == Compact(TickJson(t)) + Compacted(rest)
  {
    hide Compacted, FieldsText, Strip, Number, PrintNat, PrintInt, PrintFixed, ResultName, ModeName;
    var tail := "}" + Compacted(rest);
    ColonStrips();
    var f8 := [Field("engine_mode", Str(ModeName(t.mode)))];
    var p8 := [Word("engine_mode")] + ([Text(": ")] + ([Word(ModeName(t.mode))] + ([Text("}")] + rest)));
    LastString("engine_mode", ModeName(t.mode), "}", rest);
    PrintedNumbersArePlain(t.tick, t.reading.isRunning, t.control);
    PrintedNumbersArePlain(0, 0, t.reading.rpm);
    PrintedNumbersArePlain(0, 0, t.reading.temperature);
    PrintedNumbersArePlain(0, 0, t.reading.oilPressure);
    NumberThen("control", PrintFixed(t.control), p8, f8, tail);
    var f7 := [Field("control", Num(PrintFixed(t.control)))] + f8;
    var p7 := [Word("control")] + ([Number(PrintFixed(t.control))] + p8);
    StringThen("result", ResultName(t.result), ", ", p7, f7, tail);
    var f6 := [Field("result", Str(ResultName(t.result)))] + f7;
    var p6 := [Word("result")] + ([Text(": ")] + ([Word(ResultName(t.result))] + ([Text(", ")] + p7)));
    NumberThen("run", PrintInt(t.reading.isRunning), p6, f6, tail);
    var f5 := [Field("run", Num(PrintInt(t.reading.isRunning)))] + f6;
    var p5 := [Word("run")] + ([Number(PrintInt(t.reading.isRunning))] + p6);
    NumberThen("oil", PrintFixed(t.reading.oilPressure), p5, f5, tail);
    var f4 := [Field("oil", Num(PrintFixed(t.reading.oilPressure)))] + f5;
    var p4 := [Word("oil")] + ([Number(PrintFixed(t.reading.oilPressure))] + p5);
    NumberThen("temp", PrintFixed(t.reading.temperature), p4, f4, tail);
    var f3 := [Field("temp", Num(PrintFixed(t.reading.temperature)))] + f4;
    var p3 := [Word("temp")] + ([Number(PrintFixed(t.reading.temperature))] + p4);
    NumberThen("rpm", PrintFixed(t.reading.rpm), p3, f3, tail);
    var f2 := [Field("rpm", Num(PrintFixed(t.reading.rpm)))] + f3;
    var p2 := [Word("rpm")] + ([Number(PrintFixed(t.reading.rpm))] + p3);
    NumberThen("tick", PrintNat(t.tick), p2, f2, tail);
    CompactedText("{", TickChain(t, rest));
    var fields := FieldsText([Field("tick", Num(PrintNat(t.tick)))] + f2);
    assert "{" + (fields + ("}" + Compacted(rest))) == "{" + (fields + "}") + Compacted(rest);
  }

  lemma ElementsCons(j: Json, js: seq<Json>)
    ensures ElementsText([j] + js) == Compact(j) + if js == [] then "" else "," + ElementsText(js)
  {
    assert ([j] + js)[1..] == js;
  }

  lemma {:induction false} TicksText(reports: seq<TickReport>, from: nat, rest: seq<Piece>)
    requires from <= |reports|
    ensures Compacted(TicksThen(reports, from, rest)) == ElementsText(TickJsons(reports, from)) + Compacted(rest)
    decreases |reports| - from
  {
    hide Compacted, Compact, ElementsText, Strip, TickLine, TickChain, TickJson;
    if from == |reports| {
      assert ElementsText([]) == "" by { NoElements(); }
    } else {
      var t, last := reports[from], from + 1 == |reports|;
      var later := TicksThen(reports, from + 1, rest);
      var separator := if last then "\n" else ",\n";
      TicksText(reports, from + 1, rest);
      TickChainIs(t, last, later);
      CompactedText("        ", [Text("{")] + TickChain(t, [Text(separator)] + later));
      TickChainText(t, [Text(separator)] + later);
      CompactedText(separator, later);
      ColonStrips();
      assert Strip("        ") == "" by { EightBlanks(); }
      ElementsCons(TickJson(t), TickJsons(reports, from + 1));
      assert last ==> ElementsText(TickJsons(reports, from + 1)) == "" by { NoElements(); }
      assert last <==> TickJsons(reports, from + 1) == [];
    }
  }

  lemma NoElements()
    ensures ElementsText([]) == ""
  {
  }

  lemma EightBlanks()
    ensures Strip("        ") == ""
  {
  }

  // --- a scenario -------------------------------------------------------------------------------------------

  lemma LineThen(key: Key, value: string, rest: seq<Piece>, fields: seq<Field>, tail: string)
    requires fields != [] && Compacted(rest) == FieldsText(fields) + tail
    ensures Compacted(TextLine(key, value) + rest) == FieldsText([Field(KeyName(key), Str(value))] + fields) + tail
    ensures Compacted(HeaderLine(key, value) + rest) == FieldsText([Field(KeyName(key), Str(value))] + fields) + tail
  {
    hide Compacted, FieldsText, Strip, KeyName;
    ColonStrips();
    var chain := [Word(KeyName(key))] + ([Text(": ")] + ([Word(value)] + ([Text(",\n")] + rest)));
    StringThen(KeyName(key), value, ",\n", rest, fields, tail);
    assert TextLine(key, value) + rest == [Text("      ")] + chain;
    assert HeaderLine(key, value) + rest == [Text("  ")] + chain;
    CompactedText("      ", chain);
    CompactedText("  ", chain);
  }

  /** A field that is an array, given what its elements and the fields behind it come to. */
  lemma ArrayThen(key: string, elements: seq<Json>, ps: seq<Piece>, rest: string, fields: seq<Field>, tail: string)
    requires fields != [] && rest == FieldsText(fields) + tail
    requires Compacted(ps) == Quoted(key) + (":[" + (ElementsText(elements) + ("]," + rest)))
    ensures Compacted(ps) == FieldsText([Field(key, Arr(elements))] + fields) + tail
  {
    hide Compacted, FieldsText, ElementsText, Quoted;
    FieldsCons(Field(key, Arr(elements)), fields);
    var all := ElementsText(elements);
    assert Compact(Arr(elements)) == "[" + (all + "]");
    assert Quoted(key) + (":[" + (all + ("]," + (FieldsText(fields) + tail))))
        == Quoted(key) + (":" + ("[" + (all + "]"))) + ("," + FieldsText(fields)) + tail;
  }

  lemma PassText(pass: bool, rest: seq<Piece>)
    ensures Compacted(PassLine(pass) + (CLOSE_OBJECT + rest)) == FieldsText([Field("pass", Bool(pass))]) + ("}" + Compacted(rest))
  {
    hide Compacted, Strip;
    ColonStrips();
    var value := if pass then ": true\n" else ": false\n";
    var close := [Text("    ")] + ([Text("}")] + rest);
    assert PassLine(pass) + (CLOSE_OBJECT + rest) == [Text("      ")] + ([Word("pass")] + ([Text(value)] + close));
    CompactedText("      ", [Word("pass")] + ([Text(value)] + close));
    CompactedWord("pass", [Text(value)] + close);
    CompactedText(value, close);
    CompactedText("    ", [Text("}")] + rest);
    CompactedText("}", rest);
    assert FieldsText([Field("pass", Bool(pass))]) == Quoted("pass") + (":" + (if pass then "true" else "false")) + "";
    assert (if pass then ":true" else ":false") == ":" + if pass then "true" else "false";
  }

  lemma TickArrayText(run: ScenarioRun, rest: seq<Piece>)
    ensures Compacted(OPEN_TICKS + TicksThen(run.reports, 0, CLOSE_TICKS + rest)) ==
            Quoted("ticks") + (":[" + (ElementsText(TickJsons(run.reports, 0)) + ("]," + Compacted(rest))))
  {
    hide Compacted, Strip, TicksThen, ElementsText, TickJsons, Quoted;
    ColonStrips();
    var ticks := TicksThen(run.reports, 0, CLOSE_TICKS + rest);
    assert OPEN_TICKS + ticks == [Text("      ")] + ([Word("ticks")] + ([Text(": ")] + ([Text("[\n")] + ticks)));
    CompactedText("      ", [Word("ticks")] + ([Text(": ")] + ([Text("[\n")] + ticks)));
    CompactedWord("ticks", [Text(": ")] + ([Text("[\n")] + ticks));
    CompactedText(": ", [Text("[\n")] + ticks);
    CompactedText("[\n", ticks);
    TicksText(run.reports, 0, CLOSE_TICKS + rest);
    assert CLOSE_TICKS + rest == [Text("      ")] + ([Text("]")] + ([Text(",\n")] + rest));
    CompactedText("      ", [Text("]")] + ([Text(",\n")] + rest));
    CompactedText("]", [Text(",\n")] + rest);
    CompactedText(",\n", rest);
    var all, after := ElementsText(TickJsons(run.reports, 0)), Compacted(rest);
    assert Quoted("ticks") + (":" + ("[" + (all + ("]" + ("," + after))))) == Quoted("ticks") + (":[" + (all + ("]," + after)));
  }

  lemma ObjectText(run: ScenarioRun, rest: seq<Piece>)
    ensures Compacted(ObjectThen(run, rest)) == Compact(RunJson(run)) + Compacted(rest)
  {
    hide Compacted, FieldsText, Strip, TextLine, PassLine, TicksThen, ElementsText, TickJsons, ResultName;
    var tail := "}" + Compacted(rest);
    var f6 := [Field("pass", Bool(run.expected == run.actual))];
    var p6 := PassLine(run.expected == run.actual) + (CLOSE_OBJECT + rest);
    PassText(run.expected == run.actual, rest);
    LineThen(ActualKey, ResultName(run.actual), p6, f6, tail);
    var f5 := [Field("actual", Str(ResultName(run.actual)))] + f6;
    var p5 := TextLine(ActualKey, ResultName(run.actual)) + p6;
    LineThen(ExpectedKey, ResultName(run.expected), p5, f5, tail);
    var f4 := [Field("expected", Str(ResultName(run.expected)))] + f5;
    var p4 := TextLine(ExpectedKey, ResultName(run.expected)) + p5;
    var p3 := OPEN_TICKS + TicksThen(run.reports, 0, CLOSE_TICKS + p4);
    TickArrayText(run, p4);
    ArrayThen("ticks", TickJsons(run.reports, 0), p3, Compacted(p4), f4, tail);
    var f3 := [Field("ticks", Arr(TickJsons(run.reports, 0)))] + f4;
    LineThen(RequirementKey, run.requirementId, p3, f3, tail);
    var f2 := [Field("requirement_id", Str(run.requirementId))] + f3;
    var p2 := TextLine(RequirementKey, run.requirementId) + p3;
    LineThen(ScenarioKey, run.name, p2, f2, tail);
    var p1 := TextLine(ScenarioKey, run.name) + p2;
    OpenObject(p1);
    var fields := FieldsText([Field("scenario", Str(run.name))] + f2);
    assert "{" + (fields + ("}" + Compacted(rest))) == "{" + (fields + "}") + Compacted(rest);
  }

  lemma OpenObject(ps: seq<Piece>)
    ensures Compacted(OPEN_OBJECT + ps) == "{" + Compacted(ps)
  {
    hide Compacted, Strip;
    ColonStrips();
    assert OPEN_OBJECT + ps == [Text("    ")] + ([Text("{")] + ([Text("\n")] + ps));
    CompactedText("    ", [Text("{")] + ([Text("\n")] + ps));
    CompactedText("{", [Text("\n")] + ps);
    CompactedText("\n", ps);
  }

  lemma {:induction false} ObjectsText(runs: seq<ScenarioRun>, from: nat, rest: seq<Piece>)
    requires from <= |runs|
    ensures Compacted(ObjectsThen(runs, from, rest)) ==
            (if from == 0 || from == |runs| then "" else ",") + (ElementsText(RunJsons(runs, from)) + Compacted(rest))
    decreases |runs| - from
  {
    hide Compacted, Compact, ElementsText, Strip, ObjectThen, RunJson;
    NoElements();
    if from == |runs| {
    } else {
      var run, later := runs[from], ObjectsThen(runs, from + 1, rest);
      ObjectsText(runs, from + 1, rest);
      ObjectText(run, later);
      CompactedText(",\n", ObjectThen(run, later));
      ColonStrips();
      ElementsCons(RunJson(run), RunJsons(runs, from + 1));
      assert from + 1 == |runs| <==> RunJsons(runs, from + 1) == [];
      var one, more, after := Compact(RunJson(run)), ElementsText(RunJsons(runs, from + 1)), Compacted(rest);
      assert one + ("," + (more + after)) == one + ("," + more) + after;
    }
  }

  // --- the document ----------------------------------------------------------------------------------------------

  lemma TotalText(total: int)
    ensures Compacted([Word("total")] + ([Text(": " + PrintInt(total))] + [Text("}\n}\n")])) ==
            FieldsText([Field("total", Num(PrintInt(total)))]) + "}}"
  {
    hide Compacted, Strip, PrintInt;
    ColonStrips();
    PrintedNumbersArePlain(0, total, 0.0);
    var last := [Text(": " + PrintInt(total))] + [Text("}\n}\n")];
    CompactedWord("total", last);
    CompactedText(": " + PrintInt(total), [Text("}\n}\n")]);
    StripAppends(": ", PrintInt(total));
    StripOfNumber(PrintInt(total));
    assert [Text("}\n}\n")] == [Text("}\n}\n")] + [];
    CompactedText("}\n}\n", []);
    assert Compacted([]) == "" by { NothingCompacted(); }
    assert FieldsText([Field("total", Num(PrintInt(total)))]) == Quoted("total") + (":" + PrintInt(total)) + "";
  }

  lemma SummaryText(passed: int, total: int)
    ensures Compacted(SummaryLine(passed, total)) == FieldsText([Field("summary", SummaryJson(passed, total))]) + "}"
  {
    hide Compacted, Strip, PrintInt, Number, Quoted;
    ColonStrips();
    PrintedNumbersArePlain(0, passed, 0.0);
    var p2 := [Word("total")] + ([Text(": " + PrintInt(total))] + [Text("}\n}\n")]);
    var p1 := [Word("passed")] + ([Number(PrintInt(passed))] + p2);
    assert SummaryLine(passed, total) == [Text("  ")] + ([Word("summary")] + ([Text(": {")] + p1));
    CompactedText("  ", [Word("summary")] + ([Text(": {")] + p1));
    CompactedWord("summary", [Text(": {")] + p1);
    CompactedText(": {", p1);
    var f2 := [Field("total", Num(PrintInt(total)))];
    TotalText(total);
    NumberThen("passed", PrintInt(passed), p2, f2, "}}");
    SummaryFieldText(passed, total);
  }

  lemma SummaryFieldText(passed: int, total: int)
    ensures var inner := FieldsText([Field("passed", Num(PrintInt(passed)))] + [Field("total", Num(PrintInt(total)))]);
            Quoted("summary") + (":{" + (inner + "}}")) == FieldsText([Field("summary", SummaryJson(passed, total))]) + "}"
  {
    hide Quoted, PrintInt;
    var fields := [Field("passed", Num(PrintInt(passed)))] + [Field("total", Num(PrintInt(total)))];
    var inner := FieldsText(fields);
    assert Compact(SummaryJson(passed, total)) == "{" + (inner + "}");
    assert FieldsText([Field("summary", SummaryJson(passed, total))]) == Quoted("summary") + (":" + ("{" + (inner + "}"))) + "";
  }

  lemma NothingCompacted()
    ensures Compacted([]) == ""
  {
  }

  lemma FieldChain(key: string, value: string, rest: seq<Piece>, fields: seq<Field>, tail: string)
    requires fields != [] && Compacted(rest) == FieldsText(fields) + tail
    ensures Compacted(TextField(key, value) + rest) == FieldsText([Field(key, Str(value))] + fields) + tail
  {
    hide Compacted, FieldsText, Strip;
    ColonStrips();
    StringThen(key, value, ", ", rest, fields, tail);
    assert TextField(key, value) + rest == [Word(key)] + ([Text(": ")] + ([Word(value)] + ([Text(", ")] + rest)));
  }

  lemma ErrorFieldsText(e: ErrorInfo, rest: seq<Piece>)
    ensures var end := [Word("tick"), Text(": " + PrintNat(e.tick)), Text("},\n")] + rest;
            Compacted(end) == FieldsText([Field("tick", Num(PrintNat(e.tick)))]) + ("}," + Compacted(rest))
  {
    hide Compacted, Strip, PrintNat;
    ColonStrips();
    PrintedNumbersArePlain(e.tick, 0, 0.0);
    var number := ": " + PrintNat(e.tick);
    var end := [Word("tick"), Text(number), Text("},\n")] + rest;
    assert end == [Word("tick")] + ([Text(number)] + ([Text("},\n")] + rest));
    CompactedWord("tick", [Text(number)] + ([Text("},\n")] + rest));
    CompactedText(number, [Text("},\n")] + rest);
    CompactedText("},\n", rest);
    StripAppends(": ", PrintNat(e.tick));
    StripOfNumber(PrintNat(e.tick));
    assert FieldsText([Field("tick", Num(PrintNat(e.tick)))]) == Quoted("tick") + (":" + PrintNat(e.tick)) + "";
  }

  lemma ErrorText(e: ErrorInfo, rest: seq<Piece>, fields: seq<Field>, tail: string)
    requires fields != [] && Compacted(rest) == FieldsText(fields) + tail
    ensures Compacted(ErrorLine(e) + rest) == FieldsText([Field("error", ErrorJson(e))] + fields) + tail
  {
    hide Compacted, FieldsText, Strip, TextField, PrintNat, StatusName, SeverityName;
    ColonStrips();
    var after := "}," + Compacted(rest);
    var f6, end := [Field("tick", Num(PrintNat(e.tick)))], [Word("tick"), Text(": " + PrintNat(e.tick)), Text("},\n")];
    ErrorFieldsText(e, rest);
    var recoverability := if e.recoverable then "RECOVERABLE" else "NON_RECOVERABLE";
    FieldChain("function", e.operation, end + rest, f6, after);
    var f5, p5 := [Field("function", Str(e.operation))] + f6, TextField("function", e.operation) + (end + rest);
    FieldChain("module", e.origin, p5, f5, after);
    var f4, p4 := [Field("module", Str(e.origin))] + f5, TextField("module", e.origin) + p5;
    FieldChain("recoverability", recoverability, p4, f4, after);
    var f3, p3 := [Field("recoverability", Str(recoverability))] + f4, TextField("recoverability", recoverability) + p4;
    FieldChain("severity", SeverityName(e.severity), p3, f3, after);
    var f2, p2 := [Field("severity", Str(SeverityName(e.severity)))] + f3, TextField("severity", SeverityName(e.severity)) + p3;
    FieldChain("code", StatusName(e.code), p2, f2, after);
    var p1 := TextField("code", StatusName(e.code)) + p2;
    var ps := [Text("  ")] + ([Word("error")] + ([Text(": {")] + p1));
    ErrorLineThen(e, rest);
    CompactedText("  ", [Word("error")] + ([Text(": {")] + p1));
    CompactedWord("error", [Text(": {")] + p1);
    CompactedText(": {", p1);
    var inner := FieldsText([Field("code", Str(StatusName(e.code)))] + f2);
    assert Compact(ErrorJson(e)) == "{" + (inner + "}");
    assert Quoted("error") + (":{" + (inner + ("}," + Compacted(rest)))) ==
           Quoted("error") + (":" + ("{" + (inner + "}"))) + ("," + Compacted(rest));
    FieldThen(Field("error", ErrorJson(e)), ps, rest, fields, tail);
  }

  lemma ErrorLineThen(e: ErrorInfo, rest: seq<Piece>)
    ensures ErrorLine(e) + rest == [Text("  ")] + ([Word("error")] + ([Text(": {")] +
      (TextField("code", StatusName(e.code)) + (TextField("severity", SeverityName(e.severity)) +
      (TextField("recoverability", if e.recoverable then "RECOVERABLE" else "NON_RECOVERABLE") +
      (TextField("module", e.origin) + (TextField("function", e.operation) +
      ([Word("tick"), Text(": " + PrintNat(e.tick)), Text("},\n")] + rest))))))))
  {
    hide TextField, StatusName, SeverityName, PrintNat;
    var end := [Word("tick"), Text(": " + PrintNat(e.tick)), Text("},\n")];
    var b, c := TextField("code", StatusName(e.code)), TextField("severity", SeverityName(e.severity));
    var d := TextField("recoverability", if e.recoverable then "RECOVERABLE" else "NON_RECOVERABLE");
    var f, g := TextField("module", e.origin), TextField("function", e.operation);
    Regroup(g, end, rest);
    Regroup(f, g + end, rest);
    Regroup(d, f + (g + end), rest);
    Regroup(c, d + (f + (g + end)), rest);
    Regroup(b, c + (d + (f + (g + end))), rest);
    Regroup([Text("  "), Word("error"), Text(": {")], b + (c + (d + (f + (g + end)))), rest);
    assert [Text("  "), Word("error"), Text(": {")] == [Text("  ")] + ([Word("error")] + [Text(": {")]);
  }

  lemma FooterText2(error: Option<ErrorInfo>, passed: int, total: int)
    ensures Compacted(Footer(error, passed, total)) == "]," + (FieldsText(EndFields(error, passed, total)) + "}")
  {
    hide Compacted, FieldsText, Strip, SummaryLine, SummaryJson, ErrorLine, ErrorJson;
    ColonStrips();
    var summary, field := SummaryLine(passed, total), [Field("summary", SummaryJson(passed, total))];
    SummaryText(passed, total);
    var end := ErrorPart(error) + summary;
    assert Footer(error, passed, total) == [Text("\n  ")] + ([Text("]")] + ([Text(",\n")] + end));
    CompactedText("\n  ", [Text("]")] + ([Text(",\n")] + end));
    CompactedText("]", [Text(",\n")] + end);
    CompactedText(",\n", end);
    if error.Some? && error.value.code != StatusOk {
      ErrorText(error.value, summary, field, "}");
    } else {
      assert end == summary && [] + field == field;
    }
    assert "]" + ("," + Compacted(end)) == "]," + Compacted(end);
  }

  /** White space apart, the printed report is the text of the report's value. */
  lemma ReportIsItsValue(commit: string, runs: seq<ScenarioRun>, error: Option<ErrorInfo>, passed: int, total: int)
    requires PlainPieces(HeaderThen(commit, ObjectsThen(runs, 0, Footer(error, passed, total))))
    ensures Squeeze(Render(HeaderThen(commit, ObjectsThen(runs, 0, Footer(error, passed, total)))))
         == Compact(ReportValue(commit, runs, error, passed, total))
  {
    hide Compacted, FieldsText, ElementsText, Strip, HeaderLine, ObjectsThen, Footer, Render, EndFields, RunJsons, Squeeze;
    var footer := Footer(error, passed, total);
    var objects, ends := ObjectsThen(runs, 0, footer), EndFields(error, passed, total);
    SqueezeIsCompacted(HeaderThen(commit, objects));
    ColonStrips();
    ObjectsText(runs, 0, footer);
    FooterText2(error, passed, total);
    var p4 := OPEN_SCENARIOS + objects;
    assert p4 == [Text("  ")] + ([Word("scenarios")] + ([Text(": ")] + ([Text("[\n")] + objects)));
    CompactedText("  ", [Word("scenarios")] + ([Text(": ")] + ([Text("[\n")] + objects)));
    CompactedWord("scenarios", [Text(": ")] + ([Text("[\n")] + objects));
    CompactedText(": ", [Text("[\n")] + objects);
    CompactedText("[\n", objects);
    var all := ElementsText(RunJsons(runs, 0));
    assert Quoted("scenarios") + (":" + ("[" + ("" + (all + ("]," + (FieldsText(ends) + "}")))))) ==
           Quoted("scenarios") + (":[" + (all + ("]," + (FieldsText(ends) + "}"))));
    EndsWithSummary(error, passed, total);
    ArrayThen("scenarios", RunJsons(runs, 0), p4, FieldsText(ends) + "}", ends, "}");
    var f4 := [Field("scenarios", Arr(RunJsons(runs, 0)))] + ends;
    LineThen(CommitKey, commit, p4, f4, "}");
    var f3, p3 := [Field("build_commit", Str(commit))] + f4, HeaderLine(CommitKey, commit) + p4;
    LineThen(SoftwareKey, SOFTWARE_VERSION, p3, f3, "}");
    var f2, p2 := [Field("software_version", Str(SOFTWARE_VERSION))] + f3, HeaderLine(SoftwareKey, SOFTWARE_VERSION) + p3;
    LineThen(SchemaKey, SCHEMA_VERSION, p2, f2, "}");
    CompactedText("{\n", HeaderLine(SchemaKey, SCHEMA_VERSION) + p2);
  }

  lemma EndsWithSummary(error: Option<ErrorInfo>, passed: int, total: int)
    ensures EndFields(error, passed, total) != []
  {
  }

  // --- reports that are plain ------------------------------------------------------------------------------------

  lemma PlainAppends(a: seq<Piece>, b: seq<Piece>)
    requires PlainPieces(a) && PlainPieces(b)
    ensures PlainPieces(a + b)
  {
  }

  lemma NamesArePlain(k: Key, v: Verdict, m: Mode)
    ensures Plain(KeyName(k)) && Plain(ResultName(v)) && Plain(ModeName(m))
  {
    hide KeyName;
    KeyIsLowerCase(k);
    NameIsUnmarked(v, m);
    VerdictsArePlain(v, m);
  }

  lemma VerdictsArePlain(v: Verdict, m: Mode)
    ensures '\\' !in ResultName(v) && '\\' !in ModeName(m)
  {
  }

  lemma LineIsPlain(key: Key, value: string)
    requires Plain(value)
    ensures PlainPieces(TextLine(key, value)) && PlainPieces(HeaderLine(key, value))
  {
    hide KeyName;
    NamesArePlain(key, ResultOk, Init);
  }

  lemma TickLineIsPlain(t: TickReport, last: bool)
    ensures PlainPieces(TickLine(t, last))
  {
    hide TickFields, KeyName, ResultName, ModeName, PrintNat, PrintInt, PrintFixed;
    FieldLayout(t);
    FieldsAreUnmarked(t);
    forall k: Key ensures Plain(KeyName(k)) { NamesArePlain(k, t.result, t.mode); }
    NamesArePlain(TickKey, t.result, t.mode);
    forall i | 0 <= i < 19 ensures match TickFields(t)[i] case Word(w) => Plain(w) case Text(x) => '"' !in x {
      assert UnmarkedPiece(TickFields(t)[i]);
    }
    PlainAppends(TickFields(t), [Text("}"), Text(if last then "\n" else ",\n")]);
  }

  lemma {:induction false} TicksArePlain(reports: seq<TickReport>, from: nat, rest: seq<Piece>)
    requires from <= |reports| && PlainPieces(rest)
    ensures PlainPieces(TicksThen(reports, from, rest))
    decreases |reports| - from
  {
    hide TickLine, PlainPieces;
    if from == |reports| {
    } else {
      TicksArePlain(reports, from + 1, rest);
      TickLineIsPlain(reports[from], from + 1 == |reports|);
      PlainAppends(TickLine(reports[from], from + 1 == |reports|), TicksThen(reports, from + 1, rest));
    }
  }

  lemma FixedLinesArePlain(pass: bool)
    ensures PlainPieces(OPEN_OBJECT) && PlainPieces(OPEN_TICKS) && PlainPieces(CLOSE_TICKS) && PlainPieces(CLOSE_OBJECT)
    ensures PlainPieces(PassLine(pass)) && PlainPieces(COMMA) && PlainPieces(OPEN_SCENARIOS) && PlainPieces(OPEN_DOCUMENT)
    ensures PlainPieces(CLOSE_SCENARIOS)
  {
    hide KeyName;
    NamesArePlain(TicksKey, ResultOk, Init);
    NamesArePlain(PassKey, ResultOk, Init);
    NamesArePlain(ScenariosKey, ResultOk, Init);
  }

  lemma ObjectIsPlain(run: ScenarioRun, rest: seq<Piece>)
    requires Plain(run.name) && Plain(run.requirementId) && PlainPieces(rest)
    ensures PlainPieces(ObjectThen(run, rest))
  {
    hide PlainPieces, TextLine, PassLine, TicksThen, ResultName;
    var pass, actual := PassLine(run.expected == run.actual), TextLine(ActualKey, ResultName(run.actual));
    var expected := TextLine(ExpectedKey, ResultName(run.expected));
    FixedLinesArePlain(run.expected == run.actual);
    NamesArePlain(TickKey, run.actual, Init);
    NamesArePlain(TickKey, run.expected, Init);
    LineIsPlain(ActualKey, ResultName(run.actual));
    LineIsPlain(ExpectedKey, ResultName(run.expected));
    PlainAppends(CLOSE_OBJECT, rest);
    PlainAppends(pass, CLOSE_OBJECT + rest);
    PlainAppends(actual, pass + (CLOSE_OBJECT + rest));
    PlainAppends(expected, actual + (pass + (CLOSE_OBJECT + rest)));
    PlainAppends(CLOSE_TICKS, expected + (actual + (pass + (CLOSE_OBJECT + rest))));
    var ticks := TicksThen(run.reports, 0, ObjectEnd(run, rest));
    TicksArePlain(run.reports, 0, ObjectEnd(run, rest));
    LineIsPlain(ScenarioKey, run.name);
    LineIsPlain(RequirementKey, run.requirementId);
    PlainAppends(OPEN_TICKS, ticks);
    PlainAppends(TextLine(RequirementKey, run.requirementId), OPEN_TICKS + ticks);
    PlainAppends(TextLine(ScenarioKey, run.name), TextLine(RequirementKey, run.requirementId) + (OPEN_TICKS + ticks));
    PlainAppends(OPEN_OBJECT, TextLine(ScenarioKey, run.name) + (TextLine(RequirementKey, run.requirementId) + (OPEN_TICKS + ticks)));
  }

  /** Names that stand in a JSON string as they are. */
  predicate PlainRun(run: ScenarioRun) { Plain(run.name) && Plain(run.requirementId) }

  lemma {:induction false} ObjectsArePlain(runs: seq<ScenarioRun>, from: nat, rest: seq<Piece>)
    requires from <= |runs| && PlainPieces(rest) && forall i :: 0 <= i < |runs| ==> PlainRun(runs[i])
    ensures PlainPieces(ObjectsThen(runs, from, rest))
    decreases |runs| - from
  {
    hide PlainPieces, ObjectThen;
    if from == |runs| {
    } else {
      ObjectsArePlain(runs, from + 1, rest);
      assert PlainRun(runs[from]);
      ObjectIsPlain(runs[from], ObjectsThen(runs, from + 1, rest));
      FixedLinesArePlain(true);
      PlainAppends(COMMA, ObjectThen(runs[from], ObjectsThen(runs, from + 1, rest)));
    }
  }

  predicate PlainErrorInfo(error: Option<ErrorInfo>) {
    error.Some? ==> Plain(error.value.origin) && Plain(error.value.operation)
  }

  lemma SummaryIsPlain(passed: int, total: int)
    ensures PlainPieces(SummaryLine(passed, total))
  {
    hide KeyName, PrintInt;
    NamesArePlain(SummaryKey, ResultOk, Init);
    NamesArePlain(PassedKey, ResultOk, Init);
    NamesArePlain(TotalKey, ResultOk, Init);
    PrintedNumbersArePlain(0, passed, 0.0);
    PrintedNumbersArePlain(0, total, 0.0);
    assert '"' !in PrintInt(passed) && '"' !in PrintInt(total);
  }

  lemma ErrorNamesArePlain(code: StatusCode, severity: Severity)
    ensures Plain(StatusName(code)) && Plain(SeverityName(severity))
  {
  }

  lemma TextFieldIsPlain(name: string, value: string)
    requires Plain(name) && Plain(value)
    ensures PlainPieces(TextField(name, value))
  {
  }

  lemma ErrorLineIsPlain(e: ErrorInfo)
    requires Plain(e.origin) && Plain(e.operation)
    ensures PlainPieces(ErrorLine(e))
  {
    hide PlainPieces, TextField, StatusName, SeverityName, PrintNat, Plain;
    var recoverability := if e.recoverable then "RECOVERABLE" else "NON_RECOVERABLE";
    ErrorNamesArePlain(e.code, e.severity);
    ErrorKeysArePlain();
    TextFieldIsPlain("code", StatusName(e.code));
    TextFieldIsPlain("severity", SeverityName(e.severity));
    TextFieldIsPlain("recoverability", recoverability);
    TextFieldIsPlain("module", e.origin);
    TextFieldIsPlain("function", e.operation);
    var start, end := [Text("  "), Word("error"), Text(": {")], [Word("tick"), Text(": " + PrintNat(e.tick)), Text("},\n")];
    assert PlainPieces(start) && PlainPieces(end) by { ErrorEndsArePlain(e.tick); }
    var f, g := TextField("function", e.operation), TextField("module", e.origin);
    var d, c, b := TextField("recoverability", recoverability), TextField("severity", SeverityName(e.severity)), TextField("code", StatusName(e.code));
    PlainAppends(f, end);
    PlainAppends(g, f + end);
    PlainAppends(d, g + (f + end));
    PlainAppends(c, d + (g + (f + end)));
    PlainAppends(b, c + (d + (g + (f + end))));
    PlainAppends(start, b + (c + (d + (g + (f + end)))));
  }

  lemma LettersArePlain(w: string)
    requires forall i :: 0 <= i < |w| ==> 'A' <= w[i] <= 'Z' || 'a' <= w[i] <= 'z' || w[i] == '_'
    ensures Plain(w)
  {
  }

  lemma ErrorKeysArePlain()
    ensures Plain("code") && Plain("severity") && Plain("recoverability") && Plain("module") && Plain("function")
    ensures Plain("RECOVERABLE") && Plain("NON_RECOVERABLE")
  {
    hide Plain;
    LettersArePlain("code");
    LettersArePlain("severity");
    LettersArePlain("recoverability");
    LettersArePlain("module");
    LettersArePlain("function");
    LettersArePlain("RECOVERABLE");
    LettersArePlain("NON_RECOVERABLE");
  }

  lemma ErrorEndsArePlain(tick: uint32)
    ensures PlainPieces([Text("  "), Word("error"), Text(": {")])
    ensures PlainPieces([Word("tick"), Text(": " + PrintNat(tick)), Text("},\n")])
  {
    hide PrintNat;
    PrintedNumbersArePlain(tick, 0, 0.0);
    assert '"' !in PrintNat(tick);
  }

  /**
   * The printed report is JSON. For names that need no escaping its text is, white space outside of strings apart, the
   * text of the one value ReportValue: every comma and bracket in place, every row, verdict, pass mark and count.
   */
  lemma ReportIsJson(commit: string, runs: seq<ScenarioRun>, error: Option<ErrorInfo>, passed: int, total: int)
    requires Plain(commit) && PlainErrorInfo(error) && forall i :: 0 <= i < |runs| ==> PlainRun(runs[i])
    ensures Squeeze(Render(HeaderThen(commit, ObjectsThen(runs, 0, Footer(error, passed, total)))))
         == Compact(ReportValue(commit, runs, error, passed, total))
  {
    hide PlainPieces, HeaderLine, ObjectsThen, SummaryLine, ErrorLine, Compact, ReportValue, Squeeze, Render;
    var footer := Footer(error, passed, total);
    FixedLinesArePlain(true);
    SummaryIsPlain(passed, total);
    assert PlainPieces(ErrorPart(error)) by {
      if error.Some? { ErrorLineIsPlain(error.value); }
      NothingIsPlain();
    }
    PlainAppends(ErrorPart(error), SummaryLine(passed, total));
    PlainAppends(CLOSE_SCENARIOS, ErrorPart(error) + SummaryLine(passed, total));
    ObjectsArePlain(runs, 0, footer);
    var objects := ObjectsThen(runs, 0, footer);
    VersionsArePlain();
    LineIsPlain(SchemaKey, SCHEMA_VERSION);
    LineIsPlain(SoftwareKey, SOFTWARE_VERSION);
    LineIsPlain(CommitKey, commit);
    var schema, software, build := HeaderLine(SchemaKey, SCHEMA_VERSION), HeaderLine(SoftwareKey, SOFTWARE_VERSION), HeaderLine(CommitKey, commit);
    PlainAppends(OPEN_SCENARIOS, objects);
    PlainAppends(build, OPEN_SCENARIOS + objects);
    PlainAppends(software, build + (OPEN_SCENARIOS + objects));
    PlainAppends(schema, software + (build + (OPEN_SCENARIOS + objects)));
    PlainAppends(OPEN_DOCUMENT, schema + (software + (build + (OPEN_SCENARIOS + objects))));
    ReportIsItsValue(commit, runs, error, passed, total);
  }

  lemma NothingIsPlain()
    ensures PlainPieces([])
  {
  }

  lemma VersionsArePlain()
    ensures Plain(SCHEMA_VERSION) && Plain(SOFTWARE_VERSION)
  {
  }

  /** The words a report uses for verdicts and modes. */
  lemma WordsAre(v: Verdict, m: Mode)
    ensures ResultName(v) == if v == ResultOk then "OK" else if v == ResultWarning then "WARNING"
                             else if v == ResultShutdown then "SHUTDOWN" else "ERROR"
    ensures ModeName(m) == if m == Init then "INIT" else if m == Starting then "STARTING" else if m == Running then "RUNNING"
                           else if m == Warning then "WARNING" else "SHUTDOWN"
  {
  }
}
