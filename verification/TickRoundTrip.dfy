/** One printed tick, read back. */
module TickRoundTrip {
  import opened Status
  import opened EngineModel
  import opened CText
  import opened Decimal
  import opened JsonText
  import opened TickLoop
  import opened Report
  import opened Loader

  /** What the loader makes of a report row: the sensor values as printed with two decimals, the verdict and mode by name. */
  function Loaded(t: TickReport): TickData {
    TickData(t.tick, t.reading.rpm, t.reading.temperature, t.reading.oilPressure, t.reading.isRunning,
             ResultName(t.result), FixedValue(t.control), ModeName(t.mode))
  }

  ghost predicate Loadable(t: TickReport) {
    t.reading.OnGrid() && 0.0 <= t.control <= 100.0
  }

  // --- numbers are plain text ------------------------------------------------------------

  predicate NumberChar(c: char) { IsDigit(c) || c == '.' || c == '-' }

  predicate NumberText(s: string) {
    s != "" && forall i :: 0 <= i < |s| ==> NumberChar(s[i])
  }

  lemma PrintedNumbersArePlain(n: nat, i: int, x: real)
    ensures NumberText(PrintNat(n)) && NumberText(PrintInt(i)) && NumberText(PrintFixed(x))
  {
    PrintNatReadsBack(n);
    PrintNatReadsBack(if i < 0 then -i else i);
    PrintNatReadsBack(Cents(x) / 100);
    LastTwoIsRemainder(Cents(x));
  }

  /** The characters the loader looks for. */
  predicate Mark(c: char) { c == '"' || c == '{' || c == '}' || c == '[' || c == ']' }

  predicate Unmarked(s: string) {
    forall i :: 0 <= i < |s| ==> !Mark(s[i])
  }

  predicate UnmarkedPiece(p: Piece) {
    match p case Text(t) => Unmarked(t) case Word(w) => Unmarked(w)
  }

  lemma NumberIsUnmarked(n: string)
    requires NumberText(n)
    ensures UnmarkedPiece(Number(n))
  {
    var t := ": " + (n + ", ");
    forall i | 0 <= i < |t| ensures !Mark(t[i]) {
      assert 2 <= i < 2 + |n| ==> t[i] == n[i - 2];
    }
  }

  ghost predicate AllUnmarked(ps: seq<Piece>) {
    forall i :: 0 <= i < |ps| ==> UnmarkedPiece(ps[i])
  }

  lemma TickKeysAreUnmarked()
    ensures Unmarked(KeyName(TickKey)) && Unmarked(KeyName(RpmKey)) && Unmarked(KeyName(TempKey))
    ensures Unmarked(KeyName(OilKey)) && Unmarked(KeyName(RunKey)) && Unmarked(KeyName(ResultKey))
    ensures Unmarked(KeyName(ControlKey)) && Unmarked(KeyName(ModeKey))
  {
  }

  lemma NameIsUnmarked(v: Verdict, m: Mode)
    ensures Unmarked(ResultName(v)) && Unmarked(ModeName(m))
  {
  }

  lemma KeyIsLowerCase(k: Key)
    ensures KeyName(k) != "" && forall i :: 0 <= i < |KeyName(k)| ==> KeyName(k)[i] == '_' || 'a' <= KeyName(k)[i] <= 'z'
    ensures KeyName(k)[0] != '_'
  {
  }

  lemma NameIsUpperCase(v: Verdict, m: Mode)
    ensures 0 < |ResultName(v)| <= 8 && 'A' <= ResultName(v)[0] <= 'Z'
    ensures 0 < |ModeName(m)| <= 8 && 'A' <= ModeName(m)[0] <= 'Z'
  {
  }

  /** Keys start in lower case, verdicts and modes are upper case. */
  lemma KeyShape(k: Key, v: Verdict, m: Mode)
    ensures KeyLike(KeyName(k)) && 'a' <= KeyName(k)[0] <= 'z' && ':' !in KeyName(k)
    ensures ResultName(v) != "" && 'A' <= ResultName(v)[0] <= 'Z'
    ensures ModeName(m) != "" && 'A' <= ModeName(m)[0] <= 'Z'
    ensures |ResultName(v)| <= 8 && |ModeName(m)| <= 8
  {
    hide KeyName, ResultName, ModeName;
    KeyIsLowerCase(k);
    NameIsUpperCase(v, m);
  }

  lemma NamesAreNotKeys(k: Key, v: Verdict, m: Mode)
    ensures ResultName(v) != KeyName(k) && ModeName(m) != KeyName(k)
  {
    hide KeyName, ResultName, ModeName;
    KeyShape(k, v, m);
  }

  lemma KeysDiffer(a: Key, b: Key)
    requires a != b
    ensures KeyName(a) != KeyName(b)
  {
    assert |KeyName(a)| == |KeyName(b)| ==>
      KeyName(a)[0] != KeyName(b)[0] || KeyName(a)[1] != KeyName(b)[1] || KeyName(a)[2] != KeyName(b)[2];
  }

  lemma PunctuationIsUnmarked()
    ensures Unmarked(": ") && Unmarked(", ")
  {
  }

  lemma FieldsAreUnmarked(t: TickReport)
    ensures AllUnmarked(TickFields(t))
  {
    hide Unmarked, PrintNat, PrintInt, PrintFixed, Number, KeyName, ResultName, ModeName, NumberText;
    PrintedNumbersArePlain(t.tick, t.reading.isRunning, t.reading.rpm);
    PrintedNumbersArePlain(0, 0, t.reading.temperature);
    PrintedNumbersArePlain(0, 0, t.reading.oilPressure);
    PrintedNumbersArePlain(0, 0, t.control);
    NumberIsUnmarked(PrintNat(t.tick));
    NumberIsUnmarked(PrintFixed(t.reading.rpm));
    NumberIsUnmarked(PrintFixed(t.reading.temperature));
    NumberIsUnmarked(PrintFixed(t.reading.oilPressure));
    NumberIsUnmarked(PrintInt(t.reading.isRunning));
    NumberIsUnmarked(PrintFixed(t.control));
    TickKeysAreUnmarked();
    NameIsUnmarked(t.result, t.mode);
    PunctuationIsUnmarked();
  }

  lemma UnmarkedLacks(ps: seq<Piece>, c: char)
    requires AllUnmarked(ps) && (c == '{' || c == '}' || c == '[' || c == ']')
    ensures Lacks(ps, c)
  {
  }

  // --- a tick object, from its opening brace on -----------------------------------------------

  function ObjectFrom(t: TickReport, rest: seq<Piece>): seq<Piece> {
    [Text("{")] + (TickFields(t) + ([Text("}")] + rest))
  }

  lemma ObjectIsTidy(t: TickReport, rest: seq<Piece>)
    requires Tidy(rest)
    ensures Tidy(ObjectFrom(t, rest))
  {
    FieldsAreUnmarked(t);
    var ps := ObjectFrom(t, rest);
    forall i | 0 <= i < |ps| ensures TidyAt(ps, i) {
      if i >= 21 {
        assert TidyAt(rest, i - 21);
        assert ps[i] == rest[i - 21] && (i + 1 < |ps| ==> ps[i + 1] == rest[i - 20]);
      } else if 1 <= i < 20 {
        assert ps[i] == TickFields(t)[i - 1];
      }
    }
  }

  lemma FieldLayout(t: TickReport)
    ensures var ps := TickFields(t);
            && |ps| == 19
            && ps[0] == Word(KeyName(TickKey)) && ps[1] == Number(PrintNat(t.tick))
            && ps[2] == Word(KeyName(RpmKey)) && ps[3] == Number(PrintFixed(t.reading.rpm))
            && ps[4] == Word(KeyName(TempKey)) && ps[5] == Number(PrintFixed(t.reading.temperature))
            && ps[6] == Word(KeyName(OilKey)) && ps[7] == Number(PrintFixed(t.reading.oilPressure))
            && ps[8] == Word(KeyName(RunKey)) && ps[9] == Number(PrintInt(t.reading.isRunning))
            && ps[10] == Word(KeyName(ResultKey)) && ps[11] == Text(": ") && ps[12] == Word(ResultName(t.result)) && ps[13] == Text(", ")
            && ps[14] == Word(KeyName(ControlKey)) && ps[15] == Number(PrintFixed(t.control))
            && ps[16] == Word(KeyName(ModeKey)) && ps[17] == Text(": ") && ps[18] == Word(ModeName(t.mode))
  {
    hide PrintNat, PrintInt, PrintFixed, Number, KeyName, ResultName, ModeName;
    assert |SensorFields(t)| == 10;
  }

  lemma ObjectLayout(t: TickReport, rest: seq<Piece>)
    ensures var ps, fields := ObjectFrom(t, rest), TickFields(t);
            && |ps| == 21 + |rest|
            && ps[0] == Text("{") && ps[20] == Text("}")
            && forall i :: 1 <= i < 20 ==> ps[i] == fields[i - 1]
  {
    assert |TickFields(t)| == 19;
    hide TickFields;
  }

  /** Where a key stands among the fields. */
  predicate FieldIndex(k: Key, j: nat) {
    match k
    case TickKey => j == 0 case RpmKey => j == 2 case TempKey => j == 4 case OilKey => j == 6 case RunKey => j == 8
    case ResultKey => j == 10 case ControlKey => j == 14 case ModeKey => j == 16
    case _ => false
  }

  lemma FieldsBeforeKey(t: TickReport, k: Key, j: nat)
    requires FieldIndex(k, j)
    ensures var fields := TickFields(t);
            && |fields| == 19 && fields[j] == Word(KeyName(k))
            && fields[j + 1].Text? && fields[j + 1].text != "" && fields[j + 1].text[0] == ':'
            && forall i :: 0 <= i < j ==> fields[i] != Word(KeyName(k))
  {
    hide TickFields, PrintNat, PrintInt, PrintFixed, KeyName, ResultName, ModeName;
    FieldLayout(t);
    forall other: Key | other != k ensures KeyName(other) != KeyName(k) { KeysDiffer(other, k); }
    NamesAreNotKeys(k, t.result, t.mode);
  }

  /** In a tick object each key is the first piece of its kind, with the colon right behind it. */
  lemma TickKeyAt(t: TickReport, rest: seq<Piece>, k: Key, j: nat)
    requires Tidy(rest) && j > 0 && FieldIndex(k, j - 1)
    ensures KeyThenColon(ObjectFrom(t, rest), KeyName(k), j, j + 1)
  {
    hide ObjectFrom, TickFields, KeyName, Tidy, KeyLike;
    FieldsBeforeKey(t, k, j - 1);
    ObjectLayout(t, rest);
    ObjectIsTidy(t, rest);
    KeyShape(k, t.result, t.mode);
    ColonFree(KeyName(k));
    var ps := ObjectFrom(t, rest);
    forall i | 0 <= i < j ensures ps[i] != Word(KeyName(k)) {
      assert i > 0 ==> ps[i] == TickFields(t)[i - 1];
    }
  }

  lemma ColonFree(w: string)
    requires ':' !in w
    ensures ':' !in Quoted(w)
  {
  }

  lemma NumberAt(ps: seq<Piece>, k: string, j: nat, n: string)
    requires j + 1 < |ps| && KeyThenColon(ps, k, j, j + 1)
    requires NumberText(n) && ps[j + 1] == Number(n)
    ensures ValueOf(Render(ps), k) == Some(n + (", " + Render(ps[j + 2..])))
  {
    hide KeyThenColon, Render, ValueOf;
    var rest := Render(ps[j + 2..]);
    assert n + ", " + rest == n + (", " + rest);
    ValueAt(ps, k, j, j + 1, n + ", ", rest);
  }

  lemma UintAt(ps: seq<Piece>, k: string, j: nat, n: uint32)
    requires j + 1 < |ps| && KeyThenColon(ps, k, j, j + 1) && ps[j + 1] == Number(PrintNat(n))
    ensures UintValue(Render(ps), k) == Some(n)
  {
    hide KeyThenColon, Render, ValueOf, PrintNat, ReadNat;
    PrintedNumbersArePlain(n, 0, 0.0);
    NumberAt(ps, k, j, PrintNat(n));
    var rest := ", " + Render(ps[j + 2..]);
    ReadNatOfPrinted(n, rest);
    PrintedStartsWithDigit(n, rest);
  }

  lemma IntAt(ps: seq<Piece>, k: string, j: nat, n: int)
    requires -0x8000_0000 <= n < 0x8000_0000
    requires j + 1 < |ps| && KeyThenColon(ps, k, j, j + 1) && ps[j + 1] == Number(PrintInt(n))
    ensures IntValue(Render(ps), k) == Some(n)
  {
    hide KeyThenColon, Render, ValueOf, PrintInt, ReadInt;
    PrintedNumbersArePlain(0, n, 0.0);
    NumberAt(ps, k, j, PrintInt(n));
    ReadIntOfPrinted(n, ", " + Render(ps[j + 2..]));
  }

  lemma FloatAt(ps: seq<Piece>, k: string, j: nat, x: real)
    requires j + 1 < |ps| && KeyThenColon(ps, k, j, j + 1) && ps[j + 1] == Number(PrintFixed(x))
    ensures FloatValue(Render(ps), k) == Some(FixedValue(x))
  {
    hide KeyThenColon, Render, ValueOf, PrintFixed, ReadDecimal, FixedValue;
    PrintedNumbersArePlain(0, 0, x);
    NumberAt(ps, k, j, PrintFixed(x));
    ReadDecimalOfPrinted(x, ", " + Render(ps[j + 2..]));
  }

  /** parse_tick_object undoes the printed tick line, whatever follows it. */
  lemma TickReadsBack(t: TickReport, rest: seq<Piece>)
    requires Loadable(t) && Tidy(rest)
    ensures ParseTick(Render(ObjectFrom(t, rest))) == Some(Loaded(t))
  {
    hide ObjectFrom, TickFields, KeyThenColon, Render, UintValue, FloatValue, IntValue, QuotedValue, FixedValue, PrintNat, PrintInt, PrintFixed, Tidy, ResultName, ModeName;
    var ps := ObjectFrom(t, rest);
    FieldLayout(t);
    ObjectLayout(t, rest);
    TickKeyAt(t, rest, TickKey, 1);
    UintAt(ps, "tick", 1, t.tick);
    TickKeyAt(t, rest, RpmKey, 3);
    FloatAt(ps, "rpm", 3, t.reading.rpm);
    TickKeyAt(t, rest, TempKey, 5);
    FloatAt(ps, "temp", 5, t.reading.temperature);
    TickKeyAt(t, rest, OilKey, 7);
    FloatAt(ps, "oil", 7, t.reading.oilPressure);
    TickKeyAt(t, rest, RunKey, 9);
    IntAt(ps, "run", 9, t.reading.isRunning);
    TickKeyAt(t, rest, ResultKey, 11);
    QuotedValueAt(ps, "result", 11, 12, ResultName(t.result), 12);
    TickKeyAt(t, rest, ControlKey, 15);
    FloatAt(ps, "control", 15, t.control);
    TickKeyAt(t, rest, ModeKey, 17);
    QuotedValueAt(ps, "engine_mode", 17, 18, ModeName(t.mode), 16);
    KeyShape(TickKey, t.result, t.mode);
    GridIsExact(t.reading);
    FixedInPercent(t.control);
  }

  /** The tick's own closing brace is the one found. */
  lemma TickObjectEnds(t: TickReport, rest: seq<Piece>)
    ensures FindClose(Render(ObjectFrom(t, rest)), '{', '}') == Some("}" + Render(rest))
  {
    hide FindClose;
    FieldsAreUnmarked(t);
    var fields := TickFields(t);
    UnmarkedLacks(fields, '{');
    UnmarkedLacks(fields, '}');
    LackingPieces(fields, '{');
    LackingPieces(fields, '}');
    PlainIsBalanced(Render(fields), '{', '}');
    RenderAppends([Text("{")], fields + ([Text("}")] + rest));
    RenderAppends(fields, [Text("}")] + rest);
    RenderAppends([Text("}")], rest);
    assert Render([Text("{")]) == "{" && Render([Text("}")]) == "}";
    FindCloseAfter(Render(fields), Render(rest), '{', '}');
  }
}
