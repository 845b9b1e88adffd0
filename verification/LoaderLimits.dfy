/** What the loader lets through, whatever text it is given. */
module LoaderLimits {
  import opened Status
  import opened CText
  import opened Decimal
  import opened JsonText
  import opened Loader

  predicate AllSpace(s: string) {
    forall i :: 0 <= i < |s| ==> IsSpace(s[i])
  }

  lemma {:induction false} SkipSpaceSplits(s: string)
    ensures var r := SkipSpace(s);
            s == s[..|s| - |r|] + r && AllSpace(s[..|s| - |r|]) && (r == "" || !IsSpace(r[0]))
  {
    if s == "" {
    } else {
      if IsSpace(s[0]) {
        SkipSpaceSplits(s[1..]);
        var r := SkipSpace(s[1..]);
        assert s[..|s| - |r|] == [s[0]] + s[1..][..|s| - 1 - |r|];
      } else {
        assert s[..0] == "";
      }
    }
  }

  /** A number is followed by white space at most, and then by a comma, a closing bracket, or the end of the text. */
  ghost predicate NumberEnds(rest: string) {
    exists n :: 0 <= n <= |rest| && AllSpace(rest[..n]) && (n == |rest| || rest[n] in ",}]")
  }

  lemma DelimitedNumberEnds(rest: string)
    requires Delimits(SkipSpace(rest))
    ensures NumberEnds(rest)
  {
    SkipSpaceSplits(rest);
    var n := |rest| - |SkipSpace(rest)|;
    assert AllSpace(rest[..n]) && (n < |rest| ==> rest[n] == SkipSpace(rest)[0]);
  }

  ghost predicate WritesNat(text: string, n: nat) {
    exists d, rest :: d != "" && AllDigits(d) && text == d + rest && DigitsValue(d) == n && NumberEnds(rest)
  }

  lemma ReadNatWrites(text: string)
    requires ReadNat(text).Some? && Delimits(SkipSpace(ReadNat(text).value.rest))
    ensures WritesNat(text, ReadNat(text).value.value)
  {
    hide SkipSpace, Delimits, NumberEnds;
    var d := LeadingDigits(text);
    DelimitedNumberEnds(text[|d|..]);
    assert text == d + text[|d|..];
  }

  /** An unsigned field is digits only, with nothing behind them that a number could go on with. */
  lemma UintMeans(s: string, key: string)
    ensures UintValue(s, key).Some? ==>
              ValueOf(s, key).Some? && WritesNat(ValueOf(s, key).value, UintValue(s, key).value)
  {
    hide ValueOf, ReadNat, WritesNat, SkipSpace, Delimits;
    if UintValue(s, key).Some? {
      ReadNatWrites(ValueOf(s, key).value);
    }
  }

  /** The same for a field with an optional sign. */
  lemma IntMeans(s: string, key: string)
    ensures IntValue(s, key).Some? ==>
              && ValueOf(s, key).Some?
              && var text, n := ValueOf(s, key).value, IntValue(s, key).value;
                 if text != "" && text[0] == '-' then n <= 0 && WritesNat(text[1..], -n)
                 else if text != "" && text[0] == '+' then n >= 0 && WritesNat(text[1..], n)
                 else n >= 0 && WritesNat(text, n)
  {
    hide ValueOf, ReadNat, WritesNat, SkipSpace, Delimits;
    if IntValue(s, key).Some? {
      var text := ValueOf(s, key).value;
      ReadNatWrites(if text != "" && (text[0] == '-' || text[0] == '+') then text[1..] else text);
    }
  }

  /** A row in range: the limits of the four sensor fields and of the control output, and a truth value. */
  predicate InRange(t: TickData) {
    && 0.0 <= t.rpm && t.rpm <= 10000.0 && -50.0 <= t.temp && t.temp <= 200.0
    && 0.0 <= t.oil && t.oil <= 10.0 && 0.0 <= t.control && t.control <= 100.0
    && (t.run == 0 || t.run == 1) && |t.result| <= 11 && |t.engineMode| <= 15
  }

  ghost predicate GoodRows(ticks: seq<TickData>) {
    && |ticks| <= 512
    && (forall i :: 0 <= i < |ticks| ==> InRange(ticks[i]))
    && (forall i :: 0 < i < |ticks| ==> ticks[i - 1].tick < ticks[i].tick)
  }

  ghost predicate GoodScenario(s: ScenarioData) {
    |s.scenario| <= 63 && |s.requirementId| <= 31 && |s.expected| <= 15 && 1 <= |s.ticks| && GoodRows(s.ticks)
  }

  lemma ParsedTickIsInRange(s: string)
    ensures ParseTick(s).Some? ==> InRange(ParseTick(s).value)
  {
    hide UintValue, FloatValue, IntValue, QuotedValue;
    QuotedIsShort(s, "result", 12);
    QuotedIsShort(s, "engine_mode", 16);
  }

  lemma QuotedIsShort(s: string, key: string, size: nat)
    ensures QuotedValue(s, key, size).Some? ==> |QuotedValue(s, key, size).value| < size
  {
    hide ValueOf, Strchr;
  }

  lemma {:induction false} ParsedTicksAreGood(cursor: string, end: nat, ticks: seq<TickData>)
    requires GoodRows(ticks)
    ensures ParseTicks(cursor, end, ticks).Some? ==> GoodRows(ParseTicks(cursor, end, ticks).value)
    decreases |cursor|
  {
    hide ParseTick, FindClose, Strchr;
    var item := Strchr(cursor, '{');
    if |cursor| > end && item.Some? && |item.value| > end {
      var itemEnd := FindClose(item.value, '{', '}');
      if itemEnd.Some? && |itemEnd.value| >= end && |ticks| < 512 {
        var t := ParseTick(item.value);
        ParsedTickIsInRange(item.value);
        if t.Some? && (ticks == [] || ticks[|ticks| - 1].tick < t.value.tick) {
          ParsedTicksAreGood(itemEnd.value[1..], end, ticks + [t.value]);
        }
      }
    }
  }

  lemma ParsedArrayIsGood(item: string, objectEnd: nat)
    ensures ParseTickArray(item, objectEnd).Some? ==>
              ParseTickArray(item, objectEnd).value != [] && GoodRows(ParseTickArray(item, objectEnd).value)
  {
    hide ParseTicks, FindClose, Strchr, Strstr;
    forall cursor, end: nat | ParseTicks(cursor, end, []).Some? ensures GoodRows(ParseTicks(cursor, end, []).value) {
      ParsedTicksAreGood(cursor, end, []);
    }
  }

  /** The tick array that is read lies inside its object: key and brackets all come before the object's closing brace. */
  lemma TickArrayLiesInside(item: string, objectEnd: nat)
    requires ParseTickArray(item, objectEnd).Some?
    ensures Strstr(item, "\"ticks\"").Some?
    ensures var key := Strstr(item, "\"ticks\"").value;
            && Strchr(key, '[').Some? && FindClose(Strchr(key, '[').value, '[', ']').Some?
            && |key| >= objectEnd && |Strchr(key, '[').value| >= objectEnd
            && |FindClose(Strchr(key, '[').value, '[', ']').value| >= objectEnd
  {
    hide ParseTicks, FindClose, Strchr, Strstr;
    assert Quoted("ticks") == "\"ticks\"";
  }

  lemma ParsedScenarioIsGood(item: string, objectEnd: nat)
    ensures ParseScenario(item, objectEnd).Some? ==> GoodScenario(ParseScenario(item, objectEnd).value)
  {
    hide ParseTickArray, QuotedValue;
    ParsedArrayIsGood(item, objectEnd);
    QuotedIsShort(item, "scenario", 64);
    QuotedIsShort(item, "requirement_id", 32);
    QuotedIsShort(item, "expected", 16);
  }

  ghost predicate GoodScenarios(scenarios: seq<ScenarioData>, limit: nat) {
    |scenarios| <= limit && forall i :: 0 <= i < |scenarios| ==> GoodScenario(scenarios[i])
  }

  lemma {:induction false} ParsedScenariosAreGood(cursor: string, end: nat, limit: nat, scenarios: seq<ScenarioData>)
    requires GoodScenarios(scenarios, limit)
    ensures ParseScenarios(cursor, end, limit, scenarios).Some? ==>
              GoodScenarios(ParseScenarios(cursor, end, limit, scenarios).value, limit)
    decreases |cursor|
  {
    hide ParseScenario, FindClose, Strchr, GoodScenario;
    var item := Strchr(cursor, '{');
    if |cursor| > end && item.Some? && |item.value| > end {
      var itemEnd := FindClose(item.value, '{', '}');
      if itemEnd.Some? && |itemEnd.value| >= end && |scenarios| < limit {
        var s := ParseScenario(item.value, |itemEnd.value|);
        ParsedScenarioIsGood(item.value, |itemEnd.value|);
        if s.Some? {
          ParsedScenariosAreGood(itemEnd.value[1..], end, limit, scenarios + [s.value]);
        }
      }
    }
  }

  /**
   * Whatever the text, what is loaded is well-formed: between one scenario and the caller's limit, names that fit their
   * buffers, 1 to 512 rows each with strictly rising ticks and every value in range; and the text names a schema
   * version the loader knows and some software version.
   */
  lemma LoadedIsGood(text: string, limit: nat)
    requires Load(text, limit).Some?
    ensures 1 <= |Load(text, limit).value| && GoodScenarios(Load(text, limit).value, limit)
    ensures QuotedValue(text, "schema_version", 16) == Some("1.0") || QuotedValue(text, "schema_version", 16) == Some("1.0.0")
    ensures QuotedValue(text, "software_version", 32).Some? && QuotedValue(text, "software_version", 32) != Some("")
  {
    hide ParseScenarios, FindClose, Strchr, Strstr, QuotedValue;
    forall cursor, end: nat | ParseScenarios(cursor, end, limit, []).Some?
      ensures GoodScenarios(ParseScenarios(cursor, end, limit, []).value, limit)
    {
      ParsedScenariosAreGood(cursor, end, limit, []);
    }
  }
}
