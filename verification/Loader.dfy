/** The visualizer's loader: a parser made of substring searches and bracket counting. */
module Loader {
  import opened Status
  import opened CText
  import opened Decimal
  import opened JsonText

  const MAX_LOADED_TICKS := 512

  datatype TickData = TickData(tick: uint32, rpm: real, temp: real, oil: real, run: int, result: string,
                               control: real, engineMode: string)

  datatype ScenarioData = ScenarioData(scenario: string, requirementId: string, expected: string, ticks: seq<TickData>)

  predicate Delimits(s: string) { s == "" || s[0] == ',' || s[0] == '}' || s[0] == ']' }

  function UintValue(s: string, key: string): Option<uint32> {
    match ValueOf(s, key)
    case None => None
    case Some(value) =>
      if value != "" && (value[0] == '-' || value[0] == '+') then None else
      match ReadNat(value)
      case None => None
      case Some(read) => if read.value < 0x1_0000_0000 && Delimits(SkipSpace(read.rest)) then Some(read.value) else None
  }

  function IntValue(s: string, key: string): Option<int> {
    match ValueOf(s, key)
    case None => None
    case Some(value) =>
      match ReadInt(value)
      case None => None
      case Some(read) =>
        if -0x8000_0000 <= read.value < 0x8000_0000 && Delimits(SkipSpace(read.rest)) then Some(read.value) else None
  }

  function FloatValue(s: string, key: string): Option<real> {
    match ValueOf(s, key)
    case None => None
    case Some(value) =>
      match ReadDecimal(value)
      case None => None
      case Some(read) => if Delimits(SkipSpace(read.rest)) then Some(read.value) else None
  }

  predicate ValidTick(t: TickData) {
    && 0.0 <= t.rpm <= 10000.0 && -50.0 <= t.temp <= 200.0 && 0.0 <= t.oil <= 10.0
    && 0.0 <= t.control <= 100.0 && (t.run == 0 || t.run == 1)
  }

  function ParseTick(s: string): Option<TickData> {
    var tick := UintValue(s, "tick");
    var rpm := FloatValue(s, "rpm");
    var temp := FloatValue(s, "temp");
    var oil := FloatValue(s, "oil");
    var run := IntValue(s, "run");
    var result := QuotedValue(s, "result", 12);
    var control := FloatValue(s, "control");
    var mode := QuotedValue(s, "engine_mode", 16);
    if tick.None? || rpm.None? || temp.None? || oil.None? || run.None? || result.None? || control.None? || mode.None? then None
    else
      var t := TickData(tick.value, rpm.value, temp.value, oil.value, run.value, result.value, control.value, mode.value);
      if ValidTick(t) then Some(t) else None
  }

  /** The ticks of a run between a cursor and the end of its array, a pointer being the length of what follows it. */
  function ParseTicks(cursor: string, end: nat, ticks: seq<TickData>): Option<seq<TickData>>
    decreases |cursor|
  {
    if |cursor| <= end then Some(ticks) else
    match Strchr(cursor, '{')
    case None => Some(ticks)
    case Some(item) =>
      if |item| <= end then Some(ticks) else
      match FindClose(item, '{', '}')
      case None => None
      case Some(objectEnd) =>
        if |objectEnd| < end || |ticks| >= MAX_LOADED_TICKS then None else
        match ParseTick(item)
        case None => None
        case Some(t) =>
          if ticks != [] && t.tick <= ticks[|ticks| - 1].tick then None
          else ParseTicks(objectEnd[1..], end, ticks + [t])
  }

  /** The tick array of the scenario object that starts here and ends at objectEnd. */
  function ParseTickArray(item: string, objectEnd: nat): Option<seq<TickData>> {
    match Strstr(item, Quoted("ticks"))
    case None => None
    case Some(key) =>
      if |key| < objectEnd then None else
      match Strchr(key, '[')
      case None => None
      case Some(start) =>
        if |start| < objectEnd then None else
        match FindClose(start, '[', ']')
        case None => None
        case Some(end) =>
          if |end| < objectEnd then None else
          match ParseTicks(start, |end|, [])
          case None => None
          case Some(ticks) => if ticks == [] then None else Some(ticks)
  }

  function ParseScenario(item: string, objectEnd: nat): Option<ScenarioData> {
    match (QuotedValue(item, "scenario", 64), QuotedValue(item, "requirement_id", 32),
           QuotedValue(item, "expected", 16))
    case (Some(scenario), Some(requirement), Some(expected)) =>
      (match ParseTickArray(item, objectEnd)
       case None => None
       case Some(ticks) => Some(ScenarioData(scenario, requirement, expected, ticks)))
    case _ => None
  }

  function ParseScenarios(cursor: string, end: nat, limit: nat, scenarios: seq<ScenarioData>): Option<seq<ScenarioData>>
    decreases |cursor|
  {
    if |cursor| <= end then Some(scenarios) else
    match Strchr(cursor, '{')
    case None => Some(scenarios)
    case Some(item) =>
      if |item| <= end then Some(scenarios) else
      match FindClose(item, '{', '}')
      case None => None
      case Some(objectEnd) =>
        if |objectEnd| < end || |scenarios| >= limit then None else
        match ParseScenario(item, |objectEnd|)
        case None => None
        case Some(s) => ParseScenarios(objectEnd[1..], end, limit, scenarios + [s])
  }

  predicate VersionsAccepted(text: string) {
    var schema, software := QuotedValue(text, "schema_version", 16), QuotedValue(text, "software_version", 32);
    (schema == Some("1.0") || schema == Some("1.0.0")) && software.Some? && software.value != ""
  }

  /** parse_scenarios_json: None when it returns 0. */
  function Load(text: string, limit: nat): Option<seq<ScenarioData>> {
    if limit == 0 || !VersionsAccepted(text) then None else
    match Strstr(text, Quoted("scenarios"))
    case None => None
    case Some(key) =>
      match Strchr(key, '[')
      case None => None
      case Some(start) =>
        match FindClose(start, '[', ']')
        case None => None
        case Some(end) =>
          match ParseScenarios(start, |end|, limit, [])
          case None => None
          case Some(scenarios) => if scenarios == [] then None else Some(scenarios)
  }

  // --- the loader as it runs --------------------------------------------------------------

  /** The closing bracket leaves the depth at zero for the first time; None when the text ends before that. */
  method FindMatching(start: string, open: char, close: char) returns (r: Option<string>)
    requires open != close
    ensures r == FindClose(start, open, close)
  {
    if start == "" || start[0] != open {
      return None;
    }
    var depth := 0;
    var cursor := start;
    while cursor != ""
      invariant depth > 0 || cursor == start
      invariant cursor != start ==> CloseFrom(cursor, depth, open, close) == FindClose(start, open, close)
      invariant cursor == start ==> depth == 0
      decreases |cursor|
    {
      if cursor[0] == open {
        depth := depth + 1;
      } else if cursor[0] == close {
        depth := depth - 1;
        if depth == 0 {
          return Some(cursor);
        }
      }
      cursor := cursor[1..];
    }
    return None;
  }

  method ParseTickLoop(start: string, end: nat) returns (r: Option<seq<TickData>>)
    ensures r == ParseTicks(start, end, [])
  {
    hide ParseTick;
    var ticks: seq<TickData> := [];
    var cursor := start;
    while |cursor| > end
      invariant ParseTicks(cursor, end, ticks) == ParseTicks(start, end, [])
      decreases |cursor|
    {
      var item := Strchr(cursor, '{');
      if item.None? || |item.value| <= end {
        break;
      }
      var objectEnd := FindMatching(item.value, '{', '}');
      if objectEnd.None? || |objectEnd.value| < end {
        return None;
      }
      if |ticks| >= MAX_LOADED_TICKS {
        return None;
      }
      var t := ParseTick(item.value);
      if t.None? {
        return None;
      }
      if |ticks| > 0 && t.value.tick <= ticks[|ticks| - 1].tick {
        return None;
      }
      ticks := ticks + [t.value];
      cursor := objectEnd.value[1..];
    }
    return Some(ticks);
  }

  /** One scenario object into one row of the caller's array. */
  method ParseScenarioInto(item: string, objectEnd: nat, scenarios: array<ScenarioData>, row: nat) returns (ok: bool)
    requires row < scenarios.Length
    modifies scenarios
    ensures scenarios[..row] == old(scenarios[..row]) && scenarios[row + 1..] == old(scenarios[row + 1..])
    ensures ok ==> ParseScenario(item, objectEnd) == Some(scenarios[row])
    ensures !ok ==> ParseScenario(item, objectEnd) == None
  {
    hide QuotedValue, ParseTicks;
    var scenario := QuotedValue(item, "scenario", 64);
    if scenario.None? {
      return false;
    }
    var requirement := QuotedValue(item, "requirement_id", 32);
    if requirement.None? {
      return false;
    }
    var expected := QuotedValue(item, "expected", 16);
    if expected.None? {
      return false;
    }
    var key := Strstr(item, Quoted("ticks"));
    if key.None? || |key.value| < objectEnd {
      return false;
    }
    var start := Strchr(key.value, '[');
    if start.None? || |start.value| < objectEnd {
      return false;
    }
    var end := FindMatching(start.value, '[', ']');
    if end.None? || |end.value| < objectEnd {
      return false;
    }
    var ticks := ParseTickLoop(start.value, |end.value|);
    if ticks.None? || ticks.value == [] {
      return false;
    }
    scenarios[row] := ScenarioData(scenario.value, requirement.value, expected.value, ticks.value);
    return true;
  }

  /** parse_scenarios_json: fills the rows of the caller's array and tells how many. */
  method ParseScenariosJson(text: string, scenarios: array<ScenarioData>) returns (ok: bool, count: nat)
    modifies scenarios
    ensures ok <==> Load(text, scenarios.Length).Some?
    ensures ok ==> 0 < count <= scenarios.Length && Load(text, scenarios.Length) == Some(scenarios[..count])
  {
    hide VersionsAccepted, ParseScenario;
    count := 0;
    if scenarios.Length == 0 || !VersionsAccepted(text) {
      return false, 0;
    }
    var key := Strstr(text, Quoted("scenarios"));
    if key.None? {
      return false, 0;
    }
    var start := Strchr(key.value, '[');
    if start.None? {
      return false, 0;
    }
    var end := FindMatching(start.value, '[', ']');
    if end.None? {
      return false, 0;
    }
    var cursor := start.value;
    while |cursor| > |end.value|
      invariant 0 <= count <= scenarios.Length
      invariant ParseScenarios(cursor, |end.value|, scenarios.Length, scenarios[..count])
             == ParseScenarios(start.value, |end.value|, scenarios.Length, [])
      decreases |cursor|
    {
      var item := Strchr(cursor, '{');
      if item.None? || |item.value| <= |end.value| {
        break;
      }
      var objectEnd := FindMatching(item.value, '{', '}');
      if objectEnd.None? || |objectEnd.value| < |end.value| {
        return false, 0;
      }
      if count >= scenarios.Length {
        return false, 0;
      }
      var parsed := ParseScenarioInto(item.value, |objectEnd.value|, scenarios, count);
      if !parsed {
        return false, 0;
      }
      assert scenarios[..count + 1] == scenarios[..count] + [scenarios[count]];
      count := count + 1;
      cursor := objectEnd.value[1..];
    }
    return count > 0, count;
  }
}
