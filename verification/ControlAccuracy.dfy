/** How far the trip over the wire can move the control output. */
module ControlAccuracy {
  import opened Status
  import opened EngineModel
  import opened Control
  import opened Codec
  import opened HalModel
  import opened TickLoop
  import opened TickGap
  import opened TwoRuns

  function Distance(a: real, b: real): real { if a < b then b - a else a - b }

  lemma ClampIsNonExpansive(a: real, b: real)
    ensures Distance(Clamp(a), Clamp(b)) <= Distance(a, b)
  {
  }

  function OutputFor(s: SensorFrame): real {
    ControlOutput(s.rpm, s.temperature, s.oilPressure)
  }

  /** Encoding, decoding and applying a reading moves the output by less than 0.0675 percentage points. */
  lemma WireKeepsOutput(s: SensorFrame)
    requires s.Valid()
    ensures Encode(s).Success? && Decode(Encode(s).value).Success?
    ensures Distance(OutputFor(s), OutputFor(Decode(Encode(s).value).value)) < 0.0675
  {
    hide Encode, Decode, Clamp, Quantised;
    DecodeOfEncode(s);
    var q := Quantised(s);
    var before, after := RawOutput(s.rpm, s.temperature, s.oilPressure), RawOutput(q.rpm, q.temperature, q.oilPressure);
    assert after - before == (q.rpm - s.rpm) / 100.0 - (q.temperature - s.temperature) * 0.25
                             + (q.oilPressure - s.oilPressure) * 10.0;
    ClampIsNonExpansive(before, after);
  }

  // --- a whole profile of readings ------------------------------------------------------

  lemma TickOfReading(rig: Rig, w: World, current: uint32, tick: uint32, s: SensorFrame)
    requires w.hal.queue == [] && tick == current + 1 && s.Valid()
    ensures var t := Tick(rig, w, current, Entry(tick, Encode(s).value));
            && t.Advanced? && t.world.hal.queue == []
            && t.report.tick == tick && t.report.reading == Quantised(s)
            && t.report.control == OutputFor(Quantised(s))
  {
    hide Decode, Quantised, Clamp, RawOutput, Counted, Updated, NextMode;
    DecodeOfEncode(s);
    FetchFromEmpty(w.hal, current, Entry(tick, Encode(s).value));
    SampledKeepsReading(rig.calibration, w.engine, Quantised(s));
  }

  lemma SampledKeepsReading(cal: Calibration, e: EngineState, s: SensorFrame)
    ensures var after := Sampled(cal, e, s);
            after.rpm == s.rpm && after.temperature == s.temperature && after.oilPressure == s.oilPressure
  {
    hide CountFault, NextMode, Demand;
  }

  ghost predicate Sent(entries: seq<Entry>, readings: seq<SensorFrame>) {
    |entries| == |readings| && forall i :: 0 <= i < |entries| ==>
      readings[i].Valid() && entries[i].frame == Encode(readings[i]).value
  }

  ghost predicate Received(reports: seq<TickReport>, readings: seq<SensorFrame>) {
    |reports| == |readings| && forall i :: 0 <= i < |reports| ==>
      reports[i].reading == Quantised(readings[i]) && Distance(OutputFor(readings[i]), reports[i].control) < 0.0675
  }

  /**
   * Readings in range, sent one a tick over a HAL with an empty queue, always make a complete run: each row holds
   * the reading on the wire grid, and its control output is that of the original reading to within 0.0675.
   */
  lemma {:induction false} ValidReadingsRunThrough(rig: Rig, w: World, current: uint32, entries: seq<Entry>,
                                                   readings: seq<SensorFrame>, last: Verdict)
    requires w.hal.queue == [] && Consecutive(current, entries) && Sent(entries, readings)
    ensures var o := Run(rig, w, current, entries, last);
            o.completed && Received(o.reports, readings)
    decreases |entries|
  {
    hide Tick, Encode, Decode, Quantised, OutputFor;
    if entries == [] {
    } else {
      var s := readings[0];
      TickOfReading(rig, w, current, entries[0].tick, s);
      WireKeepsOutput(s);
      DecodeOfEncode(s);
      var t := Tick(rig, w, current, entries[0]);
      assert entries[0] == Entry(entries[0].tick, Encode(s).value);
      ValidReadingsRunThrough(rig, t.world, entries[0].tick, entries[1..], readings[1..], t.report.result);
      var rest := Run(rig, t.world, entries[0].tick, entries[1..], t.report.result).reports;
      var o := Run(rig, w, current, entries, last);
      assert o.reports == [t.report] + rest;
      forall i | 0 <= i < |o.reports|
        ensures o.reports[i].reading == Quantised(readings[i]) && Distance(OutputFor(readings[i]), o.reports[i].control) < 0.0675
      {
        if i > 0 {
          assert o.reports[i] == rest[i - 1] && readings[i] == readings[1..][i - 1];
        }
      }
    }
  }

  /** The same for execute_profile without tick values, from the engine start on. */
  lemma ValidProfileCompletes(rig: Rig, h: HalState, e: EngineState, readings: seq<SensorFrame>)
    requires e.mode == Init && h.queue == [] && |readings| <= 64 && AllValid(readings)
    ensures var o := Profile(rig, World(e, h), Entries(None, FramesOf(readings)));
            o.completed && o.reports != [] && Received(o.reports[1..], readings)
  {
    hide Run, Encode;
    var entries := Entries(None, FramesOf(readings));
    DefaultTicksAreConsecutive(FramesOf(readings), 0);
    assert entries[0..] == entries;
    var start := World(Started(e), h);
    ValidReadingsRunThrough(rig, start, 0, entries, readings, ResultOk);
    assert Profile(rig, World(e, h), entries).reports[1..] == Run(rig, start, 0, entries, ResultOk).reports;
  }
}
