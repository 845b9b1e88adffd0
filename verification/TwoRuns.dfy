/** Pairs of runs that must not be told apart: by plant parameters, run flags, tick spacing or earlier HAL use. */
module TwoRuns {
  import opened Status
  import opened EngineModel
  import opened Control
  import opened Codec
  import opened HalModel
  import opened HalHistory
  import opened TickLoop
  import opened TickGap

  /** The part of the engine that survives from one tick to the next: all else is overwritten by the next reading. */
  predicate SameControlState(e: EngineState, e': EngineState) {
    && e.mode == e'.mode && e.tempFaults == e'.tempFaults
    && e.oilFaults == e'.oilFaults && e.combinedFaults == e'.combinedFaults
  }

  predicate SameButRun(s: SensorFrame, s': SensorFrame) {
    s.rpm == s'.rpm && s.temperature == s'.temperature && s.oilPressure == s'.oilPressure
  }

  /** Two engines in the same control state, given readings that differ at most in the run flag, stay in the same control state. */
  lemma SampleForgetsPlant(cal: Calibration, p: PhysicsConfig, p': PhysicsConfig,
                           e: EngineState, e': EngineState, s: SensorFrame, s': SensorFrame, tick: uint32)
    requires SameControlState(e, e') && SameButRun(s, s') && e.mode != Init
    ensures var after, after' := Sampled(cal, e, s), Sampled(cal, e', s');
            && ReportOf(tick, s, after).reading == s
            && ReportOf(tick, s, after).(reading := s') == ReportOf(tick, s', after')
            && SameControlState(Updated(p, after), Updated(p', after'))
            && Updated(p, after).mode != Init
  {
    hide RampUp, RampDown, Clamp, RawOutput;
  }

  /** Everything the caller of a run can see, apart from the engine's plant values. */
  ghost predicate SameShown(o: RunOutcome, o': RunOutcome) {
    && o.verdict == o'.verdict && o.completed == o'.completed && o.reports == o'.reports
    && o.world.hal == o'.world.hal && SameControlState(o.world.engine, o'.world.engine)
  }

  /** The plant parameters never reach a report, a verdict or the HAL, whatever the entries and the HAL contents. */
  lemma {:induction false} PhysicsNeverShows(cal: Calibration, p: PhysicsConfig, p': PhysicsConfig, w: World, w': World,
                                             current: uint32, entries: seq<Entry>, last: Verdict)
    requires w.hal == w'.hal && SameControlState(w.engine, w'.engine) && w.engine.mode != Init
    ensures SameShown(Run(Rig(cal, p), w, current, entries, last), Run(Rig(cal, p'), w', current, entries, last))
    decreases |entries|
  {
    hide Fetch, Sampled, ReportOf, Updated;
    if entries == [] {
    } else {
      match Fetch(w.hal, current, entries[0]).arrival
      case NoReading =>
      case SensorLost =>
      case Reading(s) =>
        if s.Valid() {
          SampleForgetsPlant(cal, p, p', w.engine, w'.engine, s, s, entries[0].tick);
          var t := Tick(Rig(cal, p), w, current, entries[0]);
          var t' := Tick(Rig(cal, p'), w', current, entries[0]);
          PhysicsNeverShows(cal, p, p', t.world, t'.world, entries[0].tick, entries[1..], t.report.result);
        }
    }
  }

  // --- run flags -----------------------------------------------------------------

  /** The same frame, except that the run byte (and with it the checksum) may differ. */
  predicate FramesRunApart(f: Frame, g: Frame) {
    f == g || (Accepted(f) && Accepted(g) && SameButRun(Decode(f).value, Decode(g).value))
  }

  predicate RunByteApart(a: Entry, b: Entry) {
    a.tick == b.tick && FramesRunApart(a.frame, b.frame)
  }

  ghost predicate HalsRunApart(h: HalState, h': HalState) {
    && h.lastSensorTick == h'.lastSensorTick && h.hasSensorTick == h'.hasSensorTick
    && |h.queue| == |h'.queue| && forall i :: 0 <= i < |h.queue| ==> FramesRunApart(h.queue[i], h'.queue[i])
  }

  predicate ReadingsRunApart(r: Result<SensorFrame>, r': Result<SensorFrame>) {
    r == r' || (r.Success? && r'.Success? && SameButRun(r.value, r'.value) && r.value.Valid() && r'.value.Valid())
  }

  lemma ReadRunApart(h: HalState, h': HalState, tick: uint32)
    requires HalsRunApart(h, h')
    ensures HalsRunApart(Read(h, tick).hal, Read(h', tick).hal)
    ensures ReadingsRunApart(Read(h, tick).result, Read(h', tick).result)
  {
    hide Unpacked, Checksum;
    if h.queue != [] {
      assert FramesRunApart(h.queue[0], h'.queue[0]);
    }
  }

  lemma {:induction false} PollRunApart(h: HalState, h': HalState, sim: int, target: uint32)
    requires HalsRunApart(h, h') && 0 <= sim <= target
    ensures var p, p' := Poll(h, sim, target), Poll(h', sim, target);
            HalsRunApart(p.hal, p'.hal) && p.timedOut == p'.timedOut
    decreases target - sim
  {
    hide Read, HalsRunApart;
    if sim == target {
    } else {
      ReadRunApart(h, h', sim);
      PollRunApart(Read(h, sim).hal, Read(h', sim).hal, sim + 1, target);
    }
  }

  lemma IngestRunApart(h: HalState, h': HalState, f: Frame, g: Frame)
    requires HalsRunApart(h, h') && FramesRunApart(f, g)
    ensures HalsRunApart(Ingest(h, f).hal, Ingest(h', g).hal) && Ingest(h, f).status == Ingest(h', g).status
  {
    hide Unpacked, Checksum;
  }

  predicate ArrivalsRunApart(a: Arrival, b: Arrival) {
    a == b || (a.Reading? && b.Reading? && SameButRun(a.s, b.s) && a.s.Valid() && b.s.Valid())
  }

  lemma FetchRunApart(h: HalState, h': HalState, current: uint32, a: Entry, b: Entry)
    requires HalsRunApart(h, h') && RunByteApart(a, b)
    ensures var f, f' := Fetch(h, current, a), Fetch(h', current, b);
            HalsRunApart(f.hal, f'.hal) && ArrivalsRunApart(f.arrival, f'.arrival)
  {
    hide Poll, Ingest, Read, HalsRunApart, FramesRunApart;
    if current < a.tick {
      PollRunApart(h, h', current + 1, a.tick);
      var p, p' := Poll(h, current + 1, a.tick).hal, Poll(h', current + 1, a.tick).hal;
      IngestRunApart(p, p', a.frame, b.frame);
      ReadRunApart(Ingest(p, a.frame).hal, Ingest(p', b.frame).hal, a.tick);
    }
  }

  ghost predicate ReportsRunApart(a: seq<TickReport>, b: seq<TickReport>) {
    |a| == |b| && forall i :: 0 <= i < |a| ==>
      a[i].(reading := a[i].reading.(isRunning := b[i].reading.isRunning)) == b[i]
  }

  ghost predicate SameButRunFlags(o: RunOutcome, o': RunOutcome) {
    && o.verdict == o'.verdict && o.completed == o'.completed && ReportsRunApart(o.reports, o'.reports)
    && HalsRunApart(o.world.hal, o'.world.hal) && SameControlState(o.world.engine, o'.world.engine)
  }

  /** Two ticks that differ at most in the run flag either stop alike or advance with reports that differ only there. */
  ghost predicate TicksRunApart(t: TickOutcome, t': TickOutcome) {
    && HalsRunApart(t.world.hal, t'.world.hal) && SameControlState(t.world.engine, t'.world.engine)
    && match (t, t')
       case (Stopped(_, v), Stopped(_, v')) => v == v'
       case (Advanced(w, r), Advanced(_, r')) =>
         && w.engine.mode != Init && r.result == r'.result
         && r.(reading := r.reading.(isRunning := r'.reading.isRunning)) == r'
       case _ => false
  }

  lemma TickRunApart(rig: Rig, w: World, w': World, current: uint32, a: Entry, b: Entry)
    requires HalsRunApart(w.hal, w'.hal) && SameControlState(w.engine, w'.engine) && w.engine.mode != Init
    requires RunByteApart(a, b)
    ensures a.tick == b.tick && TicksRunApart(Tick(rig, w, current, a), Tick(rig, w', current, b))
  {
    hide Fetch, Sampled, ReportOf, Updated, FramesRunApart, HalsRunApart;
    FetchRunApart(w.hal, w'.hal, current, a, b);
    var f, f' := Fetch(w.hal, current, a).arrival, Fetch(w'.hal, current, b).arrival;
    if f.Reading? && f.s.Valid() {
      SampleForgetsPlant(rig.calibration, rig.physics, rig.physics, w.engine, w'.engine, f.s, f'.s, a.tick);
      SampleReportRun(rig.calibration, w.engine, w'.engine, f.s, f'.s, a.tick);
    }
  }

  /**
   * Changing run flags, in the entries or in frames still queued, changes the run field of the reports and nothing
   * else.
   */
  lemma {:induction false} RunFlagsShowOnlyAsThemselves(rig: Rig, w: World, w': World, current: uint32,
                                                        entries: seq<Entry>, entries': seq<Entry>, last: Verdict)
    requires HalsRunApart(w.hal, w'.hal) && SameControlState(w.engine, w'.engine) && w.engine.mode != Init
    requires |entries| == |entries'| && forall i :: 0 <= i < |entries| ==> RunByteApart(entries[i], entries'[i])
    ensures SameButRunFlags(Run(rig, w, current, entries, last), Run(rig, w', current, entries', last))
    decreases |entries|
  {
    hide Tick, FramesRunApart, HalsRunApart;
    if entries == [] {
    } else {
      TickRunApart(rig, w, w', current, entries[0], entries'[0]);
      var t, t' := Tick(rig, w, current, entries[0]), Tick(rig, w', current, entries'[0]);
      if t.Advanced? {
        RunFlagsShowOnlyAsThemselves(rig, t.world, t'.world, entries[0].tick, entries[1..], entries'[1..], t.report.result);
      }
    }
  }

  lemma SampleReportRun(cal: Calibration, e: EngineState, e': EngineState, s: SensorFrame, s': SensorFrame, tick: uint32)
    requires SameButRun(s, s')
    requires ReportOf(tick, s, Sampled(cal, e, s)).(reading := s') == ReportOf(tick, s', Sampled(cal, e', s'))
    ensures var r, r' := ReportOf(tick, s, Sampled(cal, e, s)), ReportOf(tick, s', Sampled(cal, e', s'));
            r.(reading := r.reading.(isRunning := r'.reading.isRunning)) == r' && r.result == r'.result
  {
    hide Sampled, ControlOutput;
  }

  // --- spacing and isolation -----------------------------------------------------

  /** Strictly increasing from the current tick on, with no gap the sensor clock would notice. */
  predicate Close(current: uint32, entries: seq<Entry>)
    decreases |entries|
  {
    entries == [] || (current < entries[0].tick <= current + 4 && Close(entries[0].tick, entries[1..]))
  }

  ghost predicate SameFrames(entries: seq<Entry>, entries': seq<Entry>) {
    |entries| == |entries'| && forall i :: 0 <= i < |entries| ==> entries[i].frame == entries'[i].frame
  }

  ghost predicate ReportsTickApart(a: seq<TickReport>, b: seq<TickReport>) {
    |a| == |b| && forall i :: 0 <= i < |a| ==> a[i].(tick := b[i].tick) == b[i]
  }

  ghost predicate SameButTicks(o: RunOutcome, o': RunOutcome) {
    && o.verdict == o'.verdict && o.completed == o'.completed && ReportsTickApart(o.reports, o'.reports)
    && o.world.engine == o'.world.engine
  }

  lemma ReportTick(s: SensorFrame, e: EngineState, tick: uint32, tick': uint32)
    ensures ReportOf(tick, s, e).(tick := tick') == ReportOf(tick', s, e)
    ensures ReportOf(tick, s, e).result == ReportOf(tick', s, e).result
  {
  }

  /** The same frames at any two spacings without a gap above four ticks give the same run, tick numbers aside. */
  lemma {:induction false} SpacingDoesNotMatter(rig: Rig, w: World, w': World, current: uint32, current': uint32,
                                                entries: seq<Entry>, entries': seq<Entry>, last: Verdict)
    requires w.engine == w'.engine && InStep(w.hal, current) && InStep(w'.hal, current')
    requires SameFrames(entries, entries') && Close(current, entries) && Close(current', entries')
    ensures SameButTicks(Run(rig, w, current, entries, last), Run(rig, w', current', entries', last))
    decreases |entries|
  {
    hide Tick, TransportValid, Meaning, Sampled, Updated, ReportOf;
    if entries == [] {
    } else {
      TickInStep(rig, w, current, entries[0]);
      TickInStep(rig, w', current', entries'[0]);
      match Tick(rig, w, current, entries[0])
      case Stopped(_, _) =>
      case Advanced(next, report) =>
        var next' := Tick(rig, w', current', entries'[0]).world;
        var s := Meaning(entries[0].frame).value;
        ReportTick(s, Sampled(rig.calibration, w.engine, s), entries[0].tick, entries'[0].tick);
        SpacingDoesNotMatter(rig, next, next', entries[0].tick, entries'[0].tick, entries[1..], entries'[1..], report.result);
    }
  }

  predicate Consecutive(current: uint32, entries: seq<Entry>)
    decreases |entries|
  {
    entries == [] || (entries[0].tick == current + 1 && Consecutive(entries[0].tick, entries[1..]))
  }

  ghost predicate SameButHal(o: RunOutcome, o': RunOutcome) {
    o.(world := o'.world) == o' && o.world.engine == o'.world.engine
  }

  /** At some skipped tick before the target the last reading is more than three ticks old. */
  ghost predicate SilentBefore(h: HalState, current: uint32, target: uint32) {
    exists tick: uint32 :: current < tick < target && Silence(h, tick) > 3
  }

  /** The silence is the distance of the ticks, around the 32-bit clock when the last reading lies ahead. */
  lemma SilenceIs(h: HalState, tick: uint32)
    ensures Silence(h, tick) ==
              if !h.hasSensorTick then tick
              else if h.lastSensorTick <= tick then tick - h.lastSensorTick
              else 0x1_0000_0000 - (h.lastSensorTick - tick)
  {
  }

  lemma TimesOutIffSilent(h: HalState, current: uint32, target: uint32)
    requires h.queue == [] && current < target
    ensures Poll(h, current + 1, target).timedOut <==> SilentBefore(h, current, target)
  {
    hide Poll, Silence;
    PollStopsAtFirstSilence(h, current + 1, target);
    var p := Poll(h, current + 1, target);
    if p.timedOut {
      var last: uint32 := current + p.polls;
      assert Silence(h, last) > 3;
    }
  }

  /** The sensor falls silent before the first entry in both HALs or in neither. */
  ghost predicate SilentAlike(h: HalState, h': HalState, current: uint32, entries: seq<Entry>) {
    entries != [] && current < entries[0].tick ==>
      (SilentBefore(h, current, entries[0].tick) <==> SilentBefore(h', current, entries[0].tick))
  }

  /**
   * Whatever two empty-queued HALs went through before, runs on them come out alike exactly when the sensor falls
   * silent before the first entry in both or in neither: the first completed tick sets both clocks to the same tick.
   */
  lemma HalPastMattersIff(rig: Rig, w: World, w': World, current: uint32, entries: seq<Entry>, last: Verdict)
    requires w.engine == w'.engine && w.hal.queue == [] && w'.hal.queue == []
    ensures SilentAlike(w.hal, w'.hal, current, entries) <==>
              SameButHal(Run(rig, w, current, entries, last), Run(rig, w', current, entries, last))
  {
    hide Run, Poll, Meaning, Sampled, Updated, ReportOf, TransportValid, TimedOut, Chained, SilentBefore;
    ChainedNothing(Run(rig, w, current, entries, last));
    ChainedNothing(Run(rig, w', current, entries, last));
    if entries == [] {
      NothingLeft(rig, w, current, last, []);
      NothingLeft(rig, w', current, last, []);
    } else {
      RunOneMore(rig, w, current, entries, last, []);
      RunOneMore(rig, w', current, entries, last, []);
      var t, t' := Tick(rig, w, current, entries[0]), Tick(rig, w', current, entries[0]);
      if t.Advanced? {
        ChainedShows(t.report, Run(rig, t.world, entries[0].tick, entries[1..], t.report.result));
      }
      if t'.Advanced? {
        ChainedShows(t'.report, Run(rig, t'.world, entries[0].tick, entries[1..], t'.report.result));
      }
      if current < entries[0].tick {
        FetchFromEmpty(w.hal, current, entries[0]);
        FetchFromEmpty(w'.hal, current, entries[0]);
        TimesOutIffSilent(w.hal, current, entries[0].tick);
        TimesOutIffSilent(w'.hal, current, entries[0].tick);
      }
    }
  }

  lemma ChainedNothing(o: RunOutcome)
    ensures Chained([], o) == o
  {
    assert [] + o.reports == o.reports;
  }

  lemma ChainedShows(report: TickReport, o: RunOutcome)
    ensures Chained([] + [report], o).reports != []
  {
  }

  /** With ticks given the past can matter: after a read at tick 20, a profile that starts at tick 2 is shut down. */
  lemma StaleClockShutsDown(rig: Rig, e: EngineState, s: SensorFrame)
    requires e.mode == Init && s.Valid()
    ensures var entries := [Entry(2, Encode(s).value)];
            && Profile(rig, World(e, HalState([], 20, true)), entries).verdict == ResultShutdown
            && Profile(rig, World(e, FRESH_HAL), entries).completed
  {
    hide Poll, Meaning, Sampled, Updated, ReportOf, TransportValid, TimedOut, Encode, Quantised;
    DecodeOfEncode(s);
    var entry, start := Entry(2, Encode(s).value), Started(e);
    var stale, clean := World(start, HalState([], 20, true)), World(start, FRESH_HAL);
    EncodedIsRead(s);
    PollOnce(stale.hal, 1);
    PollOnce(FRESH_HAL, 1);
    FetchFromEmpty(stale.hal, 0, entry);
    FetchFromEmpty(FRESH_HAL, 0, entry);
    DecodedIsValid(entry.frame);
    RunOneMore(rig, stale, 0, [entry], ResultOk, []);
    RunOneMore(rig, clean, 0, [entry], ResultOk, []);
  }

  lemma PollOnce(h: HalState, tick: uint32)
    requires tick < 0xFFFF_FFFF && h.queue == []
    ensures Poll(h, tick, tick + 1).timedOut <==> Silence(h, tick) > 3
  {
  }

  lemma EncodedIsRead(s: SensorFrame)
    requires s.Valid()
    ensures TransportValid(Encode(s).value) && Meaning(Encode(s).value) == Decode(Encode(s).value)
  {
    hide Decode, Payload;
  }

  lemma DecodedIsValid(f: Frame)
    ensures Meaning(f).Success? ==> Meaning(f).value.Valid()
  {
    hide Unpacked, Checksum;
  }

  lemma {:induction false} DefaultTicksAreConsecutive(frames: seq<Frame>, k: nat)
    requires k <= |frames| <= MAX_TICKS
    ensures Consecutive(k, Entries(None, frames)[k..])
    decreases |frames| - k
  {
    if k == |frames| {
    } else {
      DefaultTicksAreConsecutive(frames, k + 1);
      assert Entries(None, frames)[k..][1..] == Entries(None, frames)[k + 1..];
    }
  }

  /** The scenario catalog: one profile after another on the same HAL, each with a freshly reset engine. */
  function Catalog(rig: Rig, h: HalState, profiles: seq<seq<Frame>>): (outcomes: seq<RunOutcome>)
    requires forall p :: p in profiles ==> |p| <= 64
    ensures |outcomes| == |profiles|
    decreases |profiles|
  {
    if profiles == [] then [] else
    var o := Profile(rig, World(INITIAL_STATE, h), Entries(None, profiles[0]));
    [o] + Catalog(rig, o.world.hal, profiles[1..])
  }

  /** Each scenario of the catalog comes out as it would alone on a fresh HAL, whatever ran before it. */
  lemma {:induction false} CatalogOrderDoesNotMatter(rig: Rig, h: HalState, profiles: seq<seq<Frame>>)
    requires h.queue == [] && forall p :: p in profiles ==> |p| <= 64
    ensures forall i :: 0 <= i < |profiles| ==>
              SameButHal(Catalog(rig, h, profiles)[i],
                         Profile(rig, World(INITIAL_STATE, FRESH_HAL), Entries(None, profiles[i])))
    decreases |profiles|
  {
    hide Run;
    if profiles == [] {
    } else {
      var entries := Entries(None, profiles[0]);
      var start := Started(INITIAL_STATE);
      DefaultTicksAreConsecutive(profiles[0], 0);
      assert entries[0..] == entries;
      HalPastMattersIff(rig, World(start, h), World(start, FRESH_HAL), 0, entries, ResultOk);
      RunLeavesQueueEmpty(rig, World(start, h), 0, entries, ResultOk);
      var o := Profile(rig, World(INITIAL_STATE, h), entries);
      CatalogOrderDoesNotMatter(rig, o.world.hal, profiles[1..]);
    }
  }
}
