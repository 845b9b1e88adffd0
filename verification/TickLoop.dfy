/** The tick loop that drives HAL, engine, controller and plant through one profile. */
module TickLoop {
  import opened Status
  import opened EngineModel
  import opened Control
  import opened Codec
  import opened HalModel

  const MAX_TICKS := 64

  datatype Entry = Entry(tick: uint32, frame: Frame)

  /** One row of a run: the reading taken at a tick and what the controller made of it. */
  datatype TickReport = TickReport(tick: uint32, reading: SensorFrame, result: Verdict, control: real, mode: Mode)

  datatype Rig = Rig(calibration: Calibration, physics: PhysicsConfig)

  datatype World = World(engine: EngineState, hal: HalState)

  // --- what the loop computes ------------------------------------------------

  datatype PollOutcome = PollOutcome(hal: HalState, timedOut: bool, polls: nat)

  /** Reads of the skipped ticks sim, sim + 1, ..., target - 1; only a timeout stops them early. */
  function Poll(h: HalState, sim: int, target: uint32): PollOutcome
    requires 0 <= sim <= target
    decreases target - sim
  {
    if sim == target then PollOutcome(h, false, 0) else
    var read := Read(h, sim);
    if read.result == Failure(Timeout) then PollOutcome(read.hal, true, 1) else
    var rest := Poll(read.hal, sim + 1, target);
    rest.(polls := rest.polls + 1)
  }

  /** The engine after a sensor timeout. */
  function TimedOut(e: EngineState): EngineState {
    e.(mode := if IsLegalTransition(e.mode, Shutdown) then Shutdown else e.mode, isRunning := 0, rpm := 0.0)
  }

  datatype Arrival = Reading(s: SensorFrame) | SensorLost | NoReading

  datatype FetchOutcome = FetchOutcome(hal: HalState, arrival: Arrival)

  /** The HAL's share of a tick: skipped ticks, then one frame in and one frame out. */
  function Fetch(h: HalState, current: uint32, entry: Entry): FetchOutcome {
    if entry.tick <= current then FetchOutcome(h, NoReading) else
    var poll := Poll(h, current + 1, entry.tick);
    if poll.timedOut then FetchOutcome(poll.hal, SensorLost) else
    var ingest := Ingest(poll.hal, entry.frame);
    if ingest.status != StatusOk then FetchOutcome(ingest.hal, NoReading) else
    var read := Read(ingest.hal, entry.tick);
    match read.result
    case Failure(status) => FetchOutcome(read.hal, if status == Timeout then SensorLost else NoReading)
    case Success(s) => FetchOutcome(read.hal, Reading(s))
  }

  /** The engine's share: apply a reading, evaluate, and report. */
  function Sampled(cal: Calibration, e: EngineState, s: SensorFrame): EngineState {
    Evaluated(cal, Applied(s, e))
  }

  function ReportOf(tick: uint32, s: SensorFrame, e: EngineState): TickReport {
    TickReport(tick, s, VerdictOfMode(e.mode), ControlOutput(e.rpm, e.temperature, e.oilPressure), e.mode)
  }

  datatype TickOutcome = Advanced(world: World, report: TickReport) | Stopped(world: World, verdict: Verdict)

  function Tick(rig: Rig, w: World, current: uint32, entry: Entry): TickOutcome {
    var fetched := Fetch(w.hal, current, entry);
    match fetched.arrival
    case NoReading => Stopped(World(w.engine, fetched.hal), ResultError)
    case SensorLost => Stopped(World(TimedOut(w.engine), fetched.hal), ResultShutdown)
    case Reading(s) =>
      if !s.Valid() then Stopped(World(w.engine, fetched.hal), ResultError) else
      var e := Sampled(rig.calibration, w.engine, s);
      Advanced(World(Updated(rig.physics, e), fetched.hal), ReportOf(entry.tick, s, e))
  }

  datatype RunOutcome = RunOutcome(verdict: Verdict, completed: bool, reports: seq<TickReport>, world: World)

  function After(report: TickReport, o: RunOutcome): RunOutcome {
    o.(reports := [report] + o.reports)
  }

  function Run(rig: Rig, w: World, current: uint32, entries: seq<Entry>, last: Verdict): RunOutcome
    decreases |entries|
  {
    if entries == [] then RunOutcome(last, true, [], w) else
    match Tick(rig, w, current, entries[0])
    case Stopped(w', verdict) => RunOutcome(verdict, false, [], w')
    case Advanced(w', report) => After(report, Run(rig, w', entries[0].tick, entries[1..], report.result))
  }

  /** The entries of a profile; without tick values the ticks are 1, 2, 3, ... */
  function Entries(tickValues: Option<seq<uint32>>, frames: seq<Frame>): (entries: seq<Entry>)
    requires |frames| <= MAX_TICKS
    requires tickValues.Some? ==> |tickValues.value| == |frames|
    ensures |entries| == |frames|
  {
    seq(|frames|, i requires 0 <= i < |frames| <= MAX_TICKS && (tickValues.Some? ==> |tickValues.value| == |frames|) =>
      Entry(if tickValues.None? then i + 1 else tickValues.value[i], frames[i]))
  }

  function StartReport(e: EngineState): TickReport {
    TickReport(0, SensorFrame(e.rpm, e.temperature, e.oilPressure, e.isRunning), ResultOk, 0.0, e.mode)
  }

  function Started(e: EngineState): EngineState {
    e.(mode := Starting, isRunning := 1)
  }

  /** A whole profile, from the engine start to the last entry; the report for tick 0 comes first. */
  function Profile(rig: Rig, w: World, entries: seq<Entry>): RunOutcome {
    if w.engine.mode != Init then RunOutcome(ResultError, false, [StartReport(w.engine)], w)
    else After(StartReport(w.engine), Run(rig, w.(engine := Started(w.engine)), 0, entries, ResultOk))
  }

  function Chained(done: seq<TickReport>, o: RunOutcome): RunOutcome {
    o.(reports := done + o.reports)
  }

  // --- the loop itself -------------------------------------------------------

  method PollSkippedTicks(hal: Hal, current: uint32, target: uint32) returns (timedOut: bool)
    requires hal.Valid() && current < target
    modifies hal, hal.sensorQueue
    ensures hal.Valid()
    ensures var p := Poll(old(hal.Value()), current + 1, target); p.hal == hal.Value() && p.timedOut == timedOut
  {
    hide Decode;
    ghost var all := Poll(hal.Value(), current + 1, target);
    var sim := current + 1;
    while sim < target
      invariant current + 1 <= sim <= target
      invariant hal.Valid()
      invariant var rest := Poll(hal.Value(), sim, target); rest.hal == all.hal && rest.timedOut == all.timedOut
    {
      var r := hal.ReadSensors(sim);
      if r == Failure(Timeout) {
        return true;
      }
      sim := sim + 1;
    }
    return false;
  }

  /** A lost sensor: the transition's status is ignored, as it can only be OK once the engine has started. */
  method ShutDownOnTimeout(engine: Engine)
    modifies engine
    ensures engine.Value() == TimedOut(old(engine.Value()))
  {
    var _ := engine.TransitionMode(Shutdown);
    engine.isRunning := 0;
    engine.rpm := 0.0;
  }

  method FetchReading(hal: Hal, current: uint32, entry: Entry) returns (arrival: Arrival)
    requires hal.Valid()
    modifies hal, hal.sensorQueue, hal.sensorQueue.frames
    ensures hal.Valid()
    ensures FetchOutcome(hal.Value(), arrival) == Fetch(old(hal.Value()), current, entry)
  {
    hide Decode, Poll;
    if entry.tick <= current {
      return NoReading;
    }
    var timedOut := PollSkippedTicks(hal, current, entry.tick);
    if timedOut {
      return SensorLost;
    }
    var status := hal.IngestSensorFrame(entry.frame, entry.tick);
    if status != StatusOk {
      return NoReading;
    }
    var read := hal.ReadSensors(entry.tick);
    if read == Failure(Timeout) {
      return SensorLost;
    }
    if read.Failure? {
      return NoReading;
    }
    return Reading(read.value);
  }

  /** One entry of the profile; a verdict means that the run stops here. */
  method ExecuteTick(engine: Engine, controller: Controller, plant: Plant, hal: Hal, current: uint32, entry: Entry)
    returns (stop: Option<Verdict>, report: Option<TickReport>)
    requires hal.Valid()
    modifies engine, hal, hal.sensorQueue, hal.sensorQueue.frames
    ensures hal.Valid()
    ensures stop.None? ==> report.Some?
    ensures var w := World(old(engine.Value()), old(hal.Value()));
            var w' := World(engine.Value(), hal.Value());
            Tick(Rig(controller.calibration, plant.physics), w, current, entry)
              == if stop.Some? then Stopped(w', stop.value) else Advanced(w', report.value)
  {
    hide Fetch, Evaluated, Updated, ControlOutput;
    var arrival := FetchReading(hal, current, entry);
    if arrival.SensorLost? {
      ShutDownOnTimeout(engine);
      return Some(ResultShutdown), None;
    }
    if arrival.NoReading? {
      return Some(ResultError), None;
    }
    var status := hal.ApplySensors(arrival.s, engine);
    if status != StatusOk {
      return Some(ResultError), None;
    }
    var verdict: Verdict;
    status, verdict := controller.EvaluateEngine(engine);
    if status != StatusOk {
      return Some(ResultError), None;
    }
    var control := controller.ComputeControlOutput(engine);
    report := Some(TickReport(entry.tick, arrival.s, verdict, control, engine.mode));
    status := engine.Update(plant);
    if status != StatusOk {
      return Some(ResultError), None;
    }
    stop := None;
  }

  /** The rows of the report array after new ones have been written from an index on. */
  ghost function Overwritten(rows: seq<TickReport>, at: nat, reports: seq<TickReport>): seq<TickReport>
    requires at + |reports| <= |rows|
  {
    rows[..at] + reports + rows[at + |reports|..]
  }

  lemma OverwriteNothing(rows: seq<TickReport>, at: nat)
    requires at <= |rows|
    ensures Overwritten(rows, at, []) == rows
  {
  }

  lemma OverwriteOneMore(rows: seq<TickReport>, at: nat, done: seq<TickReport>, report: TickReport)
    requires at + |done| < |rows|
    ensures Overwritten(rows, at, done)[at + |done| := report] == Overwritten(rows, at, done + [report])
  {
  }

  /** One turn of the loop, seen from the whole run. */
  lemma RunOneMore(rig: Rig, w: World, current: uint32, entries: seq<Entry>, last: Verdict,
                   done: seq<TickReport>)
    requires entries != []
    ensures var o := Chained(done, Run(rig, w, current, entries, last));
            match Tick(rig, w, current, entries[0])
            case Stopped(w', verdict) => o == RunOutcome(verdict, false, done, w')
            case Advanced(w', report) =>
              o == Chained(done + [report], Run(rig, w', entries[0].tick, entries[1..], report.result))
  {
    hide Tick;
    match Tick(rig, w, current, entries[0])
    case Stopped(w', verdict) =>
    case Advanced(w', report) =>
      var rest := Run(rig, w', entries[0].tick, entries[1..], report.result);
      assert done + ([report] + rest.reports) == done + [report] + rest.reports;
  }

  lemma NothingLeft(rig: Rig, w: World, current: uint32, last: Verdict, done: seq<TickReport>)
    ensures Chained(done, Run(rig, w, current, [], last)) == RunOutcome(last, true, done, w)
  {
  }

  method RunEntries(engine: Engine, controller: Controller, plant: Plant, hal: Hal,
                    tickValues: Option<seq<uint32>>, frames: seq<Frame>, tickReports: array?<TickReport>)
    returns (result: Verdict, completed: bool)
    requires hal.Valid()
    requires |frames| <= MAX_TICKS
    requires tickValues.Some? ==> |tickValues.value| == |frames|
    requires tickReports != null ==> |frames| < tickReports.Length
    modifies engine, hal, hal.sensorQueue, hal.sensorQueue.frames, tickReports
    ensures hal.Valid()
    ensures var o := Run(Rig(controller.calibration, plant.physics),
                         World(old(engine.Value()), old(hal.Value())), 0, Entries(tickValues, frames), ResultOk);
            && result == o.verdict && completed == o.completed
            && o.world == World(engine.Value(), hal.Value())
            && |o.reports| <= |frames|
            && (tickReports != null ==> tickReports[..] == Overwritten(old(tickReports[..]), 1, o.reports))
  {
    hide Tick, Run, Overwritten;
    ghost var rig := Rig(controller.calibration, plant.physics);
    ghost var entries := Entries(tickValues, frames);
    ghost var all := Run(rig, World(engine.Value(), hal.Value()), 0, entries, ResultOk);
    ghost var done: seq<TickReport> := [];
    assert entries[0..] == entries;
    if tickReports != null {
      OverwriteNothing(tickReports[..], 1);
    }
    var current: uint32 := 0;
    result := ResultOk;
    var i := 0;
    while i < |frames|
      invariant 0 <= i <= |frames| && |done| == i
      invariant hal.Valid()
      invariant all == Chained(done, Run(rig, World(engine.Value(), hal.Value()), current, entries[i..], result))
      invariant tickReports != null ==> tickReports[..] == Overwritten(old(tickReports[..]), 1, done)
    {
      var target: uint32 := if tickValues.None? then i + 1 else tickValues.value[i];
      assert entries[i..][0] == Entry(target, frames[i]) && entries[i..][1..] == entries[i + 1..];
      RunOneMore(rig, World(engine.Value(), hal.Value()), current, entries[i..], result, done);
      var stop, report := ExecuteTick(engine, controller, plant, hal, current, Entry(target, frames[i]));
      if stop.Some? {
        return stop.value, false;
      }
      if tickReports != null {
        OverwriteOneMore(old(tickReports[..]), 1, done, report.value);
        tickReports[i + 1] := report.value;
      }
      result := report.value.result;
      done := done + [report.value];
      current := target;
      i := i + 1;
    }
    assert entries[i..] == [];
    NothingLeft(rig, World(engine.Value(), hal.Value()), current, result, done);
    completed := true;
  }

  method ExecuteProfileFrames(engine: Engine, controller: Controller, plant: Plant, hal: Hal,
                              tickValues: Option<seq<uint32>>, frames: seq<Frame>,
                              tickReports: array?<TickReport>, priorCount: nat)
    returns (result: Verdict, reportCount: nat)
    requires hal.Valid()
    requires tickValues.Some? ==> |tickValues.value| == |frames|
    modifies engine, hal, hal.sensorQueue, hal.sensorQueue.frames, tickReports
    ensures hal.Valid()
    ensures Refused(|frames|, tickReports) ==>
              && result == ResultError
              && reportCount == (if 1 <= |frames| <= 64 then 0 else priorCount)
              && engine.Value() == old(engine.Value()) && hal.Value() == old(hal.Value())
              && (tickReports != null ==> tickReports[..] == old(tickReports[..]))
    ensures !Refused(|frames|, tickReports) ==>
              var o := Profile(Rig(controller.calibration, plant.physics),
                               World(old(engine.Value()), old(hal.Value())), Entries(tickValues, frames));
              && result == o.verdict
              && reportCount == (if o.completed then |frames| + 1 else 0)
              && o.world == World(engine.Value(), hal.Value())
              && |o.reports| <= |frames| + 1
              && (tickReports != null ==> tickReports[..] == Overwritten(old(tickReports[..]), 0, o.reports))
  {
    hide Run;
    reportCount := priorCount;
    if |frames| == 0 || |frames| > MAX_TICKS {
      return ResultError, reportCount;
    }
    reportCount := 0;
    if tickReports != null && tickReports.Length < |frames| + 1 {
      return ResultError, reportCount;
    }
    ghost var first := StartReport(engine.Value());
    if tickReports != null {
      var reading := SensorFrame(engine.rpm, engine.temperature, engine.oilPressure, engine.isRunning);
      tickReports[0] := TickReport(0, reading, ResultOk, 0.0, engine.mode);
      assert tickReports[..] == Overwritten(old(tickReports[..]), 0, [first]);
    }
    var status := engine.Start();
    if status != StatusOk {
      return ResultError, reportCount;
    }
    var completed: bool;
    result, completed := RunEntries(engine, controller, plant, hal, tickValues, frames, tickReports);
    if completed {
      reportCount := |frames| + 1;
    }
  }

  /** The argument checks made before the engine is touched. */
  predicate Refused(tickCount: nat, tickReports: array?<TickReport>) {
    !(1 <= tickCount <= 64) || (tickReports != null && tickReports.Length < tickCount + 1)
  }

  // --- profiles given as arrays of readings ----------------------------------

  function ReadingsOf(rpm: seq<real>, temperature: seq<real>, oilPressure: seq<real>, run: Option<seq<int>>)
    : (readings: seq<SensorFrame>)
    requires |rpm| == |temperature| == |oilPressure| && (run.Some? ==> |run.value| == |rpm|)
    ensures |readings| == |rpm|
  {
    seq(|rpm|, i requires 0 <= i < |rpm| && |rpm| == |temperature| == |oilPressure| && (run.Some? ==> |run.value| == |rpm|) =>
      SensorFrame(rpm[i], temperature[i], oilPressure[i], if run.None? then 1 else run.value[i]))
  }

  predicate AllValid(readings: seq<SensorFrame>) {
    forall i :: 0 <= i < |readings| ==> readings[i].Valid()
  }

  /** The frames the readings are sent as. */
  function FramesOf(readings: seq<SensorFrame>): (frames: seq<Frame>)
    requires AllValid(readings)
    ensures |frames| == |readings|
  {
    seq(|readings|, i requires 0 <= i < |readings| && AllValid(readings) => Encode(readings[i]).value)
  }

  /** Encode every reading first; one that is out of range stops the profile before the engine is touched. */
  method ExecuteProfile(engine: Engine, controller: Controller, plant: Plant, hal: Hal, tickValues: Option<seq<uint32>>,
                        rpm: seq<real>, temperature: seq<real>, oilPressure: seq<real>, run: Option<seq<int>>,
                        tickReports: array?<TickReport>, priorCount: nat)
    returns (result: Verdict, reportCount: nat)
    requires hal.Valid()
    requires |rpm| == |temperature| == |oilPressure| && (run.Some? ==> |run.value| == |rpm|)
    requires tickValues.Some? ==> |tickValues.value| == |rpm|
    modifies engine, hal, hal.sensorQueue, hal.sensorQueue.frames, tickReports
    ensures hal.Valid()
    ensures var readings := ReadingsOf(rpm, temperature, oilPressure, run);
            if Refused(|rpm|, tickReports) || !AllValid(readings) then
              && result == ResultError
              && reportCount == (if 1 <= |rpm| <= 64 && AllValid(readings) then 0 else priorCount)
              && engine.Value() == old(engine.Value()) && hal.Value() == old(hal.Value())
              && (tickReports != null ==> tickReports[..] == old(tickReports[..]))
            else
              var o := Profile(Rig(controller.calibration, plant.physics),
                               World(old(engine.Value()), old(hal.Value())), Entries(tickValues, FramesOf(readings)));
              && result == o.verdict
              && reportCount == (if o.completed then |rpm| + 1 else 0)
              && o.world == World(engine.Value(), hal.Value())
              && |o.reports| <= |rpm| + 1
              && (tickReports != null ==> tickReports[..] == Overwritten(old(tickReports[..]), 0, o.reports))
  {
    hide Encode, Profile;
    if |rpm| == 0 || |rpm| > MAX_TICKS {
      return ResultError, priorCount;
    }
    ghost var readings := ReadingsOf(rpm, temperature, oilPressure, run);
    var frames: seq<Frame> := [];
    var i := 0;
    while i < |rpm|
      modifies {}
      invariant 0 <= i <= |rpm| && |frames| == i
      invariant forall j :: 0 <= j < i ==> readings[j].Valid() && Encode(readings[j]) == Success(frames[j])
    {
      var flag := if run.None? then 1 else run.value[i];
      EncodesIffValid(readings[i]);
      if flag != 0 && flag != 1 {
        return ResultError, priorCount;
      }
      var encoded := EncodeSensorFrame(SensorFrame(rpm[i], temperature[i], oilPressure[i], flag));
      if encoded.Failure? {
        return ResultError, priorCount;
      }
      frames := frames + [encoded.value];
      i := i + 1;
    }
    assert frames == FramesOf(readings);
    result, reportCount := ExecuteProfileFrames(engine, controller, plant, hal, tickValues, frames, tickReports, priorCount);
  }

  lemma EncodesIffValid(s: SensorFrame)
    ensures Encode(s).Success? <==> s.Valid()
  {
  }
}
