/** Fault evaluation, the mode escalation it drives, and the control output. */
module Control {
  import opened Status
  import opened EngineModel

  const COUNTER_LIMIT: uint32 := 1_000_000

  datatype Calibration = Calibration(
    temperatureLimit: real, oilPressureLimit: real, highRpmThreshold: real, highTempThreshold: real,
    tempPersistence: uint32, oilPersistence: uint32, combinedPersistence: uint32)
  {
    predicate Valid() {
      && 0.0 < temperatureLimit <= 200.0
      && 0.1 <= oilPressureLimit <= 10.0
      && 100.0 <= highRpmThreshold <= 10000.0
      && -50.0 <= highTempThreshold <= 200.0
      && tempPersistence != 0 && oilPersistence != 0 && combinedPersistence != 0
    }

    predicate OverTemperature(temperature: real) { temperature > temperatureLimit }
    predicate LowOil(oilPressure: real) { oilPressure < oilPressureLimit }
    predicate HighLoad(rpm: real, temperature: real) {
      rpm >= highRpmThreshold && temperature >= highTempThreshold
    }
  }

  const DEFAULT_CALIBRATION := Calibration(95.0, 2.5, 3500.0, 85.0, 3, 3, 2)

  function CountFault(active: bool, counter: uint32): uint32 {
    if !active then 0 else if counter < COUNTER_LIMIT then counter + 1 else counter
  }

  /** The state with its three fault counters brought up to date. */
  function Counted(cal: Calibration, e: EngineState): EngineState {
    e.(tempFaults := CountFault(cal.OverTemperature(e.temperature), e.tempFaults),
       oilFaults := CountFault(cal.LowOil(e.oilPressure), e.oilFaults),
       combinedFaults := CountFault(cal.HighLoad(e.rpm, e.temperature), e.combinedFaults))
  }

  /** What the counters call for, whatever the mode. */
  function Demand(cal: Calibration, e: EngineState): Verdict {
    if e.tempFaults >= cal.tempPersistence || e.oilFaults >= cal.oilPersistence then ResultShutdown
    else if e.combinedFaults >= cal.combinedPersistence then ResultWarning
    else ResultOk
  }

  function NextMode(e: EngineState, demand: Verdict): Mode {
    match e.mode
    case Init => if e.isRunning != 0 then Starting else Init
    case Running => if demand == ResultWarning || demand == ResultShutdown then Warning else Running
    case Warning => if demand == ResultShutdown then Shutdown else Warning
    case _ => e.mode
  }

  function Evaluated(cal: Calibration, e: EngineState): EngineState {
    var c := Counted(cal, e);
    c.(mode := NextMode(c, Demand(cal, c)))
  }

  function VerdictOfMode(mode: Mode): Verdict {
    match mode
    case Warning => ResultWarning
    case Shutdown => ResultShutdown
    case _ => ResultOk
  }

  function Clamp(value: real): real {
    if value < 0.0 then 0.0 else if value > 100.0 then 100.0 else value
  }

  function RawOutput(rpm: real, temperature: real, oilPressure: real): real {
    20.0 + rpm / 100.0 - (temperature - 25.0) * 0.25 - (3.0 - oilPressure) * 10.0
  }

  function ControlOutput(rpm: real, temperature: real, oilPressure: real): (output: real)
    ensures 0.0 <= output <= 100.0
  {
    Clamp(RawOutput(rpm, temperature, oilPressure))
  }

  /**
   * After an evaluation a fault counter is zero exactly when the engine's own numbers do not show the fault: at a limit
   * they do not, at both load thresholds they do. A counter of a fault that shows went up by one, to a million at most.
   */
  lemma CountersTellTheFaults(cal: Calibration, e: EngineState)
    ensures var after := Evaluated(cal, e);
            && (after.tempFaults == 0 <==> e.temperature <= cal.temperatureLimit)
            && (after.oilFaults == 0 <==> e.oilPressure >= cal.oilPressureLimit)
            && (after.combinedFaults == 0 <==> e.rpm < cal.highRpmThreshold || e.temperature < cal.highTempThreshold)
            && (after.tempFaults != 0 ==> after.tempFaults == e.tempFaults + (if e.tempFaults < 1_000_000 then 1 else 0))
            && (after.oilFaults != 0 ==> after.oilFaults == e.oilFaults + (if e.oilFaults < 1_000_000 then 1 else 0))
            && (after.combinedFaults != 0 ==>
                  after.combinedFaults == e.combinedFaults + (if e.combinedFaults < 1_000_000 then 1 else 0))
  {
  }

  /**
   * Where an evaluation leaves the mode: a running INIT goes to STARTING, which stays; RUNNING gives way to WARNING when
   * any counter has reached its persistence, WARNING to SHUTDOWN when the temperature or oil counter has; SHUTDOWN stays.
   */
  lemma EvaluationModesAre(cal: Calibration, e: EngineState)
    ensures var after := Evaluated(cal, e);
            var shutdown := after.tempFaults >= cal.tempPersistence || after.oilFaults >= cal.oilPersistence;
            && (e.mode == Init ==> after.mode == if e.isRunning == 0 then Init else Starting)
            && (e.mode == Starting ==> after.mode == Starting)
            && (e.mode == Running ==>
                  after.mode == if shutdown || after.combinedFaults >= cal.combinedPersistence then Warning else Running)
            && (e.mode == Warning ==> after.mode == if shutdown then Shutdown else Warning)
            && (e.mode == Shutdown ==> after.mode == Shutdown)
  {
  }

  /** A calibration is refused exactly when a limit is outside its range or a persistence is zero. */
  lemma CalibrationIsRefusedIff(cal: Calibration)
    ensures !cal.Valid() <==>
              || cal.temperatureLimit <= 0.0 || cal.temperatureLimit > 200.0
              || cal.oilPressureLimit < 0.1 || cal.oilPressureLimit > 10.0
              || cal.highRpmThreshold < 100.0 || cal.highRpmThreshold > 10000.0
              || cal.highTempThreshold < -50.0 || cal.highTempThreshold > 200.0
              || cal.tempPersistence == 0 || cal.oilPersistence == 0 || cal.combinedPersistence == 0
  {
  }

  /** Every mode the evaluation can leave behind is one legal transition away, and never a step back. */
  lemma EvaluationIsOneLegalStep(cal: Calibration, e: EngineState)
    ensures IsLegalTransition(e.mode, Evaluated(cal, e).mode)
    ensures Rank(e.mode) <= Rank(Evaluated(cal, e).mode) <= Rank(e.mode) + 1
  {
  }

  function Rank(mode: Mode): nat {
    match mode
    case Init => 0
    case Starting => 1
    case Running => 2
    case Warning => 3
    case Shutdown => 4
  }

  /** The calibration in force; it may be configured once between resets. */
  class Controller {
    var calibration: Calibration
    var configured: bool

    constructor ()
      ensures calibration == DEFAULT_CALIBRATION && !configured
    {
      calibration, configured := DEFAULT_CALIBRATION, false;
    }

    method Configure(candidate: Calibration) returns (status: StatusCode)
      modifies this
      ensures status == StatusOk <==> candidate.Valid() && !old(configured)
      ensures status == StatusOk || status == InvalidArgument
      ensures calibration == if status == StatusOk then candidate else old(calibration)
      ensures configured == (old(configured) || status == StatusOk)
    {
      if !candidate.Valid() {
        return InvalidArgument;
      }
      if configured {
        return InvalidArgument;
      }
      calibration := candidate;
      configured := true;
      return StatusOk;
    }

    method Reset() returns (status: StatusCode)
      modifies this
      ensures status == StatusOk && calibration == DEFAULT_CALIBRATION && !configured
    {
      calibration, configured := DEFAULT_CALIBRATION, false;
      return StatusOk;
    }

    method UpdateFaultCounter(active: bool, counter: uint32) returns (updated: uint32)
      ensures updated == CountFault(active, counter)
    {
      updated := counter;
      if active {
        if updated < 1000000 {
          updated := updated + 1;
        }
      } else {
        updated := 0;
      }
    }

    method TransitionModeByResult(engine: Engine, demand: Verdict) returns (status: StatusCode)
      modifies engine`mode
      ensures status == StatusOk
      ensures engine.mode == NextMode(old(engine.Value()), demand)
    {
      if engine.mode == Init && engine.isRunning != 0 {
        status := engine.TransitionMode(Starting);
        if status != StatusOk {
          return InternalError;
        }
      }
      if engine.mode == Running {
        if demand == ResultWarning || demand == ResultShutdown {
          status := engine.TransitionMode(Warning);
          if status != StatusOk {
            return InternalError;
          }
        }
      } else if engine.mode == Warning {
        if demand == ResultShutdown {
          status := engine.TransitionMode(Shutdown);
          if status != StatusOk {
            return InternalError;
          }
        }
      }
      return StatusOk;
    }

    /** No engine state makes the evaluation fail. */
    method EvaluateEngine(engine: Engine) returns (status: StatusCode, verdict: Verdict)
      modifies engine
      ensures status == StatusOk
      ensures engine.Value() == Evaluated(calibration, old(engine.Value()))
      ensures verdict == VerdictOfMode(engine.mode)
    {
      engine.tempFaults :=
        UpdateFaultCounter(engine.temperature > calibration.temperatureLimit, engine.tempFaults);
      engine.oilFaults :=
        UpdateFaultCounter(engine.oilPressure < calibration.oilPressureLimit, engine.oilFaults);
      engine.combinedFaults :=
        UpdateFaultCounter(engine.rpm >= calibration.highRpmThreshold &&
                           engine.temperature >= calibration.highTempThreshold, engine.combinedFaults);

      var shutdownFault := false;
      if engine.tempFaults >= calibration.tempPersistence {
        shutdownFault := true;
      }
      if engine.oilFaults >= calibration.oilPersistence {
        shutdownFault := true;
      }
      var warningFault := false;
      if engine.combinedFaults >= calibration.combinedPersistence {
        warningFault := true;
      }
      var demand := if shutdownFault then ResultShutdown else if warningFault then ResultWarning else ResultOk;

      status := TransitionModeByResult(engine, demand);
      if status != StatusOk {
        return InternalError, ResultError;
      }
      verdict := if engine.mode == Warning then ResultWarning
                 else if engine.mode == Shutdown then ResultShutdown
                 else ResultOk;
      return StatusOk, verdict;
    }

    method ComputeControlOutput(engine: Engine) returns (output: real)
      ensures output == ControlOutput(engine.rpm, engine.temperature, engine.oilPressure)
    {
      output := 20.0;
      output := output + engine.rpm / 100.0;
      output := output - (engine.temperature - 25.0) * 0.25;
      output := output - (3.0 - engine.oilPressure) * 10.0;
      output := Clamp(output);
    }
  }
}
