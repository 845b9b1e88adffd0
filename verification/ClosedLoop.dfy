/** The plant ramp in closed form, and the closed loop of plant and controller without sensors in between. */
module ClosedLoop {
  import opened EngineModel
  import opened Control

  function Min(a: real, b: real): real { if a < b then a else b }
  function Max(a: real, b: real): real { if a < b then b else a }

  /** A value n ticks into its ramp: it rises by rate per tick to the target; one past the target is left alone. */
  function RisingValue(x: real, target: real, rate: real, n: nat): real {
    if x >= target then x else Min(target, x + n as real * rate)
  }

  function FallingValue(x: real, target: real, rate: real, n: nat): real {
    if x <= target then x else Max(target, x - n as real * rate)
  }

  lemma RampStep(x: real, target: real, rate: real, n: nat)
    requires rate > 0.0
    ensures RampUp(RisingValue(x, target, rate, n), target, rate) == RisingValue(x, target, rate, n + 1)
    ensures RampDown(FallingValue(x, target, rate, n), target, rate) == FallingValue(x, target, rate, n + 1)
  {
    assert (n + 1) as real * rate == n as real * rate + rate;
  }

  function UpdatedTimes(p: PhysicsConfig, e: EngineState, n: nat): EngineState {
    if n == 0 then e else Updated(p, UpdatedTimes(p, e, n - 1))
  }

  /** The values of a plant that has been ramping from e for n ticks. */
  function Ramped(p: PhysicsConfig, e: EngineState, n: nat): EngineState {
    e.(rpm := RisingValue(e.rpm, p.targetRpm, p.rpmRampRate, n),
       temperature := RisingValue(e.temperature, p.targetTemperature, p.tempRampRate, n),
       oilPressure := FallingValue(e.oilPressure, p.targetOilPressure, p.oilDecayRate, n))
  }

  lemma UpdateOfRamped(p: PhysicsConfig, e: EngineState, n: nat)
    requires p.Valid() && e.isRunning != 0 && e.mode != Shutdown
    ensures Updated(p, Ramped(p, e, n)) == Ramped(p, e, n + 1).(mode := if e.mode == Starting then Running else e.mode)
  {
    hide RampUp, RampDown, RisingValue, FallingValue;
    RampStep(e.rpm, p.targetRpm, p.rpmRampRate, n);
    RampStep(e.temperature, p.targetTemperature, p.tempRampRate, n);
    RampStep(e.oilPressure, p.targetOilPressure, p.oilDecayRate, n);
  }

  lemma RampedZeroTimes(p: PhysicsConfig, e: EngineState)
    ensures Ramped(p, e, 0) == e
  {
    assert 0 as real == 0.0;
  }

  function SettledMode(m: Mode, n: nat): Mode {
    if n > 0 && m == Starting then Running else m
  }

  /** n updates of a running engine reach min(target, x + n rate) from below, max from above for oil, in one formula. */
  lemma {:induction false} RampClosedForm(p: PhysicsConfig, e: EngineState, n: nat)
    requires p.Valid() && e.isRunning != 0 && e.mode != Shutdown
    ensures UpdatedTimes(p, e, n) == Ramped(p, e, n).(mode := SettledMode(e.mode, n))
  {
    hide RisingValue, FallingValue, RampUp, RampDown;
    if n == 0 {
      RampedZeroTimes(p, e);
    } else {
      RampClosedForm(p, e, n - 1);
      var now := e.(mode := SettledMode(e.mode, n - 1));
      assert Ramped(p, e, n - 1).(mode := now.mode) == Ramped(p, now, n - 1);
      UpdateOfRamped(p, now, n - 1);
    }
  }

  /** Updates leave the sensor values of an idle engine alone, and stop the shaft of one that was shut down. */
  lemma {:induction false} UpdatesWithoutRun(p: PhysicsConfig, e: EngineState, n: nat)
    requires n >= 1 && (e.isRunning == 0 || e.mode == Shutdown)
    ensures UpdatedTimes(p, e, n) ==
              if e.mode == Shutdown then e.(isRunning := 0, rpm := 0.0) else e.(mode := SettledMode(e.mode, n))
  {
    if n == 1 {
      assert UpdatedTimes(p, e, 0) == e;
    } else {
      UpdatesWithoutRun(p, e, n - 1);
    }
  }

  /** The factory plant: 150 rpm and 0.6 degrees a tick up to 3000 rpm and 90 degrees, oil 0.01 bar down to 3.4. */
  lemma FactoryPlantRamps(e: EngineState, n: nat)
    requires e.isRunning != 0 && (e.mode == Running || e.mode == Warning)
    ensures var after := UpdatedTimes(DEFAULT_PHYSICS, e, n);
            && after.rpm == RisingValue(e.rpm, 3000.0, 150.0, n)
            && after.temperature == RisingValue(e.temperature, 90.0, 0.6, n)
            && after.oilPressure == FallingValue(e.oilPressure, 3.4, 0.01, n)
  {
    hide RisingValue, FallingValue;
    RampClosedForm(DEFAULT_PHYSICS, e, n);
  }

  /** Plant parameters are refused exactly when one of them is not positive. */
  lemma PhysicsIsRefusedIff(p: PhysicsConfig)
    ensures !p.Valid() <==>
              || p.targetRpm <= 0.0 || p.targetTemperature <= 0.0 || p.targetOilPressure <= 0.0
              || p.rpmRampRate <= 0.0 || p.tempRampRate <= 0.0 || p.oilDecayRate <= 0.0
  {
  }

  // --- plant and controller together ---------------------------------------------

  const START := INITIAL_STATE.(mode := Starting, isRunning := 1)

  /** n rounds of engine_update and evaluate_engine after engine_init and engine_start. */
  function Loop(cal: Calibration, p: PhysicsConfig, n: nat): EngineState {
    if n == 0 then START
    else Evaluated(cal, Updated(p, Loop(cal, p, n - 1)))
  }

  predicate SamePlant(e: EngineState, e': EngineState) {
    e.rpm == e'.rpm && e.temperature == e'.temperature && e.oilPressure == e'.oilPressure && e.isRunning == e'.isRunning
  }

  /** Where the plant comes to rest: at its targets, unless it started past them. */
  function AtRest(p: PhysicsConfig): EngineState {
    START.(rpm := Max(0.0, p.targetRpm), temperature := Max(25.0, p.targetTemperature),
           oilPressure := Min(3.0, p.targetOilPressure))
  }

  lemma UpdateSeesPlantOnly(p: PhysicsConfig, e: EngineState, e': EngineState)
    requires SamePlant(e, e') && e.mode != Shutdown && e'.mode != Shutdown
    ensures SamePlant(Updated(p, e), Updated(p, e'))
  {
  }

  lemma {:induction false} LoopPlant(cal: Calibration, p: PhysicsConfig, n: nat)
    requires p.Valid() && forall m: nat :: m < n ==> Loop(cal, p, m).mode != Shutdown
    ensures SamePlant(Loop(cal, p, n), Ramped(p, START, n))
  {
    hide RisingValue, FallingValue, RampUp, RampDown, Updated;
    if n == 0 {
      RampedZeroTimes(p, START);
    } else {
      LoopPlant(cal, p, n - 1);
      UpdateOfRamped(p, START, n - 1);
      UpdateSeesPlantOnly(p, Loop(cal, p, n - 1), Ramped(p, START, n - 1));
    }
  }

  lemma RampStaysBelowRest(p: PhysicsConfig, n: nat)
    requires p.Valid()
    ensures var r := Ramped(p, START, n);
            r.rpm <= AtRest(p).rpm && r.temperature <= AtRest(p).temperature && r.oilPressure >= AtRest(p).oilPressure
  {
  }

  /** Every fault present at rest has a threshold its counter cannot reach. */
  predicate Tolerated(cal: Calibration, rest: EngineState) {
    && (rest.temperature > cal.temperatureLimit ==> cal.tempPersistence > 1_000_000)
    && (rest.oilPressure < cal.oilPressureLimit ==> cal.oilPersistence > 1_000_000)
    && (rest.rpm >= cal.highRpmThreshold && rest.temperature >= cal.highTempThreshold ==> cal.combinedPersistence > 1_000_000)
  }

  /** Counters stay within their limit, and those of faults absent at rest stay at zero. */
  predicate QuietCounters(cal: Calibration, rest: EngineState, e: EngineState) {
    && e.tempFaults <= (if rest.temperature > cal.temperatureLimit then 1_000_000 else 0)
    && e.oilFaults <= (if rest.oilPressure < cal.oilPressureLimit then 1_000_000 else 0)
    && e.combinedFaults <= (if rest.rpm >= cal.highRpmThreshold && rest.temperature >= cal.highTempThreshold then 1_000_000 else 0)
  }

  lemma UpdateKeepsCounters(p: PhysicsConfig, e: EngineState)
    ensures var u := Updated(p, e);
            u.tempFaults == e.tempFaults && u.oilFaults == e.oilFaults && u.combinedFaults == e.combinedFaults
  {
  }

  lemma QuietRound(cal: Calibration, p: PhysicsConfig, rest: EngineState, e: EngineState)
    requires cal.Valid() && Tolerated(cal, rest) && QuietCounters(cal, rest, e)
    requires e.mode == Starting || e.mode == Running
    requires var u := Updated(p, e);
             u.rpm <= rest.rpm && u.temperature <= rest.temperature && u.oilPressure >= rest.oilPressure
    ensures var after := Evaluated(cal, Updated(p, e));
            && after.mode == Running && QuietCounters(cal, rest, after) && SamePlant(after, Updated(p, e))
  {
    hide RampUp, RampDown;
    UpdateKeepsCounters(p, e);
  }

  lemma {:induction false} QuietLoop(cal: Calibration, p: PhysicsConfig, n: nat)
    requires cal.Valid() && p.Valid() && Tolerated(cal, AtRest(p))
    ensures var e := Loop(cal, p, n);
            && e.mode == (if n == 0 then Starting else Running)
            && QuietCounters(cal, AtRest(p), e)
            && SamePlant(e, Ramped(p, START, n))
  {
    hide RisingValue, FallingValue, RampUp, RampDown, Evaluated, AtRest, Tolerated;
    if n == 0 {
      RampedZeroTimes(p, START);
    } else {
      QuietLoop(cal, p, n - 1);
      UpdateOfRamped(p, START, n - 1);
      UpdateSeesPlantOnly(p, Loop(cal, p, n - 1), Ramped(p, START, n - 1));
      RampStaysBelowRest(p, n);
      QuietRound(cal, p, AtRest(p), Loop(cal, p, n - 1));
    }
  }

  lemma ProductGrows(a: real, b: real, rate: real)
    requires a <= b && rate > 0.0
    ensures a * rate <= b * rate
  {
    assert (b - a) * rate >= 0.0;
  }

  lemma Enough(distance: real, rate: real) returns (n: nat)
    requires rate > 0.0
    ensures n as real * rate >= distance
  {
    if distance <= 0.0 {
      return 0;
    }
    n := (distance / rate).Floor + 1;
    var exact := distance / rate;
    assert exact * rate == distance;
    ProductGrows(exact, n as real, rate);
  }

  lemma MoreIsEnough(m: nat, n: nat, rate: real)
    requires m <= n && rate > 0.0
    ensures m as real * rate <= n as real * rate
  {
    ProductGrows(m as real, n as real, rate);
  }

  lemma RampComesToRest(p: PhysicsConfig) returns (n: nat)
    requires p.Valid()
    ensures forall m: nat :: n <= m ==> SamePlant(Ramped(p, START, m), AtRest(p))
  {
    var a := Enough(p.targetRpm, p.rpmRampRate);
    var b := Enough(p.targetTemperature - 25.0, p.tempRampRate);
    var c := Enough(3.0 - p.targetOilPressure, p.oilDecayRate);
    n := a + b + c;
    forall m: nat | n <= m ensures SamePlant(Ramped(p, START, m), AtRest(p)) {
      MoreIsEnough(a, m, p.rpmRampRate);
      MoreIsEnough(b, m, p.tempRampRate);
      MoreIsEnough(c, m, p.oilDecayRate);
    }
  }

  /** The counter of some fault present at rest, after m rounds at rest. */
  ghost predicate CounterAtLeast(cal: Calibration, rest: EngineState, e: EngineState, m: nat) {
    && (rest.temperature > cal.temperatureLimit ==> e.tempFaults >= m)
    && (rest.oilPressure < cal.oilPressureLimit ==> e.oilFaults >= m)
    && (rest.rpm >= cal.highRpmThreshold && rest.temperature >= cal.highTempThreshold ==> e.combinedFaults >= m)
  }

  lemma {:induction false} CountersGrowAtRest(cal: Calibration, p: PhysicsConfig, n: nat, m: nat)
    requires p.Valid() && m <= 1_000_000
    requires forall i: nat :: i < n + m ==> Loop(cal, p, i).mode != Shutdown
    requires forall i: nat :: n <= i ==> SamePlant(Ramped(p, START, i), AtRest(p))
    ensures CounterAtLeast(cal, AtRest(p), Loop(cal, p, n + m), m)
  {
    hide Updated, Ramped, AtRest;
    if m == 0 {
    } else {
      CountersGrowAtRest(cal, p, n, m - 1);
      LoopPlant(cal, p, n + m);
      UpdateKeepsCounters(p, Loop(cal, p, n + m - 1));
    }
  }

  /** A full counter does not leave an updated engine in RUNNING. */
  lemma FullCounterEscalates(cal: Calibration, e: EngineState)
    requires e.mode == Starting || e.mode == Running
    requires var after := Evaluated(cal, e.(mode := Running));
             || after.tempFaults >= cal.tempPersistence
             || after.oilFaults >= cal.oilPersistence
             || after.combinedFaults >= cal.combinedPersistence
    ensures Evaluated(cal, e.(mode := Running)).mode == Warning
  {
  }

  /**
   * The closed loop stays RUNNING for ever exactly when every fault the plant's resting point shows has a threshold
   * past the counter limit. With thresholds the counters can reach, that is: when the resting point shows no fault.
   */
  lemma StaysRunningIffRestIsSafe(cal: Calibration, p: PhysicsConfig)
    requires cal.Valid() && p.Valid()
    ensures (forall n: nat :: 1 <= n ==> Loop(cal, p, n).mode == Running) <==> Tolerated(cal, AtRest(p))
  {
    hide Ramped, Evaluated;
    var rest := AtRest(p);
    if Tolerated(cal, rest) {
      forall n: nat | 1 <= n ensures Loop(cal, p, n).mode == Running { QuietLoop(cal, p, n); }
    } else {
      var n := RampComesToRest(p);
      var m := if rest.temperature > cal.temperatureLimit && cal.tempPersistence <= 1_000_000 then cal.tempPersistence
               else if rest.oilPressure < cal.oilPressureLimit && cal.oilPersistence <= 1_000_000 then cal.oilPersistence
               else cal.combinedPersistence;
      if forall i: nat :: 1 <= i < n + m ==> Loop(cal, p, i).mode == Running {
        CountersGrowAtRest(cal, p, n, m);
        var before := Updated(p, Loop(cal, p, n + m - 1));
        assert before == before.(mode := Running);
        FullCounterEscalates(cal, before);
        assert Loop(cal, p, n + m).mode == Warning;
        assert exists k: nat :: 1 <= k && Loop(cal, p, k).mode != Running;
      } else {
        assert exists k: nat :: 1 <= k && Loop(cal, p, k).mode != Running;
      }
    }
  }

  /** Factory plant and factory calibration: the loop never leaves RUNNING. */
  lemma DefaultsStayRunning(n: nat)
    requires 1 <= n
    ensures Loop(DEFAULT_CALIBRATION, DEFAULT_PHYSICS, n).mode == Running
  {
    QuietLoop(DEFAULT_CALIBRATION, DEFAULT_PHYSICS, n);
  }
}
