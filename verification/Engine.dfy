/** The engine state machine and the plant model that ramps it. */
module EngineModel {
  import opened Status

  datatype Mode = Init | Starting | Running | Warning | Shutdown

  /** The fields of the engine object as one value. */
  datatype EngineState = EngineState(
    rpm: real, temperature: real, oilPressure: real, isRunning: int, mode: Mode,
    tempFaults: uint32, oilFaults: uint32, combinedFaults: uint32)

  const INITIAL_STATE := EngineState(0.0, 25.0, 3.0, 0, Init, 0, 0, 0)

  datatype PhysicsConfig = PhysicsConfig(
    targetRpm: real, targetTemperature: real, targetOilPressure: real,
    rpmRampRate: real, tempRampRate: real, oilDecayRate: real)
  {
    predicate Valid() {
      && targetRpm > 0.0 && targetTemperature > 0.0 && targetOilPressure > 0.0
      && rpmRampRate > 0.0 && tempRampRate > 0.0 && oilDecayRate > 0.0
    }
  }

  const DEFAULT_PHYSICS := PhysicsConfig(3000.0, 90.0, 3.4, 150.0, 0.6, 0.01)

  predicate IsLegalTransition(from: Mode, to: Mode) {
    || from == to
    || match from
       case Init => to == Starting
       case Starting => to == Running || to == Shutdown
       case Running => to == Warning || to == Shutdown
       case Warning => to == Shutdown
       case Shutdown => to == Init
  }

  function RampUp(x: real, target: real, rate: real): real {
    if x < target then if x + rate > target then target else x + rate else x
  }

  function RampDown(x: real, target: real, rate: real): real {
    if x > target then if x - rate < target then target else x - rate else x
  }

  /** The state after one plant update. */
  function Updated(p: PhysicsConfig, e: EngineState): EngineState {
    var e := if e.mode == Starting then e.(mode := Running) else e;
    if e.mode == Shutdown then e.(isRunning := 0, rpm := 0.0)
    else if e.isRunning == 0 then e
    else e.(rpm := RampUp(e.rpm, p.targetRpm, p.rpmRampRate),
            temperature := RampUp(e.temperature, p.targetTemperature, p.tempRampRate),
            oilPressure := RampDown(e.oilPressure, p.targetOilPressure, p.oilDecayRate))
  }

  /** The plant parameters in force; they may be configured once between resets. */
  class Plant {
    var physics: PhysicsConfig
    var configured: bool

    constructor ()
      ensures physics == DEFAULT_PHYSICS && !configured
    {
      physics, configured := DEFAULT_PHYSICS, false;
    }

    method Configure(config: PhysicsConfig) returns (status: StatusCode)
      modifies this
      ensures status == StatusOk <==> !old(configured) && config.Valid()
      ensures status == StatusOk || status == InvalidArgument
      ensures physics == if status == StatusOk then config else old(physics)
      ensures configured == (old(configured) || status == StatusOk)
    {
      if configured {
        return InvalidArgument;
      }
      if !config.Valid() {
        return InvalidArgument;
      }
      physics := config;
      configured := true;
      return StatusOk;
    }

    method Reset() returns (status: StatusCode)
      modifies this
      ensures status == StatusOk && physics == DEFAULT_PHYSICS && !configured
    {
      physics, configured := DEFAULT_PHYSICS, false;
      return StatusOk;
    }
  }

  class Engine {
    var rpm: real
    var temperature: real
    var oilPressure: real
    var isRunning: int
    var mode: Mode
    var tempFaults: uint32
    var oilFaults: uint32
    var combinedFaults: uint32

    ghost function Value(): EngineState
      reads this
    {
      EngineState(rpm, temperature, oilPressure, isRunning, mode, tempFaults, oilFaults, combinedFaults)
    }

    constructor ()
      ensures Value() == INITIAL_STATE
    {
      rpm, temperature, oilPressure, isRunning, mode := 0.0, 25.0, 3.0, 0, Init;
      tempFaults, oilFaults, combinedFaults := 0, 0, 0;
    }

    method Reset() returns (status: StatusCode)
      modifies this
      ensures status == StatusOk && Value() == INITIAL_STATE
    {
      rpm, temperature, oilPressure, isRunning, mode := 0.0, 25.0, 3.0, 0, Init;
      tempFaults, oilFaults, combinedFaults := 0, 0, 0;
      return StatusOk;
    }

    /** The only way a mode changes: an illegal target leaves the engine as it was. */
    method TransitionMode(target: Mode) returns (status: StatusCode)
      modifies this`mode
      ensures status == StatusOk <==> IsLegalTransition(old(mode), target)
      ensures status == StatusOk || status == InvalidArgument
      ensures mode == if status == StatusOk then target else old(mode)
    {
      if !IsLegalTransition(mode, target) {
        return InvalidArgument;
      }
      mode := target;
      return StatusOk;
    }

    method Start() returns (status: StatusCode)
      modifies this`mode, this`isRunning
      ensures status == StatusOk <==> old(mode) == Init
      ensures status == StatusOk || status == InvalidArgument
      ensures Value() == if status == StatusOk then old(Value()).(mode := Starting, isRunning := 1) else old(Value())
    {
      if mode != Init {
        return InvalidArgument;
      }
      status := TransitionMode(Starting);
      if status != StatusOk {
        return InternalError;
      }
      isRunning := 1;
      return StatusOk;
    }

    method Update(plant: Plant) returns (status: StatusCode)
      modifies this
      ensures status == StatusOk
      ensures Value() == Updated(plant.physics, old(Value()))
    {
      if mode == Starting {
        status := TransitionMode(Running);
        if status != StatusOk {
          return InternalError;
        }
      }
      if mode == Shutdown {
        isRunning := 0;
        rpm := 0.0;
        return StatusOk;
      }
      if isRunning == 0 {
        return StatusOk;
      }
      if rpm < plant.physics.targetRpm {
        rpm := rpm + plant.physics.rpmRampRate;
        if rpm > plant.physics.targetRpm {
          rpm := plant.physics.targetRpm;
        }
      }
      assert rpm == RampUp(old(rpm), plant.physics.targetRpm, plant.physics.rpmRampRate);
      if temperature < plant.physics.targetTemperature {
        temperature := temperature + plant.physics.tempRampRate;
        if temperature > plant.physics.targetTemperature {
          temperature := plant.physics.targetTemperature;
        }
      }
      assert temperature == RampUp(old(temperature), plant.physics.targetTemperature, plant.physics.tempRampRate);
      if oilPressure > plant.physics.targetOilPressure {
        oilPressure := oilPressure - plant.physics.oilDecayRate;
        if oilPressure < plant.physics.targetOilPressure {
          oilPressure := plant.physics.targetOilPressure;
        }
      }
      assert oilPressure == RampDown(old(oilPressure), plant.physics.targetOilPressure, plant.physics.oilDecayRate);
      return StatusOk;
    }
  }
}
