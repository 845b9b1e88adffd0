/** The sensor path of the HAL: a bounded frame queue, frame decoding and the sensor timeout clock. */
module HalModel {
  import opened Status
  import opened EngineModel
  import opened Bytes
  import opened Codec

  const MAX_RX_FRAMES := 32
  const SENSOR_TIMEOUT_TICKS := 3

  datatype HalState = HalState(queue: seq<Frame>, lastSensorTick: uint32, hasSensorTick: bool)

  const FRESH_HAL := HalState([], 0, false)

  function ExpectedDlc(id: uint32): Option<uint8> {
    if id == SENSOR_ID then Some(8)
    else if id == SENSOR_ERROR_ID then Some(1)
    else if id == SENSOR_TEMP_B_ID then Some(2)
    else None
  }

  /** Only the two sensor identifiers are ingestible, each with the DLC its registry entry gives. */
  predicate TransportValid(f: Frame) {
    (f.id == SENSOR_ID || f.id == SENSOR_ERROR_ID) && ExpectedDlc(f.id) == Some(f.dlc)
  }

  datatype IngestOutcome = IngestOutcome(hal: HalState, status: StatusCode)

  function Ingest(h: HalState, f: Frame): IngestOutcome {
    if !TransportValid(f) then IngestOutcome(h, InvalidArgument)
    else if |h.queue| >= MAX_RX_FRAMES then IngestOutcome(h, BufferOverflow)
    else IngestOutcome(h.(queue := h.queue + [f]), StatusOk)
  }

  datatype ReadOutcome = ReadOutcome(hal: HalState, result: Result<SensorFrame>)

  /** Ticks since the clock was last set, with the wrap-around of unsigned subtraction. */
  function Silence(h: HalState, tick: uint32): uint32 {
    if h.hasSensorTick then (tick - h.lastSensorTick) % 0x1_0000_0000 else tick
  }

  function Read(h: HalState, tick: uint32): ReadOutcome {
    if h.queue == [] then
      ReadOutcome(h, Failure(if Silence(h, tick) > SENSOR_TIMEOUT_TICKS then Timeout else InvalidArgument))
    else
      var popped := h.(queue := h.queue[1..]);
      if h.queue[0].id == SENSOR_ERROR_ID then ReadOutcome(popped, Failure(ParseError))
      else match Decode(h.queue[0])
        case Failure(status) => ReadOutcome(popped, Failure(status))
        case Success(s) => ReadOutcome(popped.(lastSensorTick := tick, hasSensorTick := true), Success(s))
  }

  /** The engine state after a validated reading has been copied into it. */
  function Applied(s: SensorFrame, e: EngineState): EngineState {
    e.(isRunning := s.isRunning, rpm := s.rpm, temperature := s.temperature, oilPressure := s.oilPressure)
  }

  lemma ReadingsAreValid(h: HalState, tick: uint32)
    ensures Read(h, tick).result.Success? ==>
              && Read(h, tick).result.value.Valid()
              && h.queue != [] && Decode(h.queue[0]) == Read(h, tick).result
  {
  }

  /** The slot of the ring i places behind its head. */
  function Slot(head: nat, i: nat): (slot: nat)
    ensures slot < MAX_RX_FRAMES
  {
    (head + i) % MAX_RX_FRAMES
  }

  /** The slot behind the last frame holds none of the frames, unless the ring is full. */
  lemma SlotsDiffer(head: nat, count: nat, i: nat)
    requires head < MAX_RX_FRAMES && i < count < MAX_RX_FRAMES
    ensures Slot(head, i) != Slot(head, count)
  {
  }

  lemma SlotShifts(head: nat, i: nat)
    requires head < MAX_RX_FRAMES && i < MAX_RX_FRAMES
    ensures Slot((head + 1) % MAX_RX_FRAMES, i) == Slot(head, i + 1)
  {
  }

  /** A ring buffer that refuses new frames when full. */
  class FrameQueue {
    const frames: array<Frame>
    var head: nat
    var tail: nat
    var count: nat

    ghost predicate Valid()
      reads this
    {
      && frames.Length == MAX_RX_FRAMES
      && head < MAX_RX_FRAMES && count <= MAX_RX_FRAMES
      && tail == Slot(head, count)
    }

    ghost function Contents(): (s: seq<Frame>)
      reads this, frames
      requires Valid()
      ensures |s| == count
    {
      seq(count, i requires 0 <= i < count && Valid() reads this, frames => frames[Slot(head, i)])
    }

    constructor ()
      ensures Valid() && fresh(frames) && Contents() == []
    {
      frames := new Frame[MAX_RX_FRAMES](_ => Frame(0, 0, [0, 0, 0, 0, 0, 0, 0, 0]));
      head, tail, count := 0, 0, 0;
    }

    method Push(frame: Frame) returns (status: StatusCode)
      requires Valid()
      modifies this, frames
      ensures Valid()
      ensures status == if |old(Contents())| == MAX_RX_FRAMES then BufferOverflow else StatusOk
      ensures Contents() == if status == StatusOk then old(Contents()) + [frame] else old(Contents())
    {
      if count >= MAX_RX_FRAMES {
        return BufferOverflow;
      }
      forall i | 0 <= i < count ensures Slot(head, i) != tail {
        SlotsDiffer(head, count, i);
      }
      frames[tail] := frame;
      tail := (tail + 1) % MAX_RX_FRAMES;
      count := count + 1;
      assert Contents()[..count - 1] == old(Contents());
      return StatusOk;
    }

    method Pop() returns (r: Result<Frame>)
      requires Valid()
      modifies this
      ensures Valid()
      ensures r == if old(Contents()) == [] then Failure(IoError) else Success(old(Contents())[0])
      ensures Contents() == if r.Success? then old(Contents())[1..] else old(Contents())
    {
      if count == 0 {
        return Failure(IoError);
      }
      var frame := frames[head];
      var next := (head + 1) % MAX_RX_FRAMES;
      forall i | 0 <= i < count - 1 ensures Slot(next, i) == Slot(head, i + 1) {
        SlotShifts(head, i);
      }
      head := next;
      count := count - 1;
      assert Contents() == old(Contents())[1..];
      return Success(frame);
    }
  }

  class Hal {
    const sensorQueue: FrameQueue
    var lastSensorTick: uint32
    var hasSensorTick: bool

    ghost predicate Valid()
      reads this, sensorQueue
    {
      sensorQueue.Valid()
    }

    ghost function Value(): HalState
      reads this, sensorQueue, sensorQueue.frames
      requires Valid()
    {
      HalState(sensorQueue.Contents(), lastSensorTick, hasSensorTick)
    }

    constructor ()
      ensures Valid() && fresh(sensorQueue) && fresh(sensorQueue.frames)
      ensures Value() == FRESH_HAL
    {
      sensorQueue := new FrameQueue();
      lastSensorTick, hasSensorTick := 0, false;
    }

    method IngestSensorFrame(frame: Frame, tick: uint32) returns (status: StatusCode)
      requires Valid()
      modifies this, sensorQueue, sensorQueue.frames
      ensures Valid()
      ensures IngestOutcome(Value(), status) == Ingest(old(Value()), frame)
    {
      if frame.id != SENSOR_ID && frame.id != SENSOR_ERROR_ID {
        return InvalidArgument;
      }
      var expected := ExpectedDlc(frame.id);
      if expected.None? || frame.dlc != expected.value {
        return InvalidArgument;
      }
      status := sensorQueue.Push(frame);
    }

    method ReadSensors(tick: uint32) returns (r: Result<SensorFrame>)
      requires Valid()
      modifies this, sensorQueue
      ensures Valid()
      ensures ReadOutcome(Value(), r) == Read(old(Value()), tick)
    {
      var popped := sensorQueue.Pop();
      if popped.Failure? {
        if !hasSensorTick && tick > SENSOR_TIMEOUT_TICKS {
          return Failure(Timeout);
        }
        if hasSensorTick && (tick - lastSensorTick) % 0x1_0000_0000 > SENSOR_TIMEOUT_TICKS {
          return Failure(Timeout);
        }
        return Failure(InvalidArgument);
      }
      if popped.value.id == SENSOR_ERROR_ID {
        return Failure(ParseError);
      }
      r := DecodeSensorFrame(popped.value);
      if r.Failure? {
        return r;
      }
      lastSensorTick := tick;
      hasSensorTick := true;
    }

    method ApplySensors(s: SensorFrame, engine: Engine) returns (status: StatusCode)
      modifies engine
      ensures status == if s.Valid() then StatusOk else InvalidArgument
      ensures engine.Value() == if s.Valid() then Applied(s, old(engine.Value())) else old(engine.Value())
    {
      if !s.Valid() {
        return InvalidArgument;
      }
      engine.isRunning := s.isRunning;
      engine.rpm := s.rpm;
      engine.temperature := s.temperature;
      engine.oilPressure := s.oilPressure;
      return StatusOk;
    }
  }
}
