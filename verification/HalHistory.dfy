/** What a reader of the HAL sees over any interleaving of ingests and reads that starts from hal_init. */
module HalHistory {
  import opened Status
  import opened Codec
  import opened HalModel

  datatype Op = IngestOp(frame: Frame, tick: uint32) | ReadOp(tick: uint32)

  function After(ops: seq<Op>): HalState {
    if ops == [] then FRESH_HAL else
    match ops[|ops| - 1]
    case IngestOp(f, _) => Ingest(After(ops[..|ops| - 1]), f).hal
    case ReadOp(tick) => Read(After(ops[..|ops| - 1]), tick).hal
  }

  /** The frames whose ingestion returned OK, oldest first. */
  function Taken(ops: seq<Op>): seq<Frame> {
    if ops == [] then [] else
    var before := ops[..|ops| - 1];
    match ops[|ops| - 1]
    case IngestOp(f, _) => if Ingest(After(before), f).status == StatusOk then Taken(before) + [f] else Taken(before)
    case ReadOp(_) => Taken(before)
  }

  /** What the reads that found a frame returned, oldest first. */
  function Returned(ops: seq<Op>): seq<Result<SensorFrame>> {
    if ops == [] then [] else
    var before := ops[..|ops| - 1];
    match ops[|ops| - 1]
    case IngestOp(_, _) => Returned(before)
    case ReadOp(tick) =>
      if After(before).queue == [] then Returned(before) else Returned(before) + [Read(After(before), tick).result]
  }

  /** What one frame means to its reader. */
  function Meaning(f: Frame): Result<SensorFrame> {
    if f.id == SENSOR_ERROR_ID then Failure(ParseError) else Decode(f)
  }

  ghost predicate BoundedFifo(ops: seq<Op>) {
    var taken, returned, queue := Taken(ops), Returned(ops), After(ops).queue;
    && |queue| <= 32
    && |taken| == |returned| + |queue|
    && taken[|returned|..] == queue
    && forall i :: 0 <= i < |returned| ==> returned[i] == Meaning(taken[i])
  }

  /**
   * The ring buffer behaves as a bounded first-in first-out queue: reads yield the accepted frames in order,
   * and what was accepted is what was read plus what is still queued.
   */
  lemma {:induction false} QueueIsBoundedFifo(ops: seq<Op>)
    ensures BoundedFifo(ops)
  {
    hide Decode;
    if ops == [] {
    } else {
      var before := ops[..|ops| - 1];
      QueueIsBoundedFifo(before);
      match ops[|ops| - 1]
      case IngestOp(f, _) =>
        IngestKeepsFifo(ops, f);
      case ReadOp(tick) =>
        ReadKeepsFifo(ops, tick);
    }
  }

  lemma IngestKeepsFifo(ops: seq<Op>, f: Frame)
    requires ops != [] && ops[|ops| - 1].IngestOp? && ops[|ops| - 1].frame == f && BoundedFifo(ops[..|ops| - 1])
    ensures BoundedFifo(ops)
  {
    hide Decode, Read, TransportValid, Meaning;
  }

  lemma ReadKeepsFifo(ops: seq<Op>, tick: uint32)
    requires ops != [] && ops[|ops| - 1] == ReadOp(tick) && BoundedFifo(ops[..|ops| - 1])
    ensures BoundedFifo(ops)
  {
    hide Decode, Ingest;
    var before := ops[..|ops| - 1];
    if After(before).queue != [] {
      assert Taken(before)[|Returned(before)|] == After(before).queue[0];
    }
  }

  /** A well-formed frame is refused exactly when 32 accepted frames are still unread; refusal changes nothing. */
  lemma OverflowDropsNewest(ops: seq<Op>, f: Frame, tick: uint32)
    requires TransportValid(f)
    ensures var refused := Ingest(After(ops), f).status == BufferOverflow;
            && (refused <==> |Taken(ops)| - |Returned(ops)| == 32)
            && (refused ==> After(ops + [IngestOp(f, tick)]) == After(ops))
            && (!refused ==> Taken(ops + [IngestOp(f, tick)]) == Taken(ops) + [f])
  {
    QueueIsBoundedFifo(ops);
    assert (ops + [IngestOp(f, tick)])[..|ops|] == ops;
  }

  /** Any other frame than an eight-byte reading or a one-byte error is refused, and changes nothing. */
  lemma MalformedIsRefused(ops: seq<Op>, f: Frame, tick: uint32)
    ensures Ingest(After(ops), f).status == InvalidArgument <==>
              !(f.id == 0x100 && f.dlc == 8) && !(f.id == 0x10E && f.dlc == 1)
    ensures Ingest(After(ops), f).status == InvalidArgument ==> After(ops + [IngestOp(f, tick)]) == After(ops)
  {
    assert (ops + [IngestOp(f, tick)])[..|ops|] == ops;
  }

  /** Ingestion checks identifier and DLC, so no read ever fails on them: a parse error is an error frame or a bad checksum. */
  lemma {:induction false} QueuedFramesAreWellFormed(ops: seq<Op>)
    ensures forall f :: f in Taken(ops) ==> TransportValid(f)
    ensures forall f :: f in After(ops).queue ==> TransportValid(f)
  {
    if ops == [] {
    } else {
      QueuedFramesAreWellFormed(ops[..|ops| - 1]);
    }
  }

  lemma ParseErrorMeansBadChecksum(ops: seq<Op>, tick: uint32)
    requires After(ops).queue != []
    ensures var f := After(ops).queue[0];
            Read(After(ops), tick).result == Failure(ParseError) <==>
              f.id == SENSOR_ERROR_ID || f.data[7] != Checksum(f.data)
  {
    QueuedFramesAreWellFormed(ops);
    assert After(ops).queue[0] in After(ops).queue;
  }

  // --- the sensor timeout clock ------------------------------------------------

  /** Tick of the most recent read that returned a reading; 0 when there has been none. */
  function LastGoodTick(ops: seq<Op>): uint32 {
    if ops == [] then 0 else
    var before := ops[..|ops| - 1];
    match ops[|ops| - 1]
    case ReadOp(tick) => if Read(After(before), tick).result.Success? then tick else LastGoodTick(before)
    case IngestOp(_, _) => LastGoodTick(before)
  }

  ghost predicate NonDecreasing(ops: seq<Op>) {
    forall i, j :: 0 <= i < j < |ops| ==> ops[i].tick <= ops[j].tick
  }

  lemma {:induction false} ClockHoldsLastGoodTick(ops: seq<Op>)
    ensures After(ops).lastSensorTick == LastGoodTick(ops)
    ensures !After(ops).hasSensorTick ==> LastGoodTick(ops) == 0
  {
    if ops == [] {
    } else {
      ClockHoldsLastGoodTick(ops[..|ops| - 1]);
    }
  }

  lemma {:induction false} LastGoodTickIsPast(ops: seq<Op>, t: uint32)
    requires forall i :: 0 <= i < |ops| ==> ops[i].tick <= t
    ensures LastGoodTick(ops) <= t
  {
    if ops == [] {
    } else {
      LastGoodTickIsPast(ops[..|ops| - 1], t);
    }
  }

  /**
   * With ticks that never go back, a read that finds no frame times out exactly when more than three ticks have
   * passed since the last reading, and is an invalid argument otherwise. Error frames, bad checksums and out-of-range payloads do not count as readings.
   */
  lemma TimeoutIffSilent(ops: seq<Op>, t: uint32)
    requires NonDecreasing(ops + [ReadOp(t)])
    requires After(ops).queue == []
    ensures Read(After(ops), t).result == Failure(if t - LastGoodTick(ops) > 3 then Timeout else InvalidArgument)
  {
    ClockHoldsLastGoodTick(ops);
    var all := ops + [ReadOp(t)];
    assert all[|ops|].tick == t;
    forall i | 0 <= i < |ops| ensures ops[i].tick <= t {
      assert all[i] == ops[i];
    }
    LastGoodTickIsPast(ops, t);
  }
}
