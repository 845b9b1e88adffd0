/** What a gap between two ticks costs, and what the HAL looks like on every way out of a run. */
module TickGap {
  import opened Status
  import opened EngineModel
  import opened Codec
  import opened HalModel
  import opened HalHistory
  import opened TickLoop

  /** The queue is empty and the clock was last set at the given tick (0: never set). */
  predicate InStep(h: HalState, current: uint32) {
    h.queue == [] && if h.hasSensorTick then h.lastSensorTick == current else current == 0
  }

  /** Polling an empty queue changes nothing in the HAL, whatever its clock says. */
  lemma {:induction false} PollKeepsEmptyHal(h: HalState, sim: int, target: uint32)
    requires h.queue == [] && 0 <= sim <= target
    ensures Poll(h, sim, target).hal == h
    decreases target - sim
  {
    if sim == target {
    } else {
      PollKeepsEmptyHal(h, sim + 1, target);
    }
  }

  /** Polling an empty queue stops at the first tick the sensor has been silent for too long, or at the target. */
  lemma {:induction false} PollStopsAtFirstSilence(h: HalState, sim: int, target: uint32)
    requires h.queue == [] && 0 <= sim <= target
    ensures var p := Poll(h, sim, target);
            && p.polls <= target - sim
            && (forall t :: sim <= t < sim + p.polls - 1 ==> Silence(h, t) <= 3)
            && (if p.timedOut then p.polls > 0 && Silence(h, sim + p.polls - 1) > 3
                else p.polls == target - sim &&
                     (target > sim ==> Silence(h, target - 1) <= 3))
    decreases target - sim
  {
    hide Silence;
    if sim == target {
    } else {
      PollStopsAtFirstSilence(h, sim + 1, target);
    }
  }

  lemma {:induction false} PollFrom(h: HalState, current: uint32, sim: int, target: uint32)
    requires InStep(h, current)
    requires current < sim <= target && sim <= current + 4
    ensures var p := Poll(h, sim, target);
            if target > current + 4 then p.timedOut && p.polls == current + 4 - sim + 1
            else !p.timedOut && p.polls == target - sim
    decreases target - sim
  {
    if sim < target && sim < current + 4 {
      PollFrom(h, current, sim + 1, target);
    }
  }

  /** Skipped ticks time out exactly at the previous tick + 4, so no gap costs more than four polls. */
  lemma PollCost(h: HalState, current: uint32, target: uint32)
    requires InStep(h, current) && current < target
    ensures var p := Poll(h, current + 1, target);
            && p.hal == h
            && (p.timedOut <==> target - current > 4)
            && p.polls == (if p.timedOut then 4 else target - current - 1)
  {
    PollFrom(h, current, current + 1, target);
    PollKeepsEmptyHal(h, current + 1, target);
  }

  lemma MeaningIsNeverTimeout(f: Frame)
    ensures Meaning(f) != Failure(Timeout)
  {
  }

  /**
   * From an empty queue the frame that is read at a tick is the frame that was ingested there. A timeout at the
   * target tick itself cannot happen: it is always one of the skipped ticks that times out.
   */
  lemma FetchFromEmpty(h: HalState, current: uint32, entry: Entry)
    requires h.queue == [] && current < entry.tick
    ensures var lost := Poll(h, current + 1, entry.tick).timedOut;
            var read := TransportValid(entry.frame) && Meaning(entry.frame).Success?;
            Fetch(h, current, entry) ==
              if lost then FetchOutcome(h, SensorLost)
              else if read then FetchOutcome(HalState([], entry.tick, true), Reading(Meaning(entry.frame).value))
              else FetchOutcome(h, NoReading)
  {
    hide Decode;
    PollKeepsEmptyHal(h, current + 1, entry.tick);
    MeaningIsNeverTimeout(entry.frame);
    var ingest := Ingest(h, entry.frame);
    if ingest.status == StatusOk {
      assert ingest.hal.queue == [entry.frame];
      assert ingest.hal.queue[1..] == [];
    }
  }

  /** Within a tick the queue never holds more than the one frame that tick brings. */
  lemma QueueHoldsAtMostOne(h: HalState, current: uint32, entry: Entry)
    requires h.queue == [] && current < entry.tick
    ensures |Ingest(Poll(h, current + 1, entry.tick).hal, entry.frame).hal.queue| <= 1
    ensures Fetch(h, current, entry).hal.queue == []
  {
    PollKeepsEmptyHal(h, current + 1, entry.tick);
    FetchFromEmpty(h, current, entry);
  }

  /** Every way out of a run leaves the queue empty. */
  lemma {:induction false} RunLeavesQueueEmpty(rig: Rig, w: World, current: uint32, entries: seq<Entry>, last: Verdict)
    requires w.hal.queue == []
    ensures Run(rig, w, current, entries, last).world.hal.queue == []
    decreases |entries|
  {
    hide Decode, Sampled, Updated, TimedOut;
    if entries == [] {
    } else {
      if current < entries[0].tick {
        QueueHoldsAtMostOne(w.hal, current, entries[0]);
      }
      match Tick(rig, w, current, entries[0])
      case Stopped(w', verdict) =>
      case Advanced(w', report) => RunLeavesQueueEmpty(rig, w', entries[0].tick, entries[1..], report.result);
    }
  }

  /** A completed tick sets the clock to that tick, so a run that starts in step stays in step. */
  lemma AdvanceStaysInStep(rig: Rig, w: World, current: uint32, entry: Entry)
    requires w.hal.queue == []
    requires Tick(rig, w, current, entry).Advanced?
    ensures current < entry.tick && InStep(Tick(rig, w, current, entry).world.hal, entry.tick)
    ensures var report := Tick(rig, w, current, entry).report;
            && report.tick == entry.tick && TransportValid(entry.frame)
            && Meaning(entry.frame) == Result.Success(report.reading)
  {
    hide Decode, Sampled, Updated, TimedOut;
    FetchFromEmpty(w.hal, current, entry);
  }

  /** With the clock in step, the three ways a tick can go are decided by the entry alone. */
  lemma TickInStep(rig: Rig, w: World, current: uint32, entry: Entry)
    requires InStep(w.hal, current) && current < entry.tick
    ensures var t := Tick(rig, w, current, entry);
            if entry.tick - current > 4 then t == Stopped(w.(engine := TimedOut(w.engine)), ResultShutdown)
            else if TransportValid(entry.frame) && Meaning(entry.frame).Success?
            then var s := Meaning(entry.frame).value;
                 var e := Sampled(rig.calibration, w.engine, s);
                 t == Advanced(World(Updated(rig.physics, e), HalState([], entry.tick, true)), ReportOf(entry.tick, s, e))
            else t == Stopped(w, ResultError)
  {
    hide Sampled, Updated, TimedOut, ReportOf, Unpacked;
    PollCost(w.hal, current, entry.tick);
    FetchFromEmpty(w.hal, current, entry);
  }
}
