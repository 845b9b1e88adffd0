/** Every mode an engine goes through in a run, and what mode a returned verdict stands for. */
module ModeSafety {
  import opened Status
  import opened EngineModel
  import opened Control
  import opened Codec
  import opened HalModel
  import opened TickLoop

  /** A mode may stay, go up one rank, be cut short to SHUTDOWN once started, and start over from there; nothing else. */
  lemma LegalTransitionsAre(from: Mode, to: Mode)
    ensures IsLegalTransition(from, to) <==>
              || to == from
              || Rank(to) == Rank(from) + 1
              || (to == Shutdown && from != Init)
              || (from == Shutdown && to == Init)
  {
  }

  lemma UpdateIsOneLegalStep(p: PhysicsConfig, e: EngineState)
    ensures IsLegalTransition(e.mode, Updated(p, e).mode)
    ensures Rank(e.mode) <= Rank(Updated(p, e).mode)
  {
  }

  /** The mode at each point of a run where it may change: the start, after each evaluation, after each update, after a timeout. */
  function ModeTrace(rig: Rig, w: World, current: uint32, entries: seq<Entry>): (modes: seq<Mode>)
    ensures modes != [] && modes[0] == w.engine.mode
    decreases |entries|
  {
    [w.engine.mode] +
    if entries == [] then [] else
    match Tick(rig, w, current, entries[0])
    case Stopped(w', _) => [w'.engine.mode]
    case Advanced(w', report) => [report.mode] + ModeTrace(rig, w', entries[0].tick, entries[1..])
  }

  ghost predicate LegalAndRising(modes: seq<Mode>) {
    forall i :: 0 <= i < |modes| - 1 ==>
      IsLegalTransition(modes[i], modes[i + 1]) && Rank(modes[i]) <= Rank(modes[i + 1])
  }

  lemma RisingStep(first: Mode, rest: seq<Mode>)
    requires rest != [] && LegalAndRising(rest)
    requires IsLegalTransition(first, rest[0]) && Rank(first) <= Rank(rest[0])
    ensures LegalAndRising([first] + rest)
  {
    var all := [first] + rest;
    forall i | 0 <= i < |all| - 1 ensures IsLegalTransition(all[i], all[i + 1]) && Rank(all[i]) <= Rank(all[i + 1]) {
      assert i > 0 ==> all[i] == rest[i - 1];
    }
  }

  lemma RisingTwice(first: Mode, second: Mode, rest: seq<Mode>)
    requires rest != [] && LegalAndRising(rest) && LegalAndRising([first, second, rest[0]])
    ensures LegalAndRising([first] + ([second] + rest))
  {
    var three := [first, second, rest[0]];
    assert three[1] == second && three[2] == rest[0];
    RisingStep(second, rest);
    assert three[0] == first;
    RisingStep(first, [second] + rest);
  }

  /** What the mode and the engine look like between ticks once the engine has been started. */
  predicate Settled(e: EngineState) {
    e.mode != Init && (e.mode == Shutdown ==> e.isRunning == 0 && e.rpm == 0.0)
  }

  /** Once started, the engine can always be sent to SHUTDOWN, so the ignored transition status is always OK. */
  lemma TimeoutTransitionIsLegal(e: EngineState)
    requires e.mode != Init
    ensures IsLegalTransition(e.mode, Shutdown)
    ensures TimedOut(e) == e.(mode := Shutdown, isRunning := 0, rpm := 0.0) && Settled(TimedOut(e))
  {
  }

  /** The verdict a run returns names the mode the engine was left in. */
  predicate VerdictMatches(verdict: Verdict, e: EngineState) {
    match verdict
    case ResultOk => e.mode == Running
    case ResultWarning => e.mode == Warning
    case ResultShutdown => e.mode == Shutdown && e.isRunning == 0 && e.rpm == 0.0
    case ResultError => true
  }

  lemma SampleModes(rig: Rig, e: EngineState, s: SensorFrame)
    requires e.mode != Init
    ensures var evaluated := Sampled(rig.calibration, e, s);
            var updated := Updated(rig.physics, evaluated);
            && LegalAndRising([e.mode, evaluated.mode, updated.mode])
            && Settled(updated)
            && VerdictMatches(VerdictOfMode(evaluated.mode), updated)
  {
    EvaluationIsOneLegalStep(rig.calibration, Applied(s, e));
    UpdateIsOneLegalStep(rig.physics, Sampled(rig.calibration, e, s));
  }

  /** Mode changes in a run obey the legality table and never go back; the trace ends in the mode the engine is left in. */
  lemma {:induction false} RunModesAreLegal(rig: Rig, w: World, current: uint32, entries: seq<Entry>, last: Verdict)
    requires Settled(w.engine)
    ensures var modes := ModeTrace(rig, w, current, entries);
            var o := Run(rig, w, current, entries, last);
            && LegalAndRising(modes)
            && modes[|modes| - 1] == o.world.engine.mode && Settled(o.world.engine)
    decreases |entries|
  {
    hide Fetch, Sampled, Updated, TimedOut, ControlOutput, LegalAndRising;
    StoppedModes(w.engine.mode, w.engine.mode);
    if entries == [] {
      assert ModeTrace(rig, w, current, entries) == [w.engine.mode];
    } else {
      match Tick(rig, w, current, entries[0])
      case Stopped(w', verdict) =>
        TimeoutTransitionIsLegal(w.engine);
        StoppedModes(w.engine.mode, w'.engine.mode);
        assert ModeTrace(rig, w, current, entries) == [w.engine.mode, w'.engine.mode];
      case Advanced(w', report) =>
        SampleModes(rig, w.engine, report.reading);
        var rest := ModeTrace(rig, w', entries[0].tick, entries[1..]);
        RunModesAreLegal(rig, w', entries[0].tick, entries[1..], report.result);
        RisingTwice(w.engine.mode, report.mode, rest);
        assert ModeTrace(rig, w, current, entries) == [w.engine.mode] + ([report.mode] + rest);
    }
  }

  lemma StoppedModes(from: Mode, to: Mode)
    requires from == to || (from != Init && to == Shutdown)
    ensures LegalAndRising([from, to]) && LegalAndRising([from])
  {
  }

  lemma {:induction false} RunVerdictMatchesMode(rig: Rig, w: World, current: uint32, entries: seq<Entry>, last: Verdict)
    requires w.engine.mode != Init
    requires entries != [] || VerdictMatches(last, w.engine)
    ensures var o := Run(rig, w, current, entries, last); VerdictMatches(o.verdict, o.world.engine)
    decreases |entries|
  {
    hide Fetch, Sampled, Updated, ControlOutput;
    if entries == [] {
    } else {
      match Tick(rig, w, current, entries[0])
      case Stopped(w', verdict) =>
        TimeoutTransitionIsLegal(w.engine);
      case Advanced(w', report) =>
        SampleModes(rig, w.engine, report.reading);
        RunVerdictMatchesMode(rig, w', entries[0].tick, entries[1..], report.result);
    }
  }

  /** A profile needs an engine in INIT: any other leaves engine and HAL alone and returns ERROR. */
  lemma ProfileNeedsInit(rig: Rig, w: World, entries: seq<Entry>)
    ensures w.engine.mode != Init ==>
              var o := Profile(rig, w, entries); o.verdict == ResultError && !o.completed && o.world == w
  {
  }

  /** From an initialised engine: all mode changes legal and rising, and the verdict returned tells the final mode. */
  lemma ProfileIsModeSafe(rig: Rig, w: World, entries: seq<Entry>)
    requires w.engine.mode == Init && entries != []
    ensures var start := w.(engine := Started(w.engine));
            var modes := [Init] + ModeTrace(rig, start, 0, entries);
            var o := Profile(rig, w, entries);
            && LegalAndRising(modes)
            && modes[|modes| - 1] == o.world.engine.mode
            && VerdictMatches(o.verdict, o.world.engine)
  {
    hide Tick;
    var start := w.(engine := Started(w.engine));
    RunModesAreLegal(rig, start, 0, entries, ResultOk);
    RunVerdictMatchesMode(rig, start, 0, entries, ResultOk);
    RisingStep(Init, ModeTrace(rig, start, 0, entries));
  }
}
