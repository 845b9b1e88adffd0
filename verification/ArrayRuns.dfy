/** Runs over the caller's arrays of ticks and frames, and the script driver that fills them. */
module ArrayRuns {
  import opened Status
  import opened EngineModel
  import opened Control
  import opened Codec
  import opened HalModel
  import opened HalHistory
  import opened TickLoop
  import opened TickGap
  import opened RunHistory
  import opened ScriptParser
  import opened ScriptOutcome

  function TickBefore(ticks: seq<uint32>, i: nat): uint32
    requires i <= |ticks|
  {
    if i == 0 then 0 else ticks[i - 1]
  }

  /** Index i keeps a run going: a tick one to four after the one before it, and a frame the HAL accepts. */
  predicate GoodAt(ticks: seq<uint32>, frames: seq<Frame>, i: nat)
    requires i < |ticks| == |frames|
  {
    1 <= ticks[i] - TickBefore(ticks, i) <= 4 && Accepted(frames[i])
  }

  lemma EntriesAre(ticks: seq<uint32>, frames: seq<Frame>)
    requires |ticks| == |frames| <= 64
    ensures var entries := Entries(Some(ticks), frames);
            && |entries| == |ticks|
            && forall i :: 0 <= i < |ticks| ==> entries[i].tick == ticks[i] && entries[i].frame == frames[i]
  {
  }

  predicate GoodEntry(current: uint32, entry: Entry) {
    1 <= entry.tick - current <= 4 && Accepted(entry.frame)
  }

  lemma AcceptedMeans(f: Frame)
    ensures Accepted(f) <==> TransportValid(f) && Meaning(f).Success?
  {
    hide Unpacked, Checksum;
  }

  lemma TickOfGoodEntry(rig: Rig, w: World, current: uint32, entry: Entry)
    requires InStep(w.hal, current)
    ensures var t := Tick(rig, w, current, entry);
            if GoodEntry(current, entry) then t.Advanced? && InStep(t.world.hal, entry.tick)
            else t.Stopped? && t.verdict == if entry.tick - current >= 5 then ResultShutdown else ResultError
  {
    hide Meaning, Accepted, TransportValid, Sampled, Updated, TimedOut, ReportOf, Poll;
    AcceptedMeans(entry.frame);
    if current < entry.tick {
      TickInStep(rig, w, current, entry);
    }
  }

  predicate GoodFrom(current: uint32, entries: seq<Entry>, n: nat)
    requires n <= |entries|
    decreases n
  {
    n == 0 || (GoodEntry(current, entries[0]) && GoodFrom(entries[0].tick, entries[1..], n - 1))
  }

  predicate BadAt(current: uint32, entries: seq<Entry>, n: nat)
    requires n < |entries|
  {
    !GoodEntry(if n == 0 then current else entries[n - 1].tick, entries[n])
  }

  lemma {:induction false} RunUntilBad(rig: Rig, w: World, current: uint32, entries: seq<Entry>, last: Verdict, n: nat)
    requires InStep(w.hal, current) && n <= |entries| && GoodFrom(current, entries, n)
    requires n < |entries| ==> BadAt(current, entries, n)
    ensures var o := Run(rig, w, current, entries, last);
            && |o.reports| == n && (o.completed <==> n == |entries|)
            && (n < |entries| ==>
                  o.verdict == if entries[n].tick - (if n == 0 then current else entries[n - 1].tick) >= 5
                               then ResultShutdown else ResultError)
    decreases |entries|
  {
    hide Tick, GoodEntry;
    if entries == [] {
    } else {
      TickOfGoodEntry(rig, w, current, entries[0]);
      if n != 0 {
        var t := Tick(rig, w, current, entries[0]);
        RunUntilBad(rig, t.world, entries[0].tick, entries[1..], t.report.result, n - 1);
      }
    }
  }

  lemma {:induction false} GoodFromArrays(ticks: seq<uint32>, frames: seq<Frame>, k: nat, n: nat)
    requires k <= n <= |ticks| == |frames| <= 64
    requires forall i :: k <= i < n ==> GoodAt(ticks, frames, i)
    ensures GoodFrom(TickBefore(ticks, k), Entries(Some(ticks), frames)[k..], n - k)
    decreases n - k
  {
    hide Accepted;
    if k == n {
    } else {
      var entries := Entries(Some(ticks), frames);
      EntriesAre(ticks, frames);
      GoodFromArrays(ticks, frames, k + 1, n);
      assert entries[k..][1..] == entries[k + 1..] && entries[k..][0] == entries[k];
      assert GoodAt(ticks, frames, k);
    }
  }

  /**
   * The outcome of any arrays of ticks and frames on a fresh HAL and engine. Index n is the first where the tick is not
   * one to four after the one before it (after 0 for the first), or the frame is not accepted. The run shows the ticks
   * and readings up to it, row i + 1 those of index i, and stops there: with SHUTDOWN when the tick is five or more
   * late, with ERROR otherwise. Without such an index it completes.
   */
  lemma ArrayRunOutcome(rig: Rig, ticks: seq<uint32>, frames: seq<Frame>, n: nat)
    requires n <= |ticks| == |frames| <= 64
    requires forall i :: 0 <= i < n ==> GoodAt(ticks, frames, i)
    requires n < |ticks| ==> !GoodAt(ticks, frames, n)
    ensures var o := Profile(rig, World(INITIAL_STATE, FRESH_HAL), Entries(Some(ticks), frames));
            && |o.reports| == n + 1 && (o.completed <==> n == |ticks|)
            && (forall i :: 0 <= i < n ==>
                  o.reports[i + 1].tick == ticks[i] && Decode(frames[i]) == Result.Success(o.reports[i + 1].reading))
            && (n < |ticks| ==>
                  o.verdict == if ticks[n] - TickBefore(ticks, n) >= 5 then ResultShutdown else ResultError)
  {
    hide Tick, Run, Accepted, RowOfEntry;
    var entries := Entries(Some(ticks), frames);
    var start := World(Started(INITIAL_STATE), FRESH_HAL);
    EntriesAre(ticks, frames);
    GoodFromArrays(ticks, frames, 0, n);
    assert entries[0..] == entries;
    RunUntilBad(rig, start, 0, entries, ResultOk, n);
    RunRowsAreItsEntries(rig, start, 0, entries, ResultOk);
    var rows := Run(rig, start, 0, entries, ResultOk).reports;
    forall i | 0 <= i < n ensures rows[i].tick == ticks[i] && Decode(frames[i]) == Result.Success(rows[i].reading) {
      assert GoodAt(ticks, frames, i) && RowOfEntry(entries[i], rows[i]);
      ReadingOfGoodRow(entries[i], rows[i]);
    }
  }

  lemma ReadingOfGoodRow(entry: Entry, row: TickReport)
    requires RowOfEntry(entry, row) && Accepted(entry.frame)
    ensures row.tick == entry.tick && Decode(entry.frame) == Result.Success(row.reading)
  {
    hide Unpacked, Checksum;
  }

  // --- the script driver --------------------------------------------------------------------

  /** What became of a scripted run. */
  ghost predicate ScriptRan(rig: Rig, entries: seq<Entry>, result: Verdict, rows: seq<TickReport>, rowCount: nat) {
    var o := Profile(rig, World(INITIAL_STATE, FRESH_HAL), entries);
    && result == o.verdict && |o.reports| <= |rows| && rows[..|o.reports|] == o.reports
    && rowCount == if o.completed then |o.reports| else 0
  }

  /** The driver of a scripted run: a fresh HAL, the parsed arrays, a reset engine, and the profile over the arrays. */
  method RunScript(strtof: Strtof, lines: seq<string>, strict: bool, controller: Controller, plant: Plant)
    returns (status: StatusCode, result: Verdict, rows: array<TickReport>, rowCount: nat)
    ensures fresh(rows) && rows.Length == 65
    ensures match Parse(strtof, strict, lines)
            case Failure(_) => status == ParseError && rowCount == 0
            case Success(script) =>
              && status == StatusOk
              && ScriptRan(Rig(controller.calibration, plant.physics), script.entries, result, rows[..], rowCount)
  {
    hide Parse, Profile;
    var hal := new Hal();
    var script := new ScriptScenario();
    rows := new TickReport[65](_ => TickReport(0, SensorFrame(0.0, 0.0, 0.0, 0), ResultOk, 0.0, Init));
    result, rowCount := ResultError, 0;
    status := script.ParseLines(strtof, lines, strict);
    if status != StatusOk {
      status := ParseError;
      return;
    }
    var engine := new Engine();
    status := engine.Reset();
    if status != StatusOk {
      status := InternalError;
      return;
    }
    WarningsOfStrict(strtof, strict, lines);
    if strict && script.parseWarningCount > 0 {
      status := ParseError;
      return;
    }
    ghost var entries := Parse(strtof, strict, lines).value.entries;
    var ticks, frames := script.tickValues[..script.tickCount], script.sensorFrames[..script.tickCount];
    assert Entries(Some(ticks), frames) == entries by {
      EntriesAre(ticks, frames);
    }
    assert 1 <= |frames| <= 64 by { ParsedSomething(strtof, strict, lines); }
    result, rowCount := ExecuteProfileFrames(engine, controller, plant, hal, Some(ticks), frames, rows, 0);
    ghost var o := Profile(Rig(controller.calibration, plant.physics), World(INITIAL_STATE, FRESH_HAL), entries);
    CompletedHasAllRows(Rig(controller.calibration, plant.physics), entries);
    assert rows[..|o.reports|] == o.reports;
  }

  lemma WarningsOfStrict(strtof: Strtof, strict: bool, lines: seq<string>)
    ensures strict && Parse(strtof, strict, lines).Success? ==> Parse(strtof, strict, lines).value.warnings == 0
  {
    hide Parse, Comment;
    if strict && Parse(strtof, strict, lines).Success? {
      AcceptedComments(strtof, strict, lines);
      NoComments(lines);
    }
  }

  lemma ParsedSomething(strtof: Strtof, strict: bool, lines: seq<string>)
    ensures Parse(strtof, strict, lines).Success? ==> 1 <= |Parse(strtof, strict, lines).value.entries| <= 64
  {
    hide Parse, ReadsAs, Accepted, TransportValid, Meaning, ParseSensorLine;
    if Parse(strtof, strict, lines).Success? {
      AcceptedScriptIsWellFormed(strtof, strict, lines);
    }
  }

  lemma CompletedHasAllRows(rig: Rig, entries: seq<Entry>)
    ensures var o := Profile(rig, World(INITIAL_STATE, FRESH_HAL), entries);
            o.completed ==> |o.reports| == |entries| + 1
  {
    hide Run, RowOfEntry;
    RunRowsAreItsEntries(rig, World(Started(INITIAL_STATE), FRESH_HAL), 0, entries, ResultOk);
  }

  /**
   * The driver's outcome in terms of the script: entry n being the first that stops the run, all rows count and the
   * verdict is not ERROR when there is none; otherwise no row counts, and the verdict is SHUTDOWN for a late entry and
   * ERROR for a CORRUPT one.
   */
  lemma ScriptRanOutcome(strtof: Strtof, strict: bool, lines: seq<string>, script: Script, rig: Rig, n: nat,
                         result: Verdict, rows: seq<TickReport>, rowCount: nat)
    requires Parse(strtof, strict, lines) == Result.Success(script)
    requires GoodUpTo(0, script.entries, n) && (n < |script.entries| ==> Stops(0, script.entries, n))
    requires ScriptRan(rig, script.entries, result, rows, rowCount)
    ensures rowCount == if n == |script.entries| then n + 1 else 0
    ensures if n == |script.entries| then result != ResultError
            else result == if Late(0, script.entries, n) then ResultShutdown else ResultError
    ensures n < |rows| && forall i :: 0 <= i < n ==> rows[i + 1].tick == script.entries[i].tick
  {
    hide Parse, Profile, Stops, Late, Accepted;
    ScriptRunOutcome(strtof, strict, lines, script, rig, n);
    var o := Profile(rig, World(INITIAL_STATE, FRESH_HAL), script.entries);
    RowTicks(rig, script.entries);
    forall i | 0 <= i < n ensures rows[i + 1].tick == script.entries[i].tick {
      assert rows[..|o.reports|][i + 1] == o.reports[i + 1];
    }
  }

  lemma RowTicks(rig: Rig, entries: seq<Entry>)
    ensures var rows := Profile(rig, World(INITIAL_STATE, FRESH_HAL), entries).reports;
            |rows| <= |entries| + 1 && forall i :: 0 < i < |rows| ==> rows[i].tick == entries[i - 1].tick
  {
    hide Run, Meaning, TransportValid;
    var start := World(Started(INITIAL_STATE), FRESH_HAL);
    RunRowsAreItsEntries(rig, start, 0, entries, ResultOk);
    var run := Run(rig, start, 0, entries, ResultOk).reports;
    var rows := Profile(rig, World(INITIAL_STATE, FRESH_HAL), entries).reports;
    forall i | 0 < i < |rows| ensures rows[i].tick == entries[i - 1].tick {
      assert rows[i] == run[i - 1] && RowOfEntry(entries[i - 1], run[i - 1]);
    }
  }
}
