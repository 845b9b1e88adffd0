# Verified model of the engine control test rig

The test rig replays sensor scripts against an engine controller: script lines become CAN-style sensor frames, the
HAL queues, decodes and times them, the controller counts persistent faults and escalates the engine's mode, each tick
leaves a report row, and the rows are printed as JSON that the visualizer loads again. This project models that
pipeline in Dafny, from script line to loaded row, and proves what whole runs of it do: for every frame sequence, tick
spacing, calibration, plant configuration and HAL history, not for chosen examples.

Code that updates state step by step is modelled as classes and methods with the same branches and loops (`Engine`,
`Plant`, `Controller`, `FrameQueue`, `Hal`, `ScriptScenario`, `Output`, the tick loop, the loader's and the scanners'
cursor loops). Each method is proved equal to a specification function, and the properties are proved of those
functions. Sensor values are `real`; ticks and counters are bounded as `uint32_t`, with wrap-around written out where
it can happen; bytes are numbers below 256; a C string pointer is the rest of the string from there on.

| module | what it covers |
|---|---|
| `EngineModel`, `Control`, `OutputLaws` | mode machine, plant ramp, fault counters, escalation, control output and its laws |
| `Bytes`, `Codec`, `ChecksumStrength` | exclusive or on bytes, the eight-byte frame, what its checksum catches |
| `HalModel`, `HalHistory` | ring buffer, ingest and read, timeout clock; then any interleaving of them |
| `TickLoop`, `TickGap`, `Persistence`, `ModeSafety`, `TwoRuns`, `ArrayRuns` | the tick loop, theorems about whole runs and pairs of runs, and runs over the caller's arrays with the script driver |
| `ClosedLoop`, `ControlAccuracy` | the ramp in closed form, plant and controller in a loop, accuracy over the wire |
| `ScriptParser`, `ScriptFormat`, `ScriptOutcome` | scripts line by line, scripts written in the documented format, and everything that can become of an accepted script |
| `Decimal`, `CText`, `JsonText`, `Report`, `Loader`, `LoaderLimits` | numbers as text, C string searches, the JSON printer, the loader, and what it lets through |
| `ReportFields`, `ReportJson` | the report fields the loader does not read, and the report as the text of one JSON value |
| `TickRoundTrip`, `ReportRoundTrip`, `ReportedRuns`, `CatalogRoundTrip` | printing and loading again, for a row, a report, a run, a script and the two drivers' reports |
| `RunHistory` | whole runs told from their input: entry by entry, script line by script line, and in the rows the visualizer loads |
| `DriverOutcome` | the catalog and a script, each from its input to the loaded report |
| `ConfigScan` | the two string scanners of the configuration loader |

## What the code does that its documentation does not say

- A full fault window does not by itself shut the engine down, as the safety case has it (`docs/safety_case.md:34` and
  `:47`): from RUNNING it only gives WARNING, and SHUTDOWN comes one faulty sample later. In WARNING it gives SHUTDOWN
  if the threshold is at most 1,000,000, where the counter stops; calibration accepts larger ones, and those never fire.
  `RunHistory.ThreeHotSamplesOnlyWarn` is a run that shows the first, `FullWindowShutsDownIffWarned` the exact
  condition for any threshold. `scenarios/README.md:23-26` describes the code.
- The first sample of a run never escalates, because the engine is still STARTING then. A threshold of one that is met
  by the first two samples therefore leaves WARNING, not SHUTDOWN.
- The report does not load back when a scenario is called `expected`, or when its requirement id is `expected`: the
  loader's search for the key hits the value first (`ScenarioNamedExpectedIsMisread`). `ReportLoadsBackIff` gives the
  exact condition.
- A run that a sensor timeout shut down reports no ticks, and the loader refuses a whole report that has such a run in
  it (`EmptyRunIsRefused`).
- The repository's `README.md:94` says that FRAME CORRUPT exercises "no valid sample" timeouts. In the tick loop a
  corrupt frame ends the run with ERROR at once; only a gap of five ticks or more ends it with a timeout
  (`ScriptRunOutcome`).
- The repository's `README.md:82` puts sensor voting and watchdog rules into every tick. The tick loop calls neither.
- The comment at `src/app/config.c:61-66` says that the key lookup counts brace depth. It does not: a key is found at
  any depth. `LookupFindsFirstKey` describes the lookup without any braces, and `NestedKeyIsFound` is an example.
- Escaped quotes make the two configuration scanners part ways: a text can pass the check for unknown keys and still
  hold an unknown key that the lookup finds (`EscapedQuoteDividesScanners`). Without escaped quotes in its strings,
  accepted text has no unknown key the lookup finds, whatever other escapes it has (`AcceptedTextHasKnownKeysOnly`, and
  `ScannersAgree` for both directions). The check sees the strings of a text as they are if and only if none of them has
  an escaped quote and what is left after the last complete string has at most one quote (`PairsAreStringsIff`);
  `UnfinishedStringIsPairedUp` is a text at which only the second condition fails.
- The combined fault does not always give WARNING with its window full, as `docs/safety_case.md:60` has it: not at the
  first sample (`FirstLoadedSampleStaysOk` is such a run), and not with a threshold above 1,000,000
  (`FullLoadWindowWarnsIff` gives the exact condition).
- The outcome of a profile with tick values of its own can depend on what the HAL did before: a HAL last read at tick 20
  shuts down a profile whose first entry is at tick 2 (`StaleClockShutsDown`). `HalPastMattersIff` gives the exact
  condition; the catalog, which has no tick values, is safe.

## Model

| member | source | states |
|---|---|---|
| Persistence.ProfileFollowsHistory | src/scenario/scenario_profiles.c:48-166 | Whole-run refinement: from a reset engine every row's verdict is OK, WARNING or SHUTDOWN as the history of samples alone says (escalation due at some sample from the second on; shutdown fault window full at a later one), and a completed run returns the verdict of the whole history; thresholds above 1,000,000 never fire |
| Persistence.RunFollowsHistory | src/scenario/scenario_profiles.c:65-159 | The same from any point of a run, with counters equal to the capped fault streaks before and after |
| Persistence.SampleTracks | src/domain/control.c:142-197 | Evaluation followed by the plant update keeps counters and mode in step with the history, one sample at a time |
| Persistence.CountStreak | src/domain/control.c:47-65 | The saturating counter is the length of the current fault streak capped at 1,000,000, and reaching the threshold means a full window of faulty samples |
| Persistence.LevelStep | src/domain/control.c:67-108 | One sample moves the level at most one step: OK to WARNING when any escalation is due, WARNING to SHUTDOWN only on a shutdown fault, SHUTDOWN stays |
| Persistence.LevelNeverFalls | src/domain/control.c:82-101 | A longer history never has a lower level, and one more sample raises it by at most one |
| Persistence.RowFollowsHistory | src/scenario/scenario_profiles.c:109-137 | Row j of a run has the level of exactly the samples up to it |
| Persistence.FirstRowIsOk | src/domain/control.c:82-101 | The first sample of a run never escalates, whatever the calibration |
| Persistence.PersistentFaultShutsDown | src/domain/control.c:161-195 | Threshold + 1 consecutive over-temperature or low-oil samples force SHUTDOWN; the one exception, threshold 1 on the first two samples, is WARNING |
| Persistence.FullWindowShutsDownIffWarned | docs/safety_case.md:34-47 | With a full window of a shutdown fault, for any threshold, the level is SHUTDOWN if and only if it was SHUTDOWN before the sample, or WARNING with a threshold the counter reaches or the other shutdown fault due |
| Persistence.RunFullWindowShutsDownIffWarned | docs/safety_case.md:34-47 | The same for any row of any run, in terms of the row before it |
| Persistence.FullLoadWindowWarnsIff | docs/safety_case.md:60 | With a full window of the combined fault the level leaves OK if and only if this is not the first sample and the threshold is at most 1,000,000, or the level was raised before, or a shutdown fault is due |
| Persistence.RunFullLoadWindowWarnsIff | docs/safety_case.md:60 | The same for any row of any run: at least WARNING from row 2 on under exactly those conditions |
| RunHistory.ThreeHotSamplesOnlyWarn | docs/safety_case.md:34 | A run of three samples at 96 degrees with the factory calibration and any plant completes with the window of three full, and its verdict is WARNING |
| RunHistory.FirstLoadedSampleStaysOk | docs/safety_case.md:60 | With a combined threshold of one, which calibration accepts, a run of one high-load sample fills the window and ends in OK |
| RunHistory.RunRowsAreItsEntries | src/scenario/scenario_profiles.c:65-159 | From an empty queue row i has the tick of entry i and the reading its frame stands for, and that frame is well-formed; a completed run has a row for every entry |
| RunHistory.ProfileToldByEntries | src/scenario/scenario_profiles.c:48-166 | Whole-run refinement told from the input frames: each row's verdict is the level of the readings sent up to it, and a completed run returns the level of all of them |
| RunHistory.RunColumns | src/scenario/scenario_profiles.c:119-137 | Every row of a run shows the output of its own reading, and the mode its verdict stands for, STARTING at the first |
| RunHistory.StartRowIs | src/scenario/scenario_profiles.c:48-58 | Row 0 is tick 0 with the engine as it stood, verdict OK, output 0 and mode INIT |
| RunHistory.EngineAfterTick | src/domain/engine.c:225-283 | A tick leaves its reading in the engine: ramped once if the run flag is set, untouched if it is not, stopped after a shutdown |
| RunHistory.ArraysRunThrough | src/scenario/scenario_profiles.c:192-260 | Arrays in range: row i + 1 has tick i + 1 and the values at index i, each within half a wire step, and the run flag given, or 1 when none is |
| ArrayRuns.ArrayRunOutcome | src/scenario/scenario_profiles.c:65-166 | Any arrays of ticks and frames: row i + 1 shows `tickValues[i]` and the reading of frame i up to the first index where the tick is not one to four later or the frame is bad; the run ends there, with SHUTDOWN if the tick is five or more later and ERROR otherwise, or completes |
| ArrayRuns.EntriesAre | src/scenario/scenario_profiles.c:70 | With tick values given, entry i has exactly the tick and the frame at index i |
| ArrayRuns.RunScript | src/app/test_runner.c:449-530 | The script driver: fresh HAL, the parsed arrays, a reset engine, and the profile over the arrays, whose rows and verdict are those of the script's entries; a parse error otherwise |
| ArrayRuns.ScriptRanOutcome | src/app/test_runner.c:449-530 | What RunScript returns: n + 1 rows and no ERROR for a script without late and CORRUPT entries; no rows and SHUTDOWN or ERROR at the first one; rows carry the script's ticks |
| RunHistory.ScriptToldByLines | src/app/test_runner.c:483-535 | An accepted script on a fresh HAL: row j shows tick, wire-grid reading, output and mode of line j and the level of data lines 1 to j; a script that runs to its end returns the level of all its lines |
| RunHistory.LoadedScriptToldByLines | src/app/test_runner.c:449-586 | From script lines to loaded rows: the start row first, then in row j tick, reading and output of line j, the word for the level of the lines up to it and the mode's name; the expected verdict is the word for the level of the whole script |
| Persistence.ShutdownHasCause | src/domain/control.c:91-101 | The first SHUTDOWN in a history has WARNING before it and a full window of a shutdown fault ending at it |
| Persistence.RunEscalates | scenarios/README.md:23-26 | In any run, a shutdown fault one sample longer than its threshold shows as SHUTDOWN in that row (threshold 1 in row 2: WARNING) |
| Persistence.RunShutdownHasCause | src/scenario/scenario_profiles.c:114-137 | In any run, the first SHUTDOWN row follows a WARNING row and ends a full window of a shutdown fault |
| ModeSafety.ProfileIsModeSafe | src/scenario/scenario_profiles.c:60-166 | From an initialised engine every mode change is in the legality table, rank never falls, and the returned verdict names the final mode (SHUTDOWN with the engine stopped at 0 rpm) |
| ModeSafety.RunModesAreLegal | src/scenario/scenario_profiles.c:65-159 | The same for every mode point of a run (after each evaluation, update and timeout), from any engine between ticks |
| ModeSafety.RunVerdictMatchesMode | src/scenario/scenario_profiles.c:152-166 | On every way out but ERROR, OK means RUNNING, WARNING means WARNING, SHUTDOWN means SHUTDOWN with the engine stopped |
| ModeSafety.UpdateIsOneLegalStep | src/domain/engine.c:225-248 | The plant update makes at most one legal, rising mode change |
| ModeSafety.TimeoutTransitionIsLegal | src/scenario/scenario_profiles.c:79-85 | The transition whose status the timeout path ignores always succeeds once the engine has started |
| Control.EvaluationIsOneLegalStep | src/domain/control.c:67-108 | Evaluation changes the mode by at most one legal step and never backwards |
| Control.CountersTellTheFaults | src/domain/control.c:152-160 | After an evaluation a counter is zero if and only if the engine's own numbers do not show the fault, limits included as the source has them, and otherwise went up by one, to 1,000,000 at most |
| Control.EvaluationModesAre | src/domain/control.c:67-108 | Where each mode goes, in terms of the counters and the persistences |
| Control.CalibrationIsRefusedIff | src/domain/control.c:21-45 | A calibration is refused if and only if a limit is out of its range or a persistence is zero |
| Persistence.FactoryFaults | src/domain/control.c:217-232 | The factory calibration is valid; faults past 95 degrees, below 2.5 bar, and from 3500 rpm at 85 degrees; windows of 3, 3 and 2 |
| RunHistory.OilLowScriptShutsDown | scenarios/README.md:15 | The shipped low-oil script: OK at sample 2, WARNING at 3, SHUTDOWN at 4, under the factory calibration and any plant |
| OutputLaws.OutputAtReference | src/domain/control.c:199-215 | At 0 rpm, 25 degrees and 3.0 bar the output is 20 |
| OutputLaws.OutputIsMonotone | src/domain/control.c:199-215 | The output never falls with speed or oil pressure, and never rises with temperature |
| OutputLaws.OutputDifference | src/domain/control.c:199-215 | Between two unsaturated outputs the difference is rpm/100 - temperature/4 + 10 oil, of the differences |
| OutputLaws.OutputIsHeldDrive | src/domain/control.c:129-215 | The output is rpm/100 + 10 oil - temperature/4 - 3.75, held between 0 and 100 |
| ModeSafety.LegalTransitionsAre | src/domain/engine.c:113-135 | A mode may stay, go up one rank, be cut short to SHUTDOWN once started, and start over from there, and nothing else |
| ModeSafety.ProfileNeedsInit | src/scenario/scenario_profiles.c:60-63 | A profile on an engine that is not in INIT returns ERROR and leaves engine and HAL alone |
| TickGap.PollCost | src/scenario/scenario_profiles.c:76-87 | From an empty queue with the clock at the previous tick, polling times out exactly when the gap is five ticks or more, always at the previous tick + 4; it costs four polls then, and gap - 1 otherwise |
| TickGap.PollStopsAtFirstSilence | src/scenario/scenario_profiles.c:76-87 | From an empty queue with any clock, polling stops at exactly the first skipped tick more than three ticks (wrap-around included) after the last reading, or goes through to the target |
| TickGap.FetchFromEmpty | src/scenario/scenario_profiles.c:76-107 | From an empty queue the frame read at a tick is the one ingested there, and the timeout branch at the target tick is unreachable |
| TickGap.QueueHoldsAtMostOne | src/scenario/scenario_profiles.c:89-95 | The queue holds at most one frame within a tick and none after it |
| TickGap.RunLeavesQueueEmpty | src/scenario/scenario_profiles.c:65-166 | Every way out of a run leaves the sensor queue empty |
| TickGap.AdvanceStaysInStep | src/platform/hal.c:348-395 | A completed tick sets the sensor clock to that tick and reports the reading of that tick's own frame |
| TickGap.TickInStep | src/scenario/scenario_profiles.c:65-159 | With the clock in step, the entry alone decides between the three outcomes of a tick |
| TwoRuns.PhysicsNeverShows | src/scenario/scenario_profiles.c:109-152 | Two runs that differ in plant configuration and plant values only have equal rows, verdicts, modes and HAL states |
| TwoRuns.RunFlagsShowOnlyAsThemselves | src/scenario/scenario_profiles.c:109-152 | Two runs whose frames, new or still queued in the HAL, differ in the run byte only differ in the rows' run field only |
| TwoRuns.SpacingDoesNotMatter | src/platform/hal.c:359-376 | The same frames at two increasing spacings with no gap above four give the same verdicts, rows and engine, tick numbers aside |
| TwoRuns.HalPastMattersIff | src/scenario/scenario_profiles.c:71-107 | Runs over the same entries, at any ticks, from two HALs with empty queues come out alike if and only if in both or in neither some skipped tick before the first entry lies more than three ticks after the last reading |
| TwoRuns.TimesOutIffSilent | src/platform/hal.c:359-376 | From an empty queue the skipped ticks time out if and only if one of them lies more than three ticks after the last reading, wrap-around included |
| TwoRuns.SilenceIs | src/platform/hal.c:362-372 | The age of the last reading, around the 32-bit clock, or the tick itself when there is none |
| TwoRuns.StaleClockShutsDown | src/platform/hal.c:359-376 | A profile that starts at tick 2 completes on a fresh HAL and returns SHUTDOWN on one last read at tick 20 |
| TwoRuns.CatalogOrderDoesNotMatter | src/app/test_runner.c:192-203 | Each catalog scenario comes out as it would alone on a fresh HAL, whatever ran before it |
| TickLoop.PollSkippedTicks | src/scenario/scenario_profiles.c:76-87 | The poll loop stops at the first skipped tick that times out, and leaves the HAL as those reads leave it |
| TickLoop.ShutDownOnTimeout | src/scenario/scenario_profiles.c:82-85 | A lost sensor leaves SHUTDOWN if legal, run flag 0 and 0 rpm, and nothing else changed |
| TickLoop.FetchReading | src/scenario/scenario_profiles.c:71-107 | Skipped ticks, one ingest, one read: the reading, a lost sensor or an error, with the HAL state of each |
| TickLoop.ExecuteTick | src/scenario/scenario_profiles.c:65-158 | One entry on engine and HAL objects is one step of the run machine, error exits included |
| TickLoop.RunEntries | src/scenario/scenario_profiles.c:65-159 | The loop over the entries is the run machine; the caller's array holds exactly the rows of the run, rows beyond them untouched |
| TickLoop.ExecuteProfileFrames | src/scenario/scenario_profiles.c:10-167 | Refused arguments change nothing but the count; otherwise verdict, rows, engine and HAL are those of the run, and rows are counted only when it goes to its end |
| TickLoop.ExecuteProfile | src/scenario/scenario_profiles.c:192-260 | Readings are all checked and encoded before the engine is touched; then the profile runs on their frames |
| Codec.WireBijection | src/platform/hal.c:206-237 | Encoding a grid reading yields a frame if and only if decoding that frame yields the reading |
| Codec.DecodeOfEncode | src/platform/hal.c:397-452 | Every valid reading is encoded and accepted again, on the grid, within 0.5 rpm, 0.05 degrees and 0.005 bar |
| Codec.EncodeOfDecode | src/platform/hal.c:206-237 | Encoding what an accepted frame decodes to gives that frame, byte for byte |
| Codec.QuantisationIsIdempotent | src/platform/hal.c:397-452 | A second trip over the wire changes nothing |
| Codec.GridReadingIsItsOwnQuantisation | src/platform/hal.c:415-417 | Grid readings survive the wire exactly |
| Codec.WireLayout | src/platform/hal.c:397-452 | Identifier 0x100, eight bytes: big-endian rpm, tenths of degrees above -50 and hundredths of bar, each within half a unit, the run flag, and bytes whose exclusive or is zero |
| Codec.AcceptedIff | src/platform/hal.c:206-237 | A frame is accepted if and only if identifier, length and checksum are right and the four fields are in range; out of range is an invalid argument, all else a parse error |
| Codec.SendableIff | src/platform/hal.c:184-204 | A reading can be sent if and only if its four fields are in range, ends included |
| Codec.FrameChecksum | src/platform/hal.c:166-182 | The loop computes the exclusive or of the first seven bytes |
| Codec.Pack | src/platform/hal.c:397-452 | The bytes written in place are the big-endian words, the run byte and the checksum over the seven before it |
| Codec.EncodeSensorFrame | src/platform/hal.c:397-452 | The encoder, with out-of-range readings refused, is the encoding the bijection is about |
| Codec.DecodeSensorFrame | src/platform/hal.c:206-237 | The decoder, with its three error exits in order, is the decoding the bijection is about |
| ChecksumStrength.ErrorPassesIff | src/platform/hal.c:166-182 | An error pattern passes the checksum if and only if the exclusive or of its eight bytes is zero |
| ChecksumStrength.OddFlipsRejected | src/platform/hal.c:222-225 | Any odd number of flipped bits is rejected |
| ChecksumStrength.BurstRejected | src/platform/hal.c:222-225 | Any error within eight consecutive transmitted bits is rejected, byte boundaries or not |
| ChecksumStrength.ByteChangeRejected | src/platform/hal.c:222-225 | Any change of a single byte is rejected, the checksum byte included |
| ChecksumStrength.DisturbedFrameIsParseError | src/platform/hal.c:206-237 | A disturbed copy of an accepted frame reads as a parse error if and only if the error bytes do not cancel |
| HalModel.FrameQueue.constructor | src/platform/hal.c:86-97 | A reset queue is empty |
| HalModel.FrameQueue.Push | src/platform/hal.c:112-128 | Appends to the contents, or refuses and changes nothing when 32 frames are held |
| HalModel.FrameQueue.Pop | src/platform/hal.c:130-146 | Yields the oldest frame and keeps the others in order, or fails on an empty queue |
| HalModel.Hal.constructor | src/platform/hal.c:268-291 | Empty queue, clock never set |
| HalModel.Hal.IngestSensorFrame | src/platform/hal.c:318-346 | Only the two sensor ids with their registry DLC are queued; refusals leave the HAL unchanged |
| HalModel.Hal.ReadSensors | src/platform/hal.c:348-395 | Oldest frame decoded and removed; the clock moves only on success; timeouts use unsigned wrap-around |
| HalModel.Hal.ApplySensors | src/platform/hal.c:454-472 | A valid reading overwrites the four sensor fields and nothing else; an invalid one changes nothing |
| HalHistory.QueueIsBoundedFifo | src/platform/hal.c:318-395 | For any interleaving from `hal_init`, reads return the accepted frames in order, accepted = read + queued, at most 32 queued |
| HalHistory.OverflowDropsNewest | src/platform/hal.c:112-128 | A well-formed frame is refused if and only if 32 accepted frames are unread, and then the HAL is unchanged |
| HalHistory.MalformedIsRefused | src/platform/hal.c:239-266 | A frame is an invalid argument if and only if it is neither an eight-byte reading nor a one-byte error, and then the HAL is unchanged |
| HalHistory.QueuedFramesAreWellFormed | src/platform/hal.c:239-266 | Every accepted and every queued frame has a supported id and its registry DLC |
| HalHistory.ParseErrorMeansBadChecksum | src/platform/hal.c:214-225 | On the read path a parse error is an error frame or a bad checksum; the id and DLC failure cannot fire |
| HalHistory.TimeoutIffSilent | src/platform/hal.c:359-376 | With non-decreasing ticks an empty-queue read times out if and only if more than three ticks have passed since the last good reading; it is an invalid argument otherwise; bad frames never reset the clock |
| ControlAccuracy.WireKeepsOutput | src/domain/control.c:199-215 | Encoding and decoding move the control output by less than 0.0675 percentage points |
| ControlAccuracy.ClampIsNonExpansive | src/domain/control.c:129-140 | Clamping never increases the distance of two outputs |
| ControlAccuracy.ValidReadingsRunThrough | src/scenario/scenario_profiles.c:65-166 | Valid readings at consecutive ticks always complete; each row holds the reading on the wire grid, its output within 0.0675 of the original's |
| ControlAccuracy.ValidProfileCompletes | src/scenario/scenario_profiles.c:192-260 | The same for a whole profile of readings from the engine start on |
| ClosedLoop.RampClosedForm | src/domain/engine.c:225-283 | n updates of a running engine in any mode but SHUTDOWN give min(target, x + n rate) from below, max from above for oil, leave values past their target alone, and settle STARTING in RUNNING |
| ClosedLoop.UpdatesWithoutRun | src/domain/engine.c:225-253 | Updates leave the values of an idle engine alone, and keep one that was shut down stopped |
| ClosedLoop.FactoryPlantRamps | src/domain/engine.c:57-70 | The factory plant in numbers: 150 rpm and 0.6 degrees a tick up to 3000 and 90, oil 0.01 bar down to 3.4 |
| ClosedLoop.PhysicsIsRefusedIff | src/domain/engine.c:24-55 | Plant parameters are refused if and only if one of them is not positive |
| ClosedLoop.QuietLoop | src/domain/engine.c:173-283 | When each fault the resting point shows has a threshold past the counter limit, the started update/evaluate loop follows the ramp, stays RUNNING, and counts no fault absent at rest |
| ClosedLoop.StaysRunningIffRestIsSafe | src/domain/control.c:142-197 | For every valid calibration and plant the loop stays RUNNING for ever if and only if each fault at the plant's resting point has a threshold above 1,000,000 |
| ClosedLoop.DefaultsStayRunning | src/domain/engine.c:173-194 | Factory plant and calibration never leave RUNNING |
| EngineModel.Plant.Configure | src/domain/engine.c:82-99 | Accepted once between resets and only when valid; refusal keeps the old parameters |
| EngineModel.Plant.Reset | src/domain/engine.c:101-111 | Factory parameters, open for configuration again |
| EngineModel.Engine.constructor | src/domain/engine.c:173-194 | The initial engine state |
| EngineModel.Engine.Reset | src/domain/engine.c:196-199 | The initial state again, from any state |
| EngineModel.Engine.TransitionMode | src/domain/engine.c:113-151 | The mode changes if and only if the table allows it |
| EngineModel.Engine.Start | src/domain/engine.c:201-223 | Succeeds only from INIT; sets STARTING and the run flag, nothing else |
| EngineModel.Engine.Update | src/domain/engine.c:225-283 | STARTING becomes RUNNING; a shut-down engine is stopped; an idle one is left alone; a running one ramps without overshoot |
| Control.Controller.Configure | src/domain/control.c:245-260 | Accepted once between resets and only when valid; refusal keeps the old calibration |
| Control.Controller.Reset | src/domain/control.c:262-273 | Factory calibration, open for configuration again |
| Control.Controller.UpdateFaultCounter | src/domain/control.c:47-65 | The counter step whose runs are the capped streaks of CountStreak |
| Control.Controller.TransitionModeByResult | src/domain/control.c:67-108 | Never fails, and takes the one escalation step the demand calls for |
| Control.Controller.EvaluateEngine | src/domain/control.c:142-197 | Never fails; the verdict is that of the mode it leaves, and only counters and mode change |
| Control.Controller.ComputeControlOutput | src/domain/control.c:199-215 | From the engine's three sensor fields, the output between 0 and 100 whose accuracy WireKeepsOutput bounds |
| ScriptOutcome.AcceptedScriptIsWellFormed | src/scenario/script_parser.c:268-412 | An accepted script has 1 to 64 strictly increasing positive ticks, one entry per data line, only transport-valid frames; the HAL accepts exactly those of sensor lines |
| ScriptOutcome.StrictIsLenientWithoutWarnings | src/scenario/script_parser.c:268-412 | Strict parsing accepts if and only if lenient parsing accepts with no warning, with the same script |
| ScriptOutcome.BlankAndCommentLinesDoNotMatter | src/scenario/script_parser.c:192-232 | Deleting blank and comment lines changes neither acceptance nor entries |
| ScriptOutcome.AcceptedComments | src/scenario/script_parser.c:296-310 | An accepted script has no line over 190 characters, its warnings are its comment lines counted in 32 bits, and in strict mode there is none |
| ScriptOutcome.CommentShape | src/scenario/script_parser.c:192-232 | After any white space a hash makes a comment, whatever follows; no other ink does |
| ScriptOutcome.CorruptedIs | src/scenario/script_parser.c:372 | A corrupt frame differs from the last reading's frame in the bits 0x5A of the checksum byte only |
| ScriptOutcome.CorruptIsRejected | src/scenario/script_parser.c:372 | The frame of a CORRUPT line passes ingestion and is a parse error when read |
| ScriptOutcome.ScriptRunOutcome | src/scenario/scenario_profiles.c:65-166 | Complete outcome of an accepted script: it ends at the first late or CORRUPT entry, with SHUTDOWN or ERROR in turn, or else completes with n + 1 rows; no other exit is reachable |
| ScriptOutcome.RunUntil | src/scenario/scenario_profiles.c:65-166 | The same from any point of the run, with the number of rows written |
| ScriptOutcome.FirstStop | src/scenario/scenario_profiles.c:71-107 | Such a first stopping entry, or none, always exists |
| ScriptFormat.WrittenScriptIsAccepted | scenarios/README.md:30-41 | Every script of up to 64 rising ticks written in the documented format, numbers in range and no corrupt frame before the first reading, is accepted without a warning and gives exactly the frames written |
| ScriptFormat.SensorLineReads | src/scenario/script_parser.c:68-155 | A sensor line in that format is read if and only if its numbers parse and are in range, and then with those very values |
| ScriptFormat.CorruptLineReads | src/scenario/script_parser.c:157-190 | A corrupt-frame line is read as one, with its tick, and never as a sensor line |
| ScriptFormat.SensorLineMeans | src/scenario/script_parser.c:68-155 | A line read as a sensor line has the five keywords in place, a positive digits-only tick, the numbers its words parse to, in range, and a run word 0 or 1 |
| ScriptFormat.CorruptLineMeans | src/scenario/script_parser.c:157-190 | A line read as a corrupt frame has exactly its three keywords and a positive digits-only tick |
| ScriptFormat.ScanJoined | src/scenario/script_parser.c:68-110 | Width-limited scanning of words joined by single spaces gives back the words |
| ScriptParser.LineIsWhitespaceOnly | src/scenario/script_parser.c:192-213 | True if and only if every character is white space |
| ScriptParser.LineIsComment | src/scenario/script_parser.c:215-232 | True if and only if the first character that is not white space is a hash |
| ScriptParser.ScriptScenario.ParseDataLine | src/scenario/script_parser.c:323-381 | Fills one row from a sensor or CORRUPT line, other rows untouched, or refuses |
| ScriptParser.ScriptScenario.ParseLines | src/scenario/script_parser.c:234-413 | The line loop fills the arrays with the entries of the fold over lines, and counts none when it refuses |
| Report.Output.PrintLine | src/scenario/scenario_report.c:216-225 | A line reaches the output whole or, when it does not fit 255 characters, not at all |
| Report.Output.PrintTicks | src/scenario/scenario_report.c:251-274 | All rows in order, commas between them, stopping at the first that does not fit |
| Report.Output.PrintScenarioObject | src/scenario/scenario_report.c:198-312 | The whole object, with the actual verdict shown as expected when none is given; when a line does not fit, exactly the lines before it |
| Report.Output.PrintHeader | src/scenario/scenario_report.c:314-355 | Versions, build commit and the open scenario array; with an overlong commit only the versions |
| Report.Output.PrintFooter | src/scenario/scenario_report.c:357-410 | The closed scenario array, the error object if there is an error, and the summary; an error that does not fit is an I/O error and ends the output there |
| Report.Output.PrintTestCase | src/app/test_runner.c:24-123 | A run that ended in ERROR prints nothing; any other prints its comma and object; it passes exactly when printed whole with the expected verdict |
| Report.Output.PrintCatalog | src/app/test_runner.c:153-263 | Header, all cases in turn whether or not one failed, and the summary of those that passed, or what comes before a header or summary line that does not fit; OK exactly when everything fits and all passed |
| Report.Output.PrintScripted | src/app/test_runner.c:535-586 | The report of one run, or after ERROR a report of the error alone, cut at the first line that does not fit; OK exactly when the run was printed whole |
| Report.ScriptedTextIsDocument | src/app/test_runner.c:535-586 | When every line fits, what PrintScripted writes is the one document that the loader theorems are about |
| Report.NamesFitIff | src/scenario/scenario_report.c:219-240 | A scenario name and a build commit fit their line up to 233 characters, a requirement id up to 227 |
| ReportFields.PassIsShown | src/scenario/scenario_report.c:300-309 | In a printed object whose names do not read "pass", the value found behind that key begins with true if and only if the verdicts agree, and with false if and only if they do not |
| ReportFields.PassIsHidden | src/scenario/scenario_report.c:300-309 | With a name that reads "pass", what is found is no truth value |
| ReportFields.ActualIsShown | src/scenario/scenario_report.c:287-298 | In a printed object whose names do not read "actual", the quoted value behind that key is the word for the actual verdict |
| ReportFields.SummaryIsShown | src/scenario/scenario_report.c:399-409 | Searched from the start of the report, "passed" and "total" lead to the two counts, for names and a commit that do not read like them |
| ReportFields.HeaderIsShown | src/scenario/scenario_report.c:314-355 | The two versions and the build commit are found behind their keys |
| ReportFields.ErrorIsShown | src/scenario/scenario_report.c:357-382 | Code, severity, recoverability, module and function of an error are found behind their keys |
| ReportFields.PassedCounts | src/app/test_runner.c:192-203 | The count of passed runs is the number of runs printed whole, not in ERROR, with the expected verdict |
| ReportJson.ReportIsJson | src/scenario/scenario_report.c:198-410 | The printed report is JSON: for names that need no escaping it is, white space outside of strings apart, the text of one value with every row, verdict, pass mark, error and count in place |
| ReportJson.WordsAre | src/scenario/scenario_report.c:17-58 | The words for verdicts and modes |
| CatalogRoundTrip.CatalogLoadsBackIff | src/app/test_runner.c:153-263 | For any runs, those in ERROR left out: the catalog's report loads back to the others, in order, if and only if each has ticks and a findable expected verdict |
| DriverOutcome.CatalogComesOutWhole | src/app/test_runner.c:153-263 | On a HAL with an empty queue any catalog of valid profiles of at most 64 readings completes throughout with the level of its readings as verdicts; no run is left out, so there is no stray comma, the report loads back whole, and all pass if and only if each expected verdict is that level |
| DriverOutcome.CaseComesOutWhole | src/app/test_runner.c:24-123 | One such case completes with a row per reading and the start, never in ERROR, and can be printed and loaded back |
| DriverOutcome.ScriptReportOutcome | src/app/test_runner.c:449-586 | Complete outcome of an accepted script from lines to visualizer: with no late and no CORRUPT entry its report loads back whole, otherwise what is printed is refused |
| CatalogRoundTrip.ScriptedReportLoadsBackIff | src/app/test_runner.c:535-586 | A scripted run's report loads back to the run if it has ticks and no ERROR, and is refused otherwise |
| CatalogRoundTrip.ErrorReportIsRefused | visualization/src/visualizer_loader.c:546-549 | A report with an error object and no scenario is refused |
| Loader.FindMatching | visualization/src/visualizer_loader.c:217-269 | The depth counter finds the bracket that closes the one it starts at, or the end of the text |
| Loader.ParseTickLoop | visualization/src/visualizer_loader.c:505-538 | The tick loop with its refusals: unmatched brace, too many ticks, bad object, ticks that do not rise |
| Loader.ParseScenarioInto | visualization/src/visualizer_loader.c:446-546 | One object into one row of the caller's array, other rows untouched |
| Loader.ParseScenariosJson | visualization/src/visualizer_loader.c:394-550 | The rows filled are exactly the scenarios of the document, or nothing is accepted |
| LoaderLimits.LoadedIsGood | visualization/src/visualizer_loader.c:394-550 | Whatever the text, what is loaded has 1 to the caller's limit of scenarios, names that fit, 1 to 512 rows each with strictly rising ticks and all values in range, and comes from a text with a known schema version and a software version |
| LoaderLimits.TickArrayLiesInside | visualization/src/visualizer_loader.c:489-502 | The tick array that is read lies inside its own scenario object |
| LoaderLimits.UintMeans | visualization/src/visualizer_loader.c:102-141 | An accepted unsigned field is digits, then white space at most, then a comma, a closing bracket or the end |
| LoaderLimits.IntMeans | visualization/src/visualizer_loader.c:143-178 | The same with an optional sign |
| CText.FindCloseMeans | visualization/src/visualizer_loader.c:217-269 | The bracket found closes the one the text starts with: between them the depth never reaches zero; none is found exactly when that one is never closed |
| Decimal.ReadNatOfPrinted | visualization/src/visualizer_loader.c:102-141 | Reading undoes `%u` for every number |
| Decimal.ReadIntOfPrinted | visualization/src/visualizer_loader.c:143-178 | Reading undoes `%d` for every number, sign included |
| Decimal.ReadDecimalOfPrinted | visualization/src/visualizer_loader.c:180-215 | Reading `%.2f` gives the value rounded to hundredths |
| Decimal.FixedError | src/scenario/scenario_report.c:251-274 | Two decimals are off by at most 0.005 |
| Decimal.PrintedExamples | src/scenario/scenario_report.c:251-274 | Two decimals in four examples: halves to the even neighbour, trailing zeros, signs |
| Decimal.GridIsExact | src/scenario/scenario_report.c:251-274 | Two decimals are exact for readings on the wire grid |
| JsonText.FindWord | visualization/src/visualizer_loader.c:31-45 | The key search finds the first quoted word that is the key, and never a part of another one |
| JsonText.QuotedValueAt | visualization/src/visualizer_loader.c:63-100 | The quoted value behind a key is returned whole if it fits the buffer, refused otherwise |
| TickRoundTrip.TickReadsBack | visualization/src/visualizer_loader.c:296-328 | Parsing undoes the printed tick object, whatever follows it |
| ReportRoundTrip.TicksReadBack | visualization/src/visualizer_loader.c:505-538 | The tick loop reads back any printed list of rows |
| ReportRoundTrip.ExpectedIsFoundIff | visualization/src/visualizer_loader.c:63-100 | The expected verdict is found again if and only if name and requirement id do not read "expected" (or the id is the verdict itself) |
| ReportRoundTrip.ScenarioReadsBackIff | visualization/src/visualizer_loader.c:446-546 | An object reads back if and only if it has ticks and its expected verdict is findable |
| ReportRoundTrip.ReportLoadsBackIff | src/scenario/scenario_report.c:198-410 | Emit/load round trip: a printed report of any runs loads back to the same names, ids, verdicts and ticks if and only if each run has ticks and a findable expected verdict |
| ReportedRuns.RunLoadsBackIffCompleted | visualization/src/visualizer_loader.c:394-550 | Any run from a reset engine prints without overflow, and loads back if and only if it went to its end |
| ReportedRuns.ScriptReportLoadsBack | src/app/test_runner.c:449-586 | From script lines to the visualizer: an accepted script without late or CORRUPT entries loads back with one row per entry and one for the start; one lost to a gap prints a report the loader refuses |
| ReportedRuns.EmptyRunIsRefused | visualization/src/visualizer_loader.c:540-542 | A report with a run without ticks anywhere in it is refused altogether |
| ReportedRuns.ScenarioNamedExpectedIsMisread | visualization/src/visualizer_loader.c:63-100 | A scenario called "expected" does not load back |
| ReportedRuns.LoadedRowIsFaithful | visualization/src/visualizer_loader.c:271-328 | A loaded row has tick, run flag and sensor values exact and control within 0.005, and passes validation |
| ReportedRuns.ProfileRowsAreLoadable | src/scenario/scenario_profiles.c:48-159 | Rows of any run are on the wire grid with rising ticks and control in percent |
| ReportedRuns.LoadableRunFits | src/scenario/scenario_report.c:198-312 | No line of such a run overflows the 256-byte line buffer |
| ConfigScan.FindJsonKey | src/app/config.c:72-131 | The flag-driven cursor loop is the two-state lookup the lemmas below are about |
| ConfigScan.ValidateOnlyKnownKeys | src/app/config.c:189-237 | The quote-pairing loop is the validation the lemmas below are about |
| ConfigScan.LookupFindsFirstKey | src/app/config.c:72-131 | For any key as it is written between quotes, escapes included: returns exactly the colon behind the first JSON string (section 7 of RFC 8259) that equals it and is followed by white space and a colon, or nothing if there is none |
| ConfigScan.EveryTextLexes | src/app/config.c:72-131 | Every text is a row of JSON strings with gaps and a leftover, so the lookup theorem applies to every text |
| ConfigScan.TextLexesOnce | src/app/config.c:72-131 | There is only one way to take a text apart like that |
| ConfigScan.PairsAreStringsIff | src/app/config.c:189-237 | For every text: the strings the validation pairs up are its JSON strings if and only if none of them has an escaped quote and the unfinished rest has at most one quote |
| ConfigScan.UnfinishedStringIsPairedUp | src/app/config.c:189-237 | A quote, a backslash and a quote: no JSON string, and yet the validation pairs one up |
| ConfigScan.AcceptedTextHasKnownKeysOnly | src/app/config.c:189-237 | On accepted text whose strings have no escaped quote, other escapes allowed, the lookup finds no key outside the allowed list |
| ConfigScan.ScannersAgree | src/app/config.c:72-237 | Text whose strings are closed, short and free of escaped quotes is accepted if and only if the lookup finds no unknown key in it |
| ConfigScan.EscapedQuoteDividesScanners | src/app/config.c:72-237 | A text with escaped quotes that is accepted although the lookup finds an unknown key in it |
| ConfigScan.NestedKeyIsFound | src/app/config.c:61-131 | A key inside an inner object is found like any other, whatever the comment says of brace depth |
| ConfigScan.OneKeyIsAcceptedIff | src/app/config.c:10-58 | A text with one key is accepted if and only if the key is one of the eleven |
| ConfigScan.UnclosedIsRefused | src/app/config.c:189-237 | A text that ends in a string never closed is refused |
| ConfigScan.ColonFollowsIff | src/app/config.c:72-131 | A colon counts as following exactly after blanks, tabs and line ends only |

## Left out

- Float arithmetic: `float` rounding, NaN and infinity. Values are `real`, and the `isfinite` guards, which reject what
  `real` does not have, are not modelled. `%.2f` rounds to nearest, ties to even, over `real`.
- Number parsing by the C library: in scripts `strtof` is an arbitrary function from words to numbers, so the theorems
  hold for any; in the loader it reads plain decimals, without exponents, hexadecimal, `inf` or `nan`.
- Files and console: opening, `fgets` chunking, write failures, the loader's file size limit. Lines are a sequence of
  strings without NUL characters, output is an appended string.
- NULL-pointer guards, the hooks for unit tests (`g_transition_impl`, `g_expected_dlc_impl`), static assertions, the
  logger and colour strings, error message texts.
- Display flags: per-tick details printed while a profile runs, and the error exit when that printing fails.
- The HAL's last-error record: the error that a report shows is a parameter, with any module and function name.
- Bus receive and transmit queues, actuator frames, frame ageing, sensor voting and the watchdog: one-branch facts, and
  the tick loop calls none of them but the ageing record, which nothing there reads back.
- Configuration values: `parse_float_field`, `parse_uint_field` and the two load functions behind the scanners.
- Command line, scenario tables and catalog lookup; of `test_runner.c` only the JSON reports of the catalog and of a
  scripted run. The fixed tables of readings are not copied: the catalog theorem is about any tables in range.
- The visualizer beyond its loader, and the loading of several files into one set.
- ScriptOutcome.StrictIsLenientWithoutWarnings: asks for fewer than 2^32 lines, because the warning counter has 32 bits
  and wraps.
- ScriptOutcome.BlankAndCommentLinesDoNotMatter: asks for lines within the length limit, because an overlong blank or
  comment line is an error in the code.
- ConfigScan.LookupFindsFirstKey: asks for keys of at most 61 characters, because the code cuts longer patterns off at
  its 64-byte buffer; the code only looks up the eleven fixed keys.
- ConfigScan.ScannersAgree: asks for closed strings of at most 61 characters for the same reason.
- ReportRoundTrip.ReportLoadsBackIff: asks for names without quotes, braces and brackets that fit the loader's buffers,
  because the printer does not escape them.
- Loader.ParseScenarioInto: does not say what a refused object leaves in its row; the caller discards it.
