# Blinky testbench scoreboard in Dafny

This project models the checking core of the pyuvm testbench for the
`blinky` FPGA design. The device is a free-running 27-bit counter with a
reset input; its LED shows bit 26 of the counter. The testbench's monitor
samples `rst`, `led` and `counter` at every rising clock edge and hands each
sample to `BlinkyScoreboard`, which:

- predicts the LED as `(counter_value >> 26) & 1`;
- counts passed and failed checks;
- records four coverage facts: a reset was seen, the LED toggled, the
  counter wrapped from `0x7FFFFFF` to `0`, and both LED states were seen.

At the end of the run the scoreboard reports a coverage percentage and a
PASSED/FAILED verdict.

Files:

- `scoreboard.dfy`, module `ScoreboardModel`:
  - `Step` is one `write` as a pure function, and `Run` applies it to a
    sequence of samples.
  - The class `BlinkyScoreboard` has the source's fields. Its `Write` method
    updates them in place, step by step, as `write` does, and is proved to
    move them exactly one `Step`. Its `Valid()` is the toggle invariant.
  - Lemmas about `Run` state what a whole run computes.
- `sequences.dfy`, module `StimulusSequences`: the `rst` values that
  `ResetSequence.body` drives. It reuses one mutable item, as the source does.
- `scenarios.dfy`, module `Scenarios`: whole-run properties. The back-door
  counter writes of `RunSequence` are stated as the samples a correctly
  counting device produces after each write. `WriteAll` writes a run's
  samples to the object one after another and ends in the state `Run`
  computes, which carries the `Run` lemmas over to the object.

On a reset sample, line 105 sets `prev_counter = None`, which suggests that
a reset clears the wrap detector. But line 127 always overwrites it with the
sample's counter, so after every `write` the stored counter is that sample's
counter (`Step`, `RunPrevCounter`). The model follows the code as written. A
reset sample only blocks overflow detection for itself. A reset sample whose
counter is `0x7FFFFFF`, followed by a non-reset sample with counter `0`, does
set the overflow flag (`Scenarios.ResetItemStillArmsDetector`).

## Model

| member | source | states |
|---|---|---|
| ScoreboardModel.Initial | test/sim/test_blinky.py:86-97 | build_phase: the expected LED and both tallies are 0, no previous counter, all three flags false, no LED states, and the toggle flag agrees with the LED states |
| ScoreboardModel.ExpectedLed | test/sim/test_blinky.py:110 | the predicted LED is 0 or 1, and it is 1 exactly when the counter reduced to 27 bits is at least 2^26 |
| ScoreboardModel.ExpectedLedOfCounter | test/sim/test_blinky.py:110 | for a counter that fits in 27 bits, the LED is on exactly in the upper half of the range |
| ScoreboardModel.Step | test/sim/test_blinky.py:99-127 | one write: the stored counter becomes the sample's counter, even after a reset; the expected LED is bit 26 of the sample's counter; exactly one tally grows, passed iff the LED matches; the LED states gain the sample's LED; the reset flag is set iff it was set or rst is 1; the overflow flag is set iff it was set or the sample completes the wrap; a reset sample never sets it; flags never clear; the toggle invariant is kept |
| ScoreboardModel.CoverageCount | test/sim/test_blinky.py:144-149 | the number of coverage criteria met is at most 4; it is 4 iff all are met and 0 iff none is |
| ScoreboardModel.CoveragePercent | test/sim/test_blinky.py:150 | the percentage is count/4*100: a multiple of 25, at most 100, and 100 exactly at full coverage |
| ScoreboardModel.VerdictOf | test/sim/test_blinky.py:154-157 | the verdict is FAILED iff the failed tally is positive; coverage plays no part |
| ScoreboardModel.BlinkyScoreboard.constructor | test/sim/test_blinky.py:86-97 | the new scoreboard holds the initial state and satisfies the toggle invariant |
| ScoreboardModel.BlinkyScoreboard.Write | test/sim/test_blinky.py:99-127 | updating the fields in place gives exactly Step of the old state; the stored counter is the sample's counter; the toggle flag still agrees with the LED states |
| ScoreboardModel.BlinkyScoreboard.Report | test/sim/test_blinky.py:143-157 | coverage count at most 4 and percentage 25 times it; count 4 iff reset, toggle, overflow and two LED states were all seen; verdict FAILED iff a check failed |
| ScoreboardModel.RunAppend | test/sim/test_blinky.py:99-127 | writing a then b gives the same scoreboard as writing a + b |
| ScoreboardModel.RunTally | test/sim/test_blinky.py:118-121 | after a run the failed tally grew by the number of mismatching samples, the passed tally by the rest, and their sum by the number of samples |
| ScoreboardModel.MismatchFreeIff | test/sim/test_blinky.py:118-121 | a run has no mismatch iff every sample's LED equals its prediction |
| ScoreboardModel.RunVerdict | test/sim/test_blinky.py:154-157 | a run from build_phase is PASSED iff every sample's LED equals bit 26 of its counter |
| ScoreboardModel.RunPrevCounter | test/sim/test_blinky.py:103-127 | after a non-empty run the stored counter is the last sample's counter, whatever its rst |
| ScoreboardModel.RunLedStates | test/sim/test_blinky.py:111 | the LED states are the earlier ones together with every LED value sampled |
| ScoreboardModel.RunResetSeen | test/sim/test_blinky.py:103-104 | the reset flag is set iff it was set before or some sample had rst equal to 1 |
| ScoreboardModel.RunOverflowSeen | test/sim/test_blinky.py:103-107 | the overflow flag is set iff it was set before or some non-reset sample with counter 0 follows a stored counter of 0x7FFFFFF |
| ScoreboardModel.RunMonotone | test/sim/test_blinky.py:103-121 | coverage never goes back: the reset, overflow and toggle flags stay set, the LED states only grow, and the failed tally never shrinks |
| ScoreboardModel.PrefixCoverageKept | test/sim/test_blinky.py:103-115 | whatever coverage a prefix of the samples reached, the whole run keeps it |
| ScoreboardModel.RunToggleConsistent | test/sim/test_blinky.py:111-115 | the invariant "toggle seen iff more than one LED state" holds after every run from a state where it holds |
| ScoreboardModel.ToggleMeansBothStates | test/sim/test_blinky.py:144-149 | when all LED values are 0 or 1, toggle seen iff the LED states are {0, 1} iff there are two of them |
| StimulusSequences.BlinkyItem.constructor | test/sim/test_blinky.py:33-37 | a new item has rst, led and counter all 0 |
| StimulusSequences.ResetSequenceBody | test/sim/test_blinky.py:189-204 | the sequence drives exactly seven items: rst is 1 for the first six, reset asserted first and held, and 0 for the last |
| Scenarios.ConformingWindow | test/sim/test_blinky.py:219-233 | the samples of a correctly counting device after a back-door write: rst 0, counter start+i mod 2^27, and every LED matches its prediction |
| Scenarios.ConformingWindowPasses | test/sim/test_blinky.py:118-121 | samples of a correctly counting device never fail a check: passed grows by their number and failed is unchanged |
| Scenarios.ToggleWindowShowsBothLeds | test/sim/test_blinky.py:225-228 | forcing the counter to 2^26 - 2 and sampling four cycles shows LED 0 and LED 1 from any state |
| Scenarios.WrapWindowSetsOverflow | test/sim/test_blinky.py:230-233 | samples 2^27 - 2, 2^27 - 1, 0, ... with reset low set the overflow flag from any state, and none of them fails |
| Scenarios.ResetItemStillArmsDetector | test/sim/test_blinky.py:103-127 | a reset sample at 0x7FFFFFF followed by a non-reset sample at 0 sets the overflow flag, because line 127 overwrites line 105's None |
| Scenarios.ResetItemNeverWraps | test/sim/test_blinky.py:103-107 | a reset sample at counter 0 right after 0x7FFFFFF leaves the overflow flag as it was |
| Scenarios.InjectedMismatch | test/sim/test_blinky.py:118-121 | a sample with LED 1 when bit 26 is 0 raises the failed tally by exactly one and leaves the passed tally unchanged |
| Scenarios.DrainWindow | test/sim/test_blinky.py:259-260 | the m samples a conforming device gives during the test's final 100 ns wait, continuing from the wrap window; every LED is 0 or 1 |
| Scenarios.FullRunCoverage | test/sim/test_blinky.py:244-262 | samples with a reset, then the toggle window, the wrap window and any number of samples of the final wait, all LEDs 0 or 1: coverage is 4 of 4 (100%), the failed tally is the mismatches before the windows, and the run passes iff all of those matched |
| Scenarios.WriteAll | test/sim/test_blinky.py:99-127 | writing a run's samples one after another leaves the object in the state the reference run computes from its earlier state, with the toggle invariant kept |
| Scenarios.FullRunReport | test/sim/test_blinky.py:143-157 | on a fresh scoreboard, samples with a reset followed by the toggle window, the wrap window and the final wait's samples give a report with coverage 4 of 4 (100%) and PASSED iff every earlier sample matched |
| Scenarios.BoundaryScenario | test/sim/test_blinky.py:230-233 | on the scoreboard object, writing 0x7FFFFFE, 0x7FFFFFF and 0 with reset low and conforming LEDs covers the wrap, fails no check, and reports PASSED |

## Left out

- Driver and monitor `run_phase` loops: coroutines that wait on clock edges and read or write simulator signals. Each monitor sample is an `Observation` given to `Write`.
- The sequencer handshake (`start_item`/`finish_item`/`get_next_item`/`item_done`) and analysis-port delivery. This library code is not part of the model. `ResetSequenceBody` stands for each handshake by appending the driven `rst` to its result.
- Agent, environment and test composition, objections, the `Timer` delays as such (the samples the monitor takes during the final wait are `DrainWindow`), and the cocotb entry point with its clock start: wiring and simulator orchestration.
- The device's counter logic is not part of this model. `RunSequence`'s back-door writes and edge waits appear only as `ConformingWindow` samples, and the 32 free-running cycles as the arbitrary samples `pre` in `FullRunCoverage`.
- `BlinkyItem.randomize` (randomness), `__str__` and all logger text, including the mismatch diagnostic and the report lines.
- Scenarios.FullRunCoverage: does not follow the reset sequence's exact timing. It requires only that some sample before the windows has rst equal to 1.
- ScoreboardModel.CoveragePercent: the float `coverage` formatted with `:.1f` is modelled as a whole number. With four criteria the value is always an exact multiple of 25.
- The counter is an unbounded natural number. The monitor's `int(...)` of the 27-bit signal is never negative, and `ExpectedLed` reads bit 26 of any width.
- `BlinkyConfig`'s clock period is not used by the scoreboard.
