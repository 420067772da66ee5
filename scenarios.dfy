/** Whole-run scenarios for the scoreboard. RunSequence in
    test/sim/test_blinky.py forces the device's counter to 2^26 - 2 and to
    2^27 - 2 and lets it run four cycles each time. The device itself is not
    part of this model; a "conforming window" is what the monitor reports
    from a device that counts up by one per clock modulo 2^27 with reset low
    and drives the LED from bit 26 of its counter. */
module Scenarios {
  import opened ScoreboardModel

  /** Counter value the back door writes before the LED toggle. */
  const TOGGLE_START: nat := 0x3FFFFFE
  /** Counter value the back door writes before the counter wrap. */
  const WRAP_START: nat := 0x7FFFFFE
  /** Cycles RunSequence waits after each back-door write. */
  const WINDOW_CYCLES: nat := 4

  /** n consecutive samples of a conforming device whose counter is at
      `start` at the first sample. */
  function ConformingWindow(start: nat, n: nat): (w: seq<Observation>)
    ensures |w| == n
    ensures forall i :: 0 <= i < n ==>
              w[i].rst == 0 && w[i].counterValue == (start + i) % COUNTER_MODULUS && Matches(w[i])
    decreases n
  {
    if n == 0 then []
    else
      var c := start % COUNTER_MODULUS;
      var rest := ConformingWindow(start + 1, n - 1);
      assert forall i :: 1 <= i < n ==> ([Observation(0, ExpectedLed(c), c)] + rest)[i] == rest[i - 1];
      [Observation(0, ExpectedLed(c), c)] + rest
  }

  /** A conforming device never fails a check: every sample passes. */
  lemma ConformingWindowPasses(s: ScoreState, start: nat, n: nat)
    ensures Run(s, ConformingWindow(start, n)).checksFailed == s.checksFailed
    ensures Run(s, ConformingWindow(start, n)).checksPassed == s.checksPassed + n
  {
    var w := ConformingWindow(start, n);
    MismatchFreeIff(w);
    RunTally(s, w);
  }

  /** Forcing the counter to 2^26 - 2 and sampling four cycles shows the LED
      at 0 and then at 1, from any scoreboard state. */
  lemma ToggleWindowShowsBothLeds(s: ScoreState)
    ensures {0, 1} <= Run(s, ConformingWindow(TOGGLE_START, WINDOW_CYCLES)).ledStates
  {
    var w := ConformingWindow(TOGGLE_START, WINDOW_CYCLES);
    RunLedStates(s, w);
    ExpectedLedOfCounter(TOGGLE_START);
    ExpectedLedOfCounter(LED_BIT_WEIGHT);
    assert w[0].counterValue == TOGGLE_START && w[2].counterValue == LED_BIT_WEIGHT;
    assert w[0].led == 0 && w[0] in w;
    assert w[2].led == 1 && w[2] in w;
  }

  /** Forcing the counter to 2^27 - 2 and sampling at least three cycles
      (counters 0x7FFFFFE, 0x7FFFFFF, 0 with reset low) sets the overflow
      flag, from any scoreboard state, and every sample passes. */
  lemma WrapWindowSetsOverflow(s: ScoreState, n: nat)
    requires n >= 3
    ensures Run(s, ConformingWindow(WRAP_START, n)).overflowSeen
    ensures Run(s, ConformingWindow(WRAP_START, n)).checksFailed == s.checksFailed
  {
    var w := ConformingWindow(WRAP_START, n);
    assert w[1].counterValue == MAX_COUNTER;
    assert w[2].rst == 0 && w[2].counterValue == 0;
    assert OverflowAt(s.prevCounter, w, 2);
    RunOverflowSeen(s, w);
    ConformingWindowPasses(s, WRAP_START, n);
  }

  /** The reset item's None is overwritten, so a reset item whose counter
      is 0x7FFFFFF still arms the wrap detector for the next item. */
  lemma ResetItemStillArmsDetector(s: ScoreState)
    ensures Run(s, [Observation(1, 1, MAX_COUNTER), Observation(0, 0, 0)]).overflowSeen
  {
    var h := [Observation(1, 1, MAX_COUNTER), Observation(0, 0, 0)];
    assert OverflowAt(s.prevCounter, h, 1);
    RunOverflowSeen(s, h);
  }

  /** A reset item never completes the wrap itself, even right after the
      counter was at 0x7FFFFFF. */
  lemma ResetItemNeverWraps(s: ScoreState)
    ensures Run(s, [Observation(0, 1, MAX_COUNTER), Observation(1, 0, 0)]).overflowSeen == s.overflowSeen
  {
    var h := [Observation(0, 1, MAX_COUNTER), Observation(1, 0, 0)];
    RunOverflowSeen(s, h);
    if !s.overflowSeen {
      forall i | 0 <= i < |h| ensures !OverflowAt(s.prevCounter, h, i) {
        if i == 0 { assert h[0].counterValue != 0; }
      }
    }
  }

  /** An injected discrepancy (LED 1 while the counter predicts 0) raises
      the failed tally by exactly one and leaves the passed tally alone. */
  lemma InjectedMismatch(s: ScoreState, c: nat)
    requires c < LED_BIT_WEIGHT
    ensures Step(s, Observation(0, 1, c)).checksFailed == s.checksFailed + 1
    ensures Step(s, Observation(0, 1, c)).checksPassed == s.checksPassed
  {
  }

  /** When the state's LED states and every LED sample are bits, the LED
      states stay within {0, 1}. */
  lemma LedStatesStayBits(s: ScoreState, h: seq<Observation>)
    requires s.ledStates <= {0, 1}
    requires forall i :: 0 <= i < |h| ==> h[i].led == 0 || h[i].led == 1
    ensures Run(s, h).ledStates <= {0, 1}
  {
    RunLedStates(s, h);
    forall x | x in LedsOf(h) ensures x == 0 || x == 1 {
      var o :| o in h && o.led == x;
      var j :| 0 <= j < |h| && h[j] == o;
    }
  }

  /** Samples a conforming device shows after the wrap window, while
      BlinkyTest waits its final 100 ns: they continue counting from
      2^27 - 2 + 4 with reset low. */
  function DrainWindow(m: nat): (w: seq<Observation>)
    ensures |w| == m
    ensures forall i :: 0 <= i < m ==> w[i].led == 0 || w[i].led == 1
  {
    ConformingWindow(WRAP_START + WINDOW_CYCLES, m)
  }

  /** A whole run in the shape of BlinkyTest: any observations `pre` that
      include a reset item (the reset phase, the first item of RunSequence
      and its free-running cycles), then the toggle window, the wrap window
      and the m samples taken while the test waits before dropping its
      objection. When every LED sample of `pre` is 0 or 1, all four
      coverage criteria hold at the end, and the failed tally is the number
      of mismatches in `pre`, so the run passes exactly when every sample of
      `pre` matched. */
  lemma FullRunCoverage(pre: seq<Observation>, m: nat)
    requires exists i :: 0 <= i < |pre| && pre[i].rst == 1
    requires forall i :: 0 <= i < |pre| ==> pre[i].led == 0 || pre[i].led == 1
    ensures var r := Run(Initial(), pre + ConformingWindow(TOGGLE_START, WINDOW_CYCLES)
                                         + ConformingWindow(WRAP_START, WINDOW_CYCLES)
                                         + DrainWindow(m));
            CoverageCount(r) == COVERAGE_ITEMS && CoveragePercent(r) == 100 &&
            r.checksFailed == MismatchCount(pre) &&
            (VerdictOf(r) == Passed <==> forall i :: 0 <= i < |pre| ==> Matches(pre[i]))
  {
    var w1 := ConformingWindow(TOGGLE_START, WINDOW_CYCLES);
    var w2 := ConformingWindow(WRAP_START, WINDOW_CYCLES);
    var w3 := DrainWindow(m);
    var a := Run(Initial(), pre);
    var b := Run(a, w1);
    var c := Run(b, w2);
    var r := Run(c, w3);
    RunAppend(Initial(), pre, w1);
    RunAppend(Initial(), pre + w1, w2);
    RunAppend(Initial(), pre + w1 + w2, w3);
    assert Run(Initial(), pre + w1 + w2 + w3) == r;

    // The reset phase is in pre; the flag survives the three windows.
    RunResetSeen(Initial(), pre);
    RunMonotone(a, w1);
    RunMonotone(b, w2);
    RunMonotone(c, w3);

    // The wrap window sets the overflow flag.
    WrapWindowSetsOverflow(b, WINDOW_CYCLES);

    // The toggle window shows both LED values and no sample is anything
    // else, so the LED states are exactly {0, 1} and the toggle is seen.
    ToggleWindowShowsBothLeds(a);
    LedStatesStayBits(Initial(), pre);
    LedStatesStayBits(a, w1);
    LedStatesStayBits(b, w2);
    LedStatesStayBits(c, w3);
    assert r.ledStates == {0, 1};
    RunToggleConsistent(Initial(), pre);
    RunToggleConsistent(a, w1);
    RunToggleConsistent(b, w2);
    RunToggleConsistent(c, w3);
    ToggleMeansBothStates(r);

    // Only pre can fail a check.
    RunTally(Initial(), pre);
    ConformingWindowPasses(a, TOGGLE_START, WINDOW_CYCLES);
    ConformingWindowPasses(c, WRAP_START + WINDOW_CYCLES, m);
    MismatchFreeIff(pre);
  }

  /** A run's samples written to the scoreboard one after another, in the
      order the monitor samples them: the object ends in the state of the
      reference run over those samples. */
  method WriteAll(sb: BlinkyScoreboard, samples: seq<Observation>)
    requires sb.Valid()
    modifies sb
    ensures sb.Valid()
    ensures sb.State() == Run(old(sb.State()), samples)
  {
    ghost var start := sb.State();
    for k := 0 to |samples|
      invariant sb.Valid()
      invariant sb.State() == Run(start, samples[..k])
    {
      assert samples[..k + 1] == samples[..k] + [samples[k]];
      RunSnoc(start, samples[..k], samples[k]);
      sb.Write(samples[k]);
    }
    assert samples[..|samples|] == samples;
  }

  /** The boundary scenario on the scoreboard object itself: from
      build_phase, write the samples 0x7FFFFFE, 0x7FFFFFF and 0 with reset
      low and the LED a conforming device shows; the wrap is covered, no
      check fails, and the report says PASSED. */
  method BoundaryScenario() returns (overflow: bool, failed: nat, verdict: Verdict)
    ensures overflow && failed == 0 && verdict == Passed
  {
    var sb := new BlinkyScoreboard();
    sb.Write(Observation(0, 1, WRAP_START));
    sb.Write(Observation(0, 1, MAX_COUNTER));
    sb.Write(Observation(0, 0, 0));
    var covered, percent;
    covered, percent, verdict := sb.Report();
    overflow, failed := sb.counterOverflowSeen, sb.checksFailed;
  }

  /** BlinkyTest on the scoreboard object: a fresh scoreboard receives the
      samples `pre` (with a reset among them), then the toggle window, the
      wrap window and m samples of the final wait. The report shows full
      coverage, and PASSED exactly when every sample of `pre` matched its
      prediction. */
  method FullRunReport(pre: seq<Observation>, m: nat) returns (covered: nat, percent: nat, verdict: Verdict)
    requires exists i :: 0 <= i < |pre| && pre[i].rst == 1
    requires forall i :: 0 <= i < |pre| ==> pre[i].led == 0 || pre[i].led == 1
    ensures covered == COVERAGE_ITEMS && percent == 100
    ensures verdict == Passed <==> forall i :: 0 <= i < |pre| ==> Matches(pre[i])
  {
    var sb := new BlinkyScoreboard();
    WriteAll(sb, pre + ConformingWindow(TOGGLE_START, WINDOW_CYCLES)
                     + ConformingWindow(WRAP_START, WINDOW_CYCLES) + DrainWindow(m));
    FullRunCoverage(pre, m);
    covered, percent, verdict := sb.Report();
  }
}
