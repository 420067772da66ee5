/** The reference model, checker and coverage accountant of the blinky
    testbench (class BlinkyScoreboard in test/sim/test_blinky.py).

    The scoreboard receives one monitored observation per clock edge. It
    predicts the LED as bit 26 of the sampled counter, tallies passed and
    failed checks, and records four coverage facts: a reset was seen, the
    LED toggled, the 27-bit counter wrapped from 0x7FFFFFF to 0, and both
    LED states were observed.

    The model has two layers. `Step` and `Run` are the pure specification of
    one `write` and of a whole run; the class `BlinkyScoreboard` keeps the
    source's fields and updates them in place, and each `Write` moves them
    exactly one `Step`. */
module ScoreboardModel {

  datatype Option<T> = None | Some(value: T)

  /** Largest value of the device's 27-bit counter. */
  const MAX_COUNTER: nat := 0x7FFFFFF
  /** Number of distinct values of the 27-bit counter. */
  const COUNTER_MODULUS: nat := 0x8000000
  /** Weight of bit 26, the counter bit that drives the LED. */
  const LED_BIT_WEIGHT: nat := 0x4000000
  /** Number of coverage criteria in the report. */
  const COVERAGE_ITEMS: nat := 4

  /** One monitored transaction: the reset line, the LED output and the
      counter, all sampled at the same clock edge. The monitor converts
      each signal with `int(...)`, so reset and LED are plain integers. */
  datatype Observation = Observation(rst: int, led: int, counterValue: nat)

  /** The scoreboard's state as a value: tallies, the prediction state and
      the coverage state. */
  datatype ScoreState = ScoreState(
    expectedLed: int,
    checksPassed: nat,
    checksFailed: nat,
    prevCounter: Option<nat>,
    resetSeen: bool,
    overflowSeen: bool,
    toggleSeen: bool,
    ledStates: set<int>)

  datatype Verdict = Passed | Failed

  /** The state that build_phase sets up. */
  function Initial(): (s: ScoreState)
    ensures s.expectedLed == 0
    ensures s.checksPassed == 0 && s.checksFailed == 0
    ensures s.prevCounter == None && s.ledStates == {}
    ensures !s.resetSeen && !s.overflowSeen && !s.toggleSeen
    ensures ToggleConsistent(s)
  {
    ScoreState(0, 0, 0, None, false, false, false, {})
  }

  /** The toggle flag is the derived fact "more than one LED value seen". */
  predicate ToggleConsistent(s: ScoreState)
  {
    s.toggleSeen <==> |s.ledStates| > 1
  }

  /** `(counter_value >> 26) & 1`: on a non-negative integer a right shift
      by 26 is floor division by 2^26 and `& 1` is the remainder modulo 2. */
  function ExpectedLed(counterValue: nat): (b: int)
    ensures b == 0 || b == 1
    ensures b == 1 <==> counterValue % COUNTER_MODULUS >= LED_BIT_WEIGHT
  {
    (counterValue / LED_BIT_WEIGHT) % 2
  }

  /** For a counter that already fits in 27 bits the LED is on exactly in
      the upper half of the range. */
  lemma ExpectedLedOfCounter(c: nat)
    requires c <= MAX_COUNTER
    ensures ExpectedLed(c) == (if c >= LED_BIT_WEIGHT then 1 else 0)
  {
  }

  /** True when this observation completes the wrap 0x7FFFFFF -> 0: it is
      not a reset item, the stored previous counter is the maximum and the
      new counter is 0. */
  predicate OverflowOn(prev: Option<nat>, o: Observation)
  {
    o.rst != 1 && prev == Some(MAX_COUNTER) && o.counterValue == 0
  }

  /** One call of `write`. The `None` that a reset item stores in the
      previous counter is overwritten by the item's counter before `write`
      returns, so it is not visible in the resulting state. */
  function Step(s: ScoreState, o: Observation): (t: ScoreState)
    ensures t.prevCounter == Some(o.counterValue)
    ensures t.expectedLed == ExpectedLed(o.counterValue)
    ensures t.checksPassed + t.checksFailed == s.checksPassed + s.checksFailed + 1
    ensures o.led == ExpectedLed(o.counterValue) ==>
              t.checksPassed == s.checksPassed + 1 && t.checksFailed == s.checksFailed
    ensures o.led != ExpectedLed(o.counterValue) ==>
              t.checksFailed == s.checksFailed + 1 && t.checksPassed == s.checksPassed
    ensures t.ledStates == s.ledStates + {o.led}
    ensures t.resetSeen <==> s.resetSeen || o.rst == 1
    ensures t.overflowSeen <==> s.overflowSeen || OverflowOn(s.prevCounter, o)
    ensures o.rst == 1 ==> t.overflowSeen == s.overflowSeen
    ensures s.toggleSeen ==> t.toggleSeen
    ensures ToggleConsistent(s) ==> ToggleConsistent(t)
  {
    var resetSeen := s.resetSeen || o.rst == 1;
    var overflowSeen := if o.rst == 1 then s.overflowSeen
                        else s.overflowSeen || (s.prevCounter == Some(MAX_COUNTER) && o.counterValue == 0);
    var expected := ExpectedLed(o.counterValue);
    var ledStates := s.ledStates + {o.led};
    var toggleSeen := s.toggleSeen || |ledStates| > 1;
    assert |s.ledStates| <= |ledStates| by {
      assert s.ledStates <= ledStates;
      SubsetCard(s.ledStates, ledStates);
    }
    var passed := o.led == expected;
    ScoreState(
      expected,
      if passed then s.checksPassed + 1 else s.checksPassed,
      if passed then s.checksFailed else s.checksFailed + 1,
      Some(o.counterValue),
      resetSeen, overflowSeen, toggleSeen, ledStates)
  }

  lemma SubsetCard<T>(a: set<T>, b: set<T>)
    requires a <= b
    ensures |a| <= |b|
  {
    assert b == a + (b - a);
  }

  /** The scoreboard after receiving the observations of h in order. */
  function Run(s: ScoreState, h: seq<Observation>): ScoreState
    decreases |h|
  {
    if h == [] then s else Run(Step(s, h[0]), h[1..])
  }

  /** 1 for a true coverage criterion, 0 for a false one (Python's `sum`
      over booleans). */
  function Indicator(b: bool): (n: nat)
    ensures n <= 1 && (n == 1 <==> b)
  {
    if b then 1 else 0
  }

  /** The four criteria of report_phase, all four met. */
  predicate FullyCovered(s: ScoreState)
  {
    s.resetSeen && s.toggleSeen && s.overflowSeen && |s.ledStates| == 2
  }

  /** Number of coverage criteria met. */
  function CoverageCount(s: ScoreState): (n: nat)
    ensures n <= COVERAGE_ITEMS
    ensures n == COVERAGE_ITEMS <==> FullyCovered(s)
    ensures n == 0 <==> !s.resetSeen && !s.toggleSeen && !s.overflowSeen && |s.ledStates| != 2
  {
    Indicator(s.resetSeen) + Indicator(s.toggleSeen)
      + Indicator(s.overflowSeen) + Indicator(|s.ledStates| == 2)
  }

  /** The coverage percentage, `sum(items) / len(items) * 100`. With four
      criteria the quotient is a whole multiple of 25, so it is exact. */
  function CoveragePercent(s: ScoreState): (p: nat)
    ensures p <= 100 && p % 25 == 0
    ensures p == 100 <==> FullyCovered(s)
    ensures p * COVERAGE_ITEMS == CoverageCount(s) * 100
  {
    CoverageCount(s) * (100 / COVERAGE_ITEMS)
  }

  /** The verdict of report_phase: it looks only at the failed tally. */
  function VerdictOf(s: ScoreState): (v: Verdict)
    ensures v == Failed <==> s.checksFailed > 0
  {
    if s.checksFailed > 0 then Failed else Passed
  }

  /** The scoreboard component, with the fields build_phase creates. */
  class BlinkyScoreboard {
    var expectedLed: int
    var checksPassed: nat
    var checksFailed: nat
    var prevCounter: Option<nat>
    var resetSeen: bool
    var counterOverflowSeen: bool
    var ledToggleSeen: bool
    var ledStates: set<int>

    /** The fields as a value. */
    function State(): ScoreState
      reads this
    {
      ScoreState(expectedLed, checksPassed, checksFailed, prevCounter,
                 resetSeen, counterOverflowSeen, ledToggleSeen, ledStates)
    }

    /** The object invariant build_phase establishes and write keeps: the
        toggle flag is set exactly when more than one LED state was seen. */
    ghost predicate Valid()
      reads this
    {
      ledToggleSeen <==> |ledStates| > 1
    }

    /** build_phase. */
    constructor ()
      ensures Valid() && State() == Initial()
    {
      expectedLed := 0;
      checksPassed, checksFailed := 0, 0;
      prevCounter := None;
      resetSeen, counterOverflowSeen, ledToggleSeen := false, false, false;
      ledStates := {};
    }

    /** write: update coverage, predict the LED, tally the check and store
        the counter for the next overflow test. The fields take exactly one
        Step of the reference model. */
    method Write(item: Observation)
      requires Valid()
      modifies this
      ensures Valid()
      ensures State() == Step(old(State()), item)
      ensures prevCounter == Some(item.counterValue)
    {
      if item.rst == 1 {
        resetSeen := true;
        prevCounter := None;
      } else if prevCounter == Some(MAX_COUNTER) && item.counterValue == 0 {
        counterOverflowSeen := true;
      }

      expectedLed := ExpectedLed(item.counterValue);
      ledStates := ledStates + {item.led};

      if |ledStates| > 1 {
        ledToggleSeen := true;
      }

      if item.led == expectedLed {
        checksPassed := checksPassed + 1;
      } else {
        checksFailed := checksFailed + 1;
      }

      prevCounter := Some(item.counterValue);
    }

    /** report_phase: the coverage count, the percentage and the verdict. */
    method Report() returns (covered: nat, percent: nat, verdict: Verdict)
      ensures covered == CoverageCount(State()) && percent == CoveragePercent(State())
      ensures covered <= COVERAGE_ITEMS && percent == covered * 25
      ensures covered == COVERAGE_ITEMS <==>
                resetSeen && ledToggleSeen && counterOverflowSeen && |ledStates| == 2
      ensures verdict == VerdictOf(State())
      ensures verdict == Failed <==> checksFailed > 0
    {
      covered := Indicator(resetSeen) + Indicator(ledToggleSeen)
                 + Indicator(counterOverflowSeen) + Indicator(|ledStates| == 2);
      percent := covered * 100 / COVERAGE_ITEMS;
      verdict := if checksFailed > 0 then Failed else Passed;
    }
  }

  /** The LED observed agrees with the prediction. */
  predicate Matches(o: Observation)
  {
    o.led == ExpectedLed(o.counterValue)
  }

  /** Number of observations whose LED disagrees with the prediction. */
  function MismatchCount(h: seq<Observation>): (n: nat)
    ensures n <= |h|
  {
    if h == [] then 0 else (if Matches(h[0]) then 0 else 1) + MismatchCount(h[1..])
  }

  /** LED values that occur in h. */
  function LedsOf(h: seq<Observation>): set<int>
  {
    set o | o in h :: o.led
  }

  /** True when the observation at index i of h completes the counter wrap,
      prev being the stored counter before h[0]. */
  predicate OverflowAt(prev: Option<nat>, h: seq<Observation>, i: int)
    requires 0 <= i < |h|
  {
    OverflowOn(if i == 0 then prev else Some(h[i - 1].counterValue), h[i])
  }

  // ---------------------------------------------------------------------
  // Properties of a whole run

  /** Writing a + b is writing a, then b. */
  lemma {:induction false} RunAppend(s: ScoreState, a: seq<Observation>, b: seq<Observation>)
    ensures Run(s, a + b) == Run(Run(s, a), b)
    decreases |a|
  {
    if a != [] {
      assert (a + b)[0] == a[0];
      assert (a + b)[1..] == a[1..] + b;
      RunAppend(Step(s, a[0]), a[1..], b);
    } else {
      assert a + b == b;
    }
  }

  /** One more write is one more Step. */
  lemma RunSnoc(s: ScoreState, h: seq<Observation>, o: Observation)
    ensures Run(s, h + [o]) == Step(Run(s, h), o)
  {
    RunAppend(s, h, [o]);
    assert Run(Run(s, h), [o]) == Run(Step(Run(s, h), o), []);
  }

  /** Every observation adds exactly one check: the failed tally grows by
      the number of mismatches and the passed tally by the rest. */
  lemma {:induction false} RunTally(s: ScoreState, h: seq<Observation>)
    ensures Run(s, h).checksFailed == s.checksFailed + MismatchCount(h)
    ensures Run(s, h).checksPassed == s.checksPassed + |h| - MismatchCount(h)
    ensures Run(s, h).checksPassed + Run(s, h).checksFailed
              == s.checksPassed + s.checksFailed + |h|
    decreases |h|
  {
    if h != [] {
      RunTally(Step(s, h[0]), h[1..]);
    }
  }

  /** No mismatch in h exactly when every observation of h matches. */
  lemma {:induction false} MismatchFreeIff(h: seq<Observation>)
    ensures MismatchCount(h) == 0 <==> forall i :: 0 <= i < |h| ==> Matches(h[i])
    decreases |h|
  {
    if h != [] {
      MismatchFreeIff(h[1..]);
      if MismatchCount(h) == 0 {
        forall i | 0 <= i < |h| ensures Matches(h[i]) {
          if i > 0 { assert h[i] == h[1..][i - 1]; }
        }
      }
      if forall i :: 0 <= i < |h| ==> Matches(h[i]) {
        assert Matches(h[0]);
        forall j | 0 <= j < |h[1..]| ensures Matches(h[1..][j]) {
          assert h[1..][j] == h[j + 1];
        }
      }
    }
  }

  /** A run from build_phase is judged PASSED exactly when every observed
      LED equals bit 26 of its counter; coverage plays no part. */
  lemma RunVerdict(h: seq<Observation>)
    ensures VerdictOf(Run(Initial(), h)) == Passed <==>
              forall i :: 0 <= i < |h| ==> Matches(h[i])
  {
    RunTally(Initial(), h);
    MismatchFreeIff(h);
  }

  /** After a non-empty run the stored counter is the last observation's
      counter; a reset item never leaves it unknown. */
  lemma {:induction false} RunPrevCounter(s: ScoreState, h: seq<Observation>)
    ensures Run(s, h).prevCounter ==
              if h == [] then s.prevCounter else Some(h[|h| - 1].counterValue)
    decreases |h|
  {
    if h != [] {
      RunPrevCounter(Step(s, h[0]), h[1..]);
      if |h| > 1 { assert h[1..][|h[1..]| - 1] == h[|h| - 1]; }
    }
  }

  /** The LED states are the union of the initial ones and every LED
      value observed. */
  lemma {:induction false} RunLedStates(s: ScoreState, h: seq<Observation>)
    ensures Run(s, h).ledStates == s.ledStates + LedsOf(h)
    decreases |h|
  {
    if h != [] {
      RunLedStates(Step(s, h[0]), h[1..]);
      assert LedsOf(h) == {h[0].led} + LedsOf(h[1..]) by {
        assert h == [h[0]] + h[1..];
        forall x | x in LedsOf(h) ensures x in {h[0].led} + LedsOf(h[1..]) {
          var o :| o in h && o.led == x;
          if o != h[0] {
            var i :| 0 <= i < |h| && h[i] == o;
            assert h[1..][i - 1] == o;
          }
        }
      }
    }
  }

  /** The reset flag is set exactly when it was already set or some
      observation had the reset line at 1. */
  lemma {:induction false} RunResetSeen(s: ScoreState, h: seq<Observation>)
    ensures Run(s, h).resetSeen <==> s.resetSeen || exists i :: 0 <= i < |h| && h[i].rst == 1
    decreases |h|
  {
    if h != [] {
      RunResetSeen(Step(s, h[0]), h[1..]);
      if exists i :: 0 <= i < |h| && h[i].rst == 1 {
        var i :| 0 <= i < |h| && h[i].rst == 1;
        if i > 0 { assert h[1..][i - 1].rst == 1; }
      }
      if exists j :: 0 <= j < |h[1..]| && h[1..][j].rst == 1 {
        var j :| 0 <= j < |h[1..]| && h[1..][j].rst == 1;
        assert h[j + 1].rst == 1;
      }
    }
  }

  /** The overflow flag is set exactly when it was already set or some
      observation completes the wrap 0x7FFFFFF -> 0 with respect to the
      counter stored just before it. */
  lemma {:induction false} RunOverflowSeen(s: ScoreState, h: seq<Observation>)
    ensures Run(s, h).overflowSeen <==>
              s.overflowSeen || exists i :: 0 <= i < |h| && OverflowAt(s.prevCounter, h, i)
    decreases |h|
  {
    if h != [] {
      var t := Step(s, h[0]);
      RunOverflowSeen(t, h[1..]);
      if OverflowOn(s.prevCounter, h[0]) {
        assert OverflowAt(s.prevCounter, h, 0);
      }
      assert t.prevCounter == Some(h[0].counterValue);
      forall j | 0 <= j < |h[1..]|
        ensures OverflowAt(t.prevCounter, h[1..], j) <==> OverflowAt(s.prevCounter, h, j + 1)
      {
        assert h[1..][j] == h[j + 1];
        if j > 0 { assert h[1..][j - 1] == h[j]; }
      }
      if exists i :: 0 <= i < |h| && OverflowAt(s.prevCounter, h, i) {
        var i :| 0 <= i < |h| && OverflowAt(s.prevCounter, h, i);
        if i > 0 { assert OverflowAt(t.prevCounter, h[1..], i - 1); }
      }
      if exists j :: 0 <= j < |h[1..]| && OverflowAt(t.prevCounter, h[1..], j) {
        var j :| 0 <= j < |h[1..]| && OverflowAt(t.prevCounter, h[1..], j);
        assert OverflowAt(s.prevCounter, h, j + 1);
      }
    }
  }

  /** Coverage never goes back: the three flags stay set and the LED
      states only grow. */
  lemma {:induction false} RunMonotone(s: ScoreState, h: seq<Observation>)
    ensures s.resetSeen ==> Run(s, h).resetSeen
    ensures s.overflowSeen ==> Run(s, h).overflowSeen
    ensures s.toggleSeen ==> Run(s, h).toggleSeen
    ensures s.ledStates <= Run(s, h).ledStates
    ensures s.checksFailed <= Run(s, h).checksFailed
    decreases |h|
  {
    if h != [] {
      RunMonotone(Step(s, h[0]), h[1..]);
    }
  }

  /** A prefix's coverage is kept by the whole run. */
  lemma PrefixCoverageKept(h: seq<Observation>, k: nat)
    requires k <= |h|
    ensures var p, r := Run(Initial(), h[..k]), Run(Initial(), h);
            (p.resetSeen ==> r.resetSeen) && (p.overflowSeen ==> r.overflowSeen) &&
            (p.toggleSeen ==> r.toggleSeen) && p.ledStates <= r.ledStates
  {
    assert h == h[..k] + h[k..];
    RunAppend(Initial(), h[..k], h[k..]);
    RunMonotone(Run(Initial(), h[..k]), h[k..]);
  }

  /** The toggle flag agrees with the LED states after every run that
      starts from a state where it does. */
  lemma {:induction false} RunToggleConsistent(s: ScoreState, h: seq<Observation>)
    requires ToggleConsistent(s)
    ensures ToggleConsistent(Run(s, h))
    decreases |h|
  {
    if h != [] {
      RunToggleConsistent(Step(s, h[0]), h[1..]);
    }
  }

  /** When every observed LED is 0 or 1, the toggle flag means both LED
      states were seen, the fourth coverage criterion. */
  lemma ToggleMeansBothStates(s: ScoreState)
    requires ToggleConsistent(s)
    requires s.ledStates <= {0, 1}
    ensures s.toggleSeen <==> s.ledStates == {0, 1}
    ensures s.toggleSeen <==> |s.ledStates| == 2
  {
    if |s.ledStates| > 1 {
      if 0 !in s.ledStates {
        assert s.ledStates <= {1};
        SubsetCard(s.ledStates, {1});
      } else if 1 !in s.ledStates {
        assert s.ledStates <= {0};
        SubsetCard(s.ledStates, {0});
      }
    }
  }
}
