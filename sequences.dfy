/** The stimulus of ResetSequence (test/sim/test_blinky.py). The sequence
    hands one item object to the sequencer over and over; each
    start_item/finish_item pair returns once the driver has put the item's
    `rst` on the device for one clock edge. The model records, in order,
    the `rst` value driven at each of those edges. */
module StimulusSequences {

  /** A sequence item as the sequences create it: every field starts at 0. */
  class BlinkyItem {
    var rst: int
    var led: int
    var counterValue: int

    constructor ()
      ensures rst == 0 && led == 0 && counterValue == 0
    {
      rst, led, counterValue := 0, 0, 0;
    }
  }

  /** Number of extra cycles the reset is held after the first item. */
  const HOLD_CYCLES: nat := 5

  /** ResetSequence.body: assert reset, hold it for five more items, then
      deassert it. Because the same item is reused and `rst` only changes
      after the sixth handshake, the driver sees six 1s and then one 0. */
  method ResetSequenceBody() returns (driven: seq<int>)
    ensures |driven| == HOLD_CYCLES + 2
    ensures forall i :: 0 <= i < |driven| - 1 ==> driven[i] == 1
    ensures driven[|driven| - 1] == 0
    ensures driven == [1, 1, 1, 1, 1, 1, 0]
  {
    var item := new BlinkyItem();
    item.rst := 1;
    driven := [item.rst];

    var k := 0;
    while k < HOLD_CYCLES
      invariant 0 <= k <= HOLD_CYCLES
      invariant item.rst == 1
      invariant |driven| == k + 1
      invariant forall i :: 0 <= i < |driven| ==> driven[i] == 1
    {
      driven := driven + [item.rst];
      k := k + 1;
    }

    item.rst := 0;
    driven := driven + [item.rst];
  }
}
