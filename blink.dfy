/**
 * The All-Blink utility (blink_all in modes.c): `repeat` rounds, each
 * switching every pin on, waiting, switching every pin off, waiting.
 */
module Blink {
  import opened Wrappers
  import opened Gpio

  /** The repeat count the flowing light uses for its intro (BLINK_REPEAT); the binary counter also passes 3. */
  const BLINK_REPEAT: int := 3

  /** One round of blink_all. */
  function BlinkRound(pins: seq<int>, delay: int): seq<Event> {
    AllLow(pins) + [Delay(delay)] + AllHigh(pins) + [Delay(delay)]
  }

  /** The trace of blink_all(pins, |pins|, delay, repeat); no rounds for repeat <= 0. */
  function BlinkTrace(pins: seq<int>, delay: int, repeat: int): seq<Event>
    decreases repeat
  {
    if repeat <= 0 then [] else BlinkTrace(pins, delay, repeat - 1) + BlinkRound(pins, delay)
  }

  /** r rounds of 2n + 2 events each, two of them delays. */
  lemma {:induction false} BlinkTraceSize(pins: seq<int>, delay: int, repeat: int)
    requires repeat >= 0
    ensures |BlinkTrace(pins, delay, repeat)| == repeat * (2 * |pins| + 2)
    ensures Delays(BlinkTrace(pins, delay, repeat)) == 2 * repeat
  {
    if repeat > 0 {
      var len := 2 * |pins| + 2;
      var prev := BlinkTrace(pins, delay, repeat - 1);
      BlinkTraceSize(pins, delay, repeat - 1);
      assert |prev| == (repeat - 1) * len;
      assert repeat * len == (repeat - 1) * len + len;
      var a, b := AllLow(pins) + [Delay(delay)], AllHigh(pins) + [Delay(delay)];
      assert BlinkRound(pins, delay) == a + b;
      DelaysAllPins(pins);
      DelaysAppend(AllLow(pins), [Delay(delay)]);
      DelaysAppend(AllHigh(pins), [Delay(delay)]);
      DelaysAppend(a, b);
      DelaysAppend(prev, BlinkRound(pins, delay));
    }
  }

  /** a + b rounds are a rounds followed by b rounds. */
  lemma {:induction false} BlinkTraceSplit(pins: seq<int>, delay: int, a: nat, b: nat)
    ensures BlinkTrace(pins, delay, a + b) == BlinkTrace(pins, delay, a) + BlinkTrace(pins, delay, b)
  {
    if b > 0 {
      BlinkTraceSplit(pins, delay, a, b - 1);
    }
  }

  /** Every round j of r is exactly one BlinkRound, with j rounds before it and r - j - 1 after. */
  lemma BlinkTraceRound(pins: seq<int>, delay: int, repeat: int, j: nat)
    requires j < repeat
    ensures BlinkTrace(pins, delay, repeat) ==
      BlinkTrace(pins, delay, j) + BlinkRound(pins, delay) + BlinkTrace(pins, delay, repeat - j - 1)
  {
    BlinkTraceSplit(pins, delay, j, 1);
    BlinkTraceSplit(pins, delay, j + 1, repeat - j - 1);
  }

  /** After at least one round every pin of the set is left high, that is off. */
  lemma BlinkLeavesAllOff(pins: seq<int>, delay: int, repeat: int, p: int)
    requires repeat >= 1 && p in pins
    ensures LastLevel(BlinkTrace(pins, delay, repeat), p) == Some(High)
  {
    var before := BlinkTrace(pins, delay, repeat - 1) + AllLow(pins) + [Delay(delay)];
    assert BlinkTrace(pins, delay, repeat) == (before + AllHigh(pins)) + [Delay(delay)];
    LastLevelAppend(before + AllHigh(pins), [Delay(delay)], p);
    assert [Delay(delay)][..0] == [];
    LastLevelAllHigh(pins, p);
    LastLevelAppend(before, AllHigh(pins), p);
  }
}
