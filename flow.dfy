/**
 * The flowing light (flowing_lights in modes.c): one lit LED that moves
 * along the pins and bounces at both ends.
 */
module Flow {
  import opened Gpio
  import opened Bits

  /** The loop's state: `current_pin` and `direction`. */
  datatype Sweep = Sweep(pin: int, direction: int)

  /** The state before the first iteration. */
  const START: Sweep := Sweep(0, 1)

  /** One step: move, then the two bounce tests of the source in their order. */
  function NextSweep(n: int, s: Sweep): Sweep {
    var moved := Sweep(s.pin + s.direction, s.direction);
    var high := if moved.pin == n then Sweep(n - 2, -1) else moved;
    if high.pin < 0 then Sweep(1, 1) else high
  }

  /** The state after k iterations; the lit pin never leaves [0, n - 1]. */
  function SweepAt(n: nat, k: nat): (s: Sweep)
    requires n >= 2
    ensures 0 <= s.pin < n
    ensures s.direction == 1 || s.direction == -1
  {
    if k == 0 then START else NextSweep(n, SweepAt(n, k - 1))
  }

  /** The lit position at time k of the sweep 0, 1, ..., n - 1, n - 2, ..., 1, repeated. */
  function PingPong(n: nat, k: nat): nat
    requires n >= 2
  {
    Fold(n, k % (2 * (n - 1)))
  }

  /** The direction after k iterations: up at the start and while climbing, down otherwise. */
  function PingPongDirection(n: nat, k: nat): int
    requires n >= 2
  {
    FoldDirection(n, k % (2 * (n - 1)), k == 0)
  }

  /** The position at offset r of one sweep period: climbing for r < n, descending after. */
  function Fold(n: nat, r: nat): nat
    requires n >= 2 && r < 2 * (n - 1)
  {
    if r < n then r else 2 * (n - 1) - r
  }

  /** The direction at offset r of a sweep period; `start` marks time 0. */
  function FoldDirection(n: nat, r: nat, start: bool): int {
    if start || 0 < r < n then 1 else -1
  }

  /** One iteration at position p: light it, wait, switch it off. */
  function FlowIteration(pins: seq<int>, delay: int, p: int): seq<Event>
    requires 0 <= p < |pins|
  {
    [PinLow(pins[p]), Delay(delay), PinHigh(pins[p])]
  }

  /** The trace of the first k iterations of the loop. */
  function FlowTrace(pins: seq<int>, delay: int, k: nat): seq<Event>
    requires |pins| >= 2
  {
    if k == 0 then [] else FlowTrace(pins, delay, k - 1) + FlowIteration(pins, delay, SweepAt(|pins|, k - 1).pin)
  }

  /** One step of the closed form: from (PingPong k, direction k) the step reaches time k + 1. */
  lemma PingPongStep(n: nat, k: nat)
    requires n >= 2
    ensures NextSweep(n, Sweep(PingPong(n, k), PingPongDirection(n, k))) ==
      Sweep(PingPong(n, k + 1), PingPongDirection(n, k + 1))
  {
    ModNext(k, 2 * (n - 1));
    FoldStep(n, k % (2 * (n - 1)), k == 0);
  }

  /** Within one period, a step moves from offset r to the next offset, wrapping to 0 at the end. */
  lemma FoldStep(n: nat, r: nat, start: bool)
    requires n >= 2 && r < 2 * (n - 1) && (start ==> r == 0)
    ensures var r' := if r + 1 < 2 * (n - 1) then r + 1 else 0;
      NextSweep(n, Sweep(Fold(n, r), FoldDirection(n, r, start))) == Sweep(Fold(n, r'), FoldDirection(n, r', false))
  {
  }

  /** The state after k iterations, in closed form. */
  lemma {:induction false} SweepClosedForm(n: nat, k: nat)
    requires n >= 2
    ensures SweepAt(n, k) == Sweep(PingPong(n, k), PingPongDirection(n, k))
  {
    if k > 0 {
      SweepClosedForm(n, k - 1);
      PingPongStep(n, k - 1);
    }
  }

  /** The lit positions repeat with period 2(n - 1). */
  lemma SweepPeriodic(n: nat, k: nat)
    requires n >= 2
    ensures SweepAt(n, k + 2 * (n - 1)).pin == SweepAt(n, k).pin
  {
    SweepClosedForm(n, k);
    SweepClosedForm(n, k + 2 * (n - 1));
    ModPeriod(k, 2 * (n - 1));
  }

  /** With eight pins the first fourteen lit positions are 0..7 and then 6..1. */
  lemma SweepFirstFourteen()
    ensures forall k :: 0 <= k < 14 ==> SweepAt(8, k).pin == if k < 8 then k else 14 - k
  {
    forall k | 0 <= k < 14
      ensures SweepAt(8, k).pin == if k < 8 then k else 14 - k
    {
      SweepClosedForm(8, k);
      DivModUnique(k, 14, 0, k);
    }
  }

  /**
   * Iteration j of the loop lights exactly pin PingPong(n, j): three events,
   * low on that pin, the delay, high on that same pin.
   */
  lemma {:induction false} FlowTraceAt(pins: seq<int>, delay: int, k: nat, j: nat)
    requires |pins| >= 2 && j < k
    ensures |FlowTrace(pins, delay, k)| == 3 * k
    ensures FlowTrace(pins, delay, k)[3 * j..3 * j + 3] ==
      [PinLow(pins[PingPong(|pins|, j)]), Delay(delay), PinHigh(pins[PingPong(|pins|, j)])]
  {
    FlowTraceSize(pins, delay, k - 1);
    var prev := FlowTrace(pins, delay, k - 1);
    var last := FlowIteration(pins, delay, SweepAt(|pins|, k - 1).pin);
    assert FlowTrace(pins, delay, k) == prev + last;
    if j < k - 1 {
      FlowTraceAt(pins, delay, k - 1, j);
      assert (prev + last)[3 * j..3 * j + 3] == prev[3 * j..3 * j + 3];
    } else {
      SweepClosedForm(|pins|, j);
      assert (prev + last)[3 * j..3 * j + 3] == last;
    }
  }

  /** Each iteration contributes three events. */
  lemma {:induction false} FlowTraceSize(pins: seq<int>, delay: int, k: nat)
    requires |pins| >= 2
    ensures |FlowTrace(pins, delay, k)| == 3 * k
  {
    if k > 0 {
      FlowTraceSize(pins, delay, k - 1);
    }
  }
}
