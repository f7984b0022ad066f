/**
 * The binary counter (binary_counter in modes.c) as pure functions of the
 * pin count n: the counter's step, its value after k iterations, and the
 * trace of each iteration.
 */
module Counter {
  import opened Gpio
  import opened Bits
  import opened Blink

  /** The largest value n LEDs can show, `mask` in the source. */
  function Mask(n: nat): nat {
    Pow2(n) - 1
  }

  /** One step of the counter: the successor modulo 2^n. */
  function NextCounter(n: nat, c: nat): (next: nat)
    ensures next <= Mask(n)
  {
    (c + 1) % Pow2(n)
  }

  /** The counter after k iterations from 0. */
  function CounterAt(n: nat, k: nat): nat {
    if k == 0 then 0 else NextCounter(n, CounterAt(n, k - 1))
  }

  /** The rollover cue fires in an iteration that starts at c: the incremented counter equals mask. */
  predicate Rolls(n: nat, c: nat) {
    NextCounter(n, c) == Mask(n)
  }

  /** The pin writes showing c: pin i is driven low (lit) if bit i of c is set, high otherwise. */
  function ShowCounter(pins: seq<int>, c: nat): seq<Event> {
    seq(|pins|, i requires 0 <= i < |pins| => if BitSet(c, i) then PinLow(pins[i]) else PinHigh(pins[i]))
  }

  /** One iteration of the loop, starting with counter c. */
  function CounterIteration(pins: seq<int>, delay: int, c: nat): seq<Event> {
    ShowCounter(pins, c) + [Delay(delay)] + (if Rolls(|pins|, c) then BlinkTrace(pins, delay, 3) else [])
  }

  /** The trace of the first k iterations. */
  function CounterTrace(pins: seq<int>, delay: int, k: nat): seq<Event> {
    if k == 0 then [] else CounterTrace(pins, delay, k - 1) + CounterIteration(pins, delay, CounterAt(|pins|, k - 1))
  }

  /** Which of the writes in t light their LED. */
  function Lit(t: seq<Event>): seq<bool> {
    seq(|t|, i requires 0 <= i < |t| => t[i].PinLow?)
  }

  /** `counter++; counter &= mask;` is the counter step: masking with 2^n - 1 wraps at 2^n. */
  lemma MaskedIncrement(n: nat, c: nat)
    ensures BitAnd(c + 1, Mask(n)) == NextCounter(n, c)
  {
    BitAndLowMask(c + 1, n);
  }

  /** After k iterations the counter holds k mod 2^n, so it stays within [0, mask]. */
  lemma {:induction false} CounterClosedForm(n: nat, k: nat)
    ensures CounterAt(n, k) == k % Pow2(n)
    ensures CounterAt(n, k) <= Mask(n)
  {
    if k > 0 {
      CounterClosedForm(n, k - 1);
      var c := CounterAt(n, k - 1);
      ModStep(c, k, Pow2(n), CounterAt(n, k));
    }
  }

  /** Over one wrap the counter shows 0, 1, ..., 2^n - 1 in turn, and then it repeats. */
  lemma CounterCycle(n: nat, k: nat)
    ensures k < Pow2(n) ==> CounterAt(n, k) == k
    ensures CounterAt(n, k + Pow2(n)) == CounterAt(n, k)
  {
    var p := Pow2(n);
    CounterClosedForm(n, k);
    CounterClosedForm(n, k + p);
    if k < p {
      DivModUnique(k, p, 0, k);
    }
    ModPeriod(k, p);
  }

  /**
   * Iteration j rolls over exactly when the counter it shows is mask - 1,
   * so that the next iteration shows mask; with no pins mask is 0 and every
   * iteration rolls over.
   */
  lemma RollsWhen(n: nat, j: nat)
    ensures Rolls(n, CounterAt(n, j)) <==> CounterAt(n, j + 1) == Mask(n)
    ensures n >= 1 ==> (Rolls(n, CounterAt(n, j)) <==> CounterAt(n, j) == Mask(n) - 1)
    ensures n == 0 ==> Rolls(n, CounterAt(n, j))
  {
    var p := Pow2(n);
    CounterClosedForm(n, j);
    CounterClosedForm(n, j + 1);
    if n >= 1 {
      assert p >= 2;
      var c := CounterAt(n, j);
      if c + 1 < p {
        DivModUnique(c + 1, p, 0, c + 1);
      } else {
        DivModUnique(c + 1, p, 1, 0);
      }
    } else {
      assert p == 1;
    }
  }

  /** Iteration j rolls over exactly when (j + 1) mod 2^n is mask. */
  lemma RollsAt(n: nat, j: nat)
    ensures Rolls(n, CounterAt(n, j)) <==> (j + 1) % Pow2(n) == Mask(n)
  {
    CounterClosedForm(n, j + 1);
  }

  /** In any 2^n consecutive iterations the rollover cue fires exactly once. */
  lemma RollsOncePerWrap(n: nat, start: nat)
    ensures exists j :: start <= j < start + Pow2(n) && Rolls(n, CounterAt(n, j))
    ensures forall j1, j2 | start <= j1 < start + Pow2(n) && start <= j2 < start + Pow2(n) ::
      Rolls(n, CounterAt(n, j1)) && Rolls(n, CounterAt(n, j2)) ==> j1 == j2
  {
    var j := ResidueWithin(start, Pow2(n));
    RollsAt(n, j);
    forall j1, j2 | start <= j1 < start + Pow2(n) && start <= j2 < start + Pow2(n) &&
        Rolls(n, CounterAt(n, j1)) && Rolls(n, CounterAt(n, j2))
      ensures j1 == j2
    {
      RollsUnique(n, j1, j2);
    }
  }

  /** Two iterations that both roll over and are less than 2^n apart are the same iteration. */
  lemma RollsUnique(n: nat, j1: nat, j2: nat)
    requires j1 < j2 + Pow2(n) && j2 < j1 + Pow2(n)
    requires Rolls(n, CounterAt(n, j1)) && Rolls(n, CounterAt(n, j2))
    ensures j1 == j2
  {
    RollsAt(n, j1);
    RollsAt(n, j2);
    SameResidue(j1 + 1, j2 + 1, Pow2(n));
  }

  /**
   * The pins show c in binary: the lit pattern is the n low bits of c, each
   * write goes to the pin of its bit, and reading the lit LEDs back as a
   * binary number gives c.
   */
  lemma ShowCounterDisplays(pins: seq<int>, c: nat)
    requires c <= Mask(|pins|)
    ensures |ShowCounter(pins, c)| == |pins|
    ensures forall i :: 0 <= i < |pins| ==> ShowCounter(pins, c)[i].pin == pins[i]
    ensures Lit(ShowCounter(pins, c)) == BitsOf(c, |pins|)
    ensures FromBits(Lit(ShowCounter(pins, c))) == c
  {
    assert Lit(ShowCounter(pins, c)) == BitsOf(c, |pins|);
    FromBitsOf(c, |pins|);
  }
}
