/**
 * The pattern engine of modes.c: the process-wide `running` flag, the
 * SIGINT handler that clears it, and the four animation routines.
 *
 * An `Engine` holds the state the routines share: `running`, the handler
 * currently installed for SIGINT, and the log of every GPIO call made so
 * far. Signal delivery is an oracle: in `signals`, entry k says whether a
 * SIGINT arrives before the loop tests `running` for the k-th time (entry 0:
 * before the first test; entry k > 0: during iteration k - 1).
 */
module Modes {
  import opened Gpio
  import opened Bits
  import opened Blink
  import opened Counter
  import opened Flow
  import opened Breathing

  /** The first loop test before which a signal has arrived. */
  function FirstSignal(signals: seq<bool>): (j: nat)
    requires true in signals
    ensures j < |signals| && signals[j]
    ensures forall i :: 0 <= i < j ==> !signals[i]
  {
    if signals[0] then 0 else 1 + FirstSignal(signals[1..])
  }

  /**
   * The number of iterations a `while (running)` loop completes: none when
   * the flag is already clear, otherwise one per test before the first signal.
   */
  function Iterations(running: bool, signals: seq<bool>): nat
    requires running ==> true in signals
  {
    if running then FirstSignal(signals) else 0
  }

  /**
   * Where a `while (running)` loop stands after k completed iterations: when
   * the flag was set at entry it is still set exactly before the first
   * signalled test, and when it was clear the loop never ran.
   */
  predicate Gate(wasRunning: bool, running: bool, signals: seq<bool>, k: nat) {
    if wasRunning then
      true in signals && k <= FirstSignal(signals) && (running <==> k < FirstSignal(signals))
    else
      !running && k == 0
  }

  /** When the loop has stopped, it has completed Iterations(wasRunning, signals) iterations. */
  lemma GateExit(wasRunning: bool, signals: seq<bool>, k: nat)
    requires Gate(wasRunning, false, signals, k)
    ensures wasRunning ==> true in signals
    ensures Iterations(wasRunning, signals) == k
  {
  }

  /**
   * Between two loop tests: while tests up to k have seen no signal, the
   * entry for test k + 1 exists and says whether the loop stops there.
   */
  lemma SignalStep(signals: seq<bool>, k: nat)
    requires true in signals && k < FirstSignal(signals)
    ensures k + 1 < |signals| && (signals[k + 1] <==> k + 1 == FirstSignal(signals))
  {
  }

  class Engine {
    /** `running` in modes.c: starts set, cleared by the handler, never set again. */
    var running: bool
    /** Every GPIO call made so far, in order. */
    var log: seq<Event>
    /** Whether sigint_handler is the handler installed for SIGINT. */
    var sigintInstalled: bool

    /** The process at start-up: `running` is 1 and the default SIGINT handler is installed. */
    constructor ()
      ensures running && log == [] && !sigintInstalled
    {
      running := true;
      log := [];
      sigintInstalled := false;
    }

    /** sigint_handler: clears the flag and nothing else, so a second call changes nothing. */
    method SigintHandler()
      requires sigintInstalled
      modifies this`running
      ensures !running
    {
      running := false;
    }

    /** A signal may arrive before the first test of `running`. */
    method Arm(signals: seq<bool>)
      requires sigintInstalled && (running ==> true in signals)
      modifies this`running
      ensures Gate(old(running), running, signals, 0)
    {
      if running && signals[0] {
        SigintHandler();
      }
    }

    /** A signal may arrive during iteration k, before the next test of `running`. */
    method Poll(signals: seq<bool>, k: nat, ghost wasRunning: bool)
      requires sigintInstalled && running && Gate(wasRunning, running, signals, k)
      modifies this`running
      ensures Gate(wasRunning, running, signals, k + 1) && k + 1 < |signals|
    {
      SignalStep(signals, k);
      if signals[k + 1] {
        SigintHandler();
      }
    }

    /** blink_all: `repeat` rounds of all pins low, a delay, all pins high, a delay. */
    method BlinkAll(pins: seq<int>, delay: int, repeat: int)
      modifies this`log
      ensures log == old(log) + BlinkTrace(pins, delay, repeat)
    {
      var i := 0;
      while i < repeat
        invariant 0 <= i <= if repeat < 0 then 0 else repeat
        invariant log == old(log) + BlinkTrace(pins, delay, i)
      {
        PinsLow(pins);
        log := log + [Delay(delay)];
        PinsHigh(pins);
        log := log + [Delay(delay)];
        i := i + 1;
      }
    }

    /** The first inner loop of blink_all: `pin_low` on every pin in order. */
    method PinsLow(pins: seq<int>)
      modifies this`log
      ensures log == old(log) + AllLow(pins)
    {
      var j := 0;
      while j < |pins|
        invariant 0 <= j <= |pins|
        invariant log == old(log) + AllLow(pins)[..j]
      {
        log := log + [PinLow(pins[j])];
        assert AllLow(pins)[..j + 1] == AllLow(pins)[..j] + [PinLow(pins[j])];
        j := j + 1;
      }
      assert AllLow(pins)[..j] == AllLow(pins);
    }

    /** The second inner loop of blink_all: `pin_high` on every pin in order. */
    method PinsHigh(pins: seq<int>)
      modifies this`log
      ensures log == old(log) + AllHigh(pins)
    {
      var j := 0;
      while j < |pins|
        invariant 0 <= j <= |pins|
        invariant log == old(log) + AllHigh(pins)[..j]
      {
        log := log + [PinHigh(pins[j])];
        assert AllHigh(pins)[..j + 1] == AllHigh(pins)[..j] + [PinHigh(pins[j])];
        j := j + 1;
      }
      assert AllHigh(pins)[..j] == AllHigh(pins);
    }

    /**
     * binary_counter: each iteration shows the counter on the pins, steps it
     * modulo 2^n, waits, and blinks all LEDs three times when the new value is
     * mask. The pin count must keep 2^n within a C `int`.
     */
    method BinaryCounter(pins: seq<int>, delay: int, signals: seq<bool>)
      requires |pins| <= 30
      requires running ==> true in signals
      modifies this
      ensures log == old(log) + CounterTrace(pins, delay, Iterations(old(running), signals))
      ensures !running && sigintInstalled == old(sigintInstalled)
    {
      var n := |pins|;
      var counter: nat := 0;
      var mask: nat := Pow2(n) - 1;
      var originalHandler := sigintInstalled;
      sigintInstalled := true;
      ghost var wasRunning := running;
      Arm(signals);
      var k := 0;
      while running
        invariant sigintInstalled
        invariant Gate(wasRunning, running, signals, k)
        invariant counter == CounterAt(n, k)
        invariant log == old(log) + CounterTrace(pins, delay, k)
        decreases |signals| - k
      {
        counter := CounterTick(pins, delay, counter, mask, k, old(log));
        Poll(signals, k, wasRunning);
        k := k + 1;
      }
      GateExit(wasRunning, signals, k);
      sigintInstalled := originalHandler;
    }

    /** Iteration k of binary_counter's loop takes the counter to CounterAt(n, k + 1) and extends the trace. */
    method CounterTick(pins: seq<int>, delay: int, counter: nat, mask: nat, ghost k: nat, ghost base: seq<Event>)
      returns (next: nat)
      requires mask == Mask(|pins|) && counter == CounterAt(|pins|, k)
      requires log == base + CounterTrace(pins, delay, k)
      modifies this`log
      ensures next == CounterAt(|pins|, k + 1)
      ensures log == base + CounterTrace(pins, delay, k + 1)
    {
      next := CounterStep(pins, delay, counter, mask);
      assert CounterTrace(pins, delay, k + 1) == CounterTrace(pins, delay, k) + CounterIteration(pins, delay, counter);
    }

    /**
     * One iteration of binary_counter's loop: the counter is shown on the
     * pins, then `counter++; counter &= mask;`, the delay, and the rollover
     * blink when the new counter equals mask.
     */
    method CounterStep(pins: seq<int>, delay: int, counter: nat, mask: nat) returns (next: nat)
      requires mask == Mask(|pins|)
      modifies this`log
      ensures next == NextCounter(|pins|, counter)
      ensures log == old(log) + CounterIteration(pins, delay, counter)
    {
      ShowPins(pins, counter);
      MaskedIncrement(|pins|, counter);
      next := counter + 1;
      next := BitAnd(next, mask);
      log := log + [Delay(delay)];
      if next == mask {
        BlinkAll(pins, delay, 3);
      }
    }

    /** The display loop of binary_counter: pin i is driven low exactly when `(counter & 2^i) == 2^i`. */
    method ShowPins(pins: seq<int>, counter: nat)
      modifies this`log
      ensures log == old(log) + ShowCounter(pins, counter)
    {
      var i := 0;
      while i < |pins|
        invariant 0 <= i <= |pins|
        invariant log == old(log) + ShowCounter(pins, counter)[..i]
      {
        var pow2 := Pow2(i);
        BitAndPow2(counter, i);
        if BitAnd(counter, pow2) == pow2 {
          log := log + [PinLow(pins[i])];
        } else {
          log := log + [PinHigh(pins[i])];
        }
        assert ShowCounter(pins, counter)[..i + 1] == ShowCounter(pins, counter)[..i] + [ShowCounter(pins, counter)[i]];
        i := i + 1;
      }
      assert ShowCounter(pins, counter)[..i] == ShowCounter(pins, counter);
    }

    /**
     * flowing_lights: an intro blink, then one lit LED per iteration, moving
     * by `direction` and bouncing at both ends.
     */
    method FlowingLights(pins: seq<int>, delay: int, signals: seq<bool>)
      requires |pins| >= 2
      requires running ==> true in signals
      modifies this
      ensures log == old(log) + BlinkTrace(pins, delay, BLINK_REPEAT) + FlowTrace(pins, delay, Iterations(old(running), signals))
      ensures !running && sigintInstalled == old(sigintInstalled)
    {
      var n := |pins|;
      var currentPin := 0;
      var direction := 1;
      var originalHandler := sigintInstalled;
      sigintInstalled := true;
      ghost var wasRunning := running;
      BlinkAll(pins, delay, BLINK_REPEAT);
      ghost var afterIntro := log;
      Arm(signals);
      var k := 0;
      while running
        invariant sigintInstalled
        invariant Gate(wasRunning, running, signals, k)
        invariant Sweep(currentPin, direction) == SweepAt(n, k)
        invariant log == afterIntro + FlowTrace(pins, delay, k)
        decreases |signals| - k
      {
        currentPin, direction := FlowTick(pins, delay, currentPin, direction, k, afterIntro);
        Poll(signals, k, wasRunning);
        k := k + 1;
      }
      GateExit(wasRunning, signals, k);
      sigintInstalled := originalHandler;
    }

    /** Iteration k of flowing_lights' loop takes the sweep to SweepAt(n, k + 1) and extends the trace. */
    method FlowTick(pins: seq<int>, delay: int, currentPin: int, direction: int, ghost k: nat, ghost base: seq<Event>)
      returns (pin': int, direction': int)
      requires |pins| >= 2 && Sweep(currentPin, direction) == SweepAt(|pins|, k)
      requires log == base + FlowTrace(pins, delay, k)
      modifies this`log
      ensures Sweep(pin', direction') == SweepAt(|pins|, k + 1)
      ensures log == base + FlowTrace(pins, delay, k + 1)
    {
      pin', direction' := FlowStep(pins, delay, currentPin, direction);
    }

    /** One iteration of flowing_lights' loop: light, wait, switch off, then move and bounce. */
    method FlowStep(pins: seq<int>, delay: int, currentPin: int, direction: int) returns (pin': int, direction': int)
      requires 0 <= currentPin < |pins|
      modifies this`log
      ensures Sweep(pin', direction') == NextSweep(|pins|, Sweep(currentPin, direction))
      ensures log == old(log) + FlowIteration(pins, delay, currentPin)
    {
      var n := |pins|;
      log := log + [PinLow(pins[currentPin])];
      log := log + [Delay(delay)];
      log := log + [PinHigh(pins[currentPin])];
      pin', direction' := currentPin + direction, direction;
      if pin' == n {
        pin' := n - 2;
        direction' := -1;
      }
      if pin' < 0 {
        pin' := 1;
        direction' := 1;
      }
    }

    /**
     * breathing_led: switches the PWM pin to PWM mode, writes one level and
     * waits 5 ms per iteration, reflecting at both ends, and switches the pin
     * back to plain output after the loop.
     */
    method BreathingLed(signals: seq<bool>)
      requires running ==> true in signals
      modifies this
      ensures log == old(log) + [PwmOutputMode(PWM_PIN)] + FadeTrace(Iterations(old(running), signals)) + [OutputMode(PWM_PIN)]
      ensures !running && sigintInstalled == old(sigintInstalled)
    {
      var i := 0;
      var direction := 1;
      var originalHandler := sigintInstalled;
      sigintInstalled := true;
      ghost var wasRunning := running;
      log := log + [PwmOutputMode(PWM_PIN)];
      ghost var afterMode := log;
      Arm(signals);
      var k := 0;
      while running
        invariant sigintInstalled
        invariant Gate(wasRunning, running, signals, k)
        invariant Fade(i, direction) == FadeAt(k)
        invariant log == afterMode + FadeTrace(k)
        decreases |signals| - k
      {
        i, direction := FadeTick(i, direction, k, afterMode);
        Poll(signals, k, wasRunning);
        k := k + 1;
      }
      GateExit(wasRunning, signals, k);
      log := log + [OutputMode(PWM_PIN)];
      sigintInstalled := originalHandler;
    }

    /** Iteration k of breathing_led's loop takes the level to FadeAt(k + 1) and extends the trace. */
    method FadeTick(level: int, direction: int, ghost k: nat, ghost base: seq<Event>) returns (level': int, direction': int)
      requires Fade(level, direction) == FadeAt(k) && log == base + FadeTrace(k)
      modifies this`log
      ensures Fade(level', direction') == FadeAt(k + 1)
      ensures log == base + FadeTrace(k + 1)
    {
      level', direction' := FadeStep(level, direction);
    }

    /** One iteration of breathing_led's loop: write the level, wait 5 ms, then move and reflect. */
    method FadeStep(level: int, direction: int) returns (level': int, direction': int)
      modifies this`log
      ensures Fade(level', direction') == NextFade(Fade(level, direction))
      ensures log == old(log) + [PwmValue(PWM_PIN, level), Delay(FADE_DELAY)]
    {
      log := log + [PwmValue(PWM_PIN, level)];
      log := log + [Delay(FADE_DELAY)];
      level', direction' := level + direction, direction;
      if level' > 1024 {
        direction' := -1;
        level' := 1024 - direction';
      }
      if level' < 0 {
        direction' := 1;
        level' := 0 + direction';
      }
    }

    /**
     * Nothing sets `running` again: once one pattern has been cancelled, a
     * second pattern started on the same process completes no iteration.
     */
    method PatternAfterCancel(pins: seq<int>, delay: int, first: seq<bool>, second: seq<bool>)
      requires running && true in first && 2 <= |pins| <= 30
      modifies this
      ensures log == old(log) + CounterTrace(pins, delay, FirstSignal(first)) + BlinkTrace(pins, delay, BLINK_REPEAT)
      ensures !running
    {
      BinaryCounter(pins, delay, first);
      FlowingLights(pins, delay, second);
    }
  }
}
