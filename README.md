# 8led — a verified model of the LED pattern engine

8led drives a row of LEDs on a Raspberry Pi. The pattern engine in
`modes.c` has four animations:
- a binary counter across the pins;
- a flowing light that bounces between the ends;
- a PWM "breathing" LED;
- a blink of all pins.

Each animation loop runs while a process-wide `running` flag is set, and a
SIGINT handler clears that flag. `8led.c` asks for a mode and a delay,
validates the delay and dispatches to the counter or the flowing light.

The model is written in Dafny:

- `gpio.dfy` (module `Gpio`): the GPIO calls as `Event`s appended to a
  trace (`PinLow`, `PinHigh`, `Delay`, `PwmValue`, `PwmOutputMode`,
  `OutputMode`, `SetupGpio`, `CleanupGpio`), plus helpers that read a trace:
  the last level written to a pin and the number of delays.
- `bits.dfy` (module `Bits`): exact powers of two, bitwise AND on natural
  numbers, bit tests and residue facts.
- `blink.dfy`, `counter.dfy`, `flow.dfy`, `breathing.dfy`: each animation
  as pure functions. There is a step function (`NextCounter`, `NextSweep`,
  `NextFade`), the state after k iterations (`CounterAt`, `SweepAt`,
  `FadeAt`), and the trace of k iterations. The lemmas prove closed forms,
  bounds, periods and the position of the rollover blink.
- `modes.dfy` (module `Modes`): class `Engine` holds `running`, the event
  `log` and whether `sigint_handler` is installed. The four routines are
  methods with the source's loops. Each method is proved against the trace
  functions: its final log is the old log plus the trace of exactly as
  many iterations as the signals allow.
- `selector.dfy` (module `Selector`): `get_delay`, `select_mode` and
  `main` from `8led.c`.

Signals are given as an oracle `signals: seq<bool>`. Entry k is true when a
SIGINT arrives before the k-th test of `running`. Entry 0 is before the first
test; entry k > 0 is during iteration k - 1. The handler only clears the
flag, and each loop tests the flag only at the top. So an iteration that has
started always completes, and a loop entered with `running` set makes
`FirstSignal(signals)` iterations.

In four places a reader might expect other behaviour; the model follows
the code as written:
- Nothing sets `running` back to 1. Once one pattern is cancelled, a later
  pattern in the same process makes no iteration (`PatternAfterCancel`).
- In `breathing_led`, the top reflection at modes.c:117-120 sets
  `direction` to -1 before computing `1024 - direction`. The level
  therefore reaches 1025, and that value is written. The levels range over
  [0, 1025], and one full cycle is 2050 iterations (`FadeTurns`,
  `FadeZeroes`).
- `binary_counter` leaves the pins as the last iteration drove them. It
  does not switch the LEDs off on exit.
- `flowing_lights` blinks all LEDs before its loop and not after it.

## Model

| member | source | states |
|---|---|---|
| Bits.Pow2 | modes.c:28 | the exact integer 2^n, at least 1, standing in for `(int) pow(2, n)` at modes.c:28 and 42 |
| Bits.BitAnd | modes.c:43 | the C `&` on non-negative numbers; the result is at most either operand, and BitAndPow2 and BitAndLowMask state what it keeps |
| Bits.BitAndPow2 | modes.c:42-43 | `(x & 2^i) == 2^i` holds exactly when bit i of x is set: the AND is 2^i then and 0 otherwise |
| Bits.BitAndLowMask | modes.c:51 | masking with 2^n - 1 leaves x mod 2^n |
| Bits.FromBitsOf | modes.c:40-49 | for x below 2^n, reading the n low bits of x back as a binary number gives x |
| Gpio.AllLow | modes.c:143-145 | a low-write of every pin, in pin order; PinsLow is proved to log exactly this |
| Gpio.AllHigh | modes.c:149-151 | a high-write of every pin, in pin order; PinsHigh logs exactly this, and LastLevelAllHigh says every pin ends high |
| Gpio.LastLevelAllHigh | modes.c:149-151 | after the high-writes of every pin, each listed pin's last written level is high |
| Blink.BlinkRound | modes.c:143-153 | one round: the low-writes, a delay, the high-writes and a delay; BlinkTraceRound places it in the trace |
| Blink.BlinkTrace | modes.c:142-154 | the events of `repeat` rounds, none for repeat <= 0; BlinkTraceSize, BlinkTraceRound and BlinkLeavesAllOff state its shape and effect |
| Blink.BlinkTraceSize | modes.c:142-154 | r rounds over n pins make r*(2n+2) events, 2r of which are delays |
| Blink.BlinkTraceSplit | modes.c:142-154 | a + b rounds are the a rounds followed by the b rounds |
| Blink.BlinkTraceRound | modes.c:142-154 | round j of r is n low-writes in pin order, a delay, n high-writes and a delay, between rounds 0..j-1 and the remaining rounds |
| Blink.BlinkLeavesAllOff | modes.c:142-154 | after at least one round every pin has been left high (LED off) |
| Counter.Mask | modes.c:28 | `mask`, the largest value n LEDs show: 2^n - 1; CounterClosedForm keeps the counter at or below it |
| Counter.NextCounter | modes.c:50-51 | the counter step (c + 1) mod 2^n, never above mask; MaskedIncrement proves it is what `counter++; counter &= mask` computes |
| Counter.ShowCounter | modes.c:40-49 | the display writes of counter c, one per pin; ShowCounterDisplays states which pins are lit |
| Counter.CounterIteration | modes.c:40-56 | one loop iteration: the display, the delay, and the three-round blink when Rolls holds (RollsWhen, RollsAt say when) |
| Counter.CounterAt | modes.c:24-51 | the counter after k iterations from 0; CounterClosedForm proves it is k mod 2^n |
| Counter.Rolls | modes.c:54 | the test `counter == mask` on the incremented counter; RollsWhen, RollsAt and RollsOncePerWrap say when it holds |
| Counter.CounterTrace | modes.c:37-57 | the events of the first k iterations; BinaryCounter's ensures, RollsAt and ShowCounterDisplays say what they contain |
| Counter.MaskedIncrement | modes.c:50-51 | `counter++; counter &= mask` is the step (counter + 1) mod 2^n |
| Counter.CounterClosedForm | modes.c:50-51 | after k iterations the counter is k mod 2^n, so it never exceeds mask |
| Counter.CounterCycle | modes.c:19-21 | the counter counts 0, 1, ..., 2^n - 1 and then repeats with period 2^n |
| Counter.RollsWhen | modes.c:50-56 | the rollover blink runs in an iteration exactly when the new counter equals mask, which (for n >= 1) is when the iteration showed mask - 1 |
| Counter.RollsAt | modes.c:50-56 | iteration j blinks exactly when (j + 1) mod 2^n equals mask |
| Counter.RollsOncePerWrap | modes.c:50-56 | every window of 2^n consecutive iterations has exactly one rollover blink |
| Counter.RollsUnique | modes.c:54-56 | two blinking iterations less than 2^n apart are the same iteration |
| Counter.ShowCounterDisplays | modes.c:40-49 | the display writes each pin once in order; pins[i] is driven low (lit) exactly when bit i of the counter is set; the lit pattern read as binary is the counter |
| Flow.NextSweep | modes.c:82-90 | the move by `direction` followed by the two bounce tests in source order; PingPongStep and SweepClosedForm state where it leads |
| Flow.SweepAt | modes.c:82-90 | after any number of iterations the current pin lies in [0, n-1] and the direction is 1 or -1 |
| Flow.PingPongStep | modes.c:82-90 | one move-and-bounce step carries the ping-pong position and direction at time k to those at time k + 1 |
| Flow.FoldStep | modes.c:82-90 | within one sweep period, a move-and-bounce step goes from offset r to offset r + 1, and from the last offset back to 0 |
| Flow.SweepClosedForm | modes.c:65-90 | starting from (0, +1), the pin at time k is 0, 1, ..., n-1, n-2, ..., 1 repeated, with the matching direction |
| Flow.SweepPeriodic | modes.c:82-90 | the lit position repeats with period 2(n - 1) |
| Flow.SweepFirstFourteen | modes.c:82-90 | with eight pins the first fourteen positions are 0..7 and then 6..1 |
| Flow.FlowIteration | modes.c:78-80 | one iteration's events: low, delay, high on one pin |
| Flow.FlowTrace | modes.c:77-91 | the events of the first k iterations; FlowTraceAt and FlowTraceSize state their contents and length |
| Flow.FlowTraceAt | modes.c:78-80 | iteration j logs exactly low(pin), delay, high(pin) for the pin at time j, and k iterations log 3k events |
| Flow.FlowTraceSize | modes.c:78-80 | k iterations make 3k events |
| Breathing.NextFade | modes.c:116-125 | the move by `direction` followed by the two reflection tests in source order, including the 1025 overshoot; TriangleStep and FadeClosedForm state where it leads |
| Breathing.FadeAt | modes.c:113-125 | the level always lies in [0, 1025] and the direction is 1 or -1 |
| Breathing.TriangleStep | modes.c:116-125 | one step with both reflections carries the triangle wave at time k to time k + 1 |
| Breathing.FadeClosedForm | modes.c:99-125 | the level at time k is the triangle wave 0..1025..1 of period 2050 |
| Breathing.FadePeriodic | modes.c:113-125 | the level repeats with period 2050 |
| Breathing.FadeZeroes | modes.c:113-125 | the level is 0 exactly at multiples of 2050 |
| Breathing.FadeTurns | modes.c:117-125 | in every cycle the levels at the top run 1023, 1024, 1025, 1024 and at the bottom 1, 0, 1, 2 |
| Breathing.FadeInCycle | modes.c:113-125 | at offset r of any cycle the level is the triangle value of r |
| Breathing.FadeTrace | modes.c:113-126 | the events of the first k iterations, one level write and a 5 ms delay each; FadeTraceAt and FadeTraceSize state their contents and length |
| Breathing.FadeTraceAt | modes.c:114-115 | iteration j writes the level of time j to pin 1 and then waits 5 ms; k iterations make 2k events |
| Breathing.FadeTraceSize | modes.c:114-115 | k iterations make 2k events |
| Modes.FirstSignal | modes.c:37 | the first loop test preceded by a signal: that entry is set and none before it is |
| Modes.Iterations | modes.c:37 | the iterations a `while (running)` loop makes: none when the flag is clear at entry, else FirstSignal; GateExit and the loop methods' ensures use it |
| Modes.SignalStep | modes.c:37 | while no signal has arrived, the next loop test exists and stops the loop exactly when it is the first signalled one |
| Modes.GateExit | modes.c:37 | a stopped loop has completed exactly `Iterations` iterations |
| Modes.Engine.constructor | modes.c:11 | at start `running` is set, nothing has been logged and the default handler is installed |
| Modes.Engine.SigintHandler | modes.c:14-17 | the handler clears `running` and changes nothing else, so a second call has no further effect |
| Modes.Engine.Arm | modes.c:37 | a signal before the first test stops the loop before it starts |
| Modes.Engine.Poll | modes.c:37 | a signal during iteration k stops the loop at the next test |
| Modes.Engine.BlinkAll | modes.c:136-155 | the log grows by exactly the blink trace of `repeat` rounds (none for repeat <= 0) |
| Modes.Engine.PinsLow | modes.c:143-145 | the log grows by a low-write of every pin in order |
| Modes.Engine.PinsHigh | modes.c:149-151 | the log grows by a high-write of every pin in order |
| Modes.Engine.BinaryCounter | modes.c:23-61 | the log grows by the counter trace of exactly as many iterations as the signals allow; `running` ends cleared and the original handler is restored |
| Modes.Engine.CounterTick | modes.c:37-57 | iteration k takes the counter from CounterAt(n, k) to CounterAt(n, k + 1) and extends the trace by that iteration |
| Modes.Engine.CounterStep | modes.c:40-56 | one iteration: display, the masked increment, the delay and the blink when the new counter equals mask |
| Modes.Engine.ShowPins | modes.c:40-49 | the display loop logs the counter's display writes |
| Modes.Engine.FlowingLights | modes.c:64-95 | the log grows by the intro blink of three rounds and then the flow trace of the allowed iterations; `running` ends cleared and the handler is restored |
| Modes.Engine.FlowTick | modes.c:77-91 | iteration k takes the state from SweepAt(n, k) to SweepAt(n, k + 1) and extends the trace |
| Modes.Engine.FlowStep | modes.c:78-90 | one iteration logs low, delay and high for the current pin, then makes the move with the two bounce tests |
| Modes.Engine.BreathingLed | modes.c:98-133 | the log grows by the PWM-mode switch, the fade trace of the allowed iterations, and the switch back to output mode; the handler is restored |
| Modes.Engine.FadeTick | modes.c:113-126 | iteration k takes the state from FadeAt(k) to FadeAt(k + 1) and extends the trace |
| Modes.Engine.FadeStep | modes.c:114-125 | one iteration writes the level and waits 5 ms, then makes the move with the two reflection tests |
| Modes.Engine.PatternAfterCancel | modes.c:11-17 | after a cancelled counter, a flowing light in the same process only blinks its intro and makes no iteration |
| Selector.GetDelay | 8led.c:60-81 | the delay always lies in [10, 2000]: an in-range value is returned unchanged, and a parse failure or an out-of-range value gives 100 |
| Selector.ScanModeDigits | 8led.c:52 | the scan stores the longest prefix of the input made of '1' and '2' |
| Selector.DecimalValue | 8led.c:56 | atoi on a digit string; its last digit is the value mod 10 |
| Selector.SelectMode | 8led.c:52-57 | -1 when the scan matches nothing, otherwise the decimal value of the matched digits, which is at least 1 (SelectModeResult states when each mode comes out) |
| Selector.DecimalValueOfModeDigits | 8led.c:56 | one scanned digit reads as its value, and two or more read as at least 11 |
| Selector.SelectModeResult | 8led.c:52-57 | the mode is -1 exactly when the input does not start with '1' or '2'; it is 1 (or 2) exactly when that digit stands alone; a longer run reads as at least 11 |
| Selector.SelectTwelve | 8led.c:52-57 | the input "12" selects mode 12 |
| Selector.RunProgram | 8led.c:14-40 | mode 1 gives setup, the counter trace on pins 7..0 with the validated delay, cleanup and EXIT_SUCCESS; mode 2 gives the same with the flowing light; any other mode gives setup only and EXIT_FAILURE |
| Selector.CounterProgram | 8led.c:20-37 | setup, the binary counter on the eight pins until the first signal, then cleanup |
| Selector.FlowProgram | 8led.c:20-37 | setup, the flowing light on the eight pins until the first signal, then cleanup |

## Left out

- Console I/O: `printf` is not modelled. The two `scanf` calls are parameters: the characters typed at the mode prompt, and the integer the delay prompt stores (`None` when the read fails). How the two reads share one input stream is not modelled.
- Signal delivery: `signal()` is modelled only as whether `sigint_handler` is installed. The asynchronous arrival of SIGINT is the `signals` oracle, read at each test of `running`. While `sigint_handler` is installed this is equivalent, because the handler only clears the flag. A SIGINT outside the loops (at the menu prompts, or after a routine has restored the original handler) ends the process under the default disposition; that case is not modelled.
- Runs that are never interrupted: the loop methods and RunProgram require a signal to arrive eventually, so the source's endless run with no SIGINT is outside their contracts; only its finite prefixes are covered, by CounterAt, SweepAt, FadeAt and the trace functions.
- Floating-point `pow` (modes.c:28, 42) is replaced by exact integer powers of two; float rounding is not modelled.
- gpio.c: the wiringPi calls are trace events. `setup_gpio` and `cleanup_gpio` are single events, not expanded into their per-pin `pinMode` and `digitalWrite` calls. gpio.h declares `setup_gpio` with a signature that does not match gpio.c; neither signature is modelled.
- Real time: delays are events carrying their length in milliseconds; no time passes.
- `breathing_led` is modelled on its own; `main` never calls it.
- The pin count is `|pins|`, not a separate `pin_number` argument, so a count larger than the array is not modelled.
- Modes.Engine.BinaryCounter: requires at most 30 pins, because modes.c:28 converts `pow(2, n)` to `int` before subtracting 1, and 2^31 does not fit (the conversion is undefined). Within that bound the `unsigned int` counter never wraps around, so no 32-bit arithmetic is modelled. Modes.Engine.PatternAfterCancel has the same bound.
- Modes.Engine.FlowingLights: requires at least two pins. With one pin the bounce leads to `pins[1]`, an out-of-bounds read.
- Selector.SelectMode: the 80-byte buffer of `select_mode` is not modelled (a long run of digits would overflow it), and neither is `atoi` overflow; the result is an unbounded integer.
- Selector.GetDelay: a number too large for `int` at the delay prompt is outside the model; the parameter is the value `scanf` stored.
