/**
 * The breathing LED (breathing_led in modes.c): a PWM level that climbs,
 * reflects at the top, falls, and reflects at the bottom.
 *
 * At the top the code sets `direction = -1` before `i = 1024 - direction`,
 * so the level written after 1024 is 1025, not 1023: the level ranges over
 * [0, 1025] and one full cycle takes 2050 iterations.
 */
module Breathing {
  import opened Gpio
  import opened Bits

  /** The only pin with hardware PWM. */
  const PWM_PIN: int := 1
  /** The fixed wait of each iteration, in milliseconds. */
  const FADE_DELAY: int := 5
  /** The level the reflection tests compare against. */
  const TOP: int := 1024
  /** The number of iterations after which the written levels repeat. */
  const PERIOD: nat := 2050

  /** The loop's state: the level `i` and `direction`. */
  datatype Fade = Fade(level: int, direction: int)

  const START: Fade := Fade(0, 1)

  /** One step: move, then the two reflection tests of the source in their order. */
  function NextFade(s: Fade): Fade {
    var i := s.level + s.direction;
    var top := if i > TOP then (var d := -1; Fade(TOP - d, d)) else Fade(i, s.direction);
    if top.level < 0 then (var d := 1; Fade(0 + d, d)) else top
  }

  /** The state after k iterations; the level stays within [0, 1025]. */
  function FadeAt(k: nat): (s: Fade)
    ensures 0 <= s.level <= TOP + 1
    ensures s.direction == 1 || s.direction == -1
  {
    if k == 0 then START else NextFade(FadeAt(k - 1))
  }

  /** The level at time k: up from 0 to 1025, then down to 1, and again. */
  function Triangle(k: nat): nat {
    var r := k % PERIOD;
    if r <= TOP + 1 then r else PERIOD - r
  }

  /** The direction after k iterations: up at the start and below the top, down otherwise. */
  function TriangleDirection(k: nat): int {
    var r := k % PERIOD;
    if k == 0 || 0 < r <= TOP then 1 else -1
  }

  /** The trace of the first k iterations: each writes the level and waits 5 ms. */
  function FadeTrace(k: nat): seq<Event> {
    if k == 0 then [] else FadeTrace(k - 1) + [PwmValue(PWM_PIN, FadeAt(k - 1).level), Delay(FADE_DELAY)]
  }

  /** One step of the closed form. */
  lemma TriangleStep(k: nat)
    ensures NextFade(Fade(Triangle(k), TriangleDirection(k))) == Fade(Triangle(k + 1), TriangleDirection(k + 1))
  {
    ModNext(k, PERIOD);
  }

  /** The state after k iterations, in closed form. */
  lemma {:induction false} FadeClosedForm(k: nat)
    ensures FadeAt(k) == Fade(Triangle(k), TriangleDirection(k))
  {
    if k > 0 {
      FadeClosedForm(k - 1);
      TriangleStep(k - 1);
    }
  }

  /** The written levels repeat every 2050 iterations. */
  lemma FadePeriodic(k: nat)
    ensures FadeAt(k + PERIOD).level == FadeAt(k).level
  {
    FadeClosedForm(k);
    FadeClosedForm(k + PERIOD);
    ModPeriod(k, PERIOD);
  }

  /** The level is 0 exactly at the start of each cycle. */
  lemma FadeZeroes(k: nat)
    ensures FadeAt(k).level == 0 <==> k % PERIOD == 0
  {
    FadeClosedForm(k);
  }

  /**
   * Around the top and the bottom of every cycle the levels run
   * 1023, 1024, 1025, 1024 and 1, 0, 1, 2; the top value 1025 lies above
   * the PWM range [0, 1024].
   */
  lemma FadeTurns(m: nat)
    ensures FadeAt(PERIOD * m + 1023).level == 1023
    ensures FadeAt(PERIOD * m + 1024).level == 1024
    ensures FadeAt(PERIOD * m + 1025).level == 1025 > TOP
    ensures FadeAt(PERIOD * m + 1026).level == 1024
    ensures FadeAt(PERIOD * m + 2049).level == 1
    ensures FadeAt(PERIOD * m + 2050).level == 0
    ensures FadeAt(PERIOD * m + 2051).level == 1
    ensures FadeAt(PERIOD * m + 2052).level == 2
  {
    FadeInCycle(m, 1023);
    FadeInCycle(m, 1024);
    FadeInCycle(m, 1025);
    FadeInCycle(m, 1026);
    FadeInCycle(m, 2049);
    FadeInCycle(m + 1, 0);
    FadeInCycle(m + 1, 1);
    FadeInCycle(m + 1, 2);
  }

  /** Time r of cycle m has the level Triangle(r). */
  lemma FadeInCycle(m: nat, r: nat)
    requires r < PERIOD
    ensures FadeAt(PERIOD * m + r).level == Triangle(r)
  {
    FadeClosedForm(PERIOD * m + r);
    DivModUnique(PERIOD * m + r, PERIOD, m, r);
    DivModUnique(r, PERIOD, 0, r);
  }

  /** Iteration j writes exactly the level Triangle(j) to the PWM pin and then waits 5 ms. */
  lemma {:induction false} FadeTraceAt(k: nat, j: nat)
    requires j < k
    ensures |FadeTrace(k)| == 2 * k
    ensures FadeTrace(k)[2 * j] == PwmValue(PWM_PIN, Triangle(j))
    ensures FadeTrace(k)[2 * j + 1] == Delay(FADE_DELAY)
  {
    FadeTraceSize(k);
    if j < k - 1 {
      FadeTraceAt(k - 1, j);
    } else {
      FadeClosedForm(j);
    }
  }

  /** Each iteration contributes two events. */
  lemma {:induction false} FadeTraceSize(k: nat)
    ensures |FadeTrace(k)| == 2 * k
  {
    if k > 0 {
      FadeTraceSize(k - 1);
    }
  }
}
