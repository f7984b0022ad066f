/**
 * The thin GPIO layer (gpio.c), seen only through the calls the pattern
 * engine makes on it: each call becomes one event of a trace.
 * The LEDs are wired active-low: a low pin is a lit LED.
 */
module Gpio {
  import opened Wrappers

  datatype Event =
    | PinLow(pin: int)                // pin_low: LED on
    | PinHigh(pin: int)               // pin_high: LED off
    | Delay(ms: int)                  // delay_ms
    | PwmValue(pin: int, value: int)  // set_pwm_value
    | PwmOutputMode(pin: int)         // set_pin_pwm_output
    | OutputMode(pin: int)            // set_pin_output
    | SetupGpio                       // setup_gpio
    | CleanupGpio                     // cleanup_gpio

  datatype Level = Low | High

  /** `pin_low` on every pin, in pin order. */
  function AllLow(pins: seq<int>): seq<Event> {
    seq(|pins|, j requires 0 <= j < |pins| => PinLow(pins[j]))
  }

  /** `pin_high` on every pin, in pin order. */
  function AllHigh(pins: seq<int>): seq<Event> {
    seq(|pins|, j requires 0 <= j < |pins| => PinHigh(pins[j]))
  }

  /** The level the last digital write in t left on pin p, if t writes p at all. */
  function LastLevel(t: seq<Event>, p: int): Option<Level> {
    if t == [] then None
    else match t[|t| - 1]
      case PinLow(q) => if q == p then Some(Low) else LastLevel(t[..|t| - 1], p)
      case PinHigh(q) => if q == p then Some(High) else LastLevel(t[..|t| - 1], p)
      case _ => LastLevel(t[..|t| - 1], p)
  }

  /** The number of delays in t. */
  function Delays(t: seq<Event>): nat {
    if t == [] then 0 else Delays(t[..|t| - 1]) + (if t[|t| - 1].Delay? then 1 else 0)
  }

  /** A later write to p hides every earlier one; without one, the earlier level stands. */
  lemma {:induction false} LastLevelAppend(a: seq<Event>, b: seq<Event>, p: int)
    ensures LastLevel(a + b, p) == if LastLevel(b, p).Some? then LastLevel(b, p) else LastLevel(a, p)
  {
    if b != [] {
      assert (a + b)[..|a + b| - 1] == a + b[..|b| - 1];
      LastLevelAppend(a, b[..|b| - 1], p);
    } else {
      assert a + b == a;
    }
  }

  /** Delays add up over concatenation. */
  lemma {:induction false} DelaysAppend(a: seq<Event>, b: seq<Event>)
    ensures Delays(a + b) == Delays(a) + Delays(b)
  {
    if b != [] {
      assert (a + b)[..|a + b| - 1] == a + b[..|b| - 1];
      DelaysAppend(a, b[..|b| - 1]);
    } else {
      assert a + b == a;
    }
  }

  /** After `pin_high` on every pin, each of those pins is high. */
  lemma {:induction false} LastLevelAllHigh(pins: seq<int>, p: int)
    requires p in pins
    ensures LastLevel(AllHigh(pins), p) == Some(High)
  {
    var n := |pins|;
    if pins[n - 1] != p {
      assert AllHigh(pins)[..n - 1] == AllHigh(pins[..n - 1]);
      assert p in pins[..n - 1] by {
        var j :| 0 <= j < n && pins[j] == p;
        assert pins[..n - 1][j] == p;
      }
      LastLevelAllHigh(pins[..n - 1], p);
    }
  }

  /** Writing every pin high or low involves no delay. */
  lemma {:induction false} DelaysAllPins(pins: seq<int>)
    ensures Delays(AllLow(pins)) == 0 && Delays(AllHigh(pins)) == 0
  {
    var n := |pins|;
    if n > 0 {
      assert AllLow(pins)[..n - 1] == AllLow(pins[..n - 1]);
      assert AllHigh(pins)[..n - 1] == AllHigh(pins[..n - 1]);
      DelaysAllPins(pins[..n - 1]);
    }
  }
}
