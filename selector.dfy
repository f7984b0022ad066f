/**
 * The menu program of 8led.c: mode selection, delay validation with a
 * default, and the dispatch in `main`. Console input is given as values:
 * the characters typed at the mode prompt, and the outcome of the
 * `scanf("%d")` at the delay prompt (None when it does not read a number).
 */
module Selector {
  import opened Wrappers
  import opened Gpio
  import opened Blink
  import opened Counter
  import opened Flow
  import opened Modes

  /** The pin set `main` drives, in bit order. */
  const PINS: seq<int> := [7, 6, 5, 4, 3, 2, 1, 0]
  const DELAY_DEFAULT: int := 100
  const DELAY_MAX: int := 2000
  const DELAY_MIN: int := 10
  const EXIT_SUCCESS: int := 0
  const EXIT_FAILURE: int := 1

  /**
   * get_delay: a parse failure and a value outside [10, 2000] both give the
   * default 100; a value inside the range is kept.
   */
  function GetDelay(input: Option<int>): (d: int)
    ensures DELAY_MIN <= d <= DELAY_MAX
    ensures input.Some? && DELAY_MIN <= input.value <= DELAY_MAX ==> d == input.value
    ensures input.None? || input.value < DELAY_MIN || input.value > DELAY_MAX ==> d == DELAY_DEFAULT
  {
    match input
    case None => DELAY_DEFAULT
    case Some(v) => if v > DELAY_MAX || v < DELAY_MIN then DELAY_DEFAULT else v
  }

  /** A character that the scan set `%[12]` accepts. */
  predicate IsModeChar(c: char) {
    c == '1' || c == '2'
  }

  /** What `scanf("%[12]")` stores: the longest prefix of the input made of '1' and '2'. */
  function ScanModeDigits(input: string): (m: string)
    ensures m <= input
    ensures forall i :: 0 <= i < |m| ==> IsModeChar(m[i])
    ensures |m| < |input| ==> !IsModeChar(input[|m|])
  {
    if input != [] && IsModeChar(input[0]) then [input[0]] + ScanModeDigits(input[1..]) else []
  }

  /** atoi on a string of decimal digits. */
  function DecimalValue(s: string): (v: nat)
    requires forall i :: 0 <= i < |s| ==> '0' <= s[i] <= '9'
    ensures |s| >= 1 ==> v % 10 == s[|s| - 1] as int - '0' as int
  {
    if s == [] then 0 else 10 * DecimalValue(s[..|s| - 1]) + (s[|s| - 1] as int - '0' as int)
  }

  /**
   * select_mode: -1 when `scanf` matches nothing, otherwise atoi of the
   * matched digits.
   */
  function SelectMode(input: string): (mode: int)
    ensures mode == -1 || mode >= 1
  {
    var digits := ScanModeDigits(input);
    if |digits| == 0 then -1 else DecimalValue(digits)
  }

  /** A string of '1's and '2's of length two or more reads as a number of at least 11. */
  lemma {:induction false} DecimalValueOfModeDigits(s: string)
    requires forall i :: 0 <= i < |s| ==> s[i] == '1' || s[i] == '2'
    ensures |s| == 1 ==> DecimalValue(s) == s[0] as int - '0' as int
    ensures |s| >= 1 ==> DecimalValue(s) >= 1
    ensures |s| >= 2 ==> DecimalValue(s) >= 11
  {
    if |s| >= 2 {
      DecimalValueOfModeDigits(s[..|s| - 1]);
    } else if |s| == 1 {
      assert s[..0] == [];
    }
  }

  /**
   * The mode select_mode reports: -1 exactly when the input does not start
   * with '1' or '2'; 1 or 2 exactly when that digit is followed by neither
   * '1' nor '2'; any longer run of such digits reads as a number of at
   * least 11.
   */
  lemma SelectModeResult(input: string)
    ensures SelectMode(input) == -1 <==> input == [] || !IsModeChar(input[0])
    ensures SelectMode(input) == 1 <==> |input| >= 1 && input[0] == '1' && (|input| == 1 || !IsModeChar(input[1]))
    ensures SelectMode(input) == 2 <==> |input| >= 1 && input[0] == '2' && (|input| == 1 || !IsModeChar(input[1]))
    ensures |input| >= 2 && IsModeChar(input[0]) && IsModeChar(input[1]) ==> SelectMode(input) >= 11
  {
    var digits := ScanModeDigits(input);
    DecimalValueOfModeDigits(digits);
    if |digits| >= 1 {
      assert digits[0] == input[0];
    }
    if |digits| >= 2 {
      assert digits[1] == input[1];
    }
    if |input| >= 2 && IsModeChar(input[0]) && IsModeChar(input[1]) {
      assert [input[0]] + ScanModeDigits(input[1..]) == digits;
      assert |ScanModeDigits(input[1..])| >= 1;
    }
  }

  /** For instance, "12" selects mode 12, which `main` rejects. */
  lemma SelectTwelve()
    ensures SelectMode("12\n") == 12
  {
    var input := "12\n";
    assert ScanModeDigits(input[2..]) == [];
    assert ScanModeDigits(input[1..]) == "2";
    assert ScanModeDigits(input) == "12";
    assert "12"[..1] == "1" && "1"[..0] == [];
    assert DecimalValue("1") == 1;
  }

  /**
   * main: sets up the GPIO, reads the mode; mode 1 runs the binary counter and
   * mode 2 the flowing light, each with the validated delay, and then the pins
   * are cleaned up and the program succeeds; any other mode fails at once,
   * without reading a delay and without cleanup.
   */
  method RunProgram(modeInput: string, delayInput: Option<int>, signals: seq<bool>) returns (status: int, trace: seq<Event>)
    requires SelectMode(modeInput) == 1 || SelectMode(modeInput) == 2 ==> true in signals
    ensures SelectMode(modeInput) == 1 ==>
      status == EXIT_SUCCESS &&
      trace == [SetupGpio] + CounterTrace(PINS, GetDelay(delayInput), FirstSignal(signals)) + [CleanupGpio]
    ensures SelectMode(modeInput) == 2 ==>
      status == EXIT_SUCCESS &&
      trace == [SetupGpio] + BlinkTrace(PINS, GetDelay(delayInput), BLINK_REPEAT) + FlowTrace(PINS, GetDelay(delayInput), FirstSignal(signals)) + [CleanupGpio]
    ensures SelectMode(modeInput) != 1 && SelectMode(modeInput) != 2 ==>
      status == EXIT_FAILURE && trace == [SetupGpio]
  {
    var mode := SelectMode(modeInput);
    if mode == 1 {
      var delay := GetDelay(delayInput);
      trace := CounterProgram(delay, signals);
      status := EXIT_SUCCESS;
    } else if mode == 2 {
      var delay := GetDelay(delayInput);
      trace := FlowProgram(delay, signals);
      status := EXIT_SUCCESS;
    } else {
      status, trace := EXIT_FAILURE, [SetupGpio];
    }
  }

  /** main with mode 1: setup, the binary counter on the eight pins until a signal, cleanup. */
  method CounterProgram(delay: int, signals: seq<bool>) returns (trace: seq<Event>)
    requires true in signals
    ensures trace == [SetupGpio] + CounterTrace(PINS, delay, FirstSignal(signals)) + [CleanupGpio]
  {
    var engine := new Engine();
    engine.log := engine.log + [SetupGpio];
    assert engine.log == [SetupGpio];
    engine.BinaryCounter(PINS, delay, signals);
    engine.log := engine.log + [CleanupGpio];
    trace := engine.log;
  }

  /** main with mode 2: setup, the flowing light on the eight pins until a signal, cleanup. */
  method FlowProgram(delay: int, signals: seq<bool>) returns (trace: seq<Event>)
    requires true in signals
    ensures trace == [SetupGpio] + BlinkTrace(PINS, delay, BLINK_REPEAT) + FlowTrace(PINS, delay, FirstSignal(signals)) + [CleanupGpio]
  {
    var engine := new Engine();
    engine.log := engine.log + [SetupGpio];
    assert engine.log == [SetupGpio];
    engine.FlowingLights(PINS, delay, signals);
    engine.log := engine.log + [CleanupGpio];
    trace := engine.log;
  }
}
