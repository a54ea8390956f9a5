/**
 * The guided breathing and grounding exercises (src/pages/Mindfulness.tsx): a
 * countdown that a one-second interval drives while it is active, the m:ss
 * display of the time left, and the step shown for the time already elapsed.
 * One call of `Tick` stands for one firing of the interval (or, at zero, for
 * the effect that marks the exercise complete).
 */
module Mindfulness {
  import opened Wrappers

  datatype Exercise = Exercise(
    id: string,
    title: string,
    description: string,
    durationSeconds: nat,
    steps: seq<string>)

  const Exercises: seq<Exercise> := [
    Exercise("box-breathing", "Box Breathing",
      "A simple technique to slow down your breathing and reduce stress. Inhale, hold, exhale, hold for 4 seconds each.",
      60, ["Inhale (4s)", "Hold (4s)", "Exhale (4s)", "Hold (4s)"]),
    Exercise("5-4-3-2-1", "5-4-3-2-1 Grounding",
      "Acknowledge 5 things you see, 4 you feel, 3 you hear, 2 you smell, and 1 you taste.",
      120, ["Look around (5)", "Touch things (4)", "Listen (3)", "Smell (2)", "Taste (1)"]),
    Exercise("body-scan", "Quick Body Scan",
      "Focus attention on different parts of your body, from toes to head, releasing tension.",
      180, ["Focus on toes", "Legs & Knees", "Hips & Stomach", "Chest & Arms", "Neck & Head"])
  ]

  /** An exercise with a positive duration and at least one step. */
  predicate WellFormed(ex: Exercise) {
    ex.durationSeconds > 0 && |ex.steps| > 0
  }

  lemma ShippedExercisesWellFormed()
    ensures forall ex :: ex in Exercises ==> WellFormed(ex)
  {
  }

  // ---------------------------------------------------------------------------
  // `formatTime`
  // ---------------------------------------------------------------------------

  predicate IsDigits(s: string) {
    forall i :: 0 <= i < |s| ==> '0' <= s[i] <= '9'
  }

  /** The number a string of decimal digits denotes. */
  function DigitsValue(s: string): nat
    requires IsDigits(s)
  {
    if s == [] then 0 else DigitsValue(s[..|s| - 1]) * 10 + (s[|s| - 1] as int - '0' as int)
  }

  function DigitChar(d: nat): char
    requires d < 10
  {
    ('0' as int + d) as char
  }

  /** `${n}` for a non-negative integer: its decimal digits without leading zeros. */
  function NatToString(n: nat): (s: string)
    ensures 1 <= |s| && IsDigits(s)
    ensures DigitsValue(s) == n
    ensures |s| == 1 || s[0] != '0'
    ensures n < 10 <==> |s| == 1
  {
    if n < 10 then [DigitChar(n)]
    else
      var s := NatToString(n / 10) + [DigitChar(n % 10)];
      assert s[..|s| - 1] == NatToString(n / 10);
      s
  }

  /** `String(n).padStart(2, '0')` for a number below 100: exactly two digits. */
  function PadTwo(n: nat): (p: string)
    requires n < 100
    ensures |p| == 2 && IsDigits(p) && DigitsValue(p) == n
  {
    var digits := NatToString(n);
    if n < 10 then
      var p := "0" + digits;
      assert p[..1] == "0";
      p
    else digits
  }

  /** `t` is a clock face `m:ss` that reads as `seconds`. */
  predicate ReadsAs(t: string, seconds: nat) {
    && |t| >= 4 && t[|t| - 3] == ':'
    && IsDigits(t[..|t| - 3]) && IsDigits(t[|t| - 2..])
    && DigitsValue(t[|t| - 2..]) < 60 && (|t| == 4 || t[0] != '0')
    && DigitsValue(t[..|t| - 3]) * 60 + DigitsValue(t[|t| - 2..]) == seconds
  }

  /**
   * `formatTime`: minutes, a colon and the seconds as exactly two digits; the
   * two parts read back give the minutes and the seconds of `seconds`.
   */
  function FormatTime(seconds: nat): (t: string)
    ensures |t| >= 4 && t[|t| - 3] == ':'
    ensures IsDigits(t[..|t| - 3]) && IsDigits(t[|t| - 2..])
    ensures |t| == 4 || t[0] != '0'
    ensures DigitsValue(t[..|t| - 3]) == seconds / 60
    ensures DigitsValue(t[|t| - 2..]) < 60
    ensures ReadsAs(t, seconds)
  {
    var m, r := seconds / 60, seconds % 60;
    assert m * 60 + r == seconds;
    var minutes := NatToString(m);
    var secs := PadTwo(r);
    var t := minutes + ":" + secs;
    assert |t| == |minutes| + 3;
    assert t[..|minutes|] == minutes;
    assert t[|minutes| + 1..] == secs;
    t
  }

  // ---------------------------------------------------------------------------
  // `getCurrentStep`
  // ---------------------------------------------------------------------------

  /**
   * The index of the step shown when `timeLeft` seconds remain:
   * `min(floor(elapsed / (total / steps)), steps - 1)`. Step `k` owns the
   * elapsed times from `k * total / steps` up to `(k + 1) * total / steps`,
   * and the last step also owns the end of the exercise.
   */
  function StepIndex(ex: Exercise, timeLeft: int): (k: nat)
    requires WellFormed(ex) && 0 <= timeLeft <= ex.durationSeconds
    ensures k < |ex.steps|
    ensures k * ex.durationSeconds <= (ex.durationSeconds - timeLeft) * |ex.steps|
    ensures k == |ex.steps| - 1
            || (ex.durationSeconds - timeLeft) * |ex.steps| < (k + 1) * ex.durationSeconds
  {
    var total := ex.durationSeconds;
    var elapsed := total - timeLeft;
    var stepDuration := total as real / |ex.steps| as real;
    var index := (elapsed as real / stepDuration).Floor;
    FloorOfQuotient(elapsed, total, |ex.steps|);
    var n := |ex.steps|;
    assert index * total <= elapsed * n < (index + 1) * total by {
      assert elapsed * n == index * total + elapsed * n % total;
    }
    if index < n - 1 then index
    else
      MulMonotone(n - 1, index, total);
      n - 1
  }

  /** With exact division, `floor(e / (t / n))` is the integer quotient `e * n / t`. */
  lemma FloorOfQuotient(e: nat, t: nat, n: nat)
    requires t > 0 && n > 0
    ensures ((e as real) / ((t as real) / (n as real))).Floor == e * n / t
  {
    var x := (e as real) / ((t as real) / (n as real));
    assert x == ((e * n) as real) / (t as real);
    var q, r := e * n / t, e * n % t;
    assert e * n == q * t + r;
    assert x == (q as real) + (r as real) / (t as real);
  }

  /** The first step is shown at the start and the last one when the time is up. */
  lemma StepIndexEnds(ex: Exercise)
    requires WellFormed(ex)
    ensures StepIndex(ex, ex.durationSeconds) == 0
    ensures StepIndex(ex, 0) == |ex.steps| - 1
  {
    var t, n := ex.durationSeconds, |ex.steps|;
    assert (n + 1) * t == n * t + t;
    DivisionFromBounds(t * n, t, n);
    FloorOfQuotient(t, t, n);
  }

  /** As the time left goes down, the step shown never goes back. */
  lemma StepIndexMonotone(ex: Exercise, earlier: int, later: int)
    requires WellFormed(ex) && 0 <= later <= earlier <= ex.durationSeconds
    ensures StepIndex(ex, earlier) <= StepIndex(ex, later)
  {
    var t, n := ex.durationSeconds, |ex.steps|;
    var k1, k2 := StepIndex(ex, earlier), StepIndex(ex, later);
    if k2 != n - 1 {
      MulMonotone(t - earlier, t - later, n);
      MulCancel(k1, k2 + 1, t);
    }
  }

  /** `a / b == k` whenever `k * b <= a < (k + 1) * b`. */
  lemma DivisionFromBounds(a: int, b: int, k: int)
    requires b > 0 && k * b <= a < (k + 1) * b
    ensures a / b == k
  {
    var q, r := a / b, a % b;
    assert a == q * b + r && 0 <= r < b;
    assert (k - q) * b == r - (a - k * b);
    MulBetween(k - q, b);
  }

  lemma MulBetween(x: int, b: int)
    requires b > 0 && -b < x * b < b
    ensures x == 0
  {
  }

  lemma MulMonotone(x: int, y: int, d: int)
    requires 0 <= x <= y && d >= 0
    ensures x * d <= y * d
  {
  }

  lemma MulCancel(x: int, y: int, d: int)
    requires d > 0 && x * d < y * d
    ensures x < y
  {
  }

  // ---------------------------------------------------------------------------
  // The timer
  // ---------------------------------------------------------------------------

  class BreathingTimer {
    var activeExercise: Option<Exercise>
    var timeLeft: int
    var isActive: bool
    var completed: bool

    /** Time left is never negative nor above the exercise's duration; a completed exercise has no time left. */
    ghost predicate Valid()
      reads this
    {
      && timeLeft >= 0
      && (activeExercise.Some? ==> WellFormed(activeExercise.value)
                                   && timeLeft <= activeExercise.value.durationSeconds)
      && (completed ==> timeLeft == 0)
    }

    /** The page opens on the list of exercises with an idle timer. */
    constructor ()
      ensures Valid()
      ensures activeExercise == None && timeLeft == 0 && !isActive && !completed
    {
      activeExercise, timeLeft, isActive, completed := None, 0, false, false;
    }

    /** `startExercise`: the full duration on the clock, running, not completed. */
    method StartExercise(ex: Exercise)
      requires Valid() && WellFormed(ex)
      modifies this
      ensures Valid()
      ensures activeExercise == Some(ex) && timeLeft == ex.durationSeconds && isActive && !completed
    {
      activeExercise := Some(ex);
      timeLeft := ex.durationSeconds;
      isActive := true;
      completed := false;
    }

    /** `toggleTimer`: pause or resume, nothing else. */
    method ToggleTimer()
      requires Valid()
      modifies this
      ensures Valid()
      ensures isActive == !old(isActive)
      ensures activeExercise == old(activeExercise) && timeLeft == old(timeLeft) && completed == old(completed)
    {
      isActive := !isActive;
    }

    /** `resetTimer`: the full duration again, paused and not completed; nothing without an exercise. */
    method ResetTimer()
      requires Valid()
      modifies this
      ensures Valid()
      ensures activeExercise == old(activeExercise)
      ensures old(activeExercise).None? ==>
                timeLeft == old(timeLeft) && isActive == old(isActive) && completed == old(completed)
      ensures old(activeExercise).Some? ==>
                timeLeft == old(activeExercise).value.durationSeconds && !isActive && !completed
    {
      if activeExercise.Some? {
        timeLeft := activeExercise.value.durationSeconds;
        isActive := false;
        completed := false;
      }
    }

    /** "Back to exercises": leaves the exercise; the countdown itself is not stopped. */
    method LeaveExercise()
      requires Valid()
      modifies this
      ensures Valid()
      ensures activeExercise == None
      ensures timeLeft == old(timeLeft) && isActive == old(isActive) && completed == old(completed)
    {
      activeExercise := None;
    }

    /**
     * The interval effect: a running timer with time left loses one second; a
     * running timer at zero stops and is completed; a paused timer stays as it is.
     */
    method Tick()
      requires Valid()
      modifies this
      ensures Valid()
      ensures activeExercise == old(activeExercise)
      ensures old(isActive) && old(timeLeft) > 0 ==>
                timeLeft == old(timeLeft) - 1 && isActive && completed == old(completed)
      ensures old(isActive) && old(timeLeft) == 0 ==> timeLeft == 0 && !isActive && completed
      ensures !old(isActive) ==> timeLeft == old(timeLeft) && !isActive && completed == old(completed)
    {
      if isActive && timeLeft > 0 {
        timeLeft := timeLeft - 1;
      } else if timeLeft == 0 && isActive {
        isActive := false;
        completed := true;
      }
    }

    /** `formatTime(timeLeft)`, the clock face. */
    function Clock(): (t: string)
      requires Valid()
      reads this
      ensures ReadsAs(t, timeLeft)
    {
      FormatTime(timeLeft)
    }

    /** `getCurrentStep`: "" without an exercise, otherwise the step for the elapsed time. */
    function CurrentStep(): (step: string)
      requires Valid()
      reads this
      ensures activeExercise.None? ==> step == ""
      ensures activeExercise.Some? ==> step in activeExercise.value.steps
      ensures activeExercise.Some? ==> step == activeExercise.value.steps[StepIndex(activeExercise.value, timeLeft)]
    {
      if activeExercise.None? then ""
      else activeExercise.value.steps[StepIndex(activeExercise.value, timeLeft)]
    }
  }
}
