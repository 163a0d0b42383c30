/**
 * The DCUB loading screen (`ui/DCUB/components/loading-screen.tsx`): the
 * `mm:ss` clock, the step shown for a progress value, and the simulated
 * progress tick.
 */
module LoadingScreen {
  import opened Common
  import opened Text

  /** The number of steps the screen lists. */
  const StepCount: nat := 4

  /** `formatTime`: whole minutes, a colon, and the seconds padded to two digits. */
  function FormatTime(seconds: nat): (r: string)
    ensures |r| >= 4 && r[|r| - 3] == ':'
  {
    NatToString(seconds / 60) + ":" + PadStart(NatToString(seconds % 60), 2, '0')
  }

  /** Decimal digits only. */
  predicate Numeral(s: string) {
    forall i :: 0 <= i < |s| ==> IsDigit(s[i])
  }

  /** Digits, a colon, and two more digits. */
  predicate ClockShape(text: string) {
    |text| >= 4 && text[|text| - 3] == ':' && Numeral(text[..|text| - 3]) && Numeral(text[|text| - 2..])
  }

  /** Reads an `m:ss` clock back: the minutes times 60 plus the seconds,
    * which must be below 60; `None` for any other text. */
  function ReadClock(text: string): Option<nat> {
    if ClockShape(text) && DecimalValue(text[|text| - 2..]) < 60 then
      Some(DecimalValue(text[..|text| - 3]) * 60 + DecimalValue(text[|text| - 2..]))
    else None
  }

  /** The seconds field is two digits worth `seconds % 60`. */
  lemma SecondsField(secs: nat)
    requires secs < 60
    ensures var f := PadStart(NatToString(secs), 2, '0');
      |f| == 2 && IsDigit(f[0]) && IsDigit(f[1]) && DecimalValue(f) == secs
  {
    var f := PadStart(NatToString(secs), 2, '0');
    if secs < 10 {
      assert NatToString(secs) == [DigitChar(secs)];
      assert f == ['0'] + [DigitChar(secs)];
      assert f[..1] == ['0'];
      assert f[..1][..0] == [];
      assert DecimalValue(f[..1]) == 0;
    } else {
      DecimalValueOfNatToString(secs);
    }
  }

  /** Where the pieces of `mins + ":" + field` sit. */
  lemma ClockPieces(r: string, mins: string, field: string)
    requires r == mins + ":" + field && |field| == 2
    ensures |r| == |mins| + 3 && r[..|r| - 3] == mins && r[|r| - 2..] == field && r[|r| - 3] == ':'
  {
  }

  /** `r` is laid out as a clock whose fields read as the whole minutes
    * and the remaining seconds of `total`. */
  predicate ClockFields(r: string, total: nat) {
    && |r| >= 4 && r[|r| - 3] == ':' && Numeral(r[..|r| - 3]) && Numeral(r[|r| - 2..])
    && DecimalValue(r[..|r| - 3]) == total / 60 && DecimalValue(r[|r| - 2..]) == total % 60
  }

  /** The clock's fields are the minutes and the seconds. */
  lemma FormatTimeFields(seconds: nat)
    ensures ClockFields(FormatTime(seconds), seconds)
  {
    var mins := NatToString(seconds / 60);
    var field := PadStart(NatToString(seconds % 60), 2, '0');
    SecondsField(seconds % 60);
    DecimalValueOfNatToString(seconds / 60);
    ClockPieces(FormatTime(seconds), mins, field);
    ClockFieldsOf(FormatTime(seconds), mins, field, seconds);
  }

  /** The clock facts, from where the pieces sit and what they read as. */
  lemma ClockFieldsOf(r: string, mins: string, field: string, total: nat)
    requires |r| == |mins| + 3 && r[..|r| - 3] == mins && r[|r| - 2..] == field && r[|r| - 3] == ':'
    requires |mins| >= 1 && Numeral(mins) && Numeral(field)
    requires DecimalValue(mins) == total / 60 && DecimalValue(field) == total % 60
    ensures ClockFields(r, total)
  {
  }

  /** A clock reads back as the total its fields stand for. */
  lemma ReadClockOfFields(r: string, total: nat)
    requires ClockFields(r, total)
    ensures ReadClock(r) == Some(total)
  {
  }

  /** Reading the clock back gives the elapsed seconds. */
  lemma FormatTimeRoundTrip(seconds: nat)
    ensures ReadClock(FormatTime(seconds)) == Some(seconds)
  {
    FormatTimeFields(seconds);
    ReadClockOfFields(FormatTime(seconds), seconds);
  }

  /** The step shown for a progress value. */
  function StepFor(progress: real): (step: nat)
    ensures step < StepCount
  {
    if progress < 25.0 then 0 else if progress < 50.0 then 1 else if progress < 75.0 then 2 else 3
  }

  /** A larger progress never shows an earlier step. */
  lemma StepForMonotone(a: real, b: real)
    requires a <= b
    ensures StepFor(a) <= StepFor(b)
  {
  }

  function Min(a: real, b: real): real {
    if a <= b then a else b
  }

  /** The screen's timer-driven state. */
  class Loading {
    var progress: real
    var currentStep: nat
    var elapsedTime: nat

    /** Progress stays in [0, 95] and the step is the one its value calls for. */
    predicate Valid()
      reads this
    {
      0.0 <= progress <= 95.0 && currentStep == StepFor(progress)
    }

    constructor ()
      ensures progress == 0.0 && currentStep == 0 && elapsedTime == 0
      ensures Valid()
    {
      progress := 0.0;
      currentStep := 0;
      elapsedTime := 0;
    }

    /** The progress interval: `increment` stands for `Math.random() * 2`.
      * The step is taken from the unclamped sum, the progress clamped to 95. */
    method Tick(increment: real)
      requires Valid() && 0.0 <= increment < 2.0
      modifies this
      ensures progress == Min(old(progress) + increment, 95.0)
      ensures currentStep == StepFor(old(progress) + increment)
      ensures elapsedTime == old(elapsedTime)
      ensures Valid()
      ensures old(progress) <= progress && old(currentStep) <= currentStep
    {
      var newProgress := progress + increment;
      if newProgress < 25.0 {
        currentStep := 0;
      } else if newProgress < 50.0 {
        currentStep := 1;
      } else if newProgress < 75.0 {
        currentStep := 2;
      } else {
        currentStep := 3;
      }
      StepForMonotone(old(progress), newProgress);
      progress := Min(newProgress, 95.0);
    }

    /** The clock interval: `elapsedMillis` stands for `Date.now() - startTime`. */
    method ClockTick(elapsedMillis: nat)
      modifies this
      ensures elapsedTime == elapsedMillis / 1000
      ensures progress == old(progress) && currentStep == old(currentStep)
    {
      elapsedTime := elapsedMillis / 1000;
    }
  }
}
