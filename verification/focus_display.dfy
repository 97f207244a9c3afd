/** What the Focus Mode screen derives from the countdown for display: the mm:ss clock and the progress bar. */
module FocusDisplay {
  import Strings
  import Wrappers
  import opened FocusSession

  /** A number as at least two decimal digits (`toString().padStart(2, '0')`). */
  function Pad2(n: nat): (r: string)
    ensures |r| >= 2 && Strings.AllDigits(r)
    ensures n < 100 ==> |r| == 2
    ensures |r| == 2 || r[0] != '0'
    ensures Strings.ParseDecimal(r) == n
  {
    var d := Strings.Decimal(n);
    var r := Strings.PadStart(d, 2, '0');
    var z := r[..|r| - |d|];
    assert r == z + d;
    Strings.ParseLeadingZeros(z, d);
    r
  }

  /** The minutes of an "mm:ss" clock: everything before the colon. */
  function MinutesField(t: string): string
    requires |t| >= 3
  {
    t[..|t| - 3]
  }

  /** The seconds of an "mm:ss" clock: the last two characters. */
  function SecondsField(t: string): string
    requires |t| >= 2
  {
    t[|t| - 2..]
  }

  lemma ClockFields(mins: string, secs: string)
    requires |secs| == 2
    ensures var r := mins + [':'] + secs;
      |r| == |mins| + 3 && r[|r| - 3] == ':' && MinutesField(r) == mins && SecondsField(r) == secs
  {
    var r := mins + [':'] + secs;
    assert r[..|r| - 3] == mins;
  }

  /**
   * `formatTime`: whole minutes, a colon, and the seconds of the last minute.
   * The seconds field is always exactly two digits below 60; the minutes
   * field is padded to two digits and never beyond; and the two fields read
   * back give the number of seconds shown.
   */
  function FormatTime(seconds: nat): (r: string)
    ensures |r| >= 5 && r[|r| - 3] == ':'
    ensures Strings.AllDigits(MinutesField(r)) && Strings.AllDigits(SecondsField(r))
    ensures |MinutesField(r)| == 2 || MinutesField(r)[0] != '0'
    ensures Strings.ParseDecimal(SecondsField(r)) < 60
    ensures Strings.ParseDecimal(MinutesField(r)) * 60 + Strings.ParseDecimal(SecondsField(r)) == seconds
  {
    var mins := Pad2(seconds / 60);
    var secs := Pad2(seconds % 60);
    ClockFields(mins, secs);
    mins + [':'] + secs
  }

  /**
   * Reads a clock back into seconds: a non-empty run of digits, a colon, and
   * exactly two digits. Anything else is not a clock.
   */
  function ReadTime(t: string): (r: Wrappers.Option<nat>)
    ensures r.Some? ==> |t| >= 4 && t[|t| - 3] == ':'
  {
    if |t| >= 4 && t[|t| - 3] == ':'
       && Strings.AllDigits(MinutesField(t)) && Strings.AllDigits(SecondsField(t))
    then Wrappers.Some(Strings.ParseDecimal(MinutesField(t)) * 60 + Strings.ParseDecimal(SecondsField(t)))
    else Wrappers.None
  }

  /** A clock whose fields add up to `seconds` reads back as `seconds`. */
  lemma ReadClock(t: string, seconds: nat)
    requires |t| >= 5 && t[|t| - 3] == ':'
    requires Strings.AllDigits(MinutesField(t)) && Strings.AllDigits(SecondsField(t))
    requires Strings.ParseDecimal(MinutesField(t)) * 60 + Strings.ParseDecimal(SecondsField(t)) == seconds
    ensures ReadTime(t) == Wrappers.Some(seconds)
  {
  }

  /** Every clock the screen shows reads back as the seconds it was made from. */
  lemma ReadFormatTime(seconds: nat)
    ensures ReadTime(FormatTime(seconds)) == Wrappers.Some(seconds)
  {
    ReadClock(FormatTime(seconds), seconds);
  }

  /**
   * `getProgress`: the elapsed share of the current phase, in percent, on exact
   * reals. Within a phase it lies in [0, 100]; it is 0 exactly at the full
   * length and 100 exactly at zero.
   */
  function Progress(s: Session): (p: real)
    requires PhaseDuration(s) > 0
    ensures 0 <= s.currentTime <= PhaseDuration(s) ==> 0.0 <= p <= 100.0
    ensures p == 0.0 <==> s.currentTime == PhaseDuration(s)
    ensures p == 100.0 <==> s.currentTime == 0
  {
    var total := PhaseDuration(s) as real;
    var elapsed := (PhaseDuration(s) - s.currentTime) as real;
    ProgressBounds(elapsed, total);
    (elapsed / total) * 100.0
  }

  lemma ProgressBounds(elapsed: real, total: real)
    requires total > 0.0
    ensures 0.0 <= elapsed <= total ==> 0.0 <= (elapsed / total) * 100.0 <= 100.0
    ensures (elapsed / total) * 100.0 == 0.0 <==> elapsed == 0.0
    ensures (elapsed / total) * 100.0 == 100.0 <==> elapsed == total
  {
    var q := elapsed / total;
    assert q * total == elapsed;
    if q * 100.0 == 100.0 {
      assert q == 1.0;
    }
  }

  /** Every second the countdown runs without finishing the phase moves the bar strictly forward. */
  lemma ProgressAdvances(s: Session)
    requires Valid(s) && Armed(s) && s.currentTime > 1
    ensures Progress(Step(s, Second)) > Progress(s)
  {
    TickOnce(s);
    var total := PhaseDuration(s) as real;
    var e := (PhaseDuration(s) - s.currentTime) as real;
    assert (e + 1.0) / total > e / total;
  }

  /** Every other event within a phase leaves the bar alone or returns it to 0. */
  lemma ProgressOnButtons(s: Session, e: Event)
    requires Valid(s) && e != Second
    ensures Step(s, e).isBreak == s.isBreak ==>
      Progress(Step(s, e)) == Progress(s) || Progress(Step(s, e)) == 0.0
  {
  }

  /** A new phase, whether begun by completion, Stop or Reset, starts with an empty bar. */
  lemma ProgressStartsAtZero(s: Session)
    requires Valid(s)
    ensures Progress(Step(s, StopPressed)) == 0.0
    ensures Progress(Step(s, ResetPressed)) == 0.0
    ensures Armed(s) && s.currentTime == 1 ==> Progress(Step(s, Second)) == 0.0
  {
    if Armed(s) && s.currentTime == 1 {
      TickOnce(s);
    }
  }
}
