/**
 * The countdown of the Focus Mode screen: a focus phase followed by a break
 * phase, driven by a one-second interval and the Start, Pause/Resume, Stop
 * and Reset buttons.
 *
 * Every state change in the screen is followed by its effect, which either
 * arms the interval or, when the countdown has reached zero, completes the
 * phase. `Step` is one user event or interval firing followed by that effect.
 */
module FocusSession {

  /** The `FocusSession` record; all times are in seconds. */
  datatype Session = Session(
    duration: int,        // length of a focus phase
    breakDuration: int,   // length of a break phase
    currentTime: int,     // seconds left in the current phase
    isActive: bool,       // the countdown has been started
    isPaused: bool,       // ... and is suspended
    isBreak: bool,        // the current phase is a break
    sessionCount: int)    // completed focus-and-break cycles

  /** The state on mount: a 25-minute focus phase, idle, with a 5-minute break to follow. */
  const Initial := Session(25 * 60, 5 * 60, 25 * 60, false, false, false, 0)

  /** The full length of the phase `s` is in. */
  function PhaseDuration(s: Session): int {
    if s.isBreak then s.breakDuration else s.duration
  }

  /** The effect sets the one-second interval exactly in these states. */
  predicate Armed(s: Session) {
    s.isActive && !s.isPaused && s.currentTime > 0
  }

  /** One firing of the interval; when no interval is set, nothing fires. */
  function Tick(s: Session): Session {
    if Armed(s) then s.(currentTime := s.currentTime - 1) else s
  }

  /** Phase completion: a finished focus phase becomes an idle break, a finished break an idle focus phase. */
  function Complete(s: Session): Session {
    if s.isBreak then
      s.(currentTime := s.duration, isBreak := false, isActive := false, sessionCount := s.sessionCount + 1)
    else
      s.(currentTime := s.breakDuration, isBreak := true, isActive := false)
  }

  /** The effect body: arm the interval if running, otherwise complete the phase once the countdown is at zero. */
  function Settle(s: Session): Session {
    if Armed(s) then s
    else if s.currentTime == 0 then Complete(s)
    else s
  }

  function Start(s: Session): Session {
    s.(isActive := true, isPaused := false)
  }

  /** Pause and Resume are one button that flips the pause flag. */
  function Pause(s: Session): Session {
    s.(isPaused := !s.isPaused)
  }

  function Stop(s: Session): Session {
    s.(isActive := false, isPaused := false, currentTime := if s.isBreak then s.breakDuration else s.duration)
  }

  function Reset(s: Session): Session {
    s.(currentTime := s.duration, isActive := false, isPaused := false, isBreak := false)
  }

  datatype Event = Second | StartPressed | PausePressed | StopPressed | ResetPressed

  function Apply(s: Session, e: Event): Session {
    match e
    case Second => Tick(s)
    case StartPressed => Start(s)
    case PausePressed => Pause(s)
    case StopPressed => Stop(s)
    case ResetPressed => Reset(s)
  }

  /**
   * The buttons the screen shows: Start only while not active, Pause/Resume only
   * while active; Stop and Reset always. The interval may fire at any time.
   */
  predicate Enabled(s: Session, e: Event) {
    match e
    case StartPressed => !s.isActive
    case PausePressed => s.isActive
    case _ => true
  }

  /**
   * What holds between events: positive phase lengths, time left within the
   * current phase (zero is never observed, it completes at once), and no
   * pause without an active countdown.
   */
  predicate Valid(s: Session) {
    && s.duration > 0
    && s.breakDuration > 0
    && 0 < s.currentTime <= PhaseDuration(s)
    && (s.isPaused ==> s.isActive)
    && s.sessionCount >= 0
  }

  /** One event followed by the effect. */
  function Step(s: Session, e: Event): (r: Session)
    ensures r.duration == s.duration && r.breakDuration == s.breakDuration
    ensures r.sessionCount == s.sessionCount || (r.sessionCount == s.sessionCount + 1 && s.isBreak && !r.isBreak)
    ensures Valid(s) && Enabled(s, e) ==> Valid(r)
    ensures Valid(s) && e != Second ==> r == Apply(s, e)
  {
    Settle(Apply(s, e))
  }

  lemma InitialValid()
    ensures Valid(Initial) && !Armed(Initial)
  {
  }

  /** The screen driven by a sequence of events. */
  function Run(s: Session, es: seq<Event>): Session
    decreases |es|
  {
    if |es| == 0 then s else Run(Step(s, es[0]), es[1..])
  }

  /** Every event of the sequence is offered by the screen when it happens. */
  predicate Admissible(s: Session, es: seq<Event>)
    decreases |es|
  {
    |es| == 0 || (Enabled(s, es[0]) && Admissible(Step(s, es[0]), es[1..]))
  }

  /** Whatever the user does through the screen's buttons, the invariant holds and the durations stay fixed. */
  lemma {:induction false} RunPreservesValid(s: Session, es: seq<Event>)
    requires Valid(s)
    requires Admissible(s, es)
    ensures Valid(Run(s, es))
    ensures Run(s, es).duration == s.duration && Run(s, es).breakDuration == s.breakDuration
    ensures Run(s, es).sessionCount >= s.sessionCount
    decreases |es|
  {
    if |es| > 0 {
      RunPreservesValid(Step(s, es[0]), es[1..]);
    }
  }

  /** Without the screen's discipline, Pause pressed while idle leaves a paused but inactive countdown. */
  lemma UnguardedPauseBreaksInvariant()
    ensures Valid(Initial) && !Valid(Step(Initial, PausePressed))
  {
  }

  /** `n` firings of the interval, each followed by the effect. */
  function Seconds(s: Session, n: nat): Session
    decreases n
  {
    if n == 0 then s else Seconds(Step(s, Second), n - 1)
  }

  /** While armed, one second takes exactly one second off the clock, or completes the phase at the last one. */
  lemma TickOnce(s: Session)
    requires Valid(s) && Armed(s)
    ensures s.currentTime > 1 ==> Step(s, Second) == s.(currentTime := s.currentTime - 1)
    ensures s.currentTime == 1 ==> Step(s, Second) == Complete(s.(currentTime := 0))
  {
  }

  /**
   * A running phase ends after exactly as many seconds as it has left: a focus
   * phase becomes an idle break of full length, a break an idle focus phase of
   * full length with one more completed cycle. The next phase never starts by
   * itself.
   */
  lemma {:induction false} RunPhase(s: Session)
    requires Valid(s) && s.isActive && !s.isPaused
    ensures var r := Seconds(s, s.currentTime);
      && r.duration == s.duration && r.breakDuration == s.breakDuration
      && !r.isActive && !r.isPaused
      && r.isBreak == !s.isBreak
      && r.currentTime == PhaseDuration(r)
      && r.sessionCount == (if s.isBreak then s.sessionCount + 1 else s.sessionCount)
    decreases s.currentTime
  {
    var next := Step(s, Second);
    if s.currentTime > 1 {
      assert next == s.(currentTime := s.currentTime - 1);
      assert Seconds(s, s.currentTime) == Seconds(next, next.currentTime);
      RunPhase(next);
    } else {
      assert Seconds(next, 0) == next;
    }
  }

  /** Before the phase runs out, the countdown has moved by exactly the number of seconds elapsed. */
  lemma {:induction false} RunPartial(s: Session, n: nat)
    requires Valid(s) && s.isActive && !s.isPaused
    requires n < s.currentTime
    ensures Seconds(s, n) == s.(currentTime := s.currentTime - n)
    decreases n
  {
    if n > 0 {
      var next := Step(s, Second);
      assert next == s.(currentTime := s.currentTime - 1);
      RunPartial(next, n - 1);
    }
  }

  /** While paused or idle, the interval is cleared: any number of seconds change nothing. */
  lemma {:induction false} IdleSeconds(s: Session, n: nat)
    requires Valid(s) && !Armed(s)
    ensures Seconds(s, n) == s
    decreases n
  {
    if n > 0 {
      assert Step(s, Second) == s;
      IdleSeconds(s, n - 1);
    }
  }

  /** Start on an idle countdown arms the interval and changes nothing but the two flags. */
  lemma StartArms(s: Session)
    requires Valid(s) && !s.isActive
    ensures var r := Step(s, StartPressed);
      && r.isActive && !r.isPaused && Armed(r)
      && r.currentTime == s.currentTime && r.isBreak == s.isBreak
      && r.sessionCount == s.sessionCount
      && r.duration == s.duration && r.breakDuration == s.breakDuration
  {
  }

  /** Pause and Resume are inverse: pressing twice changes nothing, and neither touches the clock or the phase. */
  lemma PauseResume(s: Session)
    requires Valid(s) && s.isActive
    ensures Step(Step(s, PausePressed), PausePressed) == s
    ensures Step(s, PausePressed).currentTime == s.currentTime
    ensures Step(s, PausePressed).isBreak == s.isBreak
  {
  }

  /** Stop goes idle at the full length of the current phase; the phase, the count and the durations stay. */
  lemma StopRestoresPhase(s: Session)
    requires Valid(s)
    ensures var r := Step(s, StopPressed);
      && !r.isActive && !r.isPaused
      && r.isBreak == s.isBreak
      && r.currentTime == PhaseDuration(s)
      && r.sessionCount == s.sessionCount
      && r.duration == s.duration && r.breakDuration == s.breakDuration
  {
  }

  /** Reset goes idle at the start of a focus phase; the count and the durations stay. */
  lemma ResetToFocus(s: Session)
    requires Valid(s)
    ensures var r := Step(s, ResetPressed);
      && !r.isActive && !r.isPaused && !r.isBreak
      && r.currentTime == s.duration
      && r.sessionCount == s.sessionCount
      && r.duration == s.duration && r.breakDuration == s.breakDuration
  {
  }

  /** Reset forgets whatever the buttons did before it, except the completed-cycle count. */
  lemma ResetAbsorbs(s: Session, e: Event)
    requires Valid(s) && e != Second
    ensures Step(Step(s, e), ResetPressed) == Step(s, ResetPressed)
  {
  }

  /**
   * From mount: Start, 1500 seconds, and the screen waits in a 300-second break;
   * Start again, 300 seconds, and it waits in a fresh focus phase with one
   * completed cycle.
   */
  lemma {:induction false} FullCycleFromMount()
    ensures var focused := Seconds(Step(Initial, StartPressed), 1500);
      && focused == Session(1500, 300, 300, false, false, true, 0)
      && Seconds(Step(focused, StartPressed), 300) == Session(1500, 300, 1500, false, false, false, 1)
  {
    var running := Step(Initial, StartPressed);
    RunPhase(running);
    var focused := Seconds(running, 1500);
    var breaking := Step(focused, StartPressed);
    RunPhase(breaking);
  }

  /** Start, ten seconds, Pause: the clock shows 1490, and a hundred more seconds leave it there. */
  lemma {:induction false} PausedClockHolds()
    ensures var paused := Step(Seconds(Step(Initial, StartPressed), 10), PausePressed);
      && paused.currentTime == 1490
      && Seconds(paused, 100) == paused
  {
    var running := Step(Initial, StartPressed);
    RunPartial(running, 10);
    var paused := Step(Seconds(running, 10), PausePressed);
    IdleSeconds(paused, 100);
  }
}
