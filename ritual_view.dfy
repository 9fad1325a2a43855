/** The clarity ritual (components/views/RitualView.tsx): three timed
    steps between `idle` and `finished`, a once-a-second countdown that
    stops at zero, and the two effects that restart the countdown when the
    step changes and advance the step when the countdown runs out.

    React's render cycle is modelled explicitly: `step` and `timer` are the
    latest state, `renderedStep` and `renderedTimer` the values of the last
    committed render, which are the values its effects see. */
module RitualView {

  datatype Step = Idle | Grounding | Intent | Lockin | Finished

  predicate IsActive(s: Step) {
    s == Grounding || s == Intent || s == Lockin
  }

  function Rank(s: Step): nat {
    match s
    case Idle => 0
    case Grounding => 1
    case Intent => 2
    case Lockin => 3
    case Finished => 4
  }

  /** `DURATION_MAP`, in seconds. */
  function Duration(s: Step): (d: nat)
    requires IsActive(s)
    ensures d > 0
  {
    match s
    case Grounding => 180
    case Intent => 60
    case Lockin => 60
  }

  /** The three steps fill the advertised five minutes. */
  lemma DurationsMakeFiveMinutes()
    ensures Duration(Grounding) + Duration(Intent) + Duration(Lockin) == 5 * 60
  {
  }

  /** `nextStep`: each active step is followed by the next one in rank,
      the last by `finished`; `idle` and `finished` stay put. */
  function NextStep(s: Step): (t: Step)
    ensures IsActive(s) ==> Rank(t) == Rank(s) + 1
    ensures !IsActive(s) ==> t == s
  {
    match s
    case Grounding => Intent
    case Intent => Lockin
    case Lockin => Finished
    case _ => s
  }

  /** One tick of the interval: down by one, never below zero. */
  function Tick(timer: nat): (t: nat)
    ensures t <= timer
  {
    if timer > 0 then timer - 1 else 0
  }

  function Ticks(timer: nat, n: nat): nat {
    if n == 0 then timer else Tick(Ticks(timer, n - 1))
  }

  /** After `n` ticks a countdown from `timer` shows `timer - n`, or 0 once
      `n` reaches `timer`: it reaches zero after exactly `timer` ticks. */
  lemma {:induction false} Countdown(timer: nat, n: nat)
    ensures Ticks(timer, n) == if n >= timer then 0 else timer - n
  {
    if n > 0 {
      Countdown(timer, n - 1);
    }
  }

  // ---- formatTime ----

  predicate IsDecimalDigit(c: char) {
    '0' <= c <= '9'
  }

  predicate AllDecimal(s: string) {
    forall k :: 0 <= k < |s| ==> IsDecimalDigit(s[k])
  }

  function DigitChar(d: nat): (c: char)
    requires d < 10
    ensures IsDecimalDigit(c)
  {
    ('0' as int + d) as char
  }

  /** `String(n)` for a natural number. */
  function DecimalString(n: nat): (s: string)
    ensures |s| >= 1 && AllDecimal(s)
    ensures n < 10 <==> |s| == 1
  {
    if n < 10 then [DigitChar(n)] else DecimalString(n / 10) + [DigitChar(n % 10)]
  }

  /** The number a string of decimal digits denotes. */
  function DecimalValue(s: string): nat
    requires AllDecimal(s)
  {
    if s == [] then 0 else DecimalValue(s[..|s| - 1]) * 10 + (s[|s| - 1] as int - '0' as int)
  }

  lemma {:induction false} DecimalRoundTrip(n: nat)
    ensures DecimalValue(DecimalString(n)) == n
  {
    var s := DecimalString(n);
    if n >= 10 {
      DecimalRoundTrip(n / 10);
      assert s[..|s| - 1] == DecimalString(n / 10);
    }
  }

  lemma {:induction false} LeadingZero(s: string)
    ensures AllDecimal(s) ==> AllDecimal(['0'] + s) && DecimalValue(['0'] + s) == DecimalValue(s)
  {
    var z := ['0'] + s;
    if s != [] && AllDecimal(s) {
      LeadingZero(s[..|s| - 1]);
      assert z[..|z| - 1] == ['0'] + s[..|s| - 1];
    }
  }

  /** `s.padStart(2, '0')`. */
  function PadStart2(s: string): (r: string)
    ensures |r| == if |s| >= 2 then |s| else 2
    ensures AllDecimal(s) ==> AllDecimal(r) && DecimalValue(r) == DecimalValue(s)
    decreases 2 - |s|
  {
    if |s| >= 2 then s
    else
      var r := PadStart2(['0'] + s);
      LeadingZero(s);
      r
  }

  /** `formatTime`: whole minutes, a colon, then the seconds, each padded
      to at least two digits. */
  function FormatTime(seconds: nat): string {
    PadStart2(DecimalString(seconds / 60)) + ":" + PadStart2(DecimalString(seconds % 60))
  }

  /** `mm:ss` read back: the digits before the colon are minutes, the two
      after it seconds. */
  predicate IsClock(r: string) {
    |r| >= 5 && r[|r| - 3] == ':' && AllDecimal(r[..|r| - 3]) && AllDecimal(r[|r| - 2..])
  }

  function ParseTime(r: string): nat
    requires IsClock(r)
  {
    DecimalValue(r[..|r| - 3]) * 60 + DecimalValue(r[|r| - 2..])
  }

  /** The display always has the `mm:ss` shape, is exactly five characters
      below 100 minutes, and reads back as the seconds it shows. */
  lemma FormatTimeRoundTrip(seconds: nat)
    ensures IsClock(FormatTime(seconds))
    ensures seconds < 6000 ==> |FormatTime(seconds)| == 5
    ensures ParseTime(FormatTime(seconds)) == seconds
    ensures DecimalValue(FormatTime(seconds)[|FormatTime(seconds)| - 2..]) == seconds % 60
  {
    var mins, secs := PadStart2(DecimalString(seconds / 60)), PadStart2(DecimalString(seconds % 60));
    var r := FormatTime(seconds);
    DecimalRoundTrip(seconds / 60);
    DecimalRoundTrip(seconds % 60);
    assert |DecimalString(seconds % 60)| == 1 || |DecimalString(seconds % 60)| == 2 by {
      if seconds % 60 >= 10 {
        assert DecimalString(seconds % 60) == DecimalString(seconds % 60 / 10) + [DigitChar(seconds % 60 % 10)];
      }
    }
    assert r[..|r| - 3] == mins;
    assert r[|r| - 2..] == secs;
    if seconds < 6000 {
      if seconds / 60 >= 10 {
        assert DecimalString(seconds / 60) == DecimalString(seconds / 60 / 10) + [DigitChar(seconds / 60 % 10)];
      }
    }
  }

  lemma FormatTimeExamples()
    ensures FormatTime(180) == "03:00"
    ensures FormatTime(65) == "01:05"
  {
    assert DecimalString(3) == "3" && DecimalString(0) == "0";
    assert DecimalString(1) == "1" && DecimalString(5) == "5";
  }

  // ---- the component ----

  /** The timing and step state of a mounted ritual view. Interval handles
      are positive, as the browser's are; `live` holds the intervals
      started and not yet cleared. */
  class Ritual {
    var step: Step
    var timer: nat
    var duration: nat
    var intentText: string
    var interval: nat
    var nextHandle: nat
    ghost var live: set<nat>
    var renderedStep: Step
    var renderedTimer: nat

    /** At most one interval runs, and it is the one the ref holds. */
    ghost predicate Valid()
      reads this
    {
      && 0 < nextHandle
      && interval < nextHandle
      && live == (if interval != 0 then {interval} else {})
    }

    /** Nothing is left to render: the last commit shows the latest state. */
    predicate Quiescent()
      reads this
    {
      step == renderedStep && timer == renderedTimer
    }

    /** Mounting renders idle with a zero timer; its effects find nothing
        to stop and nothing to advance. */
    constructor ()
      ensures Valid() && Quiescent()
      ensures step == Idle && timer == 0 && duration == 0 && intentText == "" && interval == 0
    {
      step, timer, duration, intentText := Idle, 0, 0, "";
      interval, nextHandle, live := 0, 1, {};
      renderedStep, renderedTimer := Idle, 0;
    }

    /** `stopTimer`: clears the running interval, if any. */
    method StopTimer()
      requires Valid()
      modifies this`interval, this`live
      ensures Valid() && interval == 0 && live == {}
    {
      if interval != 0 {
        live := live - {interval};
        interval := 0;
      }
    }

    /** `startTimer`: the previous interval is cleared before the new one
        starts, so exactly one runs. */
    method StartTimer(d: nat)
      requires Valid()
      modifies this`interval, this`live, this`nextHandle, this`duration, this`timer
      ensures Valid()
      ensures duration == d && timer == d
      ensures interval == old(nextHandle) && live == {interval} && interval !in old(live)
    {
      StopTimer();
      duration, timer := d, d;
      interval := nextHandle;
      nextHandle := nextHandle + 1;
      live := live + {interval};
    }

    /** The running interval fires. */
    method OnTick()
      requires Valid() && interval != 0
      modifies this`timer
      ensures timer == Tick(old(timer))
    {
      timer := Tick(timer);
    }

    /** The Skip button: `nextStep` of the rendered step. */
    method NextStepClick()
      modifies this`step
      ensures step == NextStep(renderedStep)
    {
      step := NextStep(renderedStep);
    }

    /** The Begin Circuit button. */
    method StartRitual()
      modifies this`step
      ensures step == Grounding
    {
      step := Grounding;
    }

    /** The Run Again button. */
    method ResetRitual()
      modifies this`step, this`intentText
      ensures step == Idle && intentText == ""
    {
      intentText := "";
      step := Idle;
    }

    /** The first effect, on a changed step: restart the countdown at the
        step's duration, or stop it outside the active steps. */
    method StepEffect(s: Step)
      requires Valid()
      modifies this`interval, this`live, this`nextHandle, this`duration, this`timer
      ensures Valid()
      ensures IsActive(s) ==> timer == Duration(s) && duration == Duration(s) && interval != 0
      ensures !IsActive(s) ==> timer == old(timer) && duration == old(duration) && interval == 0
    {
      if IsActive(s) {
        StartTimer(Duration(s));
      } else {
        StopTimer();
      }
    }

    /** The second effect, given the step and timer values it reads: at
        zero in an active step, stop and advance. */
    method ExpiryEffect(s: Step, t: nat)
      requires Valid()
      modifies this`interval, this`live, this`step
      ensures Valid()
      ensures t == 0 && IsActive(s) ==> step == NextStep(s) && interval == 0
      ensures !(t == 0 && IsActive(s)) ==> step == old(step) && interval == old(interval)
    {
      if t == 0 && IsActive(s) {
        StopTimer();
        step := NextStep(s);
      }
    }

    /** One render and its effects as written: the second effect reads the
        timer of the render, even when the first effect has just restarted
        the countdown in the same commit. */
    method Commit()
      requires Valid()
      modifies this`interval, this`live, this`nextHandle, this`duration, this`timer, this`step,
        this`renderedStep, this`renderedTimer
      ensures Valid()
      ensures renderedStep == old(step) && renderedTimer == old(timer)
      ensures var s, t := old(step), old(timer);
        var entered := s != old(renderedStep);
        var fires := (entered || t != old(renderedTimer)) && t == 0 && IsActive(s);
        && step == (if fires then NextStep(s) else s)
        && timer == (if entered && IsActive(s) then Duration(s) else t)
        && (interval != 0 <==> if fires then false else if entered then IsActive(s) else old(interval) != 0)
    {
      var s, t := step, timer;
      var entered, ticked := s != renderedStep, t != renderedTimer;
      renderedStep, renderedTimer := s, t;
      if entered {
        StepEffect(s);
      }
      if entered || ticked {
        ExpiryEffect(s, t);
      }
    }

    /** One render and its effects as intended: the second effect sees the
        countdown the first one has just started, so a step that is
        entered always runs its full duration first. */
    method CommitCorrected()
      requires Valid()
      modifies this`interval, this`live, this`nextHandle, this`duration, this`timer, this`step,
        this`renderedStep, this`renderedTimer
      ensures Valid()
      ensures renderedStep == old(step) && renderedTimer == old(timer)
      ensures var s, t := old(step), old(timer);
        var entered := s != old(renderedStep);
        var fires := !entered && t != old(renderedTimer) && t == 0 && IsActive(s);
        && step == (if fires then NextStep(s) else s)
        && timer == (if entered && IsActive(s) then Duration(s) else t)
        && (interval != 0 <==> if fires then false else if entered then IsActive(s) else old(interval) != 0)
      ensures old(step) != old(renderedStep) && IsActive(old(step)) ==>
        step == old(step) && timer == Duration(step) && interval != 0
    {
      var s := step;
      var entered, ticked := s != renderedStep, timer != renderedTimer;
      renderedStep, renderedTimer := s, timer;
      if entered {
        StepEffect(s);
      }
      if entered || ticked {
        ExpiryEffect(s, timer);
      }
    }

    ghost function Pending(): nat
      reads this
    {
      3 * (4 - Rank(step)) + (if step != renderedStep then 2 else 0) + (if timer != renderedTimer then 1 else 0)
    }

    /** React re-renders while a commit's effects changed the state; the
        cascade always ends. */
    method Settle()
      requires Valid()
      modifies this`interval, this`live, this`nextHandle, this`duration, this`timer, this`step,
        this`renderedStep, this`renderedTimer
      ensures Valid() && Quiescent()
      ensures Rank(step) >= Rank(old(step))
    {
      while !Quiescent()
        invariant Valid()
        invariant Rank(step) >= Rank(old(step))
        decreases Pending()
      {
        Commit();
      }
    }

    /** Unmounting clears the interval. */
    method Unmount()
      requires Valid()
      modifies this`interval, this`live
      ensures Valid() && live == {}
    {
      StopTimer();
    }
  }

  /** Begin on a freshly mounted view: the render that enters grounding
      still shows the initial zero, so the second effect advances at once
      and the ritual opens on the intent step. */
  method BeginOnFreshMountAsWritten() returns (shown: Step, settled: bool)
    ensures shown == Intent && settled
  {
    var r := new Ritual();
    r.StartRitual();
    r.Commit();
    r.Commit();
    r.Commit();
    shown, settled := r.step, r.Quiescent();
  }

  /** With the intended commit the same click opens on grounding with its
      three minutes. */
  method BeginOnFreshMount() returns (shown: Step, remaining: nat, settled: bool)
    ensures shown == Grounding && remaining == 180 && settled
  {
    var r := new Ritual();
    r.StartRitual();
    r.CommitCorrected();
    r.CommitCorrected();
    shown, remaining, settled := r.step, r.timer, r.Quiescent();
  }

  /** The intent step running out as written: the render that enters
      lock-in shows the expired zero, so lock-in is skipped too. */
  method IntentRunsOutAsWritten() returns (shown: Step, settled: bool)
    ensures shown == Finished && settled
  {
    var r := new Ritual();
    r.StartRitual();
    r.Commit();
    r.Commit();
    r.Commit();
    for i := 0 to 59
      invariant r.Valid() && r.Quiescent() && r.interval != 0
      invariant r.step == Intent && r.timer == 60 - i
    {
      r.OnTick();
      r.Commit();
    }
    r.OnTick();
    r.Commit();
    r.Commit();
    r.Commit();
    shown, settled := r.step, r.Quiescent();
  }

  /** With the intended commit, grounding running out leads to intent and
      its full minute. */
  method GroundingRunsOut() returns (shown: Step, remaining: nat, settled: bool)
    ensures shown == Intent && remaining == 60 && settled
  {
    var r := new Ritual();
    r.StartRitual();
    r.CommitCorrected();
    r.CommitCorrected();
    for i := 0 to 179
      invariant r.Valid() && r.Quiescent() && r.interval != 0
      invariant r.step == Grounding && r.timer == 180 - i
    {
      r.OnTick();
      r.CommitCorrected();
    }
    r.OnTick();
    r.CommitCorrected();
    r.CommitCorrected();
    r.CommitCorrected();
    shown, remaining, settled := r.step, r.timer, r.Quiescent();
  }
}
