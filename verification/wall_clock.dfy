/**
 The wall clock of `system/atlas_engine/clock.py`: the floor applied at boot and when a late RTC steps
 the clock, and corrections from GPS and paired phones. Times are exact reals; an operation reads the
 clock at one instant.
 */
module WallClock {
  import opened Common

  const FLOOR_MIN: real := 1735689600.0
  const FLOOR_MAX: real := 4102444800.0
  const DAY: real := 86400.0
  const PHONE_MAX_AHEAD_OF_BUILD: real := 630720000.0
  const STEP_EPSILON: real := 2.0

  /** What the clock is based on, as the state file says. */
  datatype Basis = Unset | Restored | Rtc | Phone | Gps | Ntp

  datatype FloorSource = Build | Saved

  datatype Floor = Floor(at: real, source: FloorSource)

  datatype RtcStatus = NoRtc | LostPower | KeptTime | Stale

  predicate Plausible(epoch: real) {
    FLOOR_MIN <= epoch < FLOOR_MAX
  }

  function IfPlausible(t: Option<real>): Option<real> {
    if t.Some? && Plausible(t.value) then t else None
  }

  /** `classify_rtc`; `since` is the RTC's reading, if there is an RTC that has one. */
  function ClassifyRtc(since: Option<real>, floor: Option<Floor>): (status: RtcStatus)
    ensures status == KeptTime <==>
      since.Some? && since.value >= FLOOR_MIN && (floor.None? || since.value >= floor.value.at - 120.0)
    ensures status == LostPower <==> since.Some? && since.value < FLOOR_MIN
  {
    match since
    case None => NoRtc
    case Some(t) =>
      if t < FLOOR_MIN then LostPower
      else if floor.None? || t >= floor.value.at - 120.0 then KeptTime
      else Stale
  }

  /** The floor is the latest of the plausible times there are: the build's wins a tie. */
  ghost predicate IsFloor(f: Option<Floor>, built: Option<real>, saved: Option<real>) {
    var b, s := IfPlausible(built), IfPlausible(saved);
    && (f.None? <==> b.None? && s.None?)
    && (f.Some? ==>
        && (b.Some? ==> b.value <= f.value.at) && (s.Some? ==> s.value <= f.value.at)
        && f.value.at == (if f.value.source.Build? then (if b.Some? then b.value else -1.0)
                          else if s.Some? then s.value else -1.0)
        && (f.value.source.Saved? && b.Some? ==> b.value < f.value.at)
        && Plausible(f.value.at))
  }

  function FloorOf(built: Option<real>, saved: Option<real>): (f: Option<Floor>)
    ensures IsFloor(f, built, saved)
  {
    var b, s := IfPlausible(built), IfPlausible(saved);
    if b.None? then (if s.None? then None else Some(Floor(s.value, Saved)))
    else if s.None? || s.value <= b.value then Some(Floor(b.value, Build))
    else Some(Floor(s.value, Saved))
  }

  lemma FloorIsUnique(f: Option<Floor>, built: Option<real>, saved: Option<real>)
    requires IsFloor(f, built, saved)
    ensures f == FloorOf(built, saved)
  {
  }

  /** `floor`: the best of the candidates in turn. */
  method FindFloor(built: Option<real>, saved: Option<real>) returns (best: Option<Floor>)
    ensures best == FloorOf(built, saved)
  {
    best := None;
    var candidates := [(IfPlausible(built), Build), (IfPlausible(saved), Saved)];
    for k := 0 to 2
      invariant k == 0 ==> best.None?
      invariant k == 1 ==> best == FloorOf(built, None)
      invariant k == 2 ==> best == FloorOf(built, saved)
    {
      var (value, source) := candidates[k];
      if value.Some? && (best.None? || value.value > best.value.at) {
        best := Some(Floor(value.value, source));
      }
    }
  }

  // ---------- What each operation does to the clock and the state file ----------

  datatype State = State(clock: real, basis: Option<Basis>)

  function Max(x: real, y: real): real {
    if x < y then y else x
  }

  /** How far `_apply_floor` steps the clock: not at all when it is at most a second below the floor. */
  function FloorStep(clock: real, floor: Option<Floor>): (step: real)
    ensures step >= 0.0
  {
    if floor.Some? && clock < floor.value.at - 1.0 then floor.value.at - clock else 0.0
  }

  function BootBasis(stepped: bool, status: RtcStatus, floor: Option<Floor>, ntp: bool): Basis {
    if ntp then Ntp
    else if stepped then Restored
    else if status == KeptTime then Rtc
    else if floor.Some? then Restored
    else Unset
  }

  function Booted(clock: real, floor: Option<Floor>, rtc: Option<real>, ntp: bool): State {
    var step := FloorStep(clock, floor);
    State(clock + step, Some(BootBasis(step > 0.0, ClassifyRtc(rtc, floor), floor, ntp)))
  }

  /** After the kernel set the clock from a late RTC: a step of more than a minute is recorded. */
  function RtcStepped(s: State, floor: Option<Floor>): State {
    var step := FloorStep(s.clock, floor);
    State(s.clock + step, if step > 60.0 then Some(Restored) else s.basis)
  }

  datatype Source = FromGps | FromPhone

  datatype Refusal = BeforeBuild | NtpRules | GpsRules | Implausible | NotAhead

  datatype Outcome = Applied(stepped: real) | Ignored(reason: Refusal) | Invalid

  function Effective(s: State, ntp: bool): Basis {
    if ntp then Ntp else if s.basis.Some? then s.basis.value else Unset
  }

  function Abs(x: real): real {
    if x < 0.0 then -x else x
  }

  /** What `set_time` answers. NTP is looked at twice: before the lock and, for the basis, within it. */
  function Verdict(s: State, epoch: Option<real>, source: Source, built: Option<real>,
                   ntp: bool, ntpWithin: bool): Outcome {
    if epoch.None? || !Plausible(epoch.value) then Invalid
    else if built.Some? && epoch.value < built.value - DAY then Ignored(BeforeBuild)
    else if ntp then Ignored(NtpRules)
    else
      var current, delta := Effective(s, ntpWithin), epoch.value - s.clock;
      if source == FromPhone && current == Gps then Ignored(GpsRules)
      else if source == FromPhone && built.Some? && epoch.value > built.value + PHONE_MAX_AHEAD_OF_BUILD
      then Ignored(Implausible)
      else if source == FromPhone && delta <= STEP_EPSILON then
        if current in {Unset, Restored, Rtc} && delta > -STEP_EPSILON then Applied(0.0) else Ignored(NotAhead)
      else Applied(if Abs(delta) > STEP_EPSILON then delta else 0.0)
  }

  function Corrected(s: State, source: Source, verdict: Outcome): State {
    match verdict
    case Applied(step) => State(s.clock + step, Some(if source == FromGps then Gps else Phone))
    case _ => s
  }

  /** The system clock, the state file and the two files the floor comes from. */
  class Clock {
    var now: real
    var basis: Option<Basis>
    var built: Option<real>
    var saved: Option<real>
    var restarts: nat          // of avahi, whose timers follow the wall clock

    ghost function View(): State
      reads this
    {
      State(now, basis)
    }

    constructor (clock: real, builtAt: Option<real>, savedAt: Option<real>)
      ensures View() == State(clock, None) && built == builtAt && saved == savedAt && restarts == 0
    {
      now, basis, built, saved, restarts := clock, None, builtAt, savedAt, 0;
    }

    /** `_apply_floor`. */
    method ApplyFloor() returns (stepped: real, floor: Option<Floor>)
      modifies this`now
      ensures floor == FloorOf(built, saved) && stepped == FloorStep(old(now), floor) && now == old(now) + stepped
    {
      floor := FindFloor(built, saved);
      var t := now;
      if floor.Some? && t < floor.value.at - 1.0 {
        now := floor.value.at;
        return floor.value.at - t, floor;
      }
      return 0.0, floor;
    }

    /** `boot`, once the wait for the RTC is over. */
    method Boot(rtc: Option<real>, ntp: bool)
      modifies this`now, this`basis
      ensures View() == Booted(old(now), FloorOf(built, saved), rtc, ntp)
    {
      var floor := FindFloor(built, saved);
      var status := ClassifyRtc(rtc, floor);
      var stepped, value := ApplyFloor();
      if ntp {
        basis := Some(Ntp);
      } else if stepped != 0.0 {
        basis := Some(Restored);
      } else if status == KeptTime {
        basis := Some(Rtc);
      } else if value.Some? {
        basis := Some(Restored);
      } else {
        basis := Some(Unset);
      }
    }

    /** `rtc_added`, once the kernel has stepped the clock. */
    method RtcAdded()
      modifies this`now, this`basis, this`restarts
      ensures View() == RtcStepped(old(View()), FloorOf(built, saved))
      ensures restarts == old(restarts) + if FloorStep(old(now), FloorOf(built, saved)) > 60.0 then 1 else 0
    {
      var stepped, floor := ApplyFloor();
      if stepped > 60.0 {
        basis := Some(Restored);
        restarts := restarts + 1;
      }
    }

    /** `set_time`. */
    method SetTime(epoch: Option<real>, source: Source, ntp: bool, ntpWithin: bool) returns (outcome: Outcome)
      modifies this`now, this`basis, this`restarts
      ensures outcome == Verdict(old(View()), epoch, source, IfPlausible(built), ntp, ntpWithin)
      ensures View() == Corrected(old(View()), source, outcome)
      ensures restarts == old(restarts) + if now < old(now) then 1 else 0
    {
      if epoch.None? || !Plausible(epoch.value) { return Invalid; }
      var e, b := epoch.value, IfPlausible(built);
      if b.Some? && e < b.value - DAY { return Ignored(BeforeBuild); }
      if ntp { return Ignored(NtpRules); }
      var current := Effective(State(now, basis), ntpWithin);
      var delta := e - now;
      if source == FromPhone {
        if current == Gps { return Ignored(GpsRules); }
        if b.Some? && e > b.value + PHONE_MAX_AHEAD_OF_BUILD { return Ignored(Implausible); }
        if delta <= STEP_EPSILON {
          if current in {Unset, Restored, Rtc} && delta > -STEP_EPSILON {
            basis := Some(Phone);
            return Applied(0.0);
          }
          return Ignored(NotAhead);
        }
      }
      if Abs(delta) > STEP_EPSILON { now := e; } else { delta := 0.0; }
      if delta < -STEP_EPSILON { restarts := restarts + 1; }
      basis := Some(if source == FromGps then Gps else Phone);
      return Applied(delta);
    }
  }

  // ---------- Runs ----------

  /** What can happen; `saved` is the saved clock at that moment, and NTP may be anything each time. A late
      RTC is two events: the kernel sets the clock from it, and `rtc_added` applies the floor afterwards. */
  datatype Event =
    | Boot(powerOn: real, saved: Option<real>, rtc: Option<real>, ntp: bool)
    | KernelStep(kernel: real)
    | RtcBackstop(saved: Option<real>)
    | Correct(epoch: Option<real>, source: Source, ntp: bool, ntpWithin: bool)
    | Pass(seconds: real)

  predicate Possible(e: Event) {
    e.Pass? ==> e.seconds >= 0.0
  }

  /** `built` is the plausible build time of the release, if it has one. */
  function Next(s: State, e: Event, built: Option<real>): State {
    match e
    case Boot(powerOn, saved, rtc, ntp) => Booted(powerOn, FloorOf(built, saved), rtc, ntp)
    case KernelStep(kernel) => s.(clock := kernel)
    case RtcBackstop(saved) => RtcStepped(s, FloorOf(built, saved))
    case Correct(epoch, source, ntp, ntpWithin) =>
      Corrected(s, source, Verdict(s, epoch, source, built, ntp, ntpWithin))
    case Pass(seconds) => s.(clock := s.clock + seconds)
  }

  ghost predicate IsRun(states: seq<State>, events: seq<Event>, built: Option<real>) {
    && |states| == |events| + 1
    && forall k :: 0 <= k < |events| ==> Possible(events[k]) && states[k + 1] == Next(states[k], events[k], built)
  }

  /** The kernel set the clock at event `k`, and up to event `n` no floor was applied to it. */
  predicate Unfloored(events: seq<Event>, k: nat, n: nat)
    requires k < n <= |events|
  {
    events[k].KernelStep? && forall j :: k < j < n ==> !events[j].Boot? && !events[j].RtcBackstop?
  }

  /** From the first boot on, the clock is more than a day before the build time only where the kernel
      set it there from a late RTC and the floor was not applied yet; it is then no lower than that. */
  lemma {:induction false} NeverADayBeforeBuild(states: seq<State>, events: seq<Event>, built: real, m: nat, n: nat)
    requires Plausible(built) && IsRun(states, events, Some(built)) && m < n < |states| && events[m].Boot?
    ensures states[n].clock >= built - DAY
            || exists k: nat | m < k < n :: Unfloored(events, k, n) && events[k].kernel <= states[n].clock
    decreases n, 1
  {
    var e := events[n - 1];
    assert states[n] == Next(states[n - 1], e, Some(built));
    match e
    case KernelStep(_) => assert n - 1 > m ==> Unfloored(events, n - 1, n);
    case Correct(_, _, _, _) => LowStaysAboveKernel(states, events, built, m, n);
    case Pass(_) => LowStaysAboveKernel(states, events, built, m, n);
    case _ =>
  }

  lemma {:induction false} LowStaysAboveKernel(states: seq<State>, events: seq<Event>, built: real, m: nat, n: nat)
    requires Plausible(built) && IsRun(states, events, Some(built)) && m < n < |states| && events[m].Boot?
    requires events[n - 1].Correct? || events[n - 1].Pass?
    ensures states[n].clock >= built - DAY
            || exists k: nat | m < k < n :: Unfloored(events, k, n) && events[k].kernel <= states[n].clock
    decreases n, 0
  {
    assert n - 1 != m;
    assert states[n] == Next(states[n - 1], events[n - 1], Some(built));
    NeverADayBeforeBuild(states, events, built, m, n - 1);
    hide IsRun;
    if states[n].clock < built - DAY {
      assert states[n - 1].clock <= states[n].clock;
      var k: nat :| m < k < n - 1 && Unfloored(events, k, n - 1) && events[k].kernel <= states[n - 1].clock;
      assert Unfloored(events, k, n);
    }
  }

  /** That exception is real: the step itself may put the clock anywhere, and the backstop ends it. */
  lemma BackstopEndsIt(s: State, kernel: real, built: real, saved: Option<real>)
    requires Plausible(built)
    ensures Next(s, KernelStep(kernel), Some(built)).clock < built - DAY <==> kernel < built - DAY
    ensures Next(Next(s, KernelStep(kernel), Some(built)), RtcBackstop(saved), Some(built)).clock >= built - 1.0
  {
  }

  /** Of what this module does, only GPS moves the clock backward: boot and the RTC backstop never lower
      the clock they find, and a phone never lowers it at all. */
  lemma OnlyGpsGoesBack(s: State, e: Event, built: Option<real>)
    requires Possible(e)
    ensures match e
            case Boot(powerOn, _, _, _) => Next(s, e, built).clock >= powerOn
            case KernelStep(_) => true
            case RtcBackstop(_) => Next(s, e, built).clock >= s.clock
            case Correct(_, source, _, _) => source == FromPhone ==> Next(s, e, built).clock >= s.clock
            case Pass(_) => Next(s, e, built).clock >= s.clock
  {
  }

  /** In every stretch of a run in which neither a boot nor the kernel sets the clock, a clock that has
      gone back was set back by a plausible GPS fix with NTP out of play. */
  lemma {:induction false} BackwardNeedsGps(states: seq<State>, events: seq<Event>, built: Option<real>, m: nat, n: nat)
    returns (k: nat)
    requires IsRun(states, events, built) && m <= n < |states|
    requires forall j :: m <= j < n ==> !events[j].Boot? && !events[j].KernelStep?
    requires states[n].clock < states[m].clock
    ensures m <= k < n && events[k].Correct? && events[k].source == FromGps && !events[k].ntp
    ensures states[k + 1].clock < states[k].clock && events[k].epoch == Some(states[k + 1].clock)
  {
    assert states[n] == Next(states[n - 1], events[n - 1], built);
    if states[n].clock < states[n - 1].clock {
      k := n - 1;
    } else {
      k := BackwardNeedsGps(states, events, built, m, n - 1);
    }
  }

  /** A clock is stepped backward by GPS exactly when a plausible fix, no earlier than a day before the
      build and with NTP out of play, is more than two seconds behind it. */
  lemma GpsGoesBackWhen(s: State, epoch: Option<real>, built: Option<real>, ntp: bool, ntpWithin: bool)
    ensures Next(s, Correct(epoch, FromGps, ntp, ntpWithin), built).clock < s.clock
            <==> epoch.Some? && Plausible(epoch.value) && !(built.Some? && epoch.value < built.value - DAY)
                 && !ntp && epoch.value < s.clock - STEP_EPSILON
  {
  }

  /** How much time has passed in a stretch of events. */
  function Elapsed(events: seq<Event>, m: nat, n: nat): real
    requires m <= n <= |events|
  {
    if m == n then 0.0 else Elapsed(events, m, n - 1) + if events[n - 1].Pass? then events[n - 1].seconds else 0.0
  }

  /** In every stretch of a run whose only events are corrections made under NTP and passing time, the
      clock and its basis are left alone: the clock moves by exactly the time passed. */
  lemma {:induction false} NtpRulesAll(states: seq<State>, events: seq<Event>, built: Option<real>, m: nat, n: nat)
    requires IsRun(states, events, built) && m <= n < |states|
    requires forall k :: m <= k < n ==> events[k].Pass? || (events[k].Correct? && events[k].ntp)
    ensures states[n] == states[m].(clock := states[m].clock + Elapsed(events, m, n))
  {
    if m < n {
      NtpRulesAll(states, events, built, m, n - 1);
      assert states[n] == Next(states[n - 1], events[n - 1], built);
    }
  }

  /** A phone changes a GPS-set clock exactly when NTP becomes synchronised between the two looks at it
      and the phone's plausible time is ahead. */
  lemma PhoneMovesGpsClockWhen(s: State, epoch: Option<real>, built: Option<real>, ntp: bool, ntpWithin: bool)
    requires s.basis == Some(Gps)
    ensures Next(s, Correct(epoch, FromPhone, ntp, ntpWithin), built) != s
            <==> && !ntp && ntpWithin && epoch.Some? && Plausible(epoch.value)
                 && !(built.Some? && epoch.value < built.value - DAY)
                 && !(built.Some? && epoch.value > built.value + PHONE_MAX_AHEAD_OF_BUILD)
                 && epoch.value > s.clock + STEP_EPSILON
  {
  }

  /** Neither a boot, nor a floor step that is recorded, nor NTP arriving inside a correction. */
  predicate KeepsGps(s: State, e: Event, built: Option<real>) {
    match e
    case Boot(_, _, _, _) => false
    case KernelStep(_) => true
    case RtcBackstop(saved) => FloorStep(s.clock, FloorOf(built, saved)) <= 60.0
    case Correct(_, _, ntp, ntpWithin) => ntpWithin ==> ntp
    case Pass(_) => true
  }

  /** Once GPS has set the clock, and until one of those, every phone is ignored. */
  lemma {:induction false} GpsHoldsUntilBoot(states: seq<State>, events: seq<Event>, built: Option<real>,
                                             m: nat, n: nat)
    requires IsRun(states, events, built) && m <= n < |events| && states[m].basis == Some(Gps)
    requires forall k :: m <= k < n ==> KeepsGps(states[k], events[k], built)
    ensures states[n].basis == Some(Gps)
    ensures KeepsGps(states[n], events[n], built) && events[n].Correct? && events[n].source == FromPhone ==>
      states[n + 1] == states[n]
  {
    if m < n {
      GpsHoldsUntilBoot(states, events, built, m, n - 1);
      assert KeepsGps(states[n - 1], events[n - 1], built) && states[n] == Next(states[n - 1], events[n - 1], built);
    }
    assert states[n + 1] == Next(states[n], events[n], built);
  }

  /** After a boot with no NTP the basis is the RTC exactly when the RTC kept time and the clock needed
      no step: nothing else vouches for the clock. */
  lemma RtcVouchesWhen(powerOn: real, floor: Option<Floor>, rtc: Option<real>)
    ensures Booted(powerOn, floor, rtc, false).basis == Some(Rtc)
            <==> && rtc.Some? && rtc.value >= FLOOR_MIN
                 && (floor.None? || (rtc.value >= floor.value.at - 120.0 && powerOn >= floor.value.at - 1.0))
  {
  }
}
