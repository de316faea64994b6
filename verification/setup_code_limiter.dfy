/**
 The setup-code rate limit of `pairing.py`: at most 5 failures per address and 20 in all within
 600 s, with any number of claims in flight. A claim reads the clock before it takes the lock, both
 when it checks the limit and when it records its failure.
 */
module SetupCodeLimiter {
  import opened SlidingWindow

  const WINDOW: real := 600.0
  const PER_ADDRESS: nat := 5
  const OVERALL: nat := 20

  function Cap(s: Scope): nat {
    if s == Everyone then OVERALL else PER_ADDRESS
  }

  /** `_failures` and `_global_failures`. */
  datatype Failures = Failures(perAddress: map<string, seq<Time>>, overall: seq<Time>)

  function ListOf(f: Failures, s: Scope): seq<Time> {
    match s
    case Everyone => f.overall
    case From(ip) => if ip in f.perAddress then f.perAddress[ip] else []
  }

  /** What one check leaves: the lists it looked at, without what is too old by its reading of the clock. */
  function Pruned(f: Failures, ip: string, now: Time): Failures {
    Failures(f.perAddress[ip := Recent(ListOf(f, From(ip)), now, WINDOW)], Recent(f.overall, now, WINDOW))
  }

  predicate Limited(f: Failures, ip: string, now: Time) {
    || |Recent(ListOf(f, From(ip)), now, WINDOW)| >= PER_ADDRESS
    || |Recent(f.overall, now, WINDOW)| >= OVERALL
  }

  function Recorded(f: Failures, ip: string, now: Time): Failures {
    Failures(f.perAddress[ip := ListOf(f, From(ip)) + [now]], f.overall + [now])
  }

  /** The module's two lists, each method one locked region; `now` is the clock read before the lock. */
  class Limiter {
    var failures: map<string, seq<Time>>
    var globalFailures: seq<Time>

    ghost function View(): Failures
      reads this
    {
      Failures(failures, globalFailures)
    }

    constructor ()
      ensures View() == Failures(map[], [])
    {
      failures, globalFailures := map[], [];
    }

    /** `_rate_limited`. */
    method RateLimited(ip: string, now: Time) returns (limited: bool)
      modifies this
      ensures View() == Pruned(old(View()), ip, now)
      ensures limited == Limited(old(View()), ip, now)
    {
      var recent := if ip in failures then Recent(failures[ip], now, WINDOW) else [];
      failures := failures[ip := recent];
      globalFailures := Recent(globalFailures, now, WINDOW);
      return |recent| >= PER_ADDRESS || |globalFailures| >= OVERALL;
    }

    /** `_record_failure`. */
    method RecordFailure(ip: string, now: Time)
      modifies this
      ensures View() == Recorded(old(View()), ip, now)
    {
      var list := if ip in failures then failures[ip] else [];
      failures := failures[ip := list + [now]];
      globalFailures := globalFailures + [now];
    }

    /** `claim_with_setup_code`, with nothing in between: the code's verdict and two clock readings. */
    method Claim(ip: string, codeMatches: bool, checkedAt: Time, failedAt: Time) returns (issued: bool)
      modifies this
      ensures issued <==> !Limited(old(View()), ip, checkedAt) && codeMatches
      ensures var pruned := Pruned(old(View()), ip, checkedAt);
              View() == if Limited(old(View()), ip, checkedAt) || codeMatches then pruned
                        else Recorded(pruned, ip, failedAt)
    {
      var limited := RateLimited(ip, checkedAt);
      if limited { return false; }
      if !codeMatches {
        RecordFailure(ip, failedAt);
        return false;
      }
      return true;
    }
  }

  // ---------- Claims in flight ----------

  /** Where a claim is; one slot for each claim that can be in flight at once. */
  datatype Stage =
    | Free
    | Asking(ip: string, now: Time)    // has read the clock, about to check
    | Passed(ip: string)               // not limited; the code is being compared
    | Failing(ip: string, now: Time)   // wrong code, has read the clock, about to record

  /** `recorded` is every failure ever recorded. */
  datatype State = State(clock: Time, failures: Failures, slots: seq<Stage>, recorded: seq<Event>)

  datatype Step =
    | Advance(clock: Time)
    | Ask(slot: nat, ip: string)
    | Check(slot: nat)
    | Match(slot: nat)
    | Mismatch(slot: nat)
    | Record(slot: nat)

  predicate Enabled(s: State, step: Step) {
    match step
    case Advance(clock) => s.clock <= clock
    case Ask(i, _) => i < |s.slots| && s.slots[i].Free?
    case Check(i) => i < |s.slots| && s.slots[i].Asking?
    case Match(i) => i < |s.slots| && s.slots[i].Passed?
    case Mismatch(i) => i < |s.slots| && s.slots[i].Passed?
    case Record(i) => i < |s.slots| && s.slots[i].Failing?
  }

  function Next(s: State, step: Step): State
    requires Enabled(s, step)
  {
    match step
    case Advance(clock) => s.(clock := clock)
    case Ask(i, ip) => s.(slots := s.slots[i := Asking(ip, s.clock)])
    case Check(i) =>
      var ip, now := s.slots[i].ip, s.slots[i].now;
      s.(failures := Pruned(s.failures, ip, now),
         slots := s.slots[i := if Limited(s.failures, ip, now) then Free else Passed(ip)])
    case Match(i) => s.(slots := s.slots[i := Free])
    case Mismatch(i) => s.(slots := s.slots[i := Failing(s.slots[i].ip, s.clock)])
    case Record(i) =>
      var ip, now := s.slots[i].ip, s.slots[i].now;
      s.(failures := Recorded(s.failures, ip, now), slots := s.slots[i := Free],
         recorded := s.recorded + [Event(ip, now)])
  }

  function Initial(claims: nat, clock: Time): State {
    State(clock, Failures(map[], []), seq(claims, _ => Free), [])
  }

  /** The claim in a slot may still add a failure to the window that starts at `w`. */
  predicate MayAdd(stage: Stage, s: Scope, w: Time, clock: Time) {
    || (stage.Passed? && InScope(s, stage.ip) && clock < w + WINDOW)
    || (stage.Failing? && InScope(s, stage.ip) && w <= stage.now < w + WINDOW)
  }

  function Pending(slots: seq<Stage>, s: Scope, w: Time, clock: Time): nat {
    if slots == [] then 0 else One(MayAdd(slots[0], s, w, clock)) + Pending(slots[1..], s, w, clock)
  }

  lemma {:induction false} PendingAtMostAll(slots: seq<Stage>, s: Scope, w: Time, clock: Time)
    ensures Pending(slots, s, w, clock) <= |slots|
  {
    if slots != [] { PendingAtMostAll(slots[1..], s, w, clock); }
  }

  lemma {:induction false} PendingUpdate(slots: seq<Stage>, i: nat, stage: Stage, s: Scope, w: Time, clock: Time)
    requires i < |slots|
    ensures Pending(slots[i := stage], s, w, clock) + One(MayAdd(slots[i], s, w, clock))
         == Pending(slots, s, w, clock) + One(MayAdd(stage, s, w, clock))
  {
    var after := slots[i := stage];
    hide MayAdd;
    if i == 0 {
      assert after[1..] == slots[1..];
    } else {
      assert after[1..] == slots[1..][i - 1 := stage];
      PendingUpdate(slots[1..], i - 1, stage, s, w, clock);
    }
  }

  lemma {:induction false} PendingLater(slots: seq<Stage>, s: Scope, w: Time, clock: Time, later: Time)
    requires clock <= later
    ensures Pending(slots, s, w, later) <= Pending(slots, s, w, clock)
  {
    if slots != [] { PendingLater(slots[1..], s, w, clock, later); }
  }

  // ---------- What every run keeps ----------

  /** No clock reading lies ahead of the clock. */
  predicate PastTimes(s: State) {
    && (forall k :: 0 <= k < |s.recorded| ==> s.recorded[k].at <= s.clock)
    && (forall i :: 0 <= i < |s.slots| ==> (s.slots[i].Asking? || s.slots[i].Failing?) ==> s.slots[i].now <= s.clock)
  }

  /** The lists still hold every failure younger than the window. */
  ghost predicate ListsComplete(s: State) {
    forall scope: Scope, x: Time | s.clock - WINDOW < x ::
      Since(ListOf(s.failures, scope), x) == Since(TimesOf(s.recorded, scope), x)
  }

  /** Recorded and still possible failures of any window. */
  ghost predicate WindowsBounded(s: State) {
    forall scope: Scope, w: Time ::
      InWindow(s.recorded, scope, w, WINDOW) + Pending(s.slots, scope, w, s.clock) <= Cap(scope) - 1 + |s.slots|
  }

  ghost predicate Inv(s: State) {
    PastTimes(s) && ListsComplete(s) && WindowsBounded(s)
  }

  lemma InitialInv(claims: nat, clock: Time)
    ensures Inv(Initial(claims, clock))
  {
    var s := Initial(claims, clock);
    forall scope: Scope, w: Time
      ensures InWindow(s.recorded, scope, w, WINDOW) + Pending(s.slots, scope, w, s.clock) <= Cap(scope) - 1 + |s.slots|
    {
      PendingAtMostAll(s.slots, scope, w, s.clock);
    }
  }

  lemma NextKeepsLists(s: State, step: Step)
    requires PastTimes(s) && ListsComplete(s) && Enabled(s, step)
    ensures ListsComplete(Next(s, step))
  {
    hide Since, Recent, TimesOf;
    var t := Next(s, step);
    forall scope: Scope, x: Time | t.clock - WINDOW < x
      ensures Since(ListOf(t.failures, scope), x) == Since(TimesOf(t.recorded, scope), x)
    {
      match step
      case Check(i) =>
        var now := s.slots[i].now;
        RecentKeeps(ListOf(s.failures, scope), now, WINDOW, x);
      case Record(i) =>
        var ip, now := s.slots[i].ip, s.slots[i].now;
        TimesAppend(s.recorded, Event(ip, now), scope);
        SinceAppend(ListOf(s.failures, scope), now, x);
        SinceAppend(TimesOf(s.recorded, scope), now, x);
        assert TimesOf(s.recorded, scope) + [] == TimesOf(s.recorded, scope);
      case _ =>
    }
  }

  /** A claim that passes its check found fewer failures than the cap in every open window. */
  lemma PassFindsFew(s: State, i: nat, scope: Scope, w: Time)
    requires PastTimes(s) && ListsComplete(s) && Enabled(s, Check(i))
    requires !Limited(s.failures, s.slots[i].ip, s.slots[i].now)
    requires InScope(scope, s.slots[i].ip) && s.clock < w + WINDOW
    ensures InWindow(s.recorded, scope, w, WINDOW) <= Cap(scope) - 1
  {
    var now := s.slots[i].now;
    var list := ListOf(s.failures, scope);
    OpenWindow(s.recorded, scope, w, WINDOW);
    RecentKeeps(list, now, WINDOW, w);
    SinceAtMostAll(Recent(list, now, WINDOW), w);
  }

  lemma NextKeepsWindows(s: State, step: Step)
    requires Inv(s) && Enabled(s, step)
    ensures WindowsBounded(Next(s, step))
  {
    var t := Next(s, step);
    forall scope: Scope, w: Time
      ensures InWindow(t.recorded, scope, w, WINDOW) + Pending(t.slots, scope, w, t.clock) <= Cap(scope) - 1 + |t.slots|
    {
      WindowStaysBounded(s, step, scope, w);
    }
  }

  lemma WindowStaysBounded(s: State, step: Step, scope: Scope, w: Time)
    requires Inv(s) && Enabled(s, step)
    ensures var t := Next(s, step);
            InWindow(t.recorded, scope, w, WINDOW) + Pending(t.slots, scope, w, t.clock) <= Cap(scope) - 1 + |t.slots|
  {
    hide Recent, ListOf, Pruned, Recorded, Limited, InWindow, Pending;
    var t := Next(s, step);
    match step
    case Advance(clock) => PendingLater(s.slots, scope, w, s.clock, clock);
    case Ask(i, ip) => PendingUpdate(s.slots, i, t.slots[i], scope, w, s.clock);
    case Check(i) =>
      PendingUpdate(s.slots, i, t.slots[i], scope, w, s.clock);
      PendingAtMostAll(t.slots, scope, w, s.clock);
      if MayAdd(t.slots[i], scope, w, s.clock) { PassFindsFew(s, i, scope, w); }
    case Match(i) => PendingUpdate(s.slots, i, Free, scope, w, s.clock);
    case Mismatch(i) => PendingUpdate(s.slots, i, t.slots[i], scope, w, s.clock);
    case Record(i) =>
      PendingUpdate(s.slots, i, Free, scope, w, s.clock);
      InWindowAppend(s.recorded, Event(s.slots[i].ip, s.slots[i].now), scope, w, WINDOW);
  }

  lemma NextKeepsPast(s: State, step: Step)
    requires PastTimes(s) && Enabled(s, step)
    ensures PastTimes(Next(s, step))
  {
    hide Pruned, Recorded, Limited;
  }

  ghost predicate IsRun(states: seq<State>, steps: seq<Step>) {
    && |states| == |steps| + 1
    && (forall k :: 0 <= k < |steps| ==> Enabled(states[k], steps[k]) && states[k + 1] == Next(states[k], steps[k]))
  }

  lemma {:induction false} RunKeepsInv(states: seq<State>, steps: seq<Step>, n: nat)
    requires IsRun(states, steps) && Inv(states[0]) && n < |states|
    ensures Inv(states[n]) && |states[n].slots| == |states[0].slots|
  {
    if n > 0 {
      RunKeepsInv(states, steps, n - 1);
      var s, step := states[n - 1], steps[n - 1];
      assert Enabled(s, step) && states[n] == Next(s, step);
      NextKeepsPast(s, step);
      NextKeepsLists(s, step);
      NextKeepsWindows(s, step);
      hide Inv, Enabled;
      assert |states[n].slots| == |s.slots|;
    }
  }

  /** With at most `claims` claims in flight, no window of 600 s ever holds more than 4 + claims failures
      of one address, or 19 + claims in all. */
  lemma FailuresStayBounded(claims: nat, clock: Time, states: seq<State>, steps: seq<Step>, n: nat, ip: string, w: Time)
    requires IsRun(states, steps) && states[0] == Initial(claims, clock) && n < |states|
    ensures InWindow(states[n].recorded, From(ip), w, WINDOW) <= 4 + claims
    ensures InWindow(states[n].recorded, Everyone, w, WINDOW) <= 19 + claims
  {
    InitialInv(claims, clock);
    RunKeepsInv(states, steps, n);
    var s := states[n];
    assert InWindow(s.recorded, From(ip), w, WINDOW) + Pending(s.slots, From(ip), w, s.clock) <= 4 + |s.slots|;
    assert InWindow(s.recorded, Everyone, w, WINDOW) + Pending(s.slots, Everyone, w, s.clock) <= 19 + |s.slots|;
  }

  // ---------- Runs that reach the bounds ----------

  ghost predicate Reaches(s: State, t: State) {
    exists states, steps :: IsRun(states, steps) && states[0] == s && states[|steps|] == t
  }

  lemma Start(s: State)
    ensures Reaches(s, s)
  {
    assert IsRun([s], []) && [s][0] == s;
  }

  lemma Advanced(s: State, t: State, step: Step)
    requires Reaches(s, t) && Enabled(t, step)
    ensures Reaches(s, Next(t, step))
  {
    var states, steps :| IsRun(states, steps) && states[0] == s && states[|steps|] == t;
    var u := Next(t, step);
    hide Next, Enabled;
    RunGrows(states, steps, step, u);
    assert (states + [u])[0] == s && (states + [u])[|steps + [step]|] == u;
    hide IsRun;
  }

  lemma RunGrows(states: seq<State>, steps: seq<Step>, step: Step, u: State)
    requires IsRun(states, steps) && Enabled(states[|steps|], step) && u == Next(states[|steps|], step)
    ensures IsRun(states + [u], steps + [step])
  {
    var longer, more := states + [u], steps + [step];
    hide Next, Enabled;
    forall k | 0 <= k < |more|
      ensures Enabled(longer[k], more[k]) && longer[k + 1] == Next(longer[k], more[k])
    {
      if k < |steps| { assert longer[k] == states[k] && longer[k + 1] == states[k + 1]; }
    }
  }

  /** Everything so far happened at one instant, and the lists hold every failure. */
  ghost predicate AtOnce(s: State) {
    && (forall k :: 0 <= k < |s.recorded| ==> s.recorded[k].at == s.clock)
    && (forall scope :: ListOf(s.failures, scope) == TimesOf(s.recorded, scope))
  }

  lemma {:induction false} NothingOld(times: seq<Time>, now: Time)
    requires forall k :: 0 <= k < |times| ==> times[k] == now
    ensures Recent(times, now, WINDOW) == times
  {
    if times != [] {
      assert times == [times[0]] + times[1..];
      NothingOld(times[1..], now);
    }
  }

  lemma {:induction false} AllAt(events: seq<Event>, scope: Scope, at: Time)
    requires forall k :: 0 <= k < |events| ==> events[k].at == at
    ensures forall k :: 0 <= k < |TimesOf(events, scope)| ==> TimesOf(events, scope)[k] == at
  {
    if events != [] { AllAt(events[1..], scope, at); }
  }

  /** A claim may pass: its address has failed fewer than 5 times and everyone fewer than 20. */
  ghost predicate MayPass(recorded: seq<Event>, ip: string) {
    |TimesOf(recorded, From(ip))| < PER_ADDRESS && |TimesOf(recorded, Everyone)| < OVERALL
  }

  lemma NotLimited(t: State, ip: string)
    requires AtOnce(t) && MayPass(t.recorded, ip)
    ensures !Limited(t.failures, ip, t.clock)
    ensures Recent(ListOf(t.failures, From(ip)), t.clock, WINDOW) == ListOf(t.failures, From(ip))
    ensures Recent(t.failures.overall, t.clock, WINDOW) == t.failures.overall
  {
    assert ListOf(t.failures, Everyone) == TimesOf(t.recorded, Everyone);
    assert ListOf(t.failures, From(ip)) == TimesOf(t.recorded, From(ip));
    AllAt(t.recorded, From(ip), t.clock);
    AllAt(t.recorded, Everyone, t.clock);
    hide Recent, TimesOf;
    NothingOld(ListOf(t.failures, From(ip)), t.clock);
    NothingOld(t.failures.overall, t.clock);
  }

  /** Pruning then drops nothing. */
  lemma PrunedIsSame(f: Failures, ip: string, now: Time, scope: Scope)
    requires Recent(ListOf(f, From(ip)), now, WINDOW) == ListOf(f, From(ip))
    requires Recent(f.overall, now, WINDOW) == f.overall
    ensures ListOf(Pruned(f, ip, now), scope) == ListOf(f, scope)
  {
    hide Recent;
  }

  /** A free slot passes its check. */
  lemma Passes(s: State, t: State, i: nat, ip: string) returns (u: State)
    requires Reaches(s, t) && AtOnce(t) && i < |t.slots| && t.slots[i].Free? && MayPass(t.recorded, ip)
    ensures Reaches(s, u) && AtOnce(u) && u.clock == t.clock && u.recorded == t.recorded
    ensures u.slots == t.slots[i := Passed(ip)]
  {
    NotLimited(t, ip);
    Advanced(s, t, Ask(i, ip));
    var a := Next(t, Ask(i, ip));
    Advanced(s, a, Check(i));
    u := Next(a, Check(i));
    hide Reaches, Recent, TimesOf, Limited, MayPass;
    assert t.slots[i := Asking(ip, t.clock)][i := Passed(ip)] == t.slots[i := Passed(ip)];
    assert u.failures == Pruned(t.failures, ip, t.clock);
    forall scope
      ensures ListOf(u.failures, scope) == TimesOf(u.recorded, scope)
    {
      PrunedIsSame(t.failures, ip, t.clock, scope);
    }
    hide Pruned, ListOf;
  }

  /** A claim that has passed fails. */
  lemma Fails(s: State, t: State, i: nat, ip: string) returns (u: State)
    requires Reaches(s, t) && AtOnce(t) && i < |t.slots| && t.slots[i] == Passed(ip)
    ensures Reaches(s, u) && AtOnce(u) && u.clock == t.clock && u.recorded == t.recorded + [Event(ip, t.clock)]
    ensures u.slots == t.slots[i := Free]
  {
    Advanced(s, t, Mismatch(i));
    var a := Next(t, Mismatch(i));
    Advanced(s, a, Record(i));
    u := Next(a, Record(i));
    hide Reaches, TimesOf;
    forall scope
      ensures ListOf(u.failures, scope) == TimesOf(u.recorded, scope)
    {
      TimesAppend(t.recorded, Event(ip, t.clock), scope);
      ListAppend(t.failures, ip, t.clock, scope);
    }
    assert t.slots[i := Failing(ip, t.clock)][i := Free] == t.slots[i := Free];
    hide ListOf, Recorded;
  }

  lemma ListAppend(f: Failures, ip: string, now: Time, scope: Scope)
    ensures ListOf(Recorded(f, ip, now), scope) == ListOf(f, scope) + (if InScope(scope, ip) then [now] else [])
  {
    assert ListOf(f, scope) + [] == ListOf(f, scope);
  }

  /** Failures at one instant. */
  function FailuresOf(addresses: seq<string>, at: Time): seq<Event> {
    seq(|addresses|, k requires 0 <= k < |addresses| => Event(addresses[k], at))
  }

  function FreeSlots(claims: nat): seq<Stage> {
    seq(claims, _ => Free)
  }

  /** Claims that fail one after the other, as long as each may pass. */
  lemma {:induction false} FailInTurn(claims: nat, clock: Time, addresses: seq<string>) returns (t: State)
    requires claims >= 1
    requires forall k :: 0 <= k < |addresses| ==> MayPass(FailuresOf(addresses[..k], clock), addresses[k])
    ensures Reaches(Initial(claims, clock), t) && AtOnce(t)
    ensures t.clock == clock && t.slots == FreeSlots(claims) && t.recorded == FailuresOf(addresses, clock)
  {
    var s, n := Initial(claims, clock), |addresses|;
    if n == 0 {
      t := s;
      Start(s);
      hide Reaches;
    } else {
      var init := addresses[..n - 1];
      forall k | 0 <= k < |init|
        ensures MayPass(FailuresOf(init[..k], clock), init[k])
      {
        assert init[..k] == addresses[..k];
      }
      FailuresGrow(addresses, clock);
      hide Reaches, AtOnce, MayPass, Initial, FailuresOf;
      t := FailInTurn(claims, clock, init);
      t := Passes(s, t, 0, addresses[n - 1]);
      t := Fails(s, t, 0, addresses[n - 1]);
    }
  }

  lemma FailuresGrow(addresses: seq<string>, clock: Time)
    requires addresses != []
    ensures var n := |addresses| - 1;
            FailuresOf(addresses, clock) == FailuresOf(addresses[..n], clock) + [Event(addresses[n], clock)]
  {
  }

  /** The first `k` slots hold claims that have passed. */
  function PassedSlots(k: nat, claims: nat, ip: string): seq<Stage>
    requires k <= claims
  {
    seq(claims, i => if i < k then Passed(ip) else Free)
  }

  lemma {:induction false} PassTogether(s: State, t: State, claims: nat, k: nat, ip: string) returns (u: State)
    requires Reaches(s, t) && AtOnce(t) && t.slots == FreeSlots(claims) && MayPass(t.recorded, ip) && k <= claims
    ensures Reaches(s, u) && AtOnce(u) && u.clock == t.clock && u.recorded == t.recorded
    ensures u.slots == PassedSlots(k, claims, ip)
  {
    hide Reaches, AtOnce, MayPass;
    if k == 0 {
      u := t;
    } else {
      u := PassTogether(s, t, claims, k - 1, ip);
      u := Passes(s, u, k - 1, ip);
      assert PassedSlots(k - 1, claims, ip)[k - 1 := Passed(ip)] == PassedSlots(k, claims, ip);
    }
  }

  lemma {:induction false} FailTogether(s: State, t: State, claims: nat, k: nat, ip: string) returns (u: State)
    requires Reaches(s, t) && AtOnce(t) && k <= claims && t.slots == PassedSlots(k, claims, ip)
    ensures Reaches(s, u) && u.recorded == t.recorded + seq(k, _ => Event(ip, t.clock))
    decreases k
  {
    hide Reaches, AtOnce;
    if k == 0 {
      u := t;
    } else {
      var v := Fails(s, t, k - 1, ip);
      assert PassedSlots(k, claims, ip)[k - 1 := Free] == PassedSlots(k - 1, claims, ip);
      u := FailTogether(s, v, claims, k - 1, ip);
      assert [Event(ip, t.clock)] + seq(k - 1, _ => Event(ip, t.clock)) == seq(k, _ => Event(ip, t.clock));
    }
  }

  lemma {:induction false} AllInWindow(events: seq<Event>, scope: Scope, at: Time)
    requires forall k :: 0 <= k < |events| ==> InScope(scope, events[k].source) && events[k].at == at
    ensures InWindow(events, scope, at, WINDOW) == |events| == |TimesOf(events, scope)|
  {
    if events != [] { AllInWindow(events[1..], scope, at); }
  }

  /** Distinct addresses. */
  function Address(k: nat): string {
    seq(k, _ => '.')
  }

  lemma {:induction false} NeverFailed(events: seq<Event>, ip: string)
    requires forall k :: 0 <= k < |events| ==> events[k].source != ip
    ensures TimesOf(events, From(ip)) == []
  {
    if events != [] { NeverFailed(events[1..], ip); }
  }

  /** After some failures that leave the limit one short, all claims pass together and then fail. */
  lemma OneShort(claims: nat, clock: Time, addresses: seq<string>, ip: string) returns (t: State)
    requires claims >= 1 && MayPass(FailuresOf(addresses, clock), ip)
    requires forall k :: 0 <= k < |addresses| ==> MayPass(FailuresOf(addresses[..k], clock), addresses[k])
    ensures Reaches(Initial(claims, clock), t)
    ensures t.recorded == FailuresOf(addresses, clock) + seq(claims, _ => Event(ip, clock))
  {
    hide Reaches, AtOnce, MayPass;
    t := FailInTurn(claims, clock, addresses);
    t := PassTogether(Initial(claims, clock), t, claims, claims, ip);
    t := FailTogether(Initial(claims, clock), t, claims, claims, ip);
  }

  /** Four failures of an address, then all claims at once. */
  lemma AddressBoundIsReached(claims: nat, clock: Time, ip: string) returns (t: State)
    requires claims >= 1
    ensures Reaches(Initial(claims, clock), t) && InWindow(t.recorded, From(ip), clock, WINDOW) == 4 + claims
  {
    var four := [ip, ip, ip, ip];
    forall k | 0 <= k <= 4
      ensures MayPass(FailuresOf(four[..k], clock), ip)
    {
      AllInWindow(FailuresOf(four[..k], clock), From(ip), clock);
      AllInWindow(FailuresOf(four[..k], clock), Everyone, clock);
    }
    assert four[..4] == four;
    hide Reaches, MayPass;
    t := OneShort(claims, clock, four, ip);
    AllInWindow(t.recorded, From(ip), clock);
  }

  /** Nineteen failures of as many addresses, then all claims at once from another. */
  lemma OverallBoundIsReached(claims: nat, clock: Time) returns (t: State)
    requires claims >= 1
    ensures Reaches(Initial(claims, clock), t) && InWindow(t.recorded, Everyone, clock, WINDOW) == 19 + claims
  {
    var many := seq(19, k requires 0 <= k < 19 => Address(k));
    forall k | 0 <= k <= 19
      ensures MayPass(FailuresOf(many[..k], clock), Address(k))
    {
      AllInWindow(FailuresOf(many[..k], clock), Everyone, clock);
      AddressesDiffer(many[..k], k);
      NeverFailed(FailuresOf(many[..k], clock), Address(k));
    }
    assert many[..19] == many;
    hide Reaches, MayPass;
    t := OneShort(claims, clock, many, Address(19));
    AllInWindow(t.recorded, Everyone, clock);
  }

  lemma AddressesDiffer(addresses: seq<string>, n: nat)
    requires forall k :: 0 <= k < |addresses| ==> k < n && addresses[k] == Address(k)
    ensures forall k :: 0 <= k < |addresses| ==> addresses[k] != Address(n)
  {
    forall k | 0 <= k < |addresses|
      ensures addresses[k] != Address(n)
    {
      assert |addresses[k]| == k;
    }
  }

  /** Some run with so many claims in flight puts more failures into a window than the limit: five of an
      address, or twenty in all. */
  ghost predicate CanPassLimit(claims: nat, clock: Time, scope: Scope) {
    exists t, w :: Reaches(Initial(claims, clock), t) && InWindow(t.recorded, scope, w, WINDOW) > Cap(scope)
  }

  /** Each limit can be passed within 600 s exactly when two claims can be in flight together. */
  lemma LimitPassedExactlyWhen(claims: nat, clock: Time, scope: Scope)
    ensures CanPassLimit(claims, clock, scope) <==> claims >= 2
  {
    hide InWindow;
    if claims >= 2 {
      match scope {
        case From(ip) => var t := AddressBoundIsReached(claims, clock, ip);
        case Everyone => var t := OverallBoundIsReached(claims, clock);
      }
    }
    if t, w :| Reaches(Initial(claims, clock), t) && InWindow(t.recorded, scope, w, WINDOW) > Cap(scope) {
      var states, steps :| IsRun(states, steps) && states[0] == Initial(claims, clock) && states[|steps|] == t;
      var ip := if scope.From? then scope.source else "";
      FailuresStayBounded(claims, clock, states, steps, |steps|, ip, w);
    }
  }
}
