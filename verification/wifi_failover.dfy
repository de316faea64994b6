/**
 The Wi-Fi failover loop of `app.py`: a timer that starts the hotspot when Atlas has had no reachable
 LAN for half a minute. What NetworkManager says, the operations lock and the start's result are inputs.
 */
module WifiFailover {
  import opened Common

  const PATIENCE: real := 30.0

  /** What one pass of the loop learns. */
  datatype Check =
    | Unanswered                                                     // NetworkManager did not answer
    | Raised                                                         // an exception before a decision
    | Answered(lan: bool, unreachable: bool, hotspot: bool, allowed: bool)

  datatype Attempt = Succeeded | Failed | Broke

  datatype Tick = Tick(now: real, check: Check, lockFree: bool, attempt: Attempt)

  datatype State = State(missingLanSince: Option<real>, lastStartAttempt: real)

  const INITIAL: State := State(None, 0.0)

  /** What the loop does about the hotspot. */
  datatype Action = Nothing | StartSaved | DropLanAndRestore

  /** The check saw no reachable LAN, with the hotspot off and the fallback allowed. */
  predicate Deprived(c: Check) {
    c.Answered? && !(c.lan && !c.unreachable) && !c.hotspot && c.allowed
  }

  predicate Starts(s: State, t: Tick) {
    && Deprived(t.check) && s.missingLanSince.Some?
    && t.now - s.missingLanSince.value >= PATIENCE && t.now - s.lastStartAttempt >= PATIENCE
    && t.lockFree
  }

  function ActionOf(s: State, t: Tick): Action {
    if !Starts(s, t) then Nothing else if t.check.lan then DropLanAndRestore else StartSaved
  }

  function Next(s: State, t: Tick): State {
    if !t.check.Answered? then s
    else if !Deprived(t.check) then s.(missingLanSince := None)
    else if s.missingLanSince.None? then s.(missingLanSince := Some(t.now))
    else if !Starts(s, t) then s
    else State(if t.attempt == Succeeded then None else s.missingLanSince, t.now)
  }

  /** The loop's variables. */
  class FailoverLoop {
    var missingLanSince: Option<real>
    var lastStartAttempt: real

    ghost function View(): State
      reads this
    {
      State(missingLanSince, lastStartAttempt)
    }

    constructor ()
      ensures View() == INITIAL
    {
      missingLanSince, lastStartAttempt := None, 0.0;
    }

    /** One pass of `_wifi_failover_loop`. */
    method Pass(t: Tick) returns (action: Action)
      modifies this
      ensures View() == Next(old(View()), t) && action == ActionOf(old(View()), t)
    {
      action := Nothing;
      if !t.check.Answered? { return; }
      var c := t.check;
      if c.lan && !c.unreachable {
        missingLanSince := None;
        return;
      }
      if c.hotspot {
        missingLanSince := None;
        return;
      }
      if !c.allowed {
        missingLanSince := None;
        return;
      }
      if missingLanSince.None? {
        missingLanSince := Some(t.now);
        return;
      }
      if t.now - missingLanSince.value < PATIENCE { return; }
      if t.now - lastStartAttempt < PATIENCE { return; }
      if !t.lockFree { return; }
      lastStartAttempt := t.now;
      action := if c.lan then DropLanAndRestore else StartSaved;
      if t.attempt == Succeeded { missingLanSince := None; }
    }
  }

  // ---------- Runs ----------

  ghost predicate IsRun(states: seq<State>, ticks: seq<Tick>) {
    && |states| == |ticks| + 1 && states[0] == INITIAL
    && (forall k :: 0 <= k < |ticks| ==> states[k + 1] == Next(states[k], ticks[k]))
    && (forall j, k :: 0 <= j <= k < |ticks| ==> ticks[j].now <= ticks[k].now)
  }

  /** Every check from pass `m` on, before pass `n`, that decided anything saw Atlas deprived. */
  ghost predicate DeprivedFrom(ticks: seq<Tick>, m: nat, n: nat)
    requires n <= |ticks|
  {
    forall k :: m <= k < n && ticks[k].check.Answered? ==> Deprived(ticks[k].check)
  }

  /** A running timer was started by a pass that decided, and nothing since spoke against it. */
  lemma {:induction false} TimerHasReason(states: seq<State>, ticks: seq<Tick>, n: nat) returns (m: nat)
    requires IsRun(states, ticks) && n < |states| && states[n].missingLanSince.Some?
    ensures m < n && ticks[m].now == states[n].missingLanSince.value
    ensures Deprived(ticks[m].check) && DeprivedFrom(ticks, m, n)
  {
    assert states[n] == Next(states[n - 1], ticks[n - 1]);
    if states[n - 1].missingLanSince.Some? {
      m := TimerHasReason(states, ticks, n - 1);
    } else {
      m := n - 1;
    }
  }

  /** The hotspot is started only after 30 s in which every check that decided anything saw no reachable
      LAN, the hotspot off and the fallback allowed; checks that decided nothing do not count. */
  lemma StartNeedsThirtySeconds(states: seq<State>, ticks: seq<Tick>, n: nat) returns (m: nat)
    requires IsRun(states, ticks) && n < |ticks| && ActionOf(states[n], ticks[n]) != Nothing
    ensures m < n && ticks[m].now <= ticks[n].now - 30.0
    ensures Deprived(ticks[m].check) && DeprivedFrom(ticks, m, n + 1)
  {
    m := TimerHasReason(states, ticks, n);
  }

  lemma {:induction false} AttemptsAreRemembered(states: seq<State>, ticks: seq<Tick>, i: nat, n: nat)
    requires IsRun(states, ticks) && i < n < |states| && ActionOf(states[i], ticks[i]) != Nothing
    ensures states[n].lastStartAttempt >= ticks[i].now
  {
    assert states[n] == Next(states[n - 1], ticks[n - 1]);
    if i < n - 1 { AttemptsAreRemembered(states, ticks, i, n - 1); }
  }

  /** Automatic starts are at least 30 s apart, whether they succeed or not. */
  lemma StartsAreApart(states: seq<State>, ticks: seq<Tick>, i: nat, j: nat)
    requires IsRun(states, ticks) && i < j < |ticks|
    requires ActionOf(states[i], ticks[i]) != Nothing && ActionOf(states[j], ticks[j]) != Nothing
    ensures ticks[j].now - ticks[i].now >= 30.0
  {
    AttemptsAreRemembered(states, ticks, i, j);
  }

  /** Through passes that saw Atlas deprived or decided nothing, and no successful start, the timer keeps
      the moment it began. */
  lemma {:induction false} TimerKeepsItsStart(states: seq<State>, ticks: seq<Tick>, m: nat, n: nat)
    requires IsRun(states, ticks) && m < n < |states|
    requires states[m].missingLanSince.None? && Deprived(ticks[m].check) && DeprivedFrom(ticks, m, n)
    requires forall k :: m <= k < n ==> ActionOf(states[k], ticks[k]) == Nothing || ticks[k].attempt != Succeeded
    ensures states[n].missingLanSince == Some(ticks[m].now)
  {
    assert states[n] == Next(states[n - 1], ticks[n - 1]);
    if m < n - 1 { TimerKeepsItsStart(states, ticks, m, n - 1); }
  }

  /** Given such a stretch, the next deprived pass starts the hotspot exactly when 30 s have passed since
      the stretch began and since the last attempt, and the operations lock is free. */
  lemma StartsExactlyWhen(states: seq<State>, ticks: seq<Tick>, m: nat, n: nat)
    requires IsRun(states, ticks) && m < n < |ticks|
    requires states[m].missingLanSince.None? && Deprived(ticks[m].check) && DeprivedFrom(ticks, m, n)
    requires forall k :: m <= k < n ==> ActionOf(states[k], ticks[k]) == Nothing || ticks[k].attempt != Succeeded
    requires Deprived(ticks[n].check)
    ensures ActionOf(states[n], ticks[n]) != Nothing
            <==> && ticks[n].now - ticks[m].now >= 30.0 && ticks[n].now - states[n].lastStartAttempt >= 30.0
                 && ticks[n].lockFree
  {
    TimerKeepsItsStart(states, ticks, m, n);
  }

  /** After a check that saw a reachable LAN, a running hotspot or a withdrawn permission, no automatic
      start comes for another 30 s. */
  lemma ResetDelaysStart(states: seq<State>, ticks: seq<Tick>, i: nat, n: nat)
    requires IsRun(states, ticks) && i < n < |ticks|
    requires ticks[i].check.Answered? && !Deprived(ticks[i].check)
    requires ActionOf(states[n], ticks[n]) != Nothing
    ensures ticks[n].now - ticks[i].now >= 30.0
  {
    var m := StartNeedsThirtySeconds(states, ticks, n);
    assert i < m;
  }
}
