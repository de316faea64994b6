/** The reply limit of `lan_beacon.py`: at most 5 replies per source within 10 s, though the log is purged. */
module BeaconLimiter {
  import opened SlidingWindow

  const REPLY_BURST: nat := 5
  const REPLY_WINDOW: real := 10.0
  const LOG_LIMIT: nat := 1024

  type ReplyLog = map<string, seq<Time>>

  function LogOf(log: ReplyLog, source: string): seq<Time> {
    if source in log then log[source] else []
  }

  /** A log entry survives the purge: its last reply is inside the window. */
  predicate Survives(times: seq<Time>, now: Time) {
    times != [] && now - times[|times| - 1] < REPLY_WINDOW
  }

  function Purged(log: ReplyLog, now: Time): ReplyLog {
    map k | k in log && Survives(log[k], now) :: log[k]
  }

  predicate MayReply(log: ReplyLog, source: string, now: Time) {
    |Recent(LogOf(log, source), now, REPLY_WINDOW)| < REPLY_BURST
  }

  /** The log after a probe from a source. */
  function Noted(log: ReplyLog, source: string, now: Time): ReplyLog {
    var recent := Recent(LogOf(log, source), now, REPLY_WINDOW);
    if |recent| >= REPLY_BURST then log[source := recent]
    else
      var longer := log[source := recent + [now]];
      if |longer| > LOG_LIMIT then Purged(longer, now) else longer
  }

  class LanBeacon {
    var replyLog: ReplyLog

    constructor ()
      ensures replyLog == map[]
    {
      replyLog := map[];
    }

    /** `_reply_allowed`. */
    method ReplyAllowed(source: string, now: Time) returns (allowed: bool)
      modifies this
      ensures allowed == MayReply(old(replyLog), source, now)
      ensures replyLog == Noted(old(replyLog), source, now)
    {
      var recent := Recent(if source in replyLog then replyLog[source] else [], now, REPLY_WINDOW);
      if |recent| >= REPLY_BURST {
        replyLog := replyLog[source := recent];
        return false;
      }
      recent := recent + [now];
      replyLog := replyLog[source := recent];
      if |replyLog| > LOG_LIMIT {
        replyLog := map k | k in replyLog && replyLog[k] != [] && now - replyLog[k][|replyLog[k]| - 1] < REPLY_WINDOW
          :: replyLog[k];
      }
      return true;
    }
  }

  // ---------- Runs ----------

  /** A probe and when it is answered; the clock never goes back. */
  datatype Probe = Probe(source: string, at: Time)

  /** `replies` is every reply ever sent. */
  datatype State = State(clock: Time, log: ReplyLog, replies: seq<Event>)

  function Next(s: State, p: Probe): State {
    State(p.at, Noted(s.log, p.source, p.at),
          if MayReply(s.log, p.source, p.at) then s.replies + [Event(p.source, p.at)] else s.replies)
  }

  ghost predicate IsRun(states: seq<State>, probes: seq<Probe>) {
    && |states| == |probes| + 1 && states[0].log == map[] && states[0].replies == []
    && forall k :: 0 <= k < |probes| ==> states[k].clock <= probes[k].at && states[k + 1] == Next(states[k], probes[k])
  }

  /** Each source's times are in order, and none lies ahead of the clock. */
  predicate Ordered(s: State) {
    && (forall k :: 0 <= k < |s.replies| ==> s.replies[k].at <= s.clock)
    && (forall k <- s.log :: InOrder(s.log[k], s.clock))
  }

  predicate InOrder(times: seq<Time>, limit: Time) {
    && (forall i, j :: 0 <= i <= j < |times| ==> times[i] <= times[j])
    && (forall i :: 0 <= i < |times| ==> times[i] <= limit)
  }

  /** The log knows every reply younger than the window. */
  ghost predicate Complete(s: State) {
    forall source: string, x: Time | s.clock - REPLY_WINDOW < x ::
      Since(LogOf(s.log, source), x) == Since(TimesOf(s.replies, From(source)), x)
  }

  ghost predicate Bounded(s: State) {
    forall source: string, w: Time :: InWindow(s.replies, From(source), w, REPLY_WINDOW) <= REPLY_BURST
  }

  lemma {:induction false} RecentInOrder(times: seq<Time>, now: Time, limit: Time)
    requires InOrder(times, limit)
    ensures InOrder(Recent(times, now, REPLY_WINDOW), limit)
  {
    if times != [] {
      var rest := Recent(times[1..], now, REPLY_WINDOW);
      RecentInOrder(times[1..], now, limit);
      RecentAre(times[1..], now, REPLY_WINDOW);
      RecentStep(times, now);
      hide Recent;
      forall i | 0 <= i < |rest|
        ensures times[0] <= rest[i]
      {
        assert rest[i] in times[1..];
      }
    }
  }

  lemma RecentStep(times: seq<Time>, now: Time)
    requires times != []
    ensures var rest := Recent(times[1..], now, REPLY_WINDOW);
            Recent(times, now, REPLY_WINDOW) == if now - times[0] < REPLY_WINDOW then [times[0]] + rest else rest
  {
  }

  lemma NextOrdered(s: State, p: Probe)
    requires Ordered(s) && s.clock <= p.at
    ensures Ordered(Next(s, p))
  {
    hide Recent;
    var t := Next(s, p);
    var recent := Recent(LogOf(s.log, p.source), p.at, REPLY_WINDOW);
    RecentInOrder(LogOf(s.log, p.source), p.at, s.clock);
    assert InOrder(recent + [p.at], p.at);
    forall k | k in t.log
      ensures InOrder(t.log[k], t.clock)
    {
      if k != p.source { assert t.log[k] == s.log[k]; }
    }
  }

  /** The purge drops nothing younger than the window. */
  lemma PurgeKeeps(log: ReplyLog, now: Time, source: string, x: Time)
    requires now - REPLY_WINDOW < x && InOrder(LogOf(log, source), now)
    ensures Since(LogOf(Purged(log, now), source), x) == Since(LogOf(log, source), x)
  {
    var times := LogOf(log, source);
    if source in log && !Survives(times, now) && times != [] {
      SinceNone(times, x);
    }
  }

  lemma NextComplete(s: State, p: Probe, source: string, x: Time)
    requires Ordered(s) && Complete(s) && s.clock <= p.at && p.at - REPLY_WINDOW < x
    ensures Since(LogOf(Next(s, p).log, source), x) == Since(TimesOf(Next(s, p).replies, From(source)), x)
  {
    var sent := TimesOf(s.replies, From(source));
    assert Since(LogOf(s.log, source), x) == Since(sent, x);
    NotedKeeps(s.log, p.source, p.at, s.clock, source, x);
    TimesAppend(s.replies, Event(p.source, p.at), From(source));
    SinceAppend(sent, p.at, x);
    hide Recent, Since, TimesOf, LogOf, Noted, MayReply, Ordered, Complete;
    assert sent + [] == sent;
  }

  /** What noting a probe does to the count of any source. */
  lemma NotedKeeps(log: ReplyLog, from: string, now: Time, clock: Time, source: string, x: Time)
    requires (forall k <- log :: InOrder(log[k], clock)) && clock <= now && now - REPLY_WINDOW < x
    ensures Since(LogOf(Noted(log, from, now), source), x)
         == Since(LogOf(log, source), x) + One(MayReply(log, from, now) && source == from && now >= x)
  {
    var recent := Recent(LogOf(log, from), now, REPLY_WINDOW);
    RecentKeeps(LogOf(log, from), now, REPLY_WINDOW, x);
    SinceAppend(recent, now, x);
    NotedInOrder(log, from, now, clock, source);
    hide Recent, Since, Purged, InOrder;
    if |recent| < REPLY_BURST {
      PurgeKeeps(log[from := recent + [now]], now, source, x);
    }
  }

  lemma NotedInOrder(log: ReplyLog, from: string, now: Time, clock: Time, source: string)
    requires (forall k <- log :: InOrder(log[k], clock)) && clock <= now
    ensures InOrder(LogOf(log[from := Recent(LogOf(log, from), now, REPLY_WINDOW) + [now]], source), now)
  {
    RecentInOrder(LogOf(log, from), now, clock);
    hide Recent;
  }

  /** A reply goes out exactly when fewer than five went to the source within the last ten seconds. */
  lemma ReplyIffFew(s: State, p: Probe)
    requires Ordered(s) && Complete(s) && s.clock <= p.at
    ensures MayReply(s.log, p.source, p.at)
            <==> |Recent(TimesOf(s.replies, From(p.source)), p.at, REPLY_WINDOW)| < REPLY_BURST
  {
    var logged, sent := LogOf(s.log, p.source), TimesOf(s.replies, From(p.source));
    var a, b := Recent(logged, p.at, REPLY_WINDOW), Recent(sent, p.at, REPLY_WINDOW);
    RecentAre(logged, p.at, REPLY_WINDOW);
    RecentAre(sent, p.at, REPLY_WINDOW);
    var y := LowestOf(b, p.at, p.at);
    var x := LowestOf(a, y, p.at);
    SameRecent(logged, p.at, x);
    SameRecent(sent, p.at, x);
    assert Since(logged, x) == Since(sent, x);
  }

  /** A bound above the window's open end that no recent time lies below. */
  lemma {:induction false} LowestOf(times: seq<Time>, x: Time, now: Time) returns (low: Time)
    requires now - REPLY_WINDOW < x && forall k :: 0 <= k < |times| ==> now - times[k] < REPLY_WINDOW
    ensures now - REPLY_WINDOW < low <= x && forall k :: 0 <= k < |times| ==> low <= times[k]
  {
    if times == [] { return x; }
    low := LowestOf(times[1..], if times[0] < x then times[0] else x, now);
  }

  lemma SameRecent(times: seq<Time>, now: Time, x: Time)
    requires now - REPLY_WINDOW < x
    requires forall k :: 0 <= k < |Recent(times, now, REPLY_WINDOW)| ==> x <= Recent(times, now, REPLY_WINDOW)[k]
    ensures |Recent(times, now, REPLY_WINDOW)| == Since(times, x)
  {
    RecentKeeps(times, now, REPLY_WINDOW, x);
    SinceAll(Recent(times, now, REPLY_WINDOW), x);
  }

  lemma NextBounded(s: State, p: Probe, source: string, w: Time)
    requires Ordered(s) && Complete(s) && Bounded(s) && s.clock <= p.at
    ensures InWindow(Next(s, p).replies, From(source), w, REPLY_WINDOW) <= REPLY_BURST
  {
    var list := LogOf(s.log, source);
    InWindowAppend(s.replies, Event(p.source, p.at), From(source), w, REPLY_WINDOW);
    if MayReply(s.log, p.source, p.at) && source == p.source && w <= p.at < w + REPLY_WINDOW {
      OpenWindow(s.replies, From(source), w, REPLY_WINDOW);
      RecentKeeps(list, p.at, REPLY_WINDOW, w);
      SinceAtMostAll(Recent(list, p.at, REPLY_WINDOW), w);
    }
  }

  ghost predicate Inv(s: State) {
    Ordered(s) && Complete(s) && Bounded(s)
  }

  lemma {:induction false} RunKeepsInv(states: seq<State>, probes: seq<Probe>, n: nat)
    requires IsRun(states, probes) && n < |states|
    ensures Inv(states[n])
  {
    if n > 0 {
      RunKeepsInv(states, probes, n - 1);
      var s, p := states[n - 1], probes[n - 1];
      assert states[n] == Next(s, p) && s.clock <= p.at;
      NextOrdered(s, p);
      forall source: string, x: Time | p.at - REPLY_WINDOW < x
        ensures Since(LogOf(Next(s, p).log, source), x) == Since(TimesOf(Next(s, p).replies, From(source)), x)
      {
        NextComplete(s, p, source, x);
      }
      forall source: string, w: Time
        ensures InWindow(Next(s, p).replies, From(source), w, REPLY_WINDOW) <= REPLY_BURST
      {
        NextBounded(s, p, source, w);
      }
    }
  }

  /** In every run no window of 10 s holds more than 5 replies to one source, whatever the log dropped. */
  lemma AtMostFiveReplies(states: seq<State>, probes: seq<Probe>, n: nat, source: string, w: Time)
    requires IsRun(states, probes) && n < |states|
    ensures InWindow(states[n].replies, From(source), w, REPLY_WINDOW) <= 5
  {
    RunKeepsInv(states, probes, n);
  }

  /** In every run a probe is refused only when five replies went to its source within the last 10 s. */
  lemma RefusedOnlyAfterFive(states: seq<State>, probes: seq<Probe>, n: nat)
    requires IsRun(states, probes) && n < |probes|
    ensures states[n + 1].replies == states[n].replies
            <==> |Recent(TimesOf(states[n].replies, From(probes[n].source)), probes[n].at, REPLY_WINDOW)| >= 5
  {
    RunKeepsInv(states, probes, n);
    ReplyIffFew(states[n], probes[n]);
    assert states[n + 1] == Next(states[n], probes[n]);
  }

  /** In every run, right after a reply a log of more than 1024 sources holds only sources that were replied
      to within the window. */
  lemma LargeLogIsActive(states: seq<State>, probes: seq<Probe>, n: nat, k: string)
    requires IsRun(states, probes) && n < |probes| && states[n + 1].replies != states[n].replies
    requires |states[n + 1].log| > LOG_LIMIT && k in states[n + 1].log
    ensures Recent(TimesOf(states[n + 1].replies, From(k)), probes[n].at, REPLY_WINDOW) != []
  {
    var s, p, t := states[n], probes[n], states[n + 1];
    assert t == Next(s, p);
    RunKeepsInv(states, probes, n + 1);
    var longer := s.log[p.source := Recent(LogOf(s.log, p.source), p.at, REPLY_WINDOW) + [p.at]];
    assert t.log == Noted(s.log, p.source, p.at);
    if |longer| > LOG_LIMIT { assert t.log == Purged(longer, p.at); }
    hide Noted, Recent, MayReply;
    assert Survives(t.log[k], p.at);
    var times := t.log[k];
    var last := times[|times| - 1];
    assert LogOf(t.log, k) == times;
    SinceLast(times);
    assert Since(TimesOf(t.replies, From(k)), last) >= 1;
    RecentKeeps(TimesOf(t.replies, From(k)), p.at, REPLY_WINDOW, last);
    SinceAtMostAll(Recent(TimesOf(t.replies, From(k)), p.at, REPLY_WINDOW), last);
  }

  lemma {:induction false} SinceLast(times: seq<Time>)
    requires times != []
    ensures Since(times, times[|times| - 1]) >= 1
  {
    if |times| > 1 { SinceLast(times[1..]); }
  }
}
