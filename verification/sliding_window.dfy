/** Lists of event times, and how many events fall in a window. */
module SlidingWindow {
  type Time = real

  function One(b: bool): nat {
    if b then 1 else 0
  }

  /** How many events happened at `x` or later. */
  function Since(times: seq<Time>, x: Time): nat {
    if times == [] then 0 else One(times[0] >= x) + Since(times[1..], x)
  }

  /** `[t for t in times if now - t < width]`. */
  function Recent(times: seq<Time>, now: Time, width: real): seq<Time> {
    if times == [] then []
    else (if now - times[0] < width then [times[0]] else []) + Recent(times[1..], now, width)
  }

  lemma {:induction false} SinceAppend(times: seq<Time>, t: Time, x: Time)
    ensures Since(times + [t], x) == Since(times, x) + One(t >= x)
  {
    if times == [] {
      assert (times + [t])[1..] == [];
    } else {
      assert (times + [t])[1..] == times[1..] + [t];
      SinceAppend(times[1..], t, x);
    }
  }

  /** Dropping what is too old leaves every count that starts later. */
  lemma {:induction false} RecentKeeps(times: seq<Time>, now: Time, width: real, x: Time)
    requires now - width < x
    ensures Since(Recent(times, now, width), x) == Since(times, x)
  {
    if times != [] {
      RecentKeeps(times[1..], now, width, x);
      if now - times[0] < width {
        assert ([times[0]] + Recent(times[1..], now, width))[1..] == Recent(times[1..], now, width);
      } else {
        assert [] + Recent(times[1..], now, width) == Recent(times[1..], now, width);
      }
    }
  }

  lemma {:induction false} SinceAtMostAll(times: seq<Time>, x: Time)
    ensures Since(times, x) <= |times|
  {
    if times != [] { SinceAtMostAll(times[1..], x); }
  }

  lemma {:induction false} SinceAll(times: seq<Time>, x: Time)
    requires forall k :: 0 <= k < |times| ==> times[k] >= x
    ensures Since(times, x) == |times|
  {
    if times != [] { SinceAll(times[1..], x); }
  }

  lemma {:induction false} SinceNone(times: seq<Time>, x: Time)
    requires forall k :: 0 <= k < |times| ==> times[k] < x
    ensures Since(times, x) == 0
  {
    if times != [] { SinceNone(times[1..], x); }
  }

  lemma {:induction false} RecentAre(times: seq<Time>, now: Time, width: real)
    ensures forall k :: 0 <= k < |Recent(times, now, width)| ==>
      now - Recent(times, now, width)[k] < width && Recent(times, now, width)[k] in times
  {
    if times != [] {
      RecentAre(times[1..], now, width);
    }
  }

  // ---------- Events with a source ----------

  datatype Event = Event(source: string, at: Time)

  /** Which events a limit counts. */
  datatype Scope = From(source: string) | Everyone

  predicate InScope(s: Scope, source: string) {
    s == Everyone || s == From(source)
  }

  /** How many events of a scope fall in the window of a width that starts at `w`. */
  function InWindow(events: seq<Event>, s: Scope, w: Time, width: real): nat {
    if events == [] then 0
    else One(InScope(s, events[0].source) && w <= events[0].at < w + width) + InWindow(events[1..], s, w, width)
  }

  /** The times of a scope's events, in order. */
  function TimesOf(events: seq<Event>, s: Scope): seq<Time> {
    if events == [] then []
    else (if InScope(s, events[0].source) then [events[0].at] else []) + TimesOf(events[1..], s)
  }

  lemma {:induction false} InWindowAppend(events: seq<Event>, e: Event, s: Scope, w: Time, width: real)
    ensures InWindow(events + [e], s, w, width)
         == InWindow(events, s, w, width) + One(InScope(s, e.source) && w <= e.at < w + width)
  {
    if events == [] {
      assert (events + [e])[1..] == [];
    } else {
      assert (events + [e])[1..] == events[1..] + [e];
      InWindowAppend(events[1..], e, s, w, width);
    }
  }

  lemma {:induction false} TimesAppend(events: seq<Event>, e: Event, s: Scope)
    ensures TimesOf(events + [e], s) == TimesOf(events, s) + (if InScope(s, e.source) then [e.at] else [])
  {
    if events == [] {
      assert (events + [e])[1..] == [];
    } else {
      assert (events + [e])[1..] == events[1..] + [e];
      TimesAppend(events[1..], e, s);
    }
  }

  /** While a window is open, what falls in it is what happened since it opened. */
  lemma {:induction false} OpenWindow(events: seq<Event>, s: Scope, w: Time, width: real)
    requires forall k :: 0 <= k < |events| ==> events[k].at < w + width
    ensures InWindow(events, s, w, width) == Since(TimesOf(events, s), w)
  {
    if events != [] {
      OpenWindow(events[1..], s, w, width);
      var rest := TimesOf(events[1..], s);
      if InScope(s, events[0].source) {
        assert ([events[0].at] + rest)[1..] == rest;
      } else {
        assert [] + rest == rest;
      }
    }
  }
}
