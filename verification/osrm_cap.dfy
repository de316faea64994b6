/**
 The pool's cap under overlapping starts: for every profile, a run that pools as many instances as
 module OsrmRuns allows. It pools one instance less than the cap, one start at a time; then the
 remaining starts all claim their ports before any of them commits.
 */
module OsrmCap {
  import opened Common
  import opened OsrmPool
  import opened OsrmRuns

  /** Distinct keys of one profile. */
  function NthKey(profile: string, i: nat): Key {
    Key(seq(i, _ => 'x'), profile)
  }

  function Keys(profile: string, lo: nat, hi: nat): set<Key> {
    set i: nat | lo <= i < hi :: NthKey(profile, i)
  }

  lemma NthKeysDiffer(profile: string, i: nat, j: nat)
    requires NthKey(profile, i) == NthKey(profile, j)
    ensures i == j
  {
    assert |NthKey(profile, i).state| == i && |NthKey(profile, j).state| == j;
  }

  lemma InKeys(profile: string, lo: nat, hi: nat, i: nat)
    ensures NthKey(profile, i) in Keys(profile, lo, hi) <==> lo <= i < hi
  {
    if NthKey(profile, i) in Keys(profile, lo, hi) {
      var j: nat :| lo <= j < hi && NthKey(profile, j) == NthKey(profile, i);
      NthKeysDiffer(profile, i, j);
    }
  }

  lemma KeysGrow(profile: string, lo: nat, hi: nat)
    requires lo <= hi
    ensures Keys(profile, lo, hi + 1) == Keys(profile, lo, hi) + {NthKey(profile, hi)}
    ensures NthKey(profile, hi) !in Keys(profile, lo, hi)
  {
    InKeys(profile, lo, hi, hi);
  }

  lemma KeysShrink(profile: string, lo: nat, hi: nat)
    requires lo < hi
    ensures Keys(profile, lo + 1, hi) == Keys(profile, lo, hi) - {NthKey(profile, lo)}
  {
    InKeys(profile, lo + 1, hi, lo);
  }

  lemma {:induction false} KeysCount(profile: string, lo: nat, hi: nat)
    requires lo <= hi
    ensures |Keys(profile, lo, hi)| == hi - lo
    decreases hi
  {
    if lo == hi {
      assert Keys(profile, lo, hi) == {};
    } else {
      KeysCount(profile, lo, hi - 1);
      KeysGrow(profile, lo, hi - 1);
    }
  }

  /** The first `a` keys are pooled, the next `b` are being started and no others were ever touched;
      each start has reserved its port and goes no further yet. */
  ghost predicate Staged(w: Node, profile: string, a: nat, b: nat) {
    && w.shared.pool.Keys == Keys(profile, 0, a) && w.shared.starting.Keys == Keys(profile, a, a + b)
    && (forall c: nat | a <= c < a + b :: Reserving(w, profile, c))
    && (forall c: nat | a + b <= c :: c !in w.calls && c !in w.owner)
  }

  ghost predicate Reserving(w: Node, profile: string, c: nat) {
    c in w.calls && w.calls[c].key == NthKey(profile, c) && w.calls[c].pc.Owner? && w.calls[c].pc.phase.Probing?
  }

  lemma StagedCounts(w: Node, profile: string, a: nat, b: nat)
    requires Staged(w, profile, a, b)
    ensures |SameProfile(w.shared, profile)| == a && |StartsOf(w, profile)| == b
  {
    assert SameProfile(w.shared, profile) == Keys(profile, 0, a);
    assert StartsOf(w, profile) == Keys(profile, a, a + b);
    KeysCount(profile, 0, a);
    KeysCount(profile, a, a + b);
  }

  /** Three steps that can be taken one after the other, with at most `most` starts in flight after each. */
  ghost predicate Chain(w: Node, s1: Step, s2: Step, s3: Step, profile: string, most: nat) {
    && Enabled(w, s1) && |StartsOf(Apply(w, s1), profile)| <= most
    && var w1 := Apply(w, s1);
    && Enabled(w1, s2) && |StartsOf(Apply(w1, s2), profile)| <= most
    && var w2 := Apply(w1, s2);
    && Enabled(w2, s3) && |StartsOf(Apply(w2, s3), profile)| <= most
  }

  /** Where they lead. */
  ghost function Through(w: Node, s1: Step, s2: Step, s3: Step, profile: string, most: nat): Node
    requires Chain(w, s1, s2, s3, profile, most)
  {
    Apply(Apply(Apply(w, s1), s2), s3)
  }

  // ---------- One start more, one instance more ----------

  lemma {:induction false} FirstFreeExists(used: set<nat>, from: nat) returns (port: nat)
    ensures FirstFree(used, from, port)
    decreases |used|
  {
    if from !in used { return from; }
    port := FirstFreeExists(used - {from}, from + 1);
    forall q | from <= q < port
      ensures q in used
    {
      if q > from { assert q in used - {from}; }
    }
  }

  /** A call for the next key enters, finds nothing pooled and reserves a port. */
  lemma ClaimEnabled(w: Node, profile: string, most: nat, a: nat, b: nat)
    returns (enter: Step, check: Step, claim: Step)
    requires Staged(w, profile, a, b) && a < Cap(profile) && b < most
    ensures Chain(w, enter, check, claim, profile, most)
    ensures Staged(Through(w, enter, check, claim, profile, most), profile, a, b + 1)
  {
    var c, s := a + b, w.shared;
    var key := NthKey(profile, c);
    InKeys(profile, 0, a, c);
    InKeys(profile, a, a + b, c);
    Asks(w, c, key);
    StagedCounts(w, profile, a, b);
    var port := FreshClaim(s, key, c);
    hide ClaimStep, NthKey, Keys, StartsOf;
    enter, check := Enter(c, key), Check(c, false, 0.0);
    claim := Claim(c, 0.0, c, None, Own(port, c), Reserved(s, key, port, c));
    var entered := w.(calls := w.calls[c := Call(key, Entered)]);
    var missed := w.(calls := w.calls[c := Call(key, Missed)]);
    SameStarts(w, entered, profile);
    SameStarts(w, missed, profile);
    StillReserving(w, missed, profile, a, c, Call(key, Missed));
    Claimed(missed, profile, a, b, claim);
    StagedCounts(Apply(missed, claim), profile, a, b + 1);
    hide Staged, Apply, Enabled;
  }

  lemma SameStarts(w: Node, w': Node, profile: string)
    requires w'.shared.starting == w.shared.starting
    ensures StartsOf(w', profile) == StartsOf(w, profile)
  {
  }

  lemma StillReserving(w: Node, m: Node, profile: string, a: nat, c: nat, call: Call)
    requires m == w.(calls := w.calls[c := call])
    requires forall x: nat | a <= x < c :: Reserving(w, profile, x)
    ensures forall x: nat | a <= x < c :: Reserving(m, profile, x)
  {
    forall x: nat | a <= x < c
      ensures Reserving(m, profile, x)
    {
      assert Reserving(w, profile, x);
    }
  }

  /** The claim region for a key nobody holds, below the cap: a reservation and no eviction. */
  lemma FreshClaim(s: Shared, key: Key, c: nat) returns (port: nat)
    requires key !in s.pool && key !in s.starting && |SameProfile(s, key.profile)| < Cap(key.profile)
    ensures ClaimStep(s, Reserved(s, key, port, c), key, 0.0, c, None, Own(port, c))
  {
    port := FirstFreeExists(PoolPorts(s) + StartingPorts(s), FIRST_PORT);
  }

  /** The first two steps of a call for a key that is not pooled. */
  lemma Asks(w: Node, c: nat, key: Key)
    requires c !in w.calls && key !in w.shared.pool
    ensures Enabled(w, Enter(c, key))
    ensures Apply(w, Enter(c, key)) == w.(calls := w.calls[c := Call(key, Entered)])
    ensures var entered := w.(calls := w.calls[c := Call(key, Entered)]);
            Enabled(entered, Check(c, false, 0.0))
            && Apply(entered, Check(c, false, 0.0)) == w.(calls := w.calls[c := Call(key, Missed)])
  {
    var entered := w.(calls := w.calls[c := Call(key, Entered)]);
    assert Apply(entered, Check(c, false, 0.0)).calls == w.calls[c := Call(key, Missed)];
  }

  lemma Claimed(w: Node, profile: string, a: nat, b: nat, claim: Step)
    requires w.shared.pool.Keys == Keys(profile, 0, a) && w.shared.starting.Keys == Keys(profile, a, a + b)
    requires forall c: nat | a <= c < a + b :: Reserving(w, profile, c)
    requires forall c: nat | a + b <= c :: (c in w.calls ==> c == a + b) && c !in w.owner
    requires a + b in w.calls && w.calls[a + b] == Call(NthKey(profile, a + b), Missed)
    requires claim.Claim? && claim.c == a + b == claim.event && Enabled(w, claim) && claim.r.Own?
    requires claim.next == Reserved(w.shared, NthKey(profile, a + b), claim.r.port, claim.event)
    ensures Staged(Apply(w, claim), profile, a, b + 1)
  {
    KeysGrow(profile, a, a + b);
    hide ClaimStep, Keys, NthKey;
    var t := Apply(w, claim);
    assert t.calls == w.calls[a + b := w.calls[a + b].(pc := Owner(Probing, claim.r.port, a + b))];
    forall c: nat | a <= c < a + b + 1
      ensures Reserving(t, profile, c)
    {
      if c < a + b { assert Reserving(w, profile, c); }
    }
  }

  /** The oldest start goes through: its port is free, its process comes up, and its entry goes. */
  lemma CommitEnabled(w: Node, profile: string, most: nat, a: nat, b: nat)
    requires Staged(w, profile, a, b) && 0 < b <= most
    ensures Chain(w, Probe(a, false), Step.Commit(a, 0, 0.0), Pop(a), profile, most)
    ensures Staged(Through(w, Probe(a, false), Step.Commit(a, 0, 0.0), Pop(a), profile, most), profile, a + 1, b - 1)
  {
    StagedCounts(w, profile, a, b);
    assert Reserving(w, profile, a);
    GoesThrough(w, a);
    hide StartsOf, Apply, Enabled;
    var w1 := Apply(w, Probe(a, false));
    var w2 := Apply(w1, Step.Commit(a, 0, 0.0));
    var w3 := Apply(w2, Pop(a));
    SameStarts(w, w1, profile);
    SameStarts(w, w2, profile);
    Committed(w, w3, profile, a, b);
    StagedCounts(w3, profile, a + 1, b - 1);
    hide Staged;
  }

  /** What the three steps do to the pool, the entries in flight and the calls. */
  lemma GoesThrough(w: Node, c: nat)
    requires c in w.calls && w.calls[c].pc.Owner? && w.calls[c].pc.phase.Probing?
    ensures Enabled(w, Probe(c, false))
    ensures var w1 := Apply(w, Probe(c, false));
            && w1.shared == w.shared && Enabled(w1, Step.Commit(c, 0, 0.0))
            && var w2 := Apply(w1, Step.Commit(c, 0, 0.0));
            && w2.shared.starting == w.shared.starting && Enabled(w2, Pop(c))
            && var w3 := Apply(w2, Pop(c));
            && w3.shared.pool.Keys == w.shared.pool.Keys + {w.calls[c].key}
            && w3.shared.starting.Keys == w.shared.starting.Keys - {w.calls[c].key}
            && w3.owner == w.owner && w3.calls.Keys == w.calls.Keys
            && forall d :: d in w.calls && d != c ==> w3.calls[d] == w.calls[d]
  {
  }

  lemma Committed(w: Node, w3: Node, profile: string, a: nat, b: nat)
    requires Staged(w, profile, a, b) && 0 < b
    requires w3.shared.pool.Keys == w.shared.pool.Keys + {NthKey(profile, a)}
    requires w3.shared.starting.Keys == w.shared.starting.Keys - {NthKey(profile, a)}
    requires w3.owner == w.owner && w3.calls.Keys == w.calls.Keys
    requires forall c :: c in w.calls && c != a ==> w3.calls[c] == w.calls[c]
    ensures Staged(w3, profile, a + 1, b - 1)
  {
    KeysGrow(profile, 0, a);
    KeysShrink(profile, a, a + b);
    hide Keys, NthKey;
    forall c: nat | a + 1 <= c < a + b
      ensures Reserving(w3, profile, c)
    {
      assert Reserving(w, profile, c) && w3.calls[c] == w.calls[c];
    }
  }

  // ---------- The run ----------

  /** A run in which at most `most` starts of the profile are ever in flight together. */
  ghost predicate BoundedRun(ws: seq<Node>, steps: seq<Step>, profile: string, most: nat) {
    IsRun(ws, steps) && forall j :: 0 <= j < |ws| ==> |StartsOf(ws[j], profile)| <= most
  }

  function Last(ws: seq<Node>): Node
    requires ws != []
  {
    ws[|ws| - 1]
  }

  lemma Extend(ws: seq<Node>, steps: seq<Step>, profile: string, most: nat, st: Step)
    requires BoundedRun(ws, steps, profile, most) && Enabled(Last(ws), st)
    requires |StartsOf(Apply(Last(ws), st), profile)| <= most
    ensures BoundedRun(ws + [Apply(Last(ws), st)], steps + [st], profile, most)
  {
    hide Enabled, Apply, StartsOf;
    var ws', steps' := ws + [Apply(Last(ws), st)], steps + [st];
    forall i | 0 <= i < |steps'|
      ensures Enabled(ws'[i], steps'[i]) && ws'[i + 1] == Apply(ws'[i], steps'[i])
    {
      if i < |steps| { assert ws'[i] == ws[i] && ws'[i + 1] == ws[i + 1]; }
    }
  }

  /** Three steps more. */
  lemma ExtendByThree(ws: seq<Node>, steps: seq<Step>, profile: string, most: nat, s1: Step, s2: Step, s3: Step)
    returns (ws': seq<Node>, steps': seq<Step>)
    requires BoundedRun(ws, steps, profile, most) && Chain(Last(ws), s1, s2, s3, profile, most)
    ensures BoundedRun(ws', steps', profile, most) && ws' != []
    ensures Last(ws') == Through(Last(ws), s1, s2, s3, profile, most)
  {
    hide Enabled, Apply, StartsOf;
    var w1 := Apply(Last(ws), s1);
    var w2 := Apply(w1, s2);
    var w3 := Apply(w2, s3);
    Extend(ws, steps, profile, most, s1);
    Extend(ws + [w1], steps + [s1], profile, most, s2);
    Extend(ws + [w1] + [w2], steps + [s1] + [s2], profile, most, s3);
    ws', steps' := ws + [w1] + [w2] + [w3], steps + [s1] + [s2] + [s3];
  }

  lemma OpenStart(ws: seq<Node>, steps: seq<Step>, profile: string, most: nat, a: nat, b: nat)
    returns (ws': seq<Node>, steps': seq<Step>)
    requires BoundedRun(ws, steps, profile, most) && Staged(Last(ws), profile, a, b)
    requires a < Cap(profile) && b < most
    ensures BoundedRun(ws', steps', profile, most) && ws' != [] && Staged(Last(ws'), profile, a, b + 1)
  {
    var w := Last(ws);
    hide Staged, BoundedRun, Chain, Through;
    var enter, check, claim := ClaimEnabled(w, profile, most, a, b);
    ws', steps' := ExtendByThree(ws, steps, profile, most, enter, check, claim);
  }

  lemma FinishStart(ws: seq<Node>, steps: seq<Step>, profile: string, most: nat, a: nat, b: nat)
    returns (ws': seq<Node>, steps': seq<Step>)
    requires BoundedRun(ws, steps, profile, most) && Staged(Last(ws), profile, a, b)
    requires 0 < b <= most
    ensures BoundedRun(ws', steps', profile, most) && ws' != [] && Staged(Last(ws'), profile, a + 1, b - 1)
  {
    var w := Last(ws);
    hide Staged, BoundedRun, Chain, Through;
    CommitEnabled(w, profile, most, a, b);
    ws', steps' := ExtendByThree(ws, steps, profile, most, Probe(a, false), Step.Commit(a, 0, 0.0), Pop(a));
  }

  /** Instances pooled one at a time. */
  lemma {:induction false} PoolOneByOne(profile: string, most: nat, n: nat) returns (ws: seq<Node>, steps: seq<Step>)
    requires most >= 1 && n < Cap(profile)
    ensures BoundedRun(ws, steps, profile, most) && Staged(Last(ws), profile, n, 0)
  {
    if n == 0 {
      ws, steps := [START], [];
      assert Keys(profile, 0, 0) == {};
      assert StartsOf(START, profile) == {};
    } else {
      hide BoundedRun, Staged;
      ws, steps := PoolOneByOne(profile, most, n - 1);
      ws, steps := OpenStart(ws, steps, profile, most, n - 1, 0);
      ws, steps := FinishStart(ws, steps, profile, most, n - 1, 1);
    }
  }

  /** Then `b` starts overlap. */
  lemma {:induction false} OverlapStarts(profile: string, most: nat, b: nat) returns (ws: seq<Node>, steps: seq<Step>)
    requires most >= 1 && b <= most
    ensures BoundedRun(ws, steps, profile, most) && Staged(Last(ws), profile, Cap(profile) - 1, b)
  {
    hide BoundedRun, Staged;
    if b == 0 {
      ws, steps := PoolOneByOne(profile, most, Cap(profile) - 1);
    } else {
      ws, steps := OverlapStarts(profile, most, b - 1);
      ws, steps := OpenStart(ws, steps, profile, most, Cap(profile) - 1, b - 1);
    }
  }

  /** And `d` of them commit. */
  lemma {:induction false} FinishStarts(profile: string, most: nat, d: nat) returns (ws: seq<Node>, steps: seq<Step>)
    requires most >= 1 && d <= most
    ensures BoundedRun(ws, steps, profile, most) && Staged(Last(ws), profile, Cap(profile) - 1 + d, most - d)
  {
    hide BoundedRun, Staged;
    if d == 0 {
      ws, steps := OverlapStarts(profile, most, most);
    } else {
      ws, steps := FinishStarts(profile, most, d - 1);
      ws, steps := FinishStart(ws, steps, profile, most, Cap(profile) - 1 + d - 1, most - d + 1);
    }
  }

  /** The bound on the pool is reached: for every profile and every number of starts allowed to overlap,
      some run pools the cap less one plus that number. */
  lemma BoundIsReached(profile: string, most: nat) returns (ws: seq<Node>, steps: seq<Step>)
    requires most >= 1
    ensures BoundedRun(ws, steps, profile, most)
    ensures |SameProfile(Last(ws).shared, profile)| == Cap(profile) - 1 + most
  {
    ws, steps := FinishStarts(profile, most, most);
    StagedCounts(Last(ws), profile, Cap(profile) - 1 + most, 0);
  }

  ghost predicate PassesCap(ws: seq<Node>, steps: seq<Step>, profile: string, most: nat) {
    BoundedRun(ws, steps, profile, most) && |SameProfile(Last(ws).shared, profile)| > Cap(profile)
  }

  /** A profile's pool can pass its cap exactly when two of its starts may overlap. */
  lemma CapPassedExactlyWhen(profile: string, most: nat)
    ensures (exists ws, steps :: PassesCap(ws, steps, profile, most)) <==> most >= 2
  {
    if most >= 2 {
      var ws, steps := BoundIsReached(profile, most);
      assert PassesCap(ws, steps, profile, most);
    }
    if ws, steps :| PassesCap(ws, steps, profile, most) {
      LoadStaysBounded(ws, steps, |ws| - 1, profile, most);
    }
  }
}
