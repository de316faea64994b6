/**
 Any number of `_ensure_running` calls, interleaved.

 A call moves from one atomic step to the next; a step is one region that holds the
 node's lock, or one answer of the environment between two regions. The locked regions
 are the ones of module OsrmPool, whose methods are proved to perform them.
 */
module OsrmRuns {
  import opened Common
  import opened OsrmPool

  /** How far the owner of a start attempt has come. */
  datatype Phase =
    | Probing            // about to probe the reserved port
    | Bumped             // the port was taken outside; the reservation has not moved yet
    | Launching          // the process is starting on the reserved port
    | Committed          // the instance is in the pool
    | Failed             // the attempt is over, by failure or exception
    | Popped(ok: bool)   // the in-flight entry is gone, the event is not set yet

  datatype Pc =
    | Entered
    | Missed
    | Waiting(event: nat)
    | Woken
    | Owner(phase: Phase, port: nat, event: nat)
    | Done(result: Option<nat>)

  datatype Call = Call(key: Key, pc: Pc)

  /** A record that call `call` removed the entry of, or set, event `event`. */
  datatype Did = Did(event: nat, call: nat)

  datatype Node = Node(
    shared: Shared,
    calls: map<nat, Call>,
    owner: map<nat, nat>,      // which call created an event
    signalled: set<nat>,       // events that are set
    pops: multiset<Did>,       // history: entries removed from `_starting`
    sets: multiset<Did>)       // history: events set

  datatype Step =
    | Enter(c: nat, key: Key)
    | Check(c: nat, healthy: bool, now: real)
    | Claim(c: nat, now: real, event: nat, victim: Option<Key>, r: ClaimResult, next: Shared)
    | WaitOver(c: nat, timedOut: bool)
    | AfterWait(c: nat, now: real)
    | Probe(c: nat, taken: bool)
    | Move(c: nat, newPort: nat, next: Shared)
    | Fail(c: nat)
    | Commit(c: nat, pid: nat, now: real)
    | Pop(c: nat)
    | Signal(c: nat)
    | Stop

  const START: Node :=
    Node(Shared(map[], map[], map[]), map[], map[], {}, multiset{}, multiset{})

  predicate At(w: Node, c: nat, phases: set<Phase>) {
    c in w.calls && w.calls[c].pc.Owner? && w.calls[c].pc.phase in phases
  }

  ghost predicate Enabled(w: Node, st: Step) {
    match st
    case Enter(c, _) => c !in w.calls
    case Check(c, _, _) => c in w.calls && w.calls[c].pc.Entered?
    case Claim(c, now, event, victim, r, next) =>
      && c in w.calls && w.calls[c].pc.Missed? && event !in w.owner
      && ClaimStep(w.shared, next, w.calls[c].key, now, event, victim, r)
    case WaitOver(c, timedOut) =>
      c in w.calls && w.calls[c].pc.Waiting? && (timedOut || w.calls[c].pc.event in w.signalled)
    case AfterWait(c, _) => c in w.calls && w.calls[c].pc.Woken?
    case Probe(c, _) => At(w, c, {Probing})
    case Move(c, newPort, next) =>
      && At(w, c, {Bumped})
      && MoveStep(w.shared, next, w.calls[c].key, w.calls[c].pc.port, newPort, w.calls[c].pc.event)
    case Fail(c) => At(w, c, {Probing, Bumped, Launching})
    case Commit(c, _, _) => At(w, c, {Launching})
    case Pop(c) => At(w, c, {Committed, Failed})
    case Signal(c) => At(w, c, {Popped(true), Popped(false)})
    case Stop => true
  }

  /** Where the step leaves the call that takes it. */
  ghost function NextPc(w: Node, st: Step): Pc
    requires Enabled(w, st) && !st.Stop? && !st.Enter?
  {
    var Call(key, pc) := w.calls[st.c];
    match st
    case Check(_, healthy, _) =>
      if key in w.shared.pool && healthy then Done(Some(w.shared.pool[key].port)) else Missed
    case Claim(_, _, _, _, r, _) =>
      (match r
       case Pooled(port) => Done(Some(port))
       case Join(_, e) => Waiting(e)
       case Own(port, e) => Owner(Probing, port, e))
    case WaitOver(_, _) => if pc.event in w.signalled then Woken else Done(None)
    case AfterWait(_, _) => Done(if key in w.shared.pool then Some(w.shared.pool[key].port) else None)
    case Probe(_, taken) =>
      if taken then Owner(Bumped, pc.port + 1, pc.event) else Owner(Launching, pc.port, pc.event)
    case Move(_, newPort, _) => Owner(Probing, newPort, pc.event)
    case Fail(_) => pc.(phase := Failed)
    case Commit(_, _, _) => pc.(phase := Phase.Committed)
    case Pop(_) => pc.(phase := Popped(pc.phase.Committed?))
    case Signal(_) => Done(if pc.phase.ok then Some(pc.port) else None)
  }

  ghost function NextCalls(w: Node, st: Step): map<nat, Call>
    requires Enabled(w, st)
  {
    match st
    case Stop => w.calls
    case Enter(c, key) => w.calls[c := Call(key, Entered)]
    case _ => w.calls[st.c := w.calls[st.c].(pc := NextPc(w, st))]
  }

  ghost function NextShared(w: Node, st: Step): Shared
    requires Enabled(w, st)
  {
    match st
    case Check(c, healthy, now) => Checked(w.shared, w.calls[c].key, healthy, now)
    case Claim(_, _, _, _, _, next) => next
    case AfterWait(c, now) => Touched(w.shared, w.calls[c].key, now)
    case Move(_, _, next) => next
    case Commit(c, pid, now) =>
      OsrmPool.Committed(w.shared, w.calls[c].key, Instance(pid, w.calls[c].pc.port), now)
    case Pop(c) => Released(w.shared, w.calls[c].key)
    case Stop => w.shared.(pool := map[], lru := map[])
    case _ => w.shared
  }

  ghost function Apply(w: Node, st: Step): Node
    requires Enabled(w, st)
  {
    Node(
      NextShared(w, st),
      NextCalls(w, st),
      if st.Claim? && st.r.Own? then w.owner[st.event := st.c] else w.owner,
      if st.Signal? then w.signalled + {w.calls[st.c].pc.event} else w.signalled,
      if st.Pop? then w.pops + multiset{Did(w.calls[st.c].pc.event, st.c)} else w.pops,
      if st.Signal? then w.sets + multiset{Did(w.calls[st.c].pc.event, st.c)} else w.sets)
  }

  /** `ws` are the states of a run that takes `steps` from the freshly built node. */
  ghost predicate IsRun(ws: seq<Node>, steps: seq<Step>) {
    && |ws| == |steps| + 1 && ws[0] == START
    && forall i :: 0 <= i < |steps| ==> Enabled(ws[i], steps[i]) && ws[i + 1] == Apply(ws[i], steps[i])
  }

  // ---------- What every step keeps ----------

  /** Call `c` owns a start attempt and has not set its event yet. */
  predicate Owes(w: Node, c: nat) {
    c in w.calls && w.calls[c].pc.Owner?
  }

  /** Call `c` owns a start attempt whose entry is still in `_starting`. */
  predicate Holds(w: Node, c: nat) {
    Owes(w, c) && !w.calls[c].pc.phase.Popped?
  }

  predicate Uncommitted(w: Node, c: nat) {
    At(w, c, {Probing, Bumped, Launching})
  }

  function EventOf(w: Node, c: nat): nat
    requires Owes(w, c)
  {
    w.calls[c].pc.event
  }

  /** The in-flight entry of an owner's key carries its event, and its port
      except between a bump and the move that follows it. */
  predicate EntryMatches(w: Node, c: nat)
    requires Holds(w, c)
  {
    var Call(key, pc) := w.calls[c];
    && key in w.shared.starting && w.shared.starting[key].event == pc.event
    && (pc.phase in {Probing, Launching, Phase.Committed} ==> w.shared.starting[key].port == pc.port)
  }

  ghost predicate OwnersHold(w: Node) {
    && (forall c :: Owes(w, c) ==> EventOf(w, c) in w.owner && w.owner[EventOf(w, c)] == c)
    && (forall c :: Holds(w, c) ==> EntryMatches(w, c))
  }

  /** The in-flight entry under `k` belongs to a live owner of that key. */
  predicate EntryOwned(w: Node, k: Key)
    requires k in w.shared.starting
  {
    var e := w.shared.starting[k].event;
    e in w.owner && Holds(w, w.owner[e]) && w.calls[w.owner[e]].key == k && EventOf(w, w.owner[e]) == e
  }

  ghost predicate EntriesOwned(w: Node) {
    forall k :: k in w.shared.starting ==> EntryOwned(w, k)
  }

  /** Nothing is pooled under a key whose owner has not committed. */
  ghost predicate UncommittedUnpooled(w: Node) {
    forall c :: Uncommitted(w, c) ==> w.calls[c].key !in w.shared.pool
  }

  /** How often call `d.call` has removed the entry of `d.event`: once when it owns the event
      and no longer holds the entry, otherwise never. */
  function PopsDue(w: Node, d: Did): nat {
    if d.event in w.owner && w.owner[d.event] == d.call && !(Holds(w, d.call) && EventOf(w, d.call) == d.event)
    then 1 else 0
  }

  /** How often call `d.call` has set `d.event`. */
  function SetsDue(w: Node, d: Did): nat {
    if d.event in w.owner && w.owner[d.event] == d.call && !(Owes(w, d.call) && EventOf(w, d.call) == d.event)
    then 1 else 0
  }

  ghost predicate Accounts(w: Node) {
    && (forall d: Did :: w.pops[d] == PopsDue(w, d))
    && (forall d: Did :: w.sets[d] == SetsDue(w, d))
  }

  ghost predicate Inv(w: Node) {
    OwnersHold(w) && EntriesOwned(w) && UncommittedUnpooled(w) && Accounts(w) && DistinctPorts(w.shared)
  }

  /** Two calls that both hold an entry for one key are the same call. */
  lemma SoleOwner(w: Node, a: nat, b: nat)
    requires OwnersHold(w) && Holds(w, a) && Holds(w, b) && w.calls[a].key == w.calls[b].key
    ensures a == b
  {
    assert EntryMatches(w, a) && EntryMatches(w, b);
    assert EventOf(w, a) == EventOf(w, b);
  }

  lemma StepKeepsMatch(w: Node, st: Step, c: nat)
    requires OwnersHold(w) && Enabled(w, st) && Holds(w, c) && Holds(Apply(w, st), c)
    ensures EntryMatches(Apply(w, st), c)
  {
    assert EntryMatches(w, c);
    hide OwnersHold, OsrmPool.EvictionChoice, OsrmPool.FirstFree;
    if (st.Move? || st.Pop?) && w.calls[st.c].key == w.calls[c].key { SoleOwner(w, st.c, c); }
  }

  lemma StepKeepsOwnersHold(w: Node, st: Step)
    requires OwnersHold(w) && Enabled(w, st)
    ensures OwnersHold(Apply(w, st))
  {
    hide OsrmPool.EvictionChoice, OsrmPool.FirstFree;
    var w' := Apply(w, st);
    forall c | Owes(w', c)
      ensures EventOf(w', c) in w'.owner && w'.owner[EventOf(w', c)] == c
    {
      if !st.Claim? || st.c != c { assert Owes(w, c); }
    }
    forall c | Holds(w', c)
      ensures EntryMatches(w', c)
    {
      if Holds(w, c) { StepKeepsMatch(w, st, c); }
    }
  }

  lemma StepKeepsEntry(w: Node, st: Step, k: Key)
    requires Enabled(w, st)
    requires !st.Stop? && Holds(w, st.c) ==> EntryMatches(w, st.c)
    requires k in w.shared.starting && EntryOwned(w, k) && k in Apply(w, st).shared.starting
    ensures EntryOwned(Apply(w, st), k)
  {
    hide MoveStep, OsrmPool.EvictionChoice, OsrmPool.FirstFree;
    var w' := Apply(w, st);
    var e := w.shared.starting[k].event;
    var o := w.owner[e];
    match st
    case Claim(c, _, event, _, r, _) =>
      assert o != c && e != event && w'.calls[o] == w.calls[o] && w'.owner[e] == o;
    case Move(c, newPort, next) =>
      MoveReserves(w.shared, next, w.calls[c].key, w.calls[c].pc.port, newPort, w.calls[c].pc.event);
    case Stop =>
    case _ =>
      assert w'.owner == w.owner && w'.shared.starting[k] == w.shared.starting[k];
      if o != st.c {
        assert w'.calls[o] == w.calls[o];
      }
  }

  lemma MoveReserves(s: Shared, s': Shared, key: Key, from: nat, port: nat, event: nat)
    requires MoveStep(s, s', key, from, port, event)
    ensures s' == Reserved(s, key, port, event)
  {
  }

  lemma StepKeepsEntriesOwned(w: Node, st: Step)
    requires OwnersHold(w) && EntriesOwned(w) && Enabled(w, st)
    ensures EntriesOwned(Apply(w, st))
  {
    hide OsrmPool.EvictionChoice, OsrmPool.FirstFree;
    var w' := Apply(w, st);
    if st.Move? { assert EntryMatches(w, st.c); }
    forall k | k in w'.shared.starting
      ensures EntryOwned(w', k)
    {
      if k in w.shared.starting { StepKeepsEntry(w, st, k); }
    }
  }

  lemma StepKeepsUnpooled(w: Node, st: Step)
    requires OwnersHold(w) && UncommittedUnpooled(w) && Enabled(w, st)
    ensures UncommittedUnpooled(Apply(w, st))
  {
    hide OwnersHold, OsrmPool.EvictionChoice, OsrmPool.FirstFree;
    var w' := Apply(w, st);
    forall c | Uncommitted(w', c)
      ensures w'.calls[c].key !in w'.shared.pool
    {
      if Uncommitted(w, c) && st.Commit? && w.calls[st.c].key == w.calls[c].key { SoleOwner(w, st.c, c); }
    }
  }

  lemma StepKeepsDues(w: Node, st: Step, d: Did)
    requires OwnersHold(w) && Enabled(w, st)
    requires w.pops[d] == PopsDue(w, d) && w.sets[d] == SetsDue(w, d)
    ensures var w' := Apply(w, st); w'.pops[d] == PopsDue(w', d) && w'.sets[d] == SetsDue(w', d)
  {
    hide MoveStep, EntryMatches, NextShared;
    var w' := Apply(w, st);
    if !st.Stop? && st.c != d.call {
      assert Owes(w', d.call) == Owes(w, d.call) && Holds(w', d.call) == Holds(w, d.call);
    }
    match st
    case Claim(c, _, _, _, _, _) =>
    case Pop(c) => assert Owes(w, c);
    case Signal(c) => assert Owes(w, c);
    case _ => assert w'.pops == w.pops && w'.sets == w.sets && w'.owner == w.owner;
  }

  lemma StepKeepsAccounts(w: Node, st: Step)
    requires OwnersHold(w) && Accounts(w) && Enabled(w, st)
    ensures Accounts(Apply(w, st))
  {
    forall d: Did
      ensures var w' := Apply(w, st); w'.pops[d] == PopsDue(w', d) && w'.sets[d] == SetsDue(w', d)
    {
      StepKeepsDues(w, st, d);
    }
  }

  lemma StepKeepsPorts(w: Node, st: Step)
    requires Inv(w) && Enabled(w, st)
    ensures DistinctPorts(Apply(w, st).shared)
  {
    hide DistinctPorts, Accounts, EntriesOwned;
    var s, s' := w.shared, Apply(w, st).shared;
    match st
    case Check(_, _, _) => DropKeepsPorts(s, s');
    case AfterWait(_, _) => DropKeepsPorts(s, s');
    case Pop(_) => DropKeepsPorts(s, s');
    case Stop => DropKeepsPorts(s, s');
    case Claim(c, now, event, victim, r, next) =>
      ClaimKeepsPorts(s, s', w.calls[c].key, now, event, victim, r);
    case Move(c, newPort, next) =>
      assert Uncommitted(w, c);
      MoveKeepsPorts(s, s', w.calls[c].key, w.calls[c].pc.port, newPort, w.calls[c].pc.event);
    case Commit(c, pid, now) =>
      assert Uncommitted(w, c) && Holds(w, c) && EntryMatches(w, c);
      CommitKeepsPorts(s, w.calls[c].key, Instance(pid, w.calls[c].pc.port), now);
    case _ => assert s' == s;
  }

  lemma StepKeepsInv(w: Node, st: Step)
    requires Inv(w) && Enabled(w, st)
    ensures Inv(Apply(w, st))
  {
    StepKeepsOwnersHold(w, st);
    StepKeepsEntriesOwned(w, st);
    StepKeepsUnpooled(w, st);
    StepKeepsAccounts(w, st);
    StepKeepsPorts(w, st);
  }

  lemma RunStep(ws: seq<Node>, steps: seq<Step>, i: nat)
    requires IsRun(ws, steps) && i < |steps|
    ensures Enabled(ws[i], steps[i]) && ws[i + 1] == Apply(ws[i], steps[i])
  {
  }

  lemma {:induction false} RunKeepsInv(ws: seq<Node>, steps: seq<Step>, i: nat)
    requires IsRun(ws, steps) && i < |ws|
    ensures Inv(ws[i])
  {
    if i > 0 {
      RunStep(ws, steps, i - 1);
      RunKeepsInv(ws, steps, i - 1);
      StepKeepsInv(ws[i - 1], steps[i - 1]);
    }
  }

  // ---------- Main results ----------

  /** In every state of every run, two different keys never hold the same port. */
  lemma PortsNeverCollide(ws: seq<Node>, steps: seq<Step>, i: nat)
    requires IsRun(ws, steps) && i < |ws|
    ensures DistinctPorts(ws[i].shared)
  {
    RunKeepsInv(ws, steps, i);
  }

  /** In every state of every run, a key has at most one owner starting it, and it has one
      exactly while the key is in `_starting`. */
  lemma OneOwnerPerKey(ws: seq<Node>, steps: seq<Step>, i: nat, key: Key)
    requires IsRun(ws, steps) && i < |ws|
    ensures forall a, b ::
              Holds(ws[i], a) && Holds(ws[i], b) && ws[i].calls[a].key == key == ws[i].calls[b].key ==> a == b
    ensures key in ws[i].shared.starting <==> exists a :: Holds(ws[i], a) && ws[i].calls[a].key == key
  {
    var w := ws[i];
    RunKeepsInv(ws, steps, i);
    forall a, b | Holds(w, a) && Holds(w, b) && w.calls[a].key == key == w.calls[b].key
      ensures a == b
    {
      SoleOwner(w, a, b);
    }
    if key in w.shared.starting {
      assert EntryOwned(w, key);
      assert Holds(w, w.owner[w.shared.starting[key].event]);
    }
    if a :| Holds(w, a) && w.calls[a].key == key {
      assert EntryMatches(w, a);
    }
  }

  /** In every state of every run, only the owner of an event ever removed its entry or set it;
      it did both exactly once if it has returned, and neither twice before that. */
  lemma ReleasedExactlyOnce(ws: seq<Node>, steps: seq<Step>, i: nat, d: Did)
    requires IsRun(ws, steps) && i < |ws|
    ensures d.event !in ws[i].owner || ws[i].owner[d.event] != d.call ==> ws[i].pops[d] == 0 == ws[i].sets[d]
    ensures ws[i].sets[d] <= ws[i].pops[d] <= 1
    ensures d.event in ws[i].owner && ws[i].owner[d.event] == d.call && !Owes(ws[i], d.call) ==>
              ws[i].pops[d] == 1 == ws[i].sets[d]
  {
    RunKeepsInv(ws, steps, i);
    var w := ws[i];
    assert w.pops[d] == PopsDue(w, d) && w.sets[d] == SetsDue(w, d);
  }

  // ---------- Caps ----------

  /** The keys of one profile with a start in flight. */
  ghost function StartsOf(w: Node, profile: string): set<Key> {
    set k | k in w.shared.starting && k.profile == profile
  }

  /** Those of them whose owner may still commit. */
  ghost function UncommittedOf(w: Node, profile: string): set<Key> {
    set k | k in StartsOf(w, profile) && w.shared.starting[k].event in w.owner
            && Uncommitted(w, w.owner[w.shared.starting[k].event])
  }

  /** Pooled instances of a profile plus the ones that may still be committed. */
  ghost function Load(w: Node, profile: string): nat {
    |SameProfile(w.shared, profile)| + |UncommittedOf(w, profile)|
  }

  /** A step makes a key uncommitted only by claiming it, and its commit ends that. */
  lemma UncommittedMoves(w: Node, st: Step, k: Key)
    requires Inv(w) && Enabled(w, st)
    requires k in UncommittedOf(Apply(w, st), k.profile)
    ensures k in UncommittedOf(w, k.profile) || (st.Claim? && st.r.Own? && w.calls[st.c].key == k)
    ensures st.Commit? ==> k != w.calls[st.c].key
  {
    var own := st.Claim? && st.r.Own? && w.calls[st.c].key == k;
    var o := Apply(w, st).owner[Apply(w, st).shared.starting[k].event];
    UncommittedBefore(w, st, o);
    StepKeepsEntriesOwned(w, st);
    assert EntryOwned(Apply(w, st), k);
    if !own {
      EntryStays(w, st, k);
      assert EntryOwned(w, k);
    }
    if st.Commit? { assert Owes(w, st.c) && EntryMatches(w, st.c); }
    hide Inv, Apply, Uncommitted, EntriesOwned;
  }

  /** What is in flight after a step was so before it, under the same event and owner, unless it was claimed. */
  lemma EntryStays(w: Node, st: Step, k: Key)
    requires OwnersHold(w) && EntriesOwned(w) && Enabled(w, st)
    requires k in Apply(w, st).shared.starting && !(st.Claim? && st.r.Own? && w.calls[st.c].key == k)
    ensures var w' := Apply(w, st);
            && k in w.shared.starting && w'.shared.starting[k].event == w.shared.starting[k].event
            && w.shared.starting[k].event in w.owner && w'.shared.starting[k].event in w'.owner
            && w'.owner[w'.shared.starting[k].event] == w.owner[w.shared.starting[k].event]
  {
    if st.Move? {
      assert EntryMatches(w, st.c);
    } else {
      assert k in w.shared.starting;
      assert EntryOwned(w, k);
    }
    hide EntriesOwned, OwnersHold, OsrmPool.EvictionChoice, OsrmPool.FirstFree, NextPc;
  }

  /** A call becomes an uncommitted owner only by a claim, and its commit ends that. */
  lemma UncommittedBefore(w: Node, st: Step, c: nat)
    requires Enabled(w, st) && Uncommitted(Apply(w, st), c)
    ensures Uncommitted(w, c) || (st.Claim? && st.r.Own? && st.c == c)
    ensures st.Commit? ==> c != st.c
    ensures Apply(w, st).calls[c].key == w.calls[c].key
  {
    hide OsrmPool.ClaimStep, OsrmPool.MoveStep, NextShared;
  }

  lemma StepKeepsLoad(w: Node, st: Step, profile: string, most: nat)
    requires Inv(w) && Enabled(w, st)
    requires Load(w, profile) < Cap(profile) + most
    requires |StartsOf(Apply(w, st), profile)| <= most
    ensures Load(Apply(w, st), profile) < Cap(profile) + most
  {
    hide DistinctPorts, Accounts, OwnersHold, EntriesOwned, OsrmPool.FirstFree;
    var w' := Apply(w, st);
    var p, p' := SameProfile(w.shared, profile), SameProfile(w'.shared, profile);
    var u, u' := UncommittedOf(w, profile), UncommittedOf(w', profile);
    forall k | k in u' && k !in u
      ensures st.Claim? && st.r.Own? && w.calls[st.c].key == k
    {
      UncommittedMoves(w, st, k);
    }
    SubsetSize(u', StartsOf(w', profile));
    if st.Claim? && st.r.Own? && w.calls[st.c].key.profile == profile {
      ClaimMakesRoom(w.shared, w'.shared, w.calls[st.c].key, st.now, st.event, st.victim, st.r);
      SubsetSize(u', u + {w.calls[st.c].key});
    } else if st.Commit? && w.calls[st.c].key.profile == profile {
      CommitLeavesUncommitted(w, st);
      var key := w.calls[st.c].key;
      assert p' == p + {key};
      forall k | k in u' ensures k in u - {key} { UncommittedMoves(w, st, k); }
      SubsetSize(u', u - {key});
    } else {
      PoolShrinks(w, st, profile);
      SubsetSize(p', p);
      SubsetSize(u', u);
    }
  }

  lemma ClaimMakesRoom(s: Shared, s': Shared, key: Key, now: real, event: nat, victim: Option<Key>, r: ClaimResult)
    requires ClaimStep(s, s', key, now, event, victim, r) && r.Own?
    ensures victim.Some? ==> |SameProfile(s', key.profile)| == |SameProfile(s, key.profile)| - 1
    ensures victim.None? ==> |SameProfile(s', key.profile)| < Cap(key.profile)
  {
    if victim.Some? {
      assert SameProfile(s', key.profile) == SameProfile(s, key.profile) - {victim.value};
    } else {
      assert SameProfile(s', key.profile) == SameProfile(s, key.profile);
    }
  }

  /** A committing owner's key was among the uncommitted ones. */
  lemma CommitLeavesUncommitted(w: Node, st: Step)
    requires Inv(w) && Enabled(w, st) && st.Commit?
    ensures w.calls[st.c].key in UncommittedOf(w, w.calls[st.c].key.profile)
  {
    assert Owes(w, st.c) && Holds(w, st.c) && EntryMatches(w, st.c);
  }

  lemma PoolShrinks(w: Node, st: Step, profile: string)
    requires Enabled(w, st)
    requires st.Commit? ==> w.calls[st.c].key.profile != profile
    ensures SameProfile(Apply(w, st).shared, profile) <= SameProfile(w.shared, profile)
  {
    hide OsrmPool.FirstFree, OsrmPool.EvictionChoice;
  }

  lemma NothingLoaded(profile: string)
    ensures Load(START, profile) == 0
  {
    assert SameProfile(START.shared, profile) == {} && UncommittedOf(START, profile) == {};
  }

  /** If at most `most` starts of a profile are ever in flight together, its pooled and
      still-committable instances never exceed cap - 1 + `most`. */
  lemma {:induction false} LoadStaysBounded(ws: seq<Node>, steps: seq<Step>, i: nat, profile: string, most: nat)
    requires IsRun(ws, steps) && i < |ws|
    requires forall j :: 0 <= j <= i ==> |StartsOf(ws[j], profile)| <= most
    ensures Load(ws[i], profile) <= Cap(profile) - 1 + most
  {
    if i == 0 {
      NothingLoaded(profile);
    } else {
      RunStep(ws, steps, i - 1);
      hide Load, Apply, Enabled, StartsOf, Inv, IsRun;
      LoadStaysBounded(ws, steps, i - 1, profile, most);
      RunKeepsInv(ws, steps, i - 1);
      StepKeepsLoad(ws[i - 1], steps[i - 1], profile, most);
    }
  }
}
