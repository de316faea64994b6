/**
 The OSRM instance pool of `routing_node.py`: the three dictionaries guarded by the
 node's lock, and one method for every region of `_ensure_running` that holds it.

 Processes, clocks and sockets are the environment: what they answer is a parameter.
 `active_json` is unset, so no instance is adopted from outside.
 */
module OsrmPool {
  import opened Common

  datatype Key = Key(state: string, profile: string)

  /** A pooled `osrm-routed` process and the port it serves. */
  datatype Instance = Instance(pid: nat, port: nat)

  /** An entry of `_starting`: the reserved port, and the event its owner will set. */
  datatype InFlight = InFlight(port: nat, event: nat)

  /** Everything the node's lock protects. */
  datatype Shared = Shared(pool: map<Key, Instance>, lru: map<Key, real>, starting: map<Key, InFlight>)

  const FIRST_PORT: nat := 5001
  const MAX_CAR: nat := 4
  const MAX_OTHER: nat := 3

  function Cap(profile: string): nat {
    if profile == "car" then MAX_CAR else MAX_OTHER
  }

  // ---------- What each locked region does to the shared dictionaries ----------

  /** Fast path: a healthy instance is touched, an unhealthy one is dropped. */
  function Checked(s: Shared, key: Key, healthy: bool, now: real): Shared {
    if key !in s.pool then s
    else if healthy then s.(lru := s.lru[key := now])
    else s.(pool := s.pool - {key}, lru := s.lru - {key})
  }

  function Touched(s: Shared, key: Key, now: real): Shared {
    if key in s.pool then s.(lru := s.lru[key := now]) else s
  }

  function Evicted(s: Shared, victim: Option<Key>): Shared {
    match victim
    case None => s
    case Some(k) => s.(pool := s.pool - {k}, lru := s.lru - {k})
  }

  function Reserved(s: Shared, key: Key, port: nat, event: nat): Shared {
    s.(starting := s.starting[key := InFlight(port, event)])
  }

  function Committed(s: Shared, key: Key, instance: Instance, now: real): Shared {
    s.(pool := s.pool[key := instance], lru := s.lru[key := now])
  }

  function Released(s: Shared, key: Key): Shared {
    s.(starting := s.starting - {key})
  }

  // ---------- Ports and the eviction choice ----------

  ghost function PoolPorts(s: Shared): set<nat> {
    set k | k in s.pool :: s.pool[k].port
  }

  ghost function StartingPorts(s: Shared): set<nat> {
    set k | k in s.starting :: s.starting[k].port
  }

  /** The lowest port from `from` upwards that is not in `used`. */
  ghost predicate FirstFree(used: set<nat>, from: nat, port: nat) {
    from <= port && port !in used && forall q :: from <= q < port ==> q in used
  }

  /** The instances of one profile. */
  ghost function SameProfile(s: Shared, profile: string): set<Key> {
    set k | k in s.pool && k.profile == profile
  }

  function LastUse(s: Shared, k: Key): real {
    if k in s.lru then s.lru[k] else 0.0
  }

  /** `victim` is what an owner of `profile` must evict: nothing below the cap,
      otherwise some least recently used instance of that profile. */
  ghost predicate EvictionChoice(s: Shared, profile: string, victim: Option<Key>) {
    match victim
    case None => |SameProfile(s, profile)| < Cap(profile)
    case Some(k) =>
      && |SameProfile(s, profile)| >= Cap(profile)
      && k in SameProfile(s, profile)
      && forall other :: other in SameProfile(s, profile) ==> LastUse(s, k) <= LastUse(s, other)
  }

  datatype ClaimResult =
    | Pooled(port: nat)
    | Join(port: nat, event: nat)
    | Own(port: nat, event: nat)

  /** The claim region: reuse, join, or evict and reserve. */
  ghost predicate ClaimStep(s: Shared, s': Shared, key: Key, now: real, newEvent: nat, victim: Option<Key>,
                            r: ClaimResult)
  {
    if key in s.pool then r == Pooled(s.pool[key].port) && s' == Touched(s, key, now)
    else if key in s.starting then r == Join(s.starting[key].port, s.starting[key].event) && s' == s
    else
      var t := Evicted(s, victim);
      && EvictionChoice(s, key.profile, victim)
      && r.Own? && r.event == newEvent
      && FirstFree(PoolPorts(t) + StartingPorts(t), FIRST_PORT, r.port)
      && s' == Reserved(t, key, r.port, newEvent)
  }

  /** The owner moves its reservation on, from a port it found taken from outside. */
  ghost predicate MoveStep(s: Shared, s': Shared, key: Key, from: nat, port: nat, event: nat) {
    && FirstFree(PoolPorts(s) + StartingPorts(Released(s, key)), from, port)
    && s' == Reserved(s, key, port, event)
  }

  /** Two different keys never hold the same port, pooled or in flight. */
  ghost predicate DistinctPorts(s: Shared) {
    && (forall a, b :: a in s.pool && b in s.pool && a != b ==> s.pool[a].port != s.pool[b].port)
    && (forall a, b :: a in s.starting && b in s.starting && a != b ==> s.starting[a].port != s.starting[b].port)
    && (forall a, b :: a in s.pool && b in s.starting && a != b ==> s.pool[a].port != s.starting[b].port)
  }

  // ---------- The node itself ----------

  /** What the environment answers during one call made while no other call runs. */
  datatype World = World(
    graphReady: bool,        // the dataset marker and the graph file exist
    healthy: bool,           // a pooled process is alive and its port answers
    taken: seq<bool>,        // answers of the outside-port probe; free once exhausted
    pid: Option<nat>,        // the process `_start_native` returned
    ready: bool,             // its port answered in time
    now: real)

  class RoutingNode {
    var pool: map<Key, Instance>
    var lru: map<Key, real>
    var starting: map<Key, InFlight>
    var nextEvent: nat          // identity of the next threading.Event
    var eventsSet: set<nat>

    ghost function View(): Shared reads this {
      Shared(pool, lru, starting)
    }

    constructor ()
      ensures View() == Shared(map[], map[], map[]) && nextEvent == 0 && eventsSet == {}
    {
      pool, lru, starting := map[], map[], map[];
      nextEvent, eventsSet := 0, {};
    }

    /** `with self._lock:` of step 1. */
    method FastPath(key: Key, healthy: bool, now: real) returns (port: Option<nat>)
      modifies this`pool, this`lru
      ensures View() == Checked(old(View()), key, healthy, now)
      ensures port == if key in old(pool) && healthy then Some(old(pool)[key].port) else None
    {
      if key in pool {
        if healthy {
          lru := lru[key := now];
          return Some(pool[key].port);
        }
        pool := pool - {key};
        lru := lru - {key};
      }
      return None;
    }

    /** `min(same_profile, key=last use)`: one pass over the candidates. */
    method LeastRecentlyUsed(candidates: set<Key>) returns (best: Key)
      requires candidates != {}
      ensures best in candidates
      ensures forall k :: k in candidates ==> LastUse(View(), best) <= LastUse(View(), k)
    {
      best :| best in candidates;
      var todo := candidates - {best};
      while todo != {}
        invariant best in candidates && todo <= candidates
        invariant forall k :: k in candidates && k !in todo ==> LastUse(View(), best) <= LastUse(View(), k)
        decreases |todo|
      {
        var k :| k in todo;
        if (if k in lru then lru[k] else 0.0) < (if best in lru then lru[best] else 0.0) {
          best := k;
        }
        todo := todo - {k};
      }
    }

    /** `while port in used: port += 1`. */
    static method FindFree(used: set<nat>, from: nat) returns (port: nat)
      ensures FirstFree(used, from, port)
    {
      port := from;
      ghost var above := used;
      while port in used
        invariant from <= port
        invariant forall q :: from <= q < port ==> q in used
        invariant forall q :: q in used && q >= port ==> q in above
        decreases |above|
      {
        above := above - {port};
        port := port + 1;
      }
    }

    /** `with self._lock:` of step 3: reuse, join, or become the owner. */
    method Claim(key: Key, now: real) returns (r: ClaimResult, victim: Option<Key>)
      modifies this`pool, this`lru, this`starting, this`nextEvent
      ensures ClaimStep(old(View()), View(), key, now, old(nextEvent), victim, r)
      ensures nextEvent == if r.Own? then old(nextEvent) + 1 else old(nextEvent)
      ensures !r.Own? ==> victim.None?
    {
      victim := None;
      if key in pool {
        lru := lru[key := now];
        return Pooled(pool[key].port), None;
      }
      if key in starting {
        return Join(starting[key].port, starting[key].event), None;
      }
      var same := set k | k in pool && k.profile == key.profile;
      assert same == SameProfile(View(), key.profile);
      if |same| >= Cap(key.profile) {
        var k := LeastRecentlyUsed(same);
        victim := Some(k);
        pool := pool - {k};
        lru := lru - {k};
      }
      var used := (set k | k in pool :: pool[k].port) + (set k | k in starting :: starting[k].port);
      assert used == PoolPorts(View()) + StartingPorts(View());
      var port := FindFree(used, FIRST_PORT);
      r := Own(port, nextEvent);
      starting := starting[key := InFlight(port, nextEvent)];
      nextEvent := nextEvent + 1;
    }

    /** The locked part of the outside-port loop. */
    method MoveReservation(key: Key, from: nat, event: nat) returns (port: nat)
      modifies this`starting
      ensures MoveStep(old(View()), View(), key, from, port, event)
    {
      var used := (set k | k in pool :: pool[k].port)
                  + (set k | k in starting && k != key :: starting[k].port);
      assert used == PoolPorts(View()) + StartingPorts(Released(View(), key)) by {
        assert (set k | k in starting && k != key :: starting[k].port) == StartingPorts(Released(View(), key)) by {
          forall k | k in starting && k != key
            ensures starting[k].port in StartingPorts(Released(View(), key))
          {
            assert k in Released(View(), key).starting;
          }
        }
      }
      port := FindFree(used, from);
      starting := starting[key := InFlight(port, event)];
    }

    method Commit(key: Key, instance: Instance, now: real)
      modifies this`pool, this`lru
      ensures View() == Committed(old(View()), key, instance, now)
    {
      pool := pool[key := instance];
      lru := lru[key := now];
    }

    /** First half of the `finally` block. */
    method Release(key: Key)
      modifies this`starting
      ensures View() == Released(old(View()), key)
    {
      starting := starting - {key};
    }

    /** Second half of the `finally` block: `done_event.set()`. */
    method SetEvent(event: nat)
      modifies this`eventsSet
      ensures eventsSet == old(eventsSet) + {event}
    {
      eventsSet := eventsSet + {event};
    }

    /** What a waiter does once the owner's event is set. */
    method AfterWait(key: Key, now: real) returns (port: Option<nat>)
      modifies this`lru
      ensures View() == Touched(old(View()), key, now)
      ensures port == if key in old(pool) then Some(old(pool)[key].port) else None
    {
      if key in pool {
        lru := lru[key := now];
        return Some(pool[key].port);
      }
      return None;
    }

    method Shutdown()
      modifies this`pool, this`lru
      ensures View() == old(View()).(pool := map[], lru := map[])
    {
      pool, lru := map[], map[];
    }

    /** A whole `_ensure_running` call with no other call in progress: nothing stays in
        flight, every profile stays within its cap, and a returned port is the pooled one. */
    method EnsureRunning(key: Key, w: World) returns (port: Option<nat>)
      requires starting == map[] && DistinctPorts(View()) && WithinCaps(View())
      modifies this
      ensures starting == map[] && DistinctPorts(View()) && WithinCaps(View())
      ensures !w.graphReady ==> port.None? && View() == old(View()) && nextEvent == old(nextEvent)
      ensures w.graphReady && key in old(pool) && w.healthy ==>
                port == Some(old(pool)[key].port) && pool == old(pool) && nextEvent == old(nextEvent)
      ensures w.graphReady && !(key in old(pool) && w.healthy) ==>
                (port.Some? <==> w.pid.Some? && w.ready) && nextEvent == old(nextEvent) + 1
      ensures port.Some? ==> key in pool && pool[key].port == port.value && key in lru && lru[key] == w.now
      ensures forall k :: k in pool && k != key ==> k in old(pool) && pool[k] == old(pool)[k]
      ensures eventsSet == old(eventsSet) + if nextEvent == old(nextEvent) then {} else {old(nextEvent)}
    {
      hide DistinctPorts, WithinCaps, SameProfile;
      if !w.graphReady { return None; }
      port := FastPath(key, w.healthy, w.now);
      ghost var s1 := View();
      DropKeepsCaps(old(View()), s1);
      DropKeepsPorts(old(View()), s1);
      if port.Some? { return; }
      var r, victim := Claim(key, w.now);
      ghost var s2 := View();
      ClaimKeepsPorts(s1, s2, key, w.now, old(nextEvent), victim, r);
      port := StartAsOwner(key, r.port, r.event, w);
      ghost var s3 := View();
      if port.Some? {
        CommitKeepsCaps(s1, victim, key, Instance(w.pid.value, port.value), w.now);
        assert s3.pool == Committed(Evicted(s1, victim), key, Instance(w.pid.value, port.value), w.now).pool;
        DropKeepsCaps(Committed(Evicted(s1, victim), key, Instance(w.pid.value, port.value), w.now), s3);
      } else {
        DropKeepsCaps(s1, s3);
      }
    }

    /** The owner's attempt, with its `finally` block. */
    method StartAsOwner(key: Key, reserved: nat, event: nat, w: World) returns (port: Option<nat>)
      requires key !in pool && DistinctPorts(View())
      requires key in starting && starting[key] == InFlight(reserved, event)
      modifies this`pool, this`lru, this`starting, this`eventsSet
      ensures DistinctPorts(View())
      ensures starting == old(starting) - {key} && eventsSet == old(eventsSet) + {event}
      ensures port.None? ==> pool == old(pool) && lru == old(lru)
      ensures port.Some? <==> w.pid.Some? && w.ready
      ensures port.Some? ==> lru == old(lru)[key := w.now]
                             && pool == old(pool)[key := Instance(w.pid.value, port.value)]
    {
      hide DistinctPorts;
      port := None;
      ghost var t := View();
      var p := SettlePort(key, reserved, event, w.taken, t);
      if w.pid.Some? && w.ready {
        CommitKeepsPorts(View(), key, Instance(w.pid.value, p), w.now);
        Commit(key, Instance(w.pid.value, p), w.now);
        port := Some(p);
      }
      DropKeepsPorts(View(), Released(View(), key));
      Release(key);
      SetEvent(event);
    }

    /** `while _port_ready(port)`: the reservation moves past ports taken from outside. */
    method SettlePort(key: Key, from: nat, event: nat, taken: seq<bool>, ghost t: Shared) returns (port: nat)
      requires key !in t.pool && View() == Reserved(t, key, from, event) && DistinctPorts(View())
      modifies this`starting
      ensures View() == Reserved(t, key, port, event) && DistinctPorts(View())
    {
      hide DistinctPorts;
      port := from;
      var i := 0;
      while i < |taken| && taken[i]
        invariant View() == Reserved(t, key, port, event)
        invariant DistinctPorts(View())
      {
        ghost var before := View();
        var next := MoveReservation(key, port + 1, event);
        MoveKeepsPorts(before, View(), key, port + 1, next, event);
        port := next;
        i := i + 1;
      }
    }
  }

  ghost predicate WithinCaps(s: Shared) {
    forall p :: |SameProfile(s, p)| <= Cap(p)
  }

  // ---------- Ports stay distinct ----------

  /** Reserving the port found for an unpooled key keeps ports distinct. */
  lemma ReserveKeepsPorts(s: Shared, key: Key, port: nat, event: nat)
    requires DistinctPorts(s) && key !in s.pool
    requires port !in PoolPorts(s) + StartingPorts(Released(s, key))
    ensures DistinctPorts(Reserved(s, key, port, event))
  {
    forall a | a in s.starting && a != key
      ensures s.starting[a].port != port
    {
      assert a in Released(s, key).starting;
    }
  }

  lemma ClaimKeepsPorts(s: Shared, s': Shared, key: Key, now: real, newEvent: nat, victim: Option<Key>, r: ClaimResult)
    requires DistinctPorts(s) && ClaimStep(s, s', key, now, newEvent, victim, r)
    ensures DistinctPorts(s')
  {
    if r.Own? {
      var t := Evicted(s, victim);
      assert Released(t, key).starting == t.starting;
      ReserveKeepsPorts(t, key, r.port, newEvent);
    }
  }

  lemma MoveKeepsPorts(s: Shared, s': Shared, key: Key, from: nat, port: nat, event: nat)
    requires DistinctPorts(s) && key !in s.pool && MoveStep(s, s', key, from, port, event)
    ensures DistinctPorts(s')
  {
    ReserveKeepsPorts(s, key, port, event);
  }

  /** Dropping or touching entries keeps ports distinct. */
  lemma DropKeepsPorts(s: Shared, s': Shared)
    requires DistinctPorts(s)
    requires s'.pool.Keys <= s.pool.Keys && forall k :: k in s'.pool ==> s'.pool[k] == s.pool[k]
    requires s'.starting.Keys <= s.starting.Keys && forall k :: k in s'.starting ==> s'.starting[k] == s.starting[k]
    ensures DistinctPorts(s')
  {
  }

  lemma CommitKeepsPorts(s: Shared, key: Key, instance: Instance, now: real)
    requires DistinctPorts(s) && key !in s.pool
    requires key in s.starting && s.starting[key].port == instance.port
    ensures DistinctPorts(Committed(s, key, instance, now))
  {
  }

  /** Dropping pooled entries keeps every profile within its cap. */
  lemma DropKeepsCaps(s: Shared, s': Shared)
    requires s'.pool.Keys <= s.pool.Keys
    requires WithinCaps(s)
    ensures WithinCaps(s')
  {
    forall p ensures |SameProfile(s', p)| <= Cap(p) {
      SubsetSize(SameProfile(s', p), SameProfile(s, p));
    }
  }

  /** One owner that evicted as the claim region demands can commit without passing the cap. */
  lemma CommitKeepsCaps(s: Shared, victim: Option<Key>, key: Key, instance: Instance, now: real)
    requires WithinCaps(s) && EvictionChoice(s, key.profile, victim)
    ensures WithinCaps(Committed(Evicted(s, victim), key, instance, now))
  {
    var t := Evicted(s, victim);
    var u := Committed(t, key, instance, now);
    EvictionMakesRoom(s, key.profile, victim);
    hide EvictionChoice, Cap;
    forall p ensures |SameProfile(u, p)| <= Cap(p) {
      ProfileAfterCommit(t, key, instance, now, p);
      hide SameProfile, Committed;
      if p != key.profile {
        EvictionShrinks(s, victim, p);
        SubsetSize(SameProfile(t, p), SameProfile(s, p));
      }
    }
  }

  lemma ProfileAfterCommit(t: Shared, key: Key, instance: Instance, now: real, p: string)
    ensures SameProfile(Committed(t, key, instance, now), p)
         == SameProfile(t, p) + if p == key.profile then {key} else {}
  {
  }

  lemma EvictionShrinks(s: Shared, victim: Option<Key>, p: string)
    ensures SameProfile(Evicted(s, victim), p) <= SameProfile(s, p)
  {
  }

  lemma EvictionMakesRoom(s: Shared, profile: string, victim: Option<Key>)
    requires WithinCaps(s) && EvictionChoice(s, profile, victim)
    ensures |SameProfile(Evicted(s, victim), profile)| < Cap(profile)
  {
    if victim.Some? {
      assert SameProfile(Evicted(s, victim), profile) == SameProfile(s, profile) - {victim.value};
    }
  }

  lemma SubsetSize<T>(a: set<T>, b: set<T>)
    requires a <= b
    ensures |a| <= |b|
  {
    if a != {} {
      var x :| x in a;
      SubsetSize(a - {x}, b - {x});
    }
  }
}
