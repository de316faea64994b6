/**
 The paired-client lookup of `pairing.py`: a cache with a time to live in front of the table, used by
 any number of lookups at once while clients are paired, seen, revoked and deleted.
 */
module PairingCache {
  import opened Common

  type Time = real

  const CACHE_TTL: Time := 30.0
  const CACHE_LIMIT: nat := 512
  const TOKEN_LIMIT: nat := 200

  /** The stored hash of a token, idealised: equal hashes come from equal tokens. */
  datatype Hash = Hash(token: string)

  datatype Client = Client(id: string, name: string, kind: string, lastSeen: int)

  datatype Row = Row(client: Client, revoked: bool)

  /** The table `paired_clients`; its token hashes are unique. */
  type Table = map<Hash, Row>

  datatype Entry = Entry(answer: Option<Client>, at: Time)

  type Cache = map<Hash, Entry>

  /** What the table says of a token. */
  function Answer(db: Table, th: Hash): Option<Client> {
    if th in db && !db[th].revoked then Some(db[th].client) else None
  }

  function Seen(db: Table, th: Hash, at: int): Table {
    if th in db then db[th := db[th].(client := db[th].client.(lastSeen := at))] else db
  }

  /** When the client was last seen is more than five minutes from the clock's reading, either way. */
  predicate LongUnseen(client: Option<Client>, wall: int) {
    client.Some? && (client.value.lastSeen < wall - 300 || client.value.lastSeen > wall + 300)
  }

  function Revoked(db: Table, id: string): Table {
    map th | th in db :: if db[th].client.id == id then db[th].(revoked := true) else db[th]
  }

  predicate Hit(cache: Cache, th: Hash, now: Time) {
    th in cache && now - cache[th].at < CACHE_TTL
  }

  function Stored(cache: Cache, th: Hash, e: Entry): Cache {
    (if |cache| > CACHE_LIMIT then map[] else cache)[th := e]
  }

  /** The module's cache and its table. Each of the first seven methods is one atomic step: a region that
      holds the lock, or one statement of the database. */
  class PairedClients {
    var cache: Cache
    var db: Table

    constructor ()
      ensures cache == map[] && db == map[]
    {
      cache, db := map[], map[];
    }

    method Probe(th: Hash, now: Time) returns (hit: Option<Option<Client>>)
      ensures hit == if Hit(cache, th, now) then Some(cache[th].answer) else None
    {
      if th in cache && now - cache[th].at < CACHE_TTL { return Some(cache[th].answer); }
      return None;
    }

    method Read(th: Hash) returns (client: Option<Client>)
      ensures client == Answer(db, th)
    {
      return if th in db && !db[th].revoked then Some(db[th].client) else None;
    }

    method MarkSeen(th: Hash, at: int)
      modifies this`db
      ensures db == Seen(old(db), th, at)
      ensures forall t :: Answer(db, t).None? <==> Answer(old(db), t).None?
    {
      if th in db { db := db[th := db[th].(client := db[th].client.(lastSeen := at))]; }
    }

    method Store(th: Hash, client: Option<Client>, now: Time)
      modifies this`cache
      ensures cache == Stored(old(cache), th, Entry(client, now))
    {
      if |cache| > CACHE_LIMIT { cache := map[]; }
      cache := cache[th := Entry(client, now)];
    }

    /** The insertion of `_issue`. */
    method Issue(th: Hash, client: Client)
      requires th !in db
      modifies this`db
      ensures db == old(db)[th := Row(client, false)] && Answer(db, th) == Some(client)
    {
      db := db[th := Row(client, false)];
    }

    method RevokeRow(id: string) returns (changed: bool)
      modifies this`db
      ensures db == Revoked(old(db), id)
      ensures changed <==> exists th :: th in old(db) && old(db)[th].client.id == id && !old(db)[th].revoked
      ensures forall th :: th in old(db) && old(db)[th].client.id == id ==> Answer(db, th) == None
      ensures forall th :: !(th in old(db) && old(db)[th].client.id == id) ==> Answer(db, th) == Answer(old(db), th)
    {
      changed := exists th :: th in db && db[th].client.id == id && !db[th].revoked;
      db := Revoked(db, id);
    }

    method ClearCache()
      modifies this`cache
      ensures cache == map[]
    {
      cache := map[];
    }

    /** `lookup` with no other step in between; `now` is the monotonic clock, `wall` the wall clock. */
    method LookUp(token: string, now: Time, wall: int) returns (client: Option<Client>)
      modifies this
      ensures client == if token == "" || |token| > TOKEN_LIMIT then None
                        else if Hit(old(cache), Hash(token), now) then old(cache)[Hash(token)].answer
                        else Answer(old(db), Hash(token))
      ensures token == "" || |token| > TOKEN_LIMIT || Hit(old(cache), Hash(token), now) ==>
        cache == old(cache) && db == old(db)
      ensures token != "" && |token| <= TOKEN_LIMIT && !Hit(old(cache), Hash(token), now) ==>
        && cache == Stored(old(cache), Hash(token), Entry(client, now))
        && db == if LongUnseen(client, wall) then Seen(old(db), Hash(token), wall) else old(db)
      ensures forall th :: Answer(old(db), th).None? <==> Answer(db, th).None?
    {
      if token == "" || |token| > TOKEN_LIMIT { return None; }
      var th := Hash(token);
      var hit := Probe(th, now);
      if hit.Some? { return hit.value; }
      client := Read(th);
      if LongUnseen(client, wall) { MarkSeen(th, wall); }
      Store(th, client, now);
    }

    /** `revoke`: the row first, then the cache. */
    method Revoke(id: string) returns (changed: bool)
      modifies this
      ensures cache == map[] && db == Revoked(old(db), id)
      ensures changed <==> exists th :: th in old(db) && old(db)[th].client.id == id && !old(db)[th].revoked
    {
      changed := RevokeRow(id);
      ClearCache();
    }

    /** `revoke_all`. */
    method RevokeAll()
      modifies this
      ensures cache == map[] && db == map[]
    {
      db := map[];
      ClearCache();
    }
  }

  // ---------- Interleavings ----------

  /** Where a lookup is. */
  datatype Stage =
    | Free
    | Started(th: Hash, now: Time)                            // has read the clock
    | Missed(th: Hash, now: Time)                             // found nothing fresh in the cache
    | Fetched(th: Hash, now: Time, answer: Option<Client>)    // has read the table
    | Answered(th: Hash, now: Time, answer: Option<Client>)   // returned

  /** `issued` is every token hash ever issued. */
  datatype State = State(clock: Time, db: Table, cache: Cache, lookups: seq<Stage>, issued: set<Hash>)

  datatype Step =
    | Advance(clock: Time)
    | Begin(i: nat, th: Hash)
    | Probe(i: nat)
    | Read(i: nat)
    | MarkSeen(i: nat, at: int)
    | Store(i: nat)
    | Issue(th: Hash, client: Client)
    | RevokeRow(id: string)
    | DeleteRows
    | ClearCache

  /** Tokens are random: a new one was never issued before. */
  predicate Enabled(s: State, step: Step) {
    match step
    case Advance(clock) => s.clock <= clock
    case Begin(i, _) => i < |s.lookups| && (s.lookups[i].Free? || s.lookups[i].Answered?)
    case Probe(i) => i < |s.lookups| && s.lookups[i].Started?
    case Read(i) => i < |s.lookups| && s.lookups[i].Missed?
    case MarkSeen(i, _) => i < |s.lookups| && s.lookups[i].Fetched? && s.lookups[i].answer.Some?
    case Store(i) => i < |s.lookups| && s.lookups[i].Fetched?
    case Issue(th, _) => th !in s.issued
    case _ => true
  }

  function Next(s: State, step: Step): State
    requires Enabled(s, step)
  {
    match step
    case Advance(clock) => s.(clock := clock)
    case Begin(i, th) => s.(lookups := s.lookups[i := Started(th, s.clock)])
    case Probe(i) =>
      var p := s.lookups[i];
      s.(lookups := s.lookups[i :=
           if Hit(s.cache, p.th, p.now) then Answered(p.th, p.now, s.cache[p.th].answer) else Missed(p.th, p.now)])
    case Read(i) =>
      var p := s.lookups[i];
      s.(lookups := s.lookups[i := Fetched(p.th, p.now, Answer(s.db, p.th))])
    case MarkSeen(i, at) => s.(db := Seen(s.db, s.lookups[i].th, at))
    case Store(i) =>
      var p := s.lookups[i];
      s.(cache := Stored(s.cache, p.th, Entry(p.answer, p.now)),
         lookups := s.lookups[i := Answered(p.th, p.now, p.answer)])
    case Issue(th, client) => s.(db := s.db[th := Row(client, false)], issued := s.issued + {th})
    case RevokeRow(id) => s.(db := Revoked(s.db, id))
    case DeleteRows => s.(db := map[])
    case ClearCache => s.(cache := map[])
  }

  ghost predicate Stepped(states: seq<State>, steps: seq<Step>, k: nat)
    requires |states| == |steps| + 1 && k < |steps|
  {
    Enabled(states[k], steps[k]) && states[k + 1] == Next(states[k], steps[k])
  }

  ghost predicate IsRun(states: seq<State>, steps: seq<Step>) {
    |states| == |steps| + 1 && forall k: nat | k < |steps| :: Stepped(states, steps, k)
  }

  function Initial(lookups: nat, clock: Time): State {
    State(clock, map[], map[], seq(lookups, _ => Free), {})
  }

  // ---------- How old an answer can be ----------

  /** At some instant up to state `n`, no earlier than `since`, the table gave this answer. */
  ghost predicate WasAnswer(states: seq<State>, n: nat, th: Hash, answer: Option<Client>, since: Time)
    requires n < |states|
  {
    exists k: nat :: k <= n && states[k].clock >= since && Answer(states[k].db, th) == answer
  }

  /** The same, strictly later than `since`. */
  ghost predicate WasAnswerAfter(states: seq<State>, n: nat, th: Hash, answer: Option<Client>, since: Time)
    requires n < |states|
  {
    exists k: nat :: k <= n && states[k].clock > since && Answer(states[k].db, th) == answer
  }

  ghost predicate CacheTrue(states: seq<State>, n: nat)
    requires n < |states|
  {
    forall th <- states[n].cache :: WasAnswer(states, n, th, states[n].cache[th].answer, states[n].cache[th].at)
  }

  ghost predicate StageTrue(states: seq<State>, n: nat, p: Stage)
    requires n < |states|
  {
    && (p.Started? || p.Missed? ==> p.now <= states[n].clock)
    && (p.Fetched? ==> WasAnswer(states, n, p.th, p.answer, p.now))
    && (p.Answered? ==> WasAnswerAfter(states, n, p.th, p.answer, p.now - CACHE_TTL))
  }

  ghost predicate LookupsTrue(states: seq<State>, n: nat)
    requires n < |states|
  {
    forall i :: 0 <= i < |states[n].lookups| ==> StageTrue(states, n, states[n].lookups[i])
  }

  lemma LaterStillTrue(states: seq<State>, n: nat, p: Stage)
    requires n + 1 < |states| && states[n].clock <= states[n + 1].clock && StageTrue(states, n, p)
    ensures StageTrue(states, n + 1, p)
  {
    if p.Fetched? {
      var k: nat :| k <= n && states[k].clock >= p.now && Answer(states[k].db, p.th) == p.answer;
      assert k <= n + 1;
    }
    if p.Answered? {
      var k: nat :| k <= n && states[k].clock > p.now - CACHE_TTL && Answer(states[k].db, p.th) == p.answer;
      assert k <= n + 1;
    }
  }

  lemma CacheStaysTrue(states: seq<State>, steps: seq<Step>, n: nat)
    requires IsRun(states, steps) && n < |steps| && CacheTrue(states, n) && LookupsTrue(states, n)
    ensures CacheTrue(states, n + 1)
  {
    hide Answer, Seen, Revoked, WasAnswerAfter;
    var s, t := states[n], states[n + 1];
    assert Stepped(states, steps, n);
    forall th | th in t.cache
      ensures WasAnswer(states, n + 1, th, t.cache[th].answer, t.cache[th].at)
    {
      var e := t.cache[th];
      if th in s.cache && s.cache[th] == e {
      } else {
        var i := steps[n].i;
        assert StageTrue(states, n, s.lookups[i]);
      }
      assert WasAnswer(states, n, th, e.answer, e.at);
      var k: nat :| k <= n && states[k].clock >= e.at && Answer(states[k].db, th) == e.answer;
      assert k <= n + 1;
    }
  }

  lemma LookupsStayTrue(states: seq<State>, steps: seq<Step>, n: nat, i: nat)
    requires IsRun(states, steps) && n < |steps| && CacheTrue(states, n) && LookupsTrue(states, n)
    requires i < |states[n + 1].lookups|
    ensures StageTrue(states, n + 1, states[n + 1].lookups[i])
  {
    hide Seen, Revoked, Stored;
    var s, t, step := states[n], states[n + 1], steps[n];
    assert Stepped(states, steps, n);
    var p, q := s.lookups[i], t.lookups[i];
    assert StageTrue(states, n, p);
    LaterStillTrue(states, n, p);
    if p != q {
      match step
      case Probe(_) =>
        if q.Answered? {
          var k: nat :| k <= n && states[k].clock >= s.cache[p.th].at && Answer(states[k].db, p.th) == q.answer;
          assert states[k].clock > q.now - CACHE_TTL;
        }
      case Read(_) => assert Answer(states[n].db, p.th) == q.answer;
      case Store(_) =>
        var k: nat :| k <= n && states[k].clock >= p.now && Answer(states[k].db, p.th) == q.answer;
        assert states[k].clock > q.now - CACHE_TTL;
      case _ =>
    }
  }

  lemma {:induction false} RunStaysTrue(lookups: nat, clock: Time, states: seq<State>, steps: seq<Step>, n: nat)
    requires IsRun(states, steps) && states[0] == Initial(lookups, clock) && n < |states|
    ensures CacheTrue(states, n) && LookupsTrue(states, n)
  {
    if n > 0 {
      RunStaysTrue(lookups, clock, states, steps, n - 1);
      CacheStaysTrue(states, steps, n - 1);
      forall i | 0 <= i < |states[n].lookups|
        ensures StageTrue(states, n, states[n].lookups[i])
      {
        LookupsStayTrue(states, steps, n - 1, i);
      }
    }
  }

  /** In every interleaving, every answer was the table's answer at an instant during the call or less
      than 30 s before it began. */
  lemma AnswersAreFresh(lookups: nat, clock: Time, states: seq<State>, steps: seq<Step>, n: nat, i: nat)
    requires IsRun(states, steps) && states[0] == Initial(lookups, clock) && n < |states|
    requires i < |states[n].lookups| && states[n].lookups[i].Answered?
    ensures var p := states[n].lookups[i]; WasAnswerAfter(states, n, p.th, p.answer, p.now - CACHE_TTL)
  {
    RunStaysTrue(lookups, clock, states, steps, n);
    assert StageTrue(states, n, states[n].lookups[i]);
  }

  // ---------- Revocation ----------

  /** The token was issued, and its row is revoked or gone. */
  predicate Dead(s: State, th: Hash) {
    th in s.issued && Answer(s.db, th).None?
  }

  /** A dead token stays dead: nothing brings a revoked row back. */
  lemma {:induction false} DeadForGood(states: seq<State>, steps: seq<Step>, m: nat, n: nat, th: Hash)
    requires IsRun(states, steps) && m <= n < |states| && Dead(states[m], th)
    ensures Dead(states[n], th)
  {
    if m < n {
      DeadForGood(states, steps, m, n - 1, th);
      assert Stepped(states, steps, n - 1);
    }
  }

  lemma {:induction false} ClockAdvances(states: seq<State>, steps: seq<Step>, m: nat, n: nat)
    requires IsRun(states, steps) && m <= n < |states|
    ensures states[m].clock <= states[n].clock
  {
    if m < n {
      ClockAdvances(states, steps, m, n - 1);
      assert Stepped(states, steps, n - 1);
    }
  }

  /** Whatever overlaps it, a revocation is complete 30 s after the row changed: a lookup that begins
      then, or later, refuses the token. */
  lemma RevokedRefusedAfterTtl(lookups: nat, clock: Time, states: seq<State>, steps: seq<Step>,
                               m: nat, n: nat, i: nat)
    requires IsRun(states, steps) && states[0] == Initial(lookups, clock) && m <= n < |states|
    requires i < |states[n].lookups| && states[n].lookups[i].Answered?
    requires Dead(states[m], states[n].lookups[i].th)
    requires states[n].lookups[i].now >= states[m].clock + CACHE_TTL
    ensures states[n].lookups[i].answer == None
  {
    var p := states[n].lookups[i];
    AnswersAreFresh(lookups, clock, states, steps, n, i);
    var k: nat :| k <= n && states[k].clock > p.now - CACHE_TTL && Answer(states[k].db, p.th) == p.answer;
    if k < m { ClockAdvances(states, steps, k, m); }
    DeadForGood(states, steps, m, k, p.th);
  }

  /** No cache entry and no lookup under way still accepts the token. */
  predicate Forgotten(s: State, th: Hash) {
    && (th in s.cache ==> s.cache[th].answer.None?)
    && (forall i :: 0 <= i < |s.lookups| && s.lookups[i].Fetched? && s.lookups[i].th == th ==>
          s.lookups[i].answer.None?)
  }

  lemma {:induction false} ForgottenForGood(states: seq<State>, steps: seq<Step>, m: nat, n: nat, th: Hash)
    requires IsRun(states, steps) && m <= n < |states| && Dead(states[m], th) && Forgotten(states[m], th)
    ensures Forgotten(states[n], th)
  {
    if m < n {
      ForgottenForGood(states, steps, m, n - 1, th);
      DeadForGood(states, steps, m, n - 1, th);
      assert Stepped(states, steps, n - 1);
      hide Seen, Revoked, IsRun;
    }
  }

  /** No lookup under way has read an answer from the table that accepts the token. */
  predicate NoneAccepting(lookups: seq<Stage>, th: Hash) {
    forall j :: 0 <= j < |lookups| && lookups[j].Fetched? && lookups[j].th == th ==> lookups[j].answer.None?
  }

  /** If the cache is cleared while no lookup under way has read an answer that accepts the revoked
      token, every answer given from then on refuses it. */
  lemma RevokedRefusedAtOnce(states: seq<State>, steps: seq<Step>, m: nat, n: nat, i: nat, th: Hash)
    requires IsRun(states, steps) && m < n < |steps| && steps[m] == ClearCache
    requires Dead(states[m], th) && NoneAccepting(states[m].lookups, th)
    requires i < |states[n].lookups| == |states[n + 1].lookups|
    requires !states[n].lookups[i].Answered? && states[n + 1].lookups[i].Answered? && states[n + 1].lookups[i].th == th
    ensures states[n + 1].lookups[i].answer == None
  {
    assert Stepped(states, steps, m);
    DeadForGood(states, steps, m, m + 1, th);
    ForgottenForGood(states, steps, m + 1, n, th);
    assert Stepped(states, steps, n);
    hide IsRun, Seen, Revoked;
  }

  /** In step `n` of the run lookup `i` answers for the token. */
  ghost predicate AnswersIn(states: seq<State>, n: nat, i: nat, th: Hash)
    requires n + 1 < |states|
  {
    && i < |states[n].lookups| && i < |states[n + 1].lookups|
    && !states[n].lookups[i].Answered? && states[n + 1].lookups[i].Answered? && states[n + 1].lookups[i].th == th
  }

  /** Every answer for the token after the first step of the run refuses it. */
  ghost predicate RefusesAfterFirst(states: seq<State>, th: Hash) {
    forall n: nat, i: nat | 0 < n < |states| - 1 && AnswersIn(states, n, i, th) ::
      states[n + 1].lookups[i].answer == None
  }

  /** However things go on from a state in which the cache is cleared, every later answer refuses the token. */
  ghost predicate RefusesEverAfter(s: State, th: Hash) {
    forall states, steps | IsRun(states, steps) && steps != [] && states[0] == s && steps[0] == ClearCache ::
      RefusesAfterFirst(states, th)
  }

  /** A revoked token is refused from the clearing of the cache on, in every continuation, exactly when
      no lookup under way has read an answer that accepts it. */
  lemma RevokedRefusedExactlyWhen(s: State, th: Hash)
    requires Dead(s, th)
    ensures RefusesEverAfter(s, th) <==> NoneAccepting(s.lookups, th)
  {
    hide Dead, Seen, Revoked, Answer;
    if NoneAccepting(s.lookups, th) {
      forall states, steps | IsRun(states, steps) && steps != [] && states[0] == s && steps[0] == ClearCache
        ensures RefusesAfterFirst(states, th)
      {
        LaterAnswersRefuse(states, steps, th);
      }
    } else {
      var j: nat :| j < |s.lookups| && s.lookups[j].Fetched? && s.lookups[j].th == th && s.lookups[j].answer.Some?;
      StoreAccepts(s, th, j);
    }
  }

  lemma LaterAnswersRefuse(states: seq<State>, steps: seq<Step>, th: Hash)
    requires IsRun(states, steps) && steps != [] && steps[0] == ClearCache
    requires Dead(states[0], th) && NoneAccepting(states[0].lookups, th)
    ensures RefusesAfterFirst(states, th)
  {
    hide Dead, NoneAccepting, Stepped;
    forall n: nat, i: nat | 0 < n < |states| - 1 && AnswersIn(states, n, i, th)
      ensures states[n + 1].lookups[i].answer == None
    {
      SameLookups(states, steps, n);
      RevokedRefusedAtOnce(states, steps, 0, n, i, th);
    }
  }

  lemma SameLookups(states: seq<State>, steps: seq<Step>, n: nat)
    requires IsRun(states, steps) && n < |steps|
    ensures |states| == |steps| + 1 && |states[n + 1].lookups| == |states[n].lookups|
  {
    assert Stepped(states, steps, n);
    hide Seen, Revoked, IsRun;
  }

  /** A lookup that holds an accepting answer need only store it. */
  lemma StoreAccepts(s: State, th: Hash, j: nat)
    requires j < |s.lookups| && s.lookups[j].Fetched? && s.lookups[j].th == th && s.lookups[j].answer.Some?
    ensures !RefusesEverAfter(s, th)
  {
    var steps := [ClearCache, Store(j)];
    var cleared := Next(s, ClearCache);
    var states := [s, cleared, Next(cleared, Store(j))];
    assert Stepped(states, steps, 0) && Stepped(states, steps, 1);
    assert IsRun(states, steps);
    assert AnswersIn(states, 1, j, th);
    assert !RefusesAfterFirst(states, th);
  }

  // ---------- Lookups that begin after the clear ----------

  /** The lookup has read an answer from the table that accepts the token. */
  predicate HoldsAccepting(p: Stage, th: Hash) {
    p.Fetched? && p.th == th && p.answer.Some?
  }

  /** Every answer that a lookup under way has read from the table and that accepts the token is already
      as old as the cache lets an answer be. */
  predicate OnlyOldAccept(s: State, th: Hash) {
    forall j :: 0 <= j < |s.lookups| && HoldsAccepting(s.lookups[j], th) ==>
      s.clock - s.lookups[j].now >= CACHE_TTL
  }

  /** Lookup `i` begins in step `m` with the token, is under way until step `n` and answers there. */
  ghost predicate AnswersCall(states: seq<State>, steps: seq<Step>, m: nat, n: nat, i: nat, th: Hash)
    requires |states| == |steps| + 1
  {
    && m < n < |steps| && steps[m] == Begin(i, th)
    && (forall k: nat | m < k <= n :: i < |states[k].lookups| && !states[k].lookups[i].Answered?)
    && i < |states[n + 1].lookups| && states[n + 1].lookups[i].Answered?
  }

  /** Every lookup of the token that begins after the first step of the run is refused. */
  ghost predicate RefusesLaterCalls(states: seq<State>, steps: seq<Step>, th: Hash)
    requires |states| == |steps| + 1
  {
    forall m: nat, n: nat, i: nat | 0 < m && AnswersCall(states, steps, m, n, i, th) ::
      states[n + 1].lookups[i].answer == None
  }

  /** However things go on from a state in which the cache is cleared. */
  ghost predicate RefusesCallsEverAfter(s: State, th: Hash) {
    forall states: seq<State>, steps: seq<Step>
      | IsRun(states, steps) && steps != [] && states[0] == s && steps[0] == ClearCache ::
      RefusesLaterCalls(states, steps, th)
  }

  /** Whatever in the cache or under way accepts the token was asked for no later than 30 s before `since`. */
  predicate OnlyOld(s: State, th: Hash, since: Time) {
    && since <= s.clock
    && (th in s.cache && s.cache[th].answer.Some? ==> since - s.cache[th].at >= CACHE_TTL)
    && (forall j :: 0 <= j < |s.lookups| && HoldsAccepting(s.lookups[j], th) ==>
          since - s.lookups[j].now >= CACHE_TTL)
  }

  lemma {:induction false} OnlyOldForGood(states: seq<State>, steps: seq<Step>, m: nat, n: nat, th: Hash, since: Time)
    requires IsRun(states, steps) && m <= n < |states| && Dead(states[m], th) && OnlyOld(states[m], th, since)
    ensures OnlyOld(states[n], th, since)
  {
    if m < n {
      OnlyOldForGood(states, steps, m, n - 1, th, since);
      DeadForGood(states, steps, m, n - 1, th);
      assert Stepped(states, steps, n - 1);
      hide Seen, Revoked, IsRun;
    }
  }

  /** A lookup of the token that began at `since` or later and has read nothing that accepts it. */
  predicate LateCall(p: Stage, th: Hash, since: Time) {
    !p.Free? && !p.Answered? && p.th == th && p.now >= since && (p.Fetched? ==> p.answer.None?)
  }

  lemma {:induction false} CallStaysLate(states: seq<State>, steps: seq<Step>, m: nat, n: nat, k: nat, i: nat,
                                         th: Hash, since: Time)
    requires IsRun(states, steps) && AnswersCall(states, steps, m, n, i, th) && m < k <= n
    requires Dead(states[m], th) && since <= states[m].clock
    ensures i < |states[k].lookups| && LateCall(states[k].lookups[i], th, since)
  {
    assert Stepped(states, steps, k - 1);
    if k - 1 > m {
      CallStaysLate(states, steps, m, n, k - 1, i, th, since);
      DeadForGood(states, steps, m, k - 1, th);
    }
    assert !states[k].lookups[i].Answered?;
    hide IsRun, Seen, Revoked, Stored, AnswersCall;
  }

  lemma LaterCallRefused(states: seq<State>, steps: seq<Step>, m: nat, n: nat, i: nat, th: Hash)
    requires IsRun(states, steps) && steps != [] && steps[0] == ClearCache
    requires Dead(states[0], th) && OnlyOldAccept(states[0], th)
    requires 0 < m && AnswersCall(states, steps, m, n, i, th)
    ensures states[n + 1].lookups[i].answer == None
  {
    var since := states[0].clock;
    assert Stepped(states, steps, 0);
    DeadForGood(states, steps, 0, 1, th);
    DeadForGood(states, steps, 1, m, th);
    OnlyOldForGood(states, steps, 1, m, th, since);
    OnlyOldForGood(states, steps, 1, n, th, since);
    CallStaysLate(states, steps, m, n, n, i, th, since);
    assert Stepped(states, steps, n);
    hide IsRun, Seen, Revoked, Stored;
  }

  /** Once the cache is cleared, every lookup of a revoked token that begins from then on is refused, in every
      continuation, exactly when each accepting answer a lookup under way has read is 30 s old by then. */
  lemma LaterCallsRefusedExactlyWhen(s: State, th: Hash)
    requires Dead(s, th)
    ensures RefusesCallsEverAfter(s, th) <==> OnlyOldAccept(s, th)
  {
    if OnlyOldAccept(s, th) {
      hide Dead, OnlyOldAccept, IsRun, AnswersCall;
      forall states: seq<State>, steps: seq<Step>
        | IsRun(states, steps) && steps != [] && states[0] == s && steps[0] == ClearCache
        ensures |states| == |steps| + 1 && RefusesLaterCalls(states, steps, th)
      {
        LengthsMatch(states, steps);
        forall m: nat, n: nat, i: nat | 0 < m && AnswersCall(states, steps, m, n, i, th)
          ensures states[n + 1].lookups[i].answer == None
        {
          LaterCallRefused(states, steps, m, n, i, th);
        }
      }
    } else {
      var j: nat :| j < |s.lookups| && HoldsAccepting(s.lookups[j], th) && s.clock - s.lookups[j].now < CACHE_TTL;
      NextCallAccepts(s, th, j);
    }
  }

  lemma LengthsMatch(states: seq<State>, steps: seq<Step>)
    requires IsRun(states, steps)
    ensures |states| == |steps| + 1
  {
  }

  /** A lookup that holds a younger accepting answer stores it, and the next one finds it in the cache. */
  lemma NextCallAccepts(s: State, th: Hash, j: nat)
    requires j < |s.lookups| && HoldsAccepting(s.lookups[j], th)
    requires s.clock - s.lookups[j].now < CACHE_TTL
    ensures !RefusesCallsEverAfter(s, th)
  {
    var steps := [ClearCache, Store(j), Begin(j, th), Probe(j)];
    var s1 := Next(s, ClearCache);
    var s2 := Next(s1, Store(j));
    var s3 := Next(s2, Begin(j, th));
    var states := [s, s1, s2, s3, Next(s3, Probe(j))];
    forall k: nat | k < 4
      ensures Stepped(states, steps, k)
    {
      hide Next;
      assert k == 0 || k == 1 || k == 2 || k == 3;
    }
    assert AnswersCall(states, steps, 2, 3, j, th);
    assert !RefusesLaterCalls(states, steps, th);
  }

  // ---------- An overlap that defeats it ----------

  function OverlapSteps(th: Hash, client: Client): seq<Step> {
    [Issue(th, client), Begin(0, th), Probe(0), Read(0), RevokeRow(client.id), ClearCache,
     Store(0), Begin(1, th), Probe(1)]
  }

  function OverlapStates(th: Hash, client: Client): seq<State> {
    var live, dead := map[th := Row(client, false)], map[th := Row(client, true)];
    var held := map[th := Entry(Some(client), 0.0)];
    var some := Some(client);
    [State(0.0, map[], map[], [Free, Free], {}),
     State(0.0, live, map[], [Free, Free], {th}),
     State(0.0, live, map[], [Started(th, 0.0), Free], {th}),
     State(0.0, live, map[], [Missed(th, 0.0), Free], {th}),
     State(0.0, live, map[], [Fetched(th, 0.0, some), Free], {th}),
     State(0.0, dead, map[], [Fetched(th, 0.0, some), Free], {th}),
     State(0.0, dead, map[], [Fetched(th, 0.0, some), Free], {th}),
     State(0.0, dead, held, [Answered(th, 0.0, some), Free], {th}),
     State(0.0, dead, held, [Answered(th, 0.0, some), Started(th, 0.0)], {th}),
     State(0.0, dead, held, [Answered(th, 0.0, some), Answered(th, 0.0, some)], {th})]
  }

  lemma OverlapBegins(th: Hash, client: Client, k: nat)
    requires k < 4
    ensures Stepped(OverlapStates(th, client), OverlapSteps(th, client), k)
  {
    var states, steps := OverlapStates(th, client), OverlapSteps(th, client);
    var s, t := states[k], states[k + 1];
    hide OverlapStates, OverlapSteps, Seen, Revoked, Stored;
    if k == 0 { assert Next(s, Issue(th, client)).db == t.db; }
  }

  lemma OverlapRevokes(th: Hash, client: Client, k: nat)
    requires 4 <= k < 7
    ensures Stepped(OverlapStates(th, client), OverlapSteps(th, client), k)
  {
    var states, steps := OverlapStates(th, client), OverlapSteps(th, client);
    var s, t := states[k], states[k + 1];
    hide OverlapStates, OverlapSteps, Seen, Answer;
    if k == 4 { assert Next(s, RevokeRow(client.id)).db == t.db; }
    if k == 6 { assert Next(s, Store(0)).cache == t.cache; }
  }

  lemma OverlapEnds(th: Hash, client: Client, k: nat)
    requires 7 <= k < 9
    ensures Stepped(OverlapStates(th, client), OverlapSteps(th, client), k)
  {
    var states, steps := OverlapStates(th, client), OverlapSteps(th, client);
    var s, t := states[k], states[k + 1];
    assert Next(s, steps[k]).lookups == t.lookups;
    hide Seen, Revoked, Stored, Answer;
  }

  /** A lookup that overlaps the revocation does defeat it: this one read the row before it was revoked
      and stores its answer after the cache was cleared, so the next lookup accepts the revoked token. */
  lemma OverlapAcceptsRevoked(th: Hash, client: Client)
    ensures IsRun(OverlapStates(th, client), OverlapSteps(th, client))
    ensures OverlapStates(th, client)[0] == Initial(2, 0.0)
    ensures Dead(OverlapStates(th, client)[6], th) && OverlapSteps(th, client)[5] == ClearCache
    ensures OverlapSteps(th, client)[7] == Begin(1, th)
    ensures OverlapStates(th, client)[9].lookups[1] == Answered(th, 0.0, Some(client))
  {
    var states, steps := OverlapStates(th, client), OverlapSteps(th, client);
    forall k: nat | k < |steps|
      ensures Stepped(states, steps, k)
    {
      if k < 4 {
        OverlapBegins(th, client, k);
      } else if k < 7 {
        OverlapRevokes(th, client, k);
      } else {
        OverlapEnds(th, client, k);
      }
    }
    assert Initial(2, 0.0).lookups == [Free, Free];
  }
}
