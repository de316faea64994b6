/**
 Pairing by approval in `pairing.py`: a client creates a request, a paired client decides it, the
 waiting client polls and is issued a token once. Each SQL statement that is committed on its own is
 one atomic step; the wall clock may read anything at any step.
 */
module PairingRequests {
  import opened Common

  type Id = string
  type Clock = int

  const REQUEST_TTL: int := 180
  const FUTURE_SLACK: int := 60
  const KEPT: int := 3600
  const MAX_PENDING: nat := 5

  datatype Status = Pending | Approved | Denied | Issued

  /** The stored hash of a secret, idealised: equal hashes come from equal secrets. */
  datatype Hash = Hash(secret: string)

  datatype Row = Row(secretHash: Hash, status: Status, created: Clock, decidedBy: Option<string>)

  type Table = map<Id, Row>

  /** A request made in the future of a clock since corrected is not live. */
  predicate Live(created: Clock, now: Clock) {
    now - REQUEST_TTL < created <= now + FUTURE_SLACK
  }

  predicate PendingLive(row: Row, now: Clock) {
    row.status == Pending && Live(row.created, now)
  }

  function Pruned(rows: Table, now: Clock): Table {
    map id | id in rows && now - KEPT <= rows[id].created <= now + KEPT :: rows[id]
  }

  function Waiting(rows: Table, now: Clock): set<Id> {
    set id | id in rows && PendingLive(rows[id], now)
  }

  /** What `poll_request` answers. */
  datatype Poll = Unknown | Expired | Told(status: Status) | Token(decidedBy: Option<string>)

  /** What a poll's read of the table leads to: an answer, or an attempt to take the approval. */
  function Glance(rows: Table, id: Id, secret: string, now: Clock): Poll {
    if id !in rows || rows[id].secretHash != Hash(secret) then Unknown
    else if rows[id].status == Pending && !Live(rows[id].created, now) then Expired
    else if rows[id].status != Approved then Told(rows[id].status)
    else Token(rows[id].decidedBy)
  }

  /** The table of requests; every method but `PollRequest` is one transaction. */
  class PairRequests {
    var rows: Table

    constructor ()
      ensures rows == map[]
    {
      rows := map[];
    }

    /** `create_request`, with its three readings of the clock. A refusal leaves its pruning uncommitted. */
    method CreateRequest(id: Id, secret: string, prunedAt: Clock, countedAt: Clock, createdAt: Clock)
      returns (accepted: bool)
      requires id !in rows
      modifies this
      ensures accepted <==> |Waiting(Pruned(old(rows), prunedAt), countedAt)| < MAX_PENDING
      ensures rows == if accepted then Pruned(old(rows), prunedAt)[id := Row(Hash(secret), Pending, createdAt, None)]
                      else old(rows)
    {
      var pruned := Pruned(rows, prunedAt);
      if |Waiting(pruned, countedAt)| >= MAX_PENDING { return false; }
      rows := pruned[id := Row(Hash(secret), Pending, createdAt, None)];
      return true;
    }

    /** `decide`. */
    method Decide(id: Id, approve: bool, clientId: string, now: Clock) returns (decided: bool)
      modifies this
      ensures decided <==> id in old(rows) && PendingLive(old(rows)[id], now)
      ensures rows == if decided then old(rows)[id := Verdict(old(rows)[id], approve, clientId)] else old(rows)
    {
      if id !in rows || !PendingLive(rows[id], now) { return false; }
      rows := rows[id := Verdict(rows[id], approve, clientId)];
      return true;
    }

    /** The conditional update that takes an approval. */
    method TakeApproval(id: Id) returns (taken: bool)
      modifies this
      ensures taken <==> id in old(rows) && old(rows)[id].status == Approved
      ensures rows == if taken then old(rows)[id := old(rows)[id].(status := Issued)] else old(rows)
    {
      if id !in rows || rows[id].status != Approved { return false; }
      rows := rows[id := rows[id].(status := Issued)];
      return true;
    }

    /** `poll_request` with no other step in between: an approved request yields its token, and only once. */
    method PollRequest(id: Id, secret: string, now: Clock) returns (answer: Poll)
      modifies this
      ensures answer == Glance(old(rows), id, secret, now)
      ensures answer.Token? ==> rows == old(rows)[id := old(rows)[id].(status := Issued)]
      ensures answer.Token? ==> Glance(rows, id, secret, now) == Told(Issued)
      ensures !answer.Token? ==> rows == old(rows)
    {
      answer := Glance(rows, id, secret, now);
      if answer.Token? {
        var taken := TakeApproval(id);
        if !taken { answer := Told(Issued); }
      }
    }
  }

  function Verdict(row: Row, approve: bool, clientId: string): Row {
    row.(status := if approve then Approved else Denied, decidedBy := Some(clientId))
  }

  // ---------- Interleavings ----------

  /** What happened, in order. */
  datatype Event =
    | Made(id: Id, secret: string)
    | Decided(id: Id, approve: bool, clientId: string, created: Clock, at: Clock)
    | Taken(id: Id)
    | TokenIssued(id: Id, secret: string, clientId: string)

  /** Where a poll is, once its read of the table was more than an answer. */
  datatype Stage =
    | Free
    | Seen(id: Id, secret: string, clientId: string)   // read an approval, about to take it
    | Won(id: Id, secret: string, clientId: string)    // took it, about to issue the token

  datatype State = State(rows: Table, polls: seq<Stage>, history: seq<Event>)

  datatype Step =
    | Create(id: Id, secret: string, prunedAt: Clock, countedAt: Clock, createdAt: Clock)
    | CommitPruning(now: Clock)
    | Decide(id: Id, approve: bool, clientId: string, now: Clock)
    | Look(poll: nat, id: Id, secret: string, now: Clock)
    | Take(poll: nat)
    | Issue(poll: nat)
    | DeleteAll

  /** Identifiers are random: a new one was never used before. */
  predicate Enabled(s: State, step: Step) {
    match step
    case Create(id, _, _, _, _) => id !in s.rows && Count(s.history, OfMaking(id)) == 0
    case Look(i, _, _, _) => i < |s.polls| && s.polls[i].Free?
    case Take(i) => i < |s.polls| && s.polls[i].Seen?
    case Issue(i) => i < |s.polls| && s.polls[i].Won?
    case _ => true
  }

  function Next(s: State, step: Step): State
    requires Enabled(s, step)
  {
    match step
    case Create(id, secret, prunedAt, countedAt, createdAt) =>
      var pruned := Pruned(s.rows, prunedAt);
      if |Waiting(pruned, countedAt)| >= MAX_PENDING then s
      else s.(rows := pruned[id := Row(Hash(secret), Pending, createdAt, None)],
              history := s.history + [Made(id, secret)])
    case CommitPruning(now) => s.(rows := Pruned(s.rows, now))
    case Decide(id, approve, clientId, now) =>
      if id !in s.rows || !PendingLive(s.rows[id], now) then s
      else s.(rows := s.rows[id := Verdict(s.rows[id], approve, clientId)],
              history := s.history + [Decided(id, approve, clientId, s.rows[id].created, now)])
    case Look(i, id, secret, now) =>
      var answer := Glance(s.rows, id, secret, now);
      if answer.Token? && answer.decidedBy.Some?
      then s.(polls := s.polls[i := Seen(id, secret, answer.decidedBy.value)])
      else s
    case Take(i) =>
      var p := s.polls[i];
      if p.id in s.rows && s.rows[p.id].status == Approved then
        s.(rows := s.rows[p.id := s.rows[p.id].(status := Issued)],
           polls := s.polls[i := Won(p.id, p.secret, p.clientId)], history := s.history + [Taken(p.id)])
      else s.(polls := s.polls[i := Free])
    case Issue(i) =>
      var p := s.polls[i];
      s.(polls := s.polls[i := Free], history := s.history + [TokenIssued(p.id, p.secret, p.clientId)])
    case DeleteAll => s.(rows := map[])
  }

  // ---------- Counting events ----------

  datatype Kind = OfMaking(id: Id) | OfDeciding(id: Id) | OfTaking(id: Id) | OfIssuing(id: Id)

  predicate Is(k: Kind, e: Event) {
    match k
    case OfMaking(id) => e.Made? && e.id == id
    case OfDeciding(id) => e.Decided? && e.id == id
    case OfTaking(id) => e.Taken? && e.id == id
    case OfIssuing(id) => e.TokenIssued? && e.id == id
  }

  function One(b: bool): nat {
    if b then 1 else 0
  }

  function Count(h: seq<Event>, k: Kind): nat {
    if h == [] then 0 else One(Is(k, h[0])) + Count(h[1..], k)
  }

  function Wins(polls: seq<Stage>, id: Id): nat {
    if polls == [] then 0 else One(polls[0].Won? && polls[0].id == id) + Wins(polls[1..], id)
  }

  lemma {:induction false} CountAppend(h: seq<Event>, e: Event, k: Kind)
    ensures Count(h + [e], k) == Count(h, k) + One(Is(k, e))
  {
    hide Is;
    if h == [] {
      assert (h + [e])[1..] == [];
    } else {
      assert (h + [e])[1..] == h[1..] + [e];
      CountAppend(h[1..], e, k);
    }
  }

  lemma {:induction false} WinsUpdate(polls: seq<Stage>, i: nat, stage: Stage, id: Id)
    requires i < |polls|
    ensures Wins(polls[i := stage], id) + One(polls[i].Won? && polls[i].id == id)
         == Wins(polls, id) + One(stage.Won? && stage.id == id)
  {
    var after := polls[i := stage];
    if i == 0 {
      assert after[1..] == polls[1..];
    } else {
      assert after[1..] == polls[1..][i - 1 := stage];
      WinsUpdate(polls[1..], i - 1, stage, id);
    }
  }

  lemma {:induction false} CountPositive(h: seq<Event>, k: Kind, j: nat)
    requires j < |h| && Is(k, h[j])
    ensures Count(h, k) >= 1
  {
    if j > 0 { CountPositive(h[1..], k, j - 1); }
  }

  lemma {:induction false} CountOnce(h: seq<Event>, k: Kind, i: nat, j: nat)
    requires i < j < |h| && Is(k, h[i]) && Is(k, h[j])
    ensures Count(h, k) >= 2
  {
    if i == 0 {
      CountPositive(h[1..], k, j - 1);
    } else {
      CountOnce(h[1..], k, i - 1, j - 1);
    }
  }

  // ---------- What every run keeps ----------

  /** How often each thing happened to a request, given what its row says. */
  ghost predicate CountsFit(s: State, id: Id) {
    var made, decided, taken, issued := Count(s.history, OfMaking(id)), Count(s.history, OfDeciding(id)),
                                        Count(s.history, OfTaking(id)), Count(s.history, OfIssuing(id));
    && made <= 1 && decided <= made && taken <= decided && issued + Wins(s.polls, id) == taken
    && (id in s.rows ==> made == 1)
    && (id in s.rows && s.rows[id].status == Pending ==> decided == 0)
    && (id in s.rows && s.rows[id].status == Approved ==> decided == 1)
    && (id in s.rows && s.rows[id].status != Issued ==> taken == 0)
  }

  /** An approval of the request, by that client, while it was live, is among the first `n` events. */
  ghost predicate WasApproved(h: seq<Event>, n: nat, id: Id, clientId: string)
    requires n <= |h|
  {
    exists j :: 0 <= j < n && h[j].Decided? && h[j].id == id && h[j].approve && h[j].clientId == clientId
                && Live(h[j].created, h[j].at)
  }

  ghost predicate WasMade(h: seq<Event>, n: nat, id: Id, secret: string)
    requires n <= |h|
  {
    exists j :: 0 <= j < n && h[j] == Made(id, secret)
  }

  ghost predicate Backed(h: seq<Event>, n: nat, id: Id, secret: string, clientId: string)
    requires n <= |h|
  {
    WasApproved(h, n, id, clientId) && WasMade(h, n, id, secret)
  }

  ghost predicate RowBacked(h: seq<Event>, id: Id, row: Row) {
    && WasMade(h, |h|, id, row.secretHash.secret)
    && (row.status == Approved && row.decidedBy.Some? ==> WasApproved(h, |h|, id, row.decidedBy.value))
  }

  ghost predicate StageBacked(h: seq<Event>, p: Stage) {
    !p.Free? ==> Backed(h, |h|, p.id, p.secret, p.clientId)
  }

  ghost predicate Reasons(s: State) {
    && (forall id <- s.rows :: RowBacked(s.history, id, s.rows[id]))
    && (forall i :: 0 <= i < |s.polls| ==> StageBacked(s.history, s.polls[i]))
    && TokensBacked(s.history)
  }

  ghost predicate TokensBacked(h: seq<Event>) {
    forall k: nat | k < |h| && h[k].TokenIssued? :: Backed(h, k, h[k].id, h[k].secret, h[k].clientId)
  }

  ghost predicate Inv(s: State) {
    (forall id :: CountsFit(s, id)) && Reasons(s)
  }

  lemma NextKeepsCounts(s: State, step: Step, id: Id)
    requires CountsFit(s, id) && Enabled(s, step)
    ensures CountsFit(Next(s, step), id)
  {
    hide Count, Wins, Glance, Waiting, Live;
    var h := s.history;
    match step
    case Create(newId, secret, _, _, _) => NewEvent(h, Made(newId, secret), id);
    case Decide(other, approve, clientId, now) =>
      if other in s.rows { NewEvent(h, Decided(other, approve, clientId, s.rows[other].created, now), id); }
    case Look(i, other, secret, now) => LookWins(s, step, id);
    case Take(i) =>
      NewEvent(h, Taken(s.polls[i].id), id);
      WinsUpdate(s.polls, i, Next(s, step).polls[i], id);
    case Issue(i) =>
      NewEvent(h, TokenIssued(s.polls[i].id, s.polls[i].secret, s.polls[i].clientId), id);
      WinsUpdate(s.polls, i, Free, id);
    case _ =>
  }

  lemma LookWins(s: State, step: Step, id: Id)
    requires step.Look? && Enabled(s, step)
    ensures Wins(Next(s, step).polls, id) == Wins(s.polls, id)
  {
    WinsUpdate(s.polls, step.poll, Next(s, step).polls[step.poll], id);
    assert s.polls[step.poll := Free] == s.polls;
  }

  lemma NewEvent(h: seq<Event>, e: Event, id: Id)
    ensures Count(h + [e], OfMaking(id)) == Count(h, OfMaking(id)) + One(e.Made? && e.id == id)
    ensures Count(h + [e], OfDeciding(id)) == Count(h, OfDeciding(id)) + One(e.Decided? && e.id == id)
    ensures Count(h + [e], OfTaking(id)) == Count(h, OfTaking(id)) + One(e.Taken? && e.id == id)
    ensures Count(h + [e], OfIssuing(id)) == Count(h, OfIssuing(id)) + One(e.TokenIssued? && e.id == id)
  {
    CountAppend(h, e, OfMaking(id));
    CountAppend(h, e, OfDeciding(id));
    CountAppend(h, e, OfTaking(id));
    CountAppend(h, e, OfIssuing(id));
  }

  /** What backed something still backs it after another event. */
  lemma StillBacked(h: seq<Event>, e: Event, n: nat, id: Id)
    requires n <= |h|
    ensures forall clientId | WasApproved(h, n, id, clientId) ::
      WasApproved(h + [e], n, id, clientId) && WasApproved(h + [e], |h + [e]|, id, clientId)
    ensures forall secret | WasMade(h, n, id, secret) ::
      WasMade(h + [e], n, id, secret) && WasMade(h + [e], |h + [e]|, id, secret)
  {
    var g := h + [e];
    forall clientId | WasApproved(h, n, id, clientId)
      ensures WasApproved(g, n, id, clientId) && WasApproved(g, |g|, id, clientId)
    {
      var j :| 0 <= j < n && h[j].Decided? && h[j].id == id && h[j].approve && h[j].clientId == clientId
               && Live(h[j].created, h[j].at);
      assert g[j] == h[j];
    }
    forall secret | WasMade(h, n, id, secret)
      ensures WasMade(g, n, id, secret) && WasMade(g, |g|, id, secret)
    {
      var j :| 0 <= j < n && h[j] == Made(id, secret);
      assert g[j] == h[j];
    }
  }

  /** An event that is no token, or a token with reasons, keeps every reason. */
  lemma EventKeepsReasons(s: State, e: Event)
    requires Reasons(s)
    requires e.TokenIssued? ==> Backed(s.history, |s.history|, e.id, e.secret, e.clientId)
    ensures Reasons(s.(history := s.history + [e]))
  {
    var h, g := s.history, s.history + [e];
    hide WasApproved, WasMade;
    forall id | id in s.rows
      ensures RowBacked(g, id, s.rows[id])
    {
      StillBacked(h, e, |h|, id);
    }
    forall i | 0 <= i < |s.polls|
      ensures StageBacked(g, s.polls[i])
    {
      if !s.polls[i].Free? { StillBacked(h, e, |h|, s.polls[i].id); }
    }
    forall k: nat | k < |g| && g[k].TokenIssued?
      ensures Backed(g, k, g[k].id, g[k].secret, g[k].clientId)
    {
      StillBacked(h, e, k, g[k].id);
      assert k < |h| ==> g[k] == h[k];
    }
  }

  lemma NextKeepsReasons(s: State, step: Step)
    requires Reasons(s) && Enabled(s, step)
    ensures Reasons(Next(s, step))
  {
    match step
    case Create(id, secret, prunedAt, countedAt, createdAt) => CreateKeepsReasons(s, step);
    case Decide(id, approve, clientId, now) => DecideKeepsReasons(s, step);
    case Take(i) =>
      hide RowBacked, StageBacked, TokensBacked;
      TakeKeepsReasons(s, i);
    case Issue(i) =>
      var p := s.polls[i];
      assert StageBacked(s.history, p);
      EventKeepsReasons(s, TokenIssued(p.id, p.secret, p.clientId));
      hide RowBacked, TokensBacked;
    case Look(i, id, secret, now) =>
      hide WasApproved, WasMade, TokensBacked;
      if id in s.rows { assert RowBacked(s.history, id, s.rows[id]); }
    case _ =>
      hide RowBacked, StageBacked, TokensBacked;
  }

  lemma CreateKeepsReasons(s: State, step: Step)
    requires Reasons(s) && step.Create? && Enabled(s, step)
    ensures Reasons(Next(s, step))
  {
    var e := Made(step.id, step.secret);
    var g := s.history + [e];
    EventKeepsReasons(s, e);
    assert g[|s.history|] == e;
    assert WasMade(g, |g|, step.id, step.secret);
    hide WasApproved, WasMade, StageBacked, TokensBacked;
  }

  lemma DecideKeepsReasons(s: State, step: Step)
    requires Reasons(s) && step.Decide? && Enabled(s, step)
    ensures Reasons(Next(s, step))
  {
    if step.id in s.rows && PendingLive(s.rows[step.id], step.now) {
      var e := Decided(step.id, step.approve, step.clientId, s.rows[step.id].created, step.now);
      var g := s.history + [e];
      EventKeepsReasons(s, e);
      assert g[|s.history|] == e;
      assert RowBacked(g, step.id, s.rows[step.id]);
      assert step.approve ==> WasApproved(g, |g|, step.id, step.clientId);
      hide WasApproved, WasMade, StageBacked, TokensBacked;
    }
  }

  lemma TakeKeepsReasons(s: State, i: nat)
    requires Reasons(s) && Enabled(s, Take(i))
    ensures Reasons(Next(s, Take(i)))
  {
    var p := s.polls[i];
    var e := Taken(p.id);
    EventKeepsReasons(s, e);
    assert StageBacked(s.history, p);
    StillBacked(s.history, e, |s.history|, p.id);
    hide WasApproved, WasMade, TokensBacked;
    if p.id in s.rows { assert RowBacked(s.history + [e], p.id, s.rows[p.id]); }
  }

  function Initial(polls: nat): State {
    State(map[], seq(polls, _ => Free), [])
  }

  lemma {:induction false} NoWins(polls: nat, id: Id)
    ensures Wins(seq(polls, _ => Free), id) == 0
  {
    if polls > 0 {
      assert seq(polls, _ => Free)[1..] == seq(polls - 1, _ => Free);
      NoWins(polls - 1, id);
    }
  }

  ghost predicate IsRun(states: seq<State>, steps: seq<Step>) {
    && |states| == |steps| + 1
    && (forall k :: 0 <= k < |steps| ==> Enabled(states[k], steps[k]) && states[k + 1] == Next(states[k], steps[k]))
  }

  lemma {:induction false} RunKeepsInv(polls: nat, states: seq<State>, steps: seq<Step>, n: nat)
    requires IsRun(states, steps) && states[0] == Initial(polls) && n < |states|
    ensures Inv(states[n])
  {
    if n == 0 {
      forall id
        ensures CountsFit(states[0], id)
      {
        NoWins(polls, id);
      }
    } else {
      RunKeepsInv(polls, states, steps, n - 1);
      var s, step := states[n - 1], steps[n - 1];
      assert Enabled(s, step) && states[n] == Next(s, step);
      NextKeepsReasons(s, step);
      forall id
        ensures CountsFit(states[n], id)
      {
        NextKeepsCounts(s, step, id);
      }
    }
  }

  /** In every interleaving a request yields at most one token. */
  lemma AtMostOneToken(polls: nat, states: seq<State>, steps: seq<Step>, n: nat, i: nat, j: nat)
    requires IsRun(states, steps) && states[0] == Initial(polls) && n < |states|
    requires i < |states[n].history| && j < |states[n].history|
    requires states[n].history[i].TokenIssued? && states[n].history[j].TokenIssued?
    requires states[n].history[i].id == states[n].history[j].id
    ensures i == j
  {
    RunKeepsInv(polls, states, steps, n);
    var h := states[n].history;
    assert CountsFit(states[n], h[i].id);
    if i != j { CountOnce(h, OfIssuing(h[i].id), if i < j then i else j, if i < j then j else i); }
  }

  /** A token is issued only after an approval, made by the client it names while the request was
      pending and live, and only to a poller with the secret its creator was given. */
  lemma TokenNeedsLiveApproval(polls: nat, states: seq<State>, steps: seq<Step>, n: nat, k: nat)
    requires IsRun(states, steps) && states[0] == Initial(polls) && n < |states|
    requires k < |states[n].history| && states[n].history[k].TokenIssued?
    ensures var h := states[n].history; Backed(h, k, h[k].id, h[k].secret, h[k].clientId)
  {
    RunKeepsInv(polls, states, steps, n);
  }

  /** A denied request never yields a token, before or after. */
  lemma NoTokenWithDenial(polls: nat, states: seq<State>, steps: seq<Step>, n: nat, i: nat, k: nat)
    requires IsRun(states, steps) && states[0] == Initial(polls) && n < |states|
    requires i < |states[n].history| && k < |states[n].history|
    requires states[n].history[i].Decided? && !states[n].history[i].approve
    requires states[n].history[k].TokenIssued?
    ensures states[n].history[i].id != states[n].history[k].id
  {
    var h := states[n].history;
    RunKeepsInv(polls, states, steps, n);
    if h[i].id == h[k].id {
      var id := h[k].id;
      assert Backed(h, k, id, h[k].secret, h[k].clientId);
      var j :| 0 <= j < k && h[j].Decided? && h[j].id == id && h[j].approve && h[j].clientId == h[k].clientId
               && Live(h[j].created, h[j].at);
      assert CountsFit(states[n], id);
      CountOnce(h, OfDeciding(id), if i < j then i else j, if i < j then j else i);
      assert false;
    }
  }
}
