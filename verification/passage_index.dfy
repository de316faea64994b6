/**
 Freshness of the passage index: `vector_store.py` and the document writers of `database.py`, which
 commit first and then bump the version that readers compare.
 */
module PassageIndex {
  import opened Common

  datatype Doc = Doc(title: string, content: string, embedding: Option<string>)

  type Docs = map<int, Doc>

  /** An index, by the documents it was built from. */
  datatype Index = Index(docs: Docs)

  const REFRESH: real := 600.0

  /** The table with its version counter, and the module's current index; no call overlaps another. */
  class PassageStore {
    var docs: Docs
    var nextId: int
    var version: nat
    var index: Option<Index>
    var indexVersion: Option<nat>
    var built: real

    ghost predicate Valid()
      reads this
    {
      && (forall id <- docs :: id < nextId)
      && (indexVersion.Some? ==> indexVersion.value <= version)
      && (indexVersion == Some(version) ==> index == Some(Index(docs)))
    }

    constructor ()
      ensures Valid() && docs == map[]
    {
      docs, nextId, version, index, indexVersion, built := map[], 1, 0, None, None, 0.0;
    }

    /** `ai_add_document`. */
    method AddDocument(doc: Doc) returns (id: int)
      requires Valid()
      modifies this
      ensures Valid() && id !in old(docs) && docs == old(docs)[id := doc] && version == old(version) + 1
    {
      id := nextId;
      docs, nextId := docs[id := doc], nextId + 1;
      version := version + 1;
    }

    /** `ai_update_document_embedding`. */
    method UpdateEmbedding(id: int, embedding: string)
      requires Valid()
      modifies this
      ensures Valid() && version == old(version) + 1
      ensures docs == if id in old(docs) then old(docs)[id := old(docs)[id].(embedding := Some(embedding))]
                      else old(docs)
    {
      if id in docs { docs := docs[id := docs[id].(embedding := Some(embedding))]; }
      version := version + 1;
    }

    /** `ai_delete_document`. */
    method DeleteDocument(id: int)
      requires Valid()
      modifies this
      ensures Valid() && docs == old(docs) - {id} && version == old(version) + 1
    {
      docs := docs - {id};
      version := version + 1;
    }

    /** `_current_locked`. */
    method CurrentLocked(now: real) returns (i: Index)
      requires Valid()
      modifies this`index, this`indexVersion, this`built
      ensures Valid() && i == Index(docs) && indexVersion == Some(version)
    {
      var v := version;
      if index.None? || indexVersion != Some(v) || now - built > REFRESH {
        index := Some(Index(docs));
        indexVersion := Some(v);
        built := now;
      }
      return index.value;
    }

    /** `current`. */
    method Current(now: real) returns (i: Index)
      requires Valid()
      modifies this`index, this`indexVersion, this`built
      ensures Valid() && i == Index(docs)
    {
      if index.Some? && indexVersion == Some(version) && now - built <= REFRESH { return index.value; }
      i := CurrentLocked(now);
    }
  }

  // ---------- Interleavings ----------

  datatype Writer = Ready | Committed | Loaded(version: nat)

  /** Where a call of `current` is. */
  datatype Stage =
    | Idle
    | Asking
    | SawIndex
    | SawVersion(seen: Option<nat>)
    | Matched
    | Waiting                               // for the lock
    | Holding(v: nat)                       // has the lock, has read the version
    | Building(v: nat)
    | Read(v: nat, docs: Docs)
    | Stored(v: nat, docs: Docs)            // has stored the index, not yet its version
    | Finishing                             // has stored both
    | Returned(index: Index, present: Docs) // with the documents at that moment

  /** A call is calm if no writer was between commit and bump when it began, and none committed since. */
  datatype Reader = Reader(calm: bool, at: Stage)

  datatype State = State(docs: Docs, version: nat, index: Option<Index>, indexVersion: Option<nat>,
                         locked: bool, writers: seq<Writer>, readers: seq<Reader>)

  datatype Step =
    | Commit(w: nat, docs: Docs)
    | Bump(w: nat)
    | Load(w: nat)               // the bump in two halves
    | Save(w: nat)
    | Begin(r: nat)
    | LookIndex(r: nat)
    | LookVersion(r: nat)
    | Compare(r: nat, expired: bool)
    | TakeIndex(r: nat)
    | Acquire(r: nat)
    | Check(r: nat, expired: bool)
    | ReadDocs(r: nat)
    | StoreIndex(r: nat)
    | StoreVersion(r: nat)
    | Release(r: nat)

  predicate IsWriting(step: Step) {
    step.Commit? || step.Bump? || step.Load? || step.Save?
  }

  predicate WriterReady(w: Writer, step: Step) {
    match step
    case Commit(_, _) => w.Ready?
    case Bump(_) => w.Committed?
    case Load(_) => w.Committed?
    case Save(_) => w.Loaded?
    case _ => false
  }

  predicate ReaderReady(r: Stage, step: Step, locked: bool) {
    match step
    case Begin(_) => r.Idle? || r.Returned?
    case LookIndex(_) => r.Asking?
    case LookVersion(_) => r.SawIndex?
    case Compare(_, _) => r.SawVersion?
    case TakeIndex(_) => r.Matched?
    case Acquire(_) => r.Waiting? && !locked
    case Check(_, _) => r.Holding?
    case ReadDocs(_) => r.Building?
    case StoreIndex(_) => r.Read?
    case StoreVersion(_) => r.Stored?
    case Release(_) => r.Finishing?
    case _ => false
  }

  predicate Enabled(s: State, step: Step) {
    if IsWriting(step) then step.w < |s.writers| && WriterReady(s.writers[step.w], step)
    else step.r < |s.readers| && ReaderReady(s.readers[step.r].at, step, s.locked)
  }

  predicate Busy(writers: seq<Writer>) {
    exists w :: 0 <= w < |writers| && !writers[w].Ready?
  }

  /** A reader after some writer committed. */
  function Disturbed(r: Reader): Reader {
    if r.at.Returned? then r else r.(calm := false)
  }

  function AllDisturbed(readers: seq<Reader>): seq<Reader> {
    seq(|readers|, i requires 0 <= i < |readers| => Disturbed(readers[i]))
  }

  function Written(s: State, step: Step): State
    requires IsWriting(step) && Enabled(s, step)
  {
    match step
    case Commit(w, docs) =>
      s.(docs := docs, writers := s.writers[w := Committed], readers := AllDisturbed(s.readers))
    case Bump(w) => s.(version := s.version + 1, writers := s.writers[w := Ready])
    case Load(w) => s.(writers := s.writers[w := Loaded(s.version)])
    case Save(w) => s.(version := s.writers[w].version + 1, writers := s.writers[w := Ready])
  }

  /** Where a reader's step takes it. */
  function Moved(s: State, r: Stage, step: Step): Stage
    requires !IsWriting(step) && ReaderReady(r, step, s.locked)
  {
    match step
    case Begin(_) => Asking
    case LookIndex(_) => if s.index.None? then Waiting else SawIndex
    case LookVersion(_) => SawVersion(s.indexVersion)
    case Compare(_, expired) => if r.seen == Some(s.version) && !expired then Matched else Waiting
    case TakeIndex(_) => if s.index.Some? then Returned(s.index.value, s.docs) else r
    case Acquire(_) => Holding(s.version)
    case Check(_, expired) =>
      if s.index.None? || s.indexVersion != Some(r.v) || expired then Building(r.v)
      else Returned(s.index.value, s.docs)
    case ReadDocs(_) => Read(r.v, s.docs)
    case StoreIndex(_) => Stored(r.v, r.docs)
    case StoreVersion(_) => Finishing
    case Release(_) => if s.index.Some? then Returned(s.index.value, s.docs) else r
  }

  predicate HoldsLock(r: Stage) {
    r.Holding? || r.Building? || r.Read? || r.Stored? || r.Finishing?
  }

  function Next(s: State, step: Step): State
    requires Enabled(s, step)
  {
    if IsWriting(step) then Written(s, step)
    else
      var r := s.readers[step.r];
      var moved := Moved(s, r.at, step);
      s.(readers := s.readers[step.r := Reader(if step.Begin? then !Busy(s.writers) else r.calm, moved)],
         locked := if HoldsLock(r.at) || HoldsLock(moved) then HoldsLock(moved) else s.locked,
         index := if step.StoreIndex? then Some(Index(r.at.docs)) else s.index,
         indexVersion := if step.StoreVersion? then Some(r.at.v) else s.indexVersion)
  }

  function Initial(docs: Docs, writers: nat, readers: nat): State {
    State(docs, 0, None, None, false, seq(writers, _ => Ready), seq(readers, _ => Reader(true, Idle)))
  }

  ghost predicate Stepped(states: seq<State>, steps: seq<Step>, k: nat)
    requires |states| == |steps| + 1 && k < |steps|
  {
    Enabled(states[k], steps[k]) && states[k + 1] == Next(states[k], steps[k])
  }

  ghost predicate IsRun(states: seq<State>, steps: seq<Step>) {
    |states| == |steps| + 1 && forall k: nat | k < |steps| :: Stepped(states, steps, k)
  }

  // ---------- What every run keeps whose saves never take the version back ----------

  predicate GoesForward(s: State, step: Step)
    requires Enabled(s, step)
  {
    step.Save? ==> s.version <= s.writers[step.w].version + 1
  }

  /** A writer whose bump will take the version past `v`. */
  predicate Due(w: Writer, v: nat) {
    w.Committed? || (w.Loaded? && v <= w.version)
  }

  predicate Pending(writers: seq<Writer>, v: nat) {
    exists w :: 0 <= w < |writers| && Due(writers[w], v)
  }

  /** With no bump due, an index that carries the current version is the current one. */
  ghost predicate FreshWhenCurrent(s: State) {
    && (s.indexVersion.Some? ==> s.indexVersion.value <= s.version && s.index.Some?)
    && (s.indexVersion == Some(s.version) && !Pending(s.writers, s.version) ==> s.index == Some(Index(s.docs)))
  }

  /** What is true of a reader wherever it is. */
  ghost predicate ReaderFits(s: State, r: Reader) {
    && (!r.at.Idle? && !r.at.Returned? && r.calm ==> !Busy(s.writers))
    && StageFits(s, r.calm, r.at)
  }

  ghost predicate StageFits(s: State, calm: bool, r: Stage) {
    && ((r.SawIndex? || r.SawVersion? || r.Matched?) ==> s.index.Some?)
    && (r.SawVersion? && r.seen.Some? ==> s.indexVersion.Some? && r.seen.value <= s.indexVersion.value)
    && ((r.Matched? || r.Finishing?) && calm ==> s.indexVersion == Some(s.version))
    && (r.Finishing? ==> s.index.Some?)
    && (r.Holding? || r.Building? || r.Read? || r.Stored? ==>
        r.v <= s.version && (s.indexVersion.Some? ==> s.indexVersion.value <= r.v) && (calm ==> r.v == s.version))
    && (r.Read? || r.Stored? ==> (r.v == s.version && !Pending(s.writers, s.version) ==> r.docs == s.docs))
    && (r.Stored? ==> s.index == Some(Index(r.docs)))
    && (r.Returned? && calm ==> r.index.docs == r.present)
  }

  ghost predicate ReadersFit(s: State) {
    forall i :: 0 <= i < |s.readers| ==> ReaderFits(s, s.readers[i])
  }

  /** One reader at most holds the lock, and then it is taken. */
  ghost predicate OneHolder(s: State) {
    && (forall i :: 0 <= i < |s.readers| && HoldsLock(s.readers[i].at) ==> s.locked)
    && (forall i, j :: 0 <= i < j < |s.readers| ==> !(HoldsLock(s.readers[i].at) && HoldsLock(s.readers[j].at)))
  }

  ghost predicate Inv(s: State) {
    FreshWhenCurrent(s) && ReadersFit(s) && OneHolder(s)
  }

  lemma CalmMeansNoneDue(writers: seq<Writer>, v: nat)
    requires !Busy(writers)
    ensures !Pending(writers, v)
  {
  }

  /** A change of one writer keeps what is due, unless it was that writer's bump. */
  lemma StaysPending(writers: seq<Writer>, w: nat, x: Writer, v: nat)
    requires w < |writers| && (Due(writers[w], v) ==> Due(x, v)) && Pending(writers, v)
    ensures Pending(writers[w := x], v)
  {
    var k :| 0 <= k < |writers| && Due(writers[k], v);
    assert Due(writers[w := x][k], v);
  }

  lemma CommitKeepsInv(s: State, step: Step)
    requires Inv(s) && step.Commit? && Enabled(s, step)
    ensures Inv(Next(s, step))
  {
    var t := Next(s, step);
    assert Due(t.writers[step.w], t.version);
    assert Pending(t.writers, t.version);
    forall i | 0 <= i < |t.readers|
      ensures ReaderFits(t, t.readers[i]) && t.readers[i].at == s.readers[i].at
    {
      assert ReaderFits(s, s.readers[i]);
    }
    hide ReaderFits, Pending, Busy;
  }

  /** After a bump, a load or a save: the documents, the index and the readers are as they were, the version
      has not gone down, and what is no longer due has taken it up. */
  lemma BumpingKeepsInv(s: State, t: State, w: nat)
    requires Inv(s) && w < |s.writers| && !s.writers[w].Ready? && s.version <= t.version
    requires t == s.(version := t.version, writers := t.writers)
    requires s.version == t.version && Pending(s.writers, s.version) ==> Pending(t.writers, t.version)
    ensures Inv(t)
  {
    assert Busy(s.writers);
    forall i | 0 <= i < |t.readers|
      ensures ReaderFits(t, t.readers[i])
    {
      assert ReaderFits(s, s.readers[i]);
    }
    hide ReaderFits, Pending, Busy;
  }

  lemma WritingKeepsInv(s: State, step: Step)
    requires Inv(s) && IsWriting(step) && Enabled(s, step) && GoesForward(s, step)
    ensures Inv(Next(s, step))
  {
    var t := Next(s, step);
    if step.Commit? {
      CommitKeepsInv(s, step);
    } else {
      var w, v := s.writers[step.w], s.version;
      if t.version == v && Pending(s.writers, v) {
        assert Due(w, v) ==> Due(t.writers[step.w], v);
        StaysPending(s.writers, step.w, t.writers[step.w], v);
      }
      hide Inv, Pending;
      BumpingKeepsInv(s, t, step.w);
    }
  }

  lemma ReadingKeepsLock(s: State, step: Step)
    requires Inv(s) && !IsWriting(step) && Enabled(s, step)
    ensures OneHolder(Next(s, step))
  {
    hide FreshWhenCurrent, ReadersFit;
  }

  /** The reader that moves. */
  lemma MovedFits(s: State, step: Step)
    requires Inv(s) && !IsWriting(step) && Enabled(s, step)
    ensures FreshWhenCurrent(Next(s, step)) && ReaderFits(Next(s, step), Next(s, step).readers[step.r])
  {
    assert ReaderFits(s, s.readers[step.r]);
    if !Busy(s.writers) { CalmMeansNoneDue(s.writers, s.version); }
    hide OneHolder, ReadersFit, Busy, Pending;
  }

  /** The others: only the holder of the lock changes what they depend on. */
  lemma OthersFit(s: State, step: Step, i: nat)
    requires Inv(s) && !IsWriting(step) && Enabled(s, step) && i < |s.readers| && i != step.r
    ensures ReaderFits(Next(s, step), s.readers[i])
  {
    var r, q := s.readers[step.r], s.readers[i];
    assert ReaderFits(s, r) && ReaderFits(s, q);
    assert HoldsLock(r.at) ==> !HoldsLock(q.at);
    hide Busy, Pending, OneHolder, ReadersFit;
    if !step.StoreIndex? && !step.StoreVersion? {
      assert Next(s, step).index == s.index && Next(s, step).indexVersion == s.indexVersion;
    }
  }

  lemma NextKeepsInv(s: State, step: Step)
    requires Inv(s) && Enabled(s, step) && GoesForward(s, step)
    ensures Inv(Next(s, step))
  {
    var t := Next(s, step);
    if IsWriting(step) {
      WritingKeepsInv(s, step);
    } else {
      ReadingKeepsLock(s, step);
      MovedFits(s, step);
      forall i | 0 <= i < |t.readers|
        ensures ReaderFits(t, t.readers[i])
      {
        if i != step.r { OthersFit(s, step, i); }
      }
      hide OneHolder, FreshWhenCurrent, ReaderFits;
    }
  }

  /** No save of the run takes the version back. */
  ghost predicate AllForward(states: seq<State>, steps: seq<Step>)
    requires IsRun(states, steps)
  {
    forall k: nat | k < |steps| :: Stepped(states, steps, k) && GoesForward(states[k], steps[k])
  }

  lemma InitialInv(docs: Docs, writers: nat, readers: nat)
    ensures Inv(Initial(docs, writers, readers))
  {
  }

  lemma {:induction false} RunKeepsInv(docs: Docs, writers: nat, readers: nat,
                                       states: seq<State>, steps: seq<Step>, n: nat)
    requires IsRun(states, steps) && states[0] == Initial(docs, writers, readers) && n < |states|
    requires AllForward(states, steps)
    ensures Inv(states[n])
  {
    hide Inv, Next, Enabled, Initial;
    if n == 0 {
      InitialInv(docs, writers, readers);
    } else {
      RunKeepsInv(docs, writers, readers, states, steps, n - 1);
      assert Stepped(states, steps, n - 1);
      NextKeepsInv(states[n - 1], steps[n - 1]);
    }
  }

  /** As long as no save takes the version back, in every interleaving: a call that meets no writer between
      commit and bump, and none that starts meanwhile, returns an index of exactly the documents there are. */
  lemma CalmReadersAreFresh(docs: Docs, writers: nat, readers: nat,
                            states: seq<State>, steps: seq<Step>, n: nat, i: nat)
    requires IsRun(states, steps) && states[0] == Initial(docs, writers, readers) && n < |states|
    requires AllForward(states, steps)
    requires i < |states[n].readers| && states[n].readers[i].at.Returned? && states[n].readers[i].calm
    ensures states[n].readers[i].at.index == Index(states[n].readers[i].at.present)
  {
    RunKeepsInv(docs, writers, readers, states, steps, n);
    assert ReaderFits(states[n], states[n].readers[i]);
  }

  // ---------- Bumps that do not overlap ----------

  predicate NoneLoaded(writers: seq<Writer>) {
    forall w :: 0 <= w < |writers| ==> !writers[w].Loaded?
  }

  /** No bump begins while another is between its load and its save. */
  ghost predicate BumpsApart(states: seq<State>, steps: seq<Step>)
    requires |states| == |steps| + 1
  {
    forall k: nat | k < |steps| :: steps[k].Load? || steps[k].Bump? ==> NoneLoaded(states[k].writers)
  }

  /** A writer that has loaded the version is alone with it, and the version is still the same. */
  ghost predicate LoadedAlone(s: State) {
    forall w :: 0 <= w < |s.writers| && s.writers[w].Loaded? ==>
      s.writers[w].version == s.version && NoneLoaded(s.writers[w := Ready])
  }

  lemma ReadersLeaveWriters(s: State, step: Step)
    requires Enabled(s, step) && !IsWriting(step)
    ensures Next(s, step).writers == s.writers && Next(s, step).version == s.version
  {
  }

  lemma NextKeepsLoadedAlone(s: State, step: Step)
    requires LoadedAlone(s) && Enabled(s, step) && (step.Load? || step.Bump? ==> NoneLoaded(s.writers))
    ensures GoesForward(s, step) && LoadedAlone(Next(s, step))
  {
    if IsWriting(step) {
      var t := Next(s, step);
      forall w | 0 <= w < |t.writers| && t.writers[w].Loaded?
        ensures t.writers[w].version == t.version && NoneLoaded(t.writers[w := Ready])
      {
        if w == step.w {
          assert t.writers[w := Ready] == s.writers[w := Ready];
        } else {
          assert s.writers[w].Loaded?;
          var others := s.writers[w := Ready];
          assert others[step.w] == s.writers[step.w];
          assert t.writers[w := Ready] == others[step.w := t.writers[step.w]];
        }
      }
    } else {
      ReadersLeaveWriters(s, step);
      hide Next;
    }
  }

  lemma {:induction false} ApartStaysLoadedAlone(docs: Docs, writers: nat, readers: nat,
                                                 states: seq<State>, steps: seq<Step>, n: nat)
    requires IsRun(states, steps) && states[0] == Initial(docs, writers, readers) && n < |states|
    requires BumpsApart(states, steps)
    ensures LoadedAlone(states[n])
  {
    if n > 0 {
      ApartStaysLoadedAlone(docs, writers, readers, states, steps, n - 1);
      assert Stepped(states, steps, n - 1);
      hide LoadedAlone, Next, Enabled;
      NextKeepsLoadedAlone(states[n - 1], steps[n - 1]);
    }
  }

  /** Bumps that do not overlap, atomic or not, never take the version back. */
  lemma ApartGoesForward(docs: Docs, writers: nat, readers: nat, states: seq<State>, steps: seq<Step>)
    requires IsRun(states, steps) && states[0] == Initial(docs, writers, readers)
    requires BumpsApart(states, steps)
    ensures AllForward(states, steps)
  {
    forall k: nat | k < |steps|
      ensures Stepped(states, steps, k) && GoesForward(states[k], steps[k])
    {
      ApartStaysLoadedAlone(docs, writers, readers, states, steps, k);
      assert Stepped(states, steps, k);
      hide LoadedAlone, Next, Enabled;
      NextKeepsLoadedAlone(states[k], steps[k]);
    }
  }

  // ---------- Bumps that overlap ----------

  ghost predicate Reaches(s: State, t: State) {
    exists states, steps :: IsRun(states, steps) && states[0] == s && states[|steps|] == t
  }

  lemma Start(s: State)
    ensures Reaches(s, s)
  {
    assert IsRun([s], []) && [s][0] == s;
  }

  lemma Advance(s: State, t: State, step: Step, u: State)
    requires Reaches(s, t) && Enabled(t, step) && Next(t, step) == u
    ensures Reaches(s, u)
  {
    var states, steps :| IsRun(states, steps) && states[0] == s && states[|steps|] == t;
    var longer, more := states + [u], steps + [step];
    hide Next, Enabled;
    forall k: nat | k < |more|
      ensures Stepped(longer, more, k)
    {
      if k < |steps| { assert Stepped(states, steps, k); }
    }
    assert longer[0] == s && longer[|more|] == u;
  }

  /** What two writers and one reader do while the other writers are ready and the other readers idle. */
  datatype Scene = Scene(docs: Docs, version: nat, index: Option<Index>, indexVersion: Option<nat>,
                         first: Writer, second: Writer, reader: Reader)

  function Writers(first: Writer, second: Writer, w: nat): seq<Writer>
    requires w >= 2
  {
    [first, second] + seq(w - 2, _ => Ready)
  }

  /** The readers; the idle ones are calm until a writer commits. */
  function Readers(reader: Reader, calm: bool, n: nat): seq<Reader>
    requires n >= 1
  {
    [reader] + seq(n - 1, _ => Reader(calm, Idle))
  }

  function Full(x: Scene, w: nat, n: nat): State
    requires w >= 2 && n >= 1
  {
    State(x.docs, x.version, x.index, x.indexVersion, HoldsLock(x.reader.at),
          Writers(x.first, x.second, w), Readers(x.reader, false, n))
  }

  /** The same scene with another state of the first or the second writer. */
  function WithWriter(x: Scene, k: nat, writer: Writer): Scene {
    if k == 0 then x.(first := writer) else x.(second := writer)
  }

  function WriterOf(x: Scene, k: nat): Writer {
    if k == 0 then x.first else x.second
  }

  lemma WritersUpdate(x: Scene, k: nat, writer: Writer, w: nat)
    requires k < 2 <= w
    ensures Writers(x.first, x.second, w)[k] == WriterOf(x, k)
    ensures Writers(x.first, x.second, w)[k := writer]
         == Writers(WithWriter(x, k, writer).first, WithWriter(x, k, writer).second, w)
  {
  }

  lemma BusyWriters(first: Writer, second: Writer, w: nat)
    requires w >= 2
    ensures Busy(Writers(first, second, w)) <==> !first.Ready? || !second.Ready?
  {
    var all := Writers(first, second, w);
    assert all[0] == first && all[1] == second;
  }

  lemma ReadersUpdate(reader: Reader, calm: bool, n: nat, r: Reader)
    requires n >= 1
    ensures Readers(reader, calm, n)[0 := r] == Readers(r, calm, n)
    ensures AllDisturbed(Readers(reader, calm, n)) == Readers(Disturbed(reader), false, n)
  {
  }

  lemma Commits(s: State, x: Scene, k: nat, docs: Docs, w: nat, n: nat)
    requires k < 2 <= w && n >= 1 && WriterOf(x, k).Ready? && Reaches(s, Full(x, w, n))
    ensures Reaches(s, Full(WithWriter(x, k, Committed).(docs := docs, reader := Disturbed(x.reader)), w, n))
  {
    WritersUpdate(x, k, Committed, w);
    ReadersUpdate(x.reader, false, n, x.reader);
    hide Writers, Readers, Reaches;
    Advance(s, Full(x, w, n), Commit(k, docs),
            Full(WithWriter(x, k, Committed).(docs := docs, reader := Disturbed(x.reader)), w, n));
  }

  lemma Loads(s: State, x: Scene, k: nat, w: nat, n: nat)
    requires k < 2 <= w && n >= 1 && WriterOf(x, k).Committed? && Reaches(s, Full(x, w, n))
    ensures Reaches(s, Full(WithWriter(x, k, Loaded(x.version)), w, n))
  {
    WritersUpdate(x, k, Loaded(x.version), w);
    hide Writers, Readers, Reaches;
    Advance(s, Full(x, w, n), Load(k), Full(WithWriter(x, k, Loaded(x.version)), w, n));
  }

  lemma Saves(s: State, x: Scene, k: nat, w: nat, n: nat)
    requires k < 2 <= w && n >= 1 && WriterOf(x, k).Loaded? && Reaches(s, Full(x, w, n))
    ensures Reaches(s, Full(WithWriter(x, k, Ready).(version := WriterOf(x, k).version + 1), w, n))
  {
    WritersUpdate(x, k, Ready, w);
    hide Writers, Readers, Reaches;
    Advance(s, Full(x, w, n), Save(k), Full(WithWriter(x, k, Ready).(version := WriterOf(x, k).version + 1), w, n));
  }

  /** One step of the reader, to stage `at`. */
  lemma Reads(s: State, x: Scene, step: Step, at: Stage, w: nat, n: nat) returns (y: Scene)
    requires w >= 2 && n >= 1 && Reaches(s, Full(x, w, n))
    requires !IsWriting(step) && step.r == 0 && ReaderReady(x.reader.at, step, HoldsLock(x.reader.at))
    requires at == Moved(Full(x, w, n), x.reader.at, step)
    ensures y == x.(reader := Reader(if step.Begin? then x.first.Ready? && x.second.Ready? else x.reader.calm, at),
                    index := if step.StoreIndex? then Some(Index(x.reader.at.docs)) else x.index,
                    indexVersion := if step.StoreVersion? then Some(x.reader.at.v) else x.indexVersion)
    ensures Reaches(s, Full(y, w, n))
  {
    var t := Full(x, w, n);
    y := x.(reader := Reader(if step.Begin? then x.first.Ready? && x.second.Ready? else x.reader.calm, at),
            index := if step.StoreIndex? then Some(Index(x.reader.at.docs)) else x.index,
            indexVersion := if step.StoreVersion? then Some(x.reader.at.v) else x.indexVersion);
    BusyWriters(x.first, x.second, w);
    ReadersUpdate(x.reader, false, n, y.reader);
    assert t.readers[0] == x.reader && |t.readers| == n;
    hide Busy, Moved, HoldsLock, ReaderReady, Reaches, Writers, Readers;
    Advance(s, t, step, Full(y, w, n));
  }

  /** Two writers commit; the second bumps while the first has only loaded the version. */
  lemma FirstWrites(docs: Docs, w: nat, n: nat) returns (x: Scene)
    requires w >= 2 && n >= 1
    ensures x == Scene(docs, 1, None, None, Loaded(0), Ready, Reader(false, Idle))
    ensures Reaches(Initial(docs, w, n), Full(x, w, n))
  {
    var s := Initial(docs, w, n);
    x := Scene(docs, 0, None, None, Committed, Ready, Reader(false, Idle));
    Opening(docs, w, n);
    hide Reaches, Full, Initial;
    Loads(s, x, 0, w, n);
    x := x.(first := Loaded(0));
    Commits(s, x, 1, docs, w, n);
    x := x.(second := Committed);
    Loads(s, x, 1, w, n);
    x := x.(second := Loaded(0));
    Saves(s, x, 1, w, n);
    x := x.(second := Ready, version := 1);
  }

  lemma Opening(docs: Docs, w: nat, n: nat)
    requires w >= 2 && n >= 1
    ensures Reaches(Initial(docs, w, n),
                    Full(Scene(docs, 0, None, None, Committed, Ready, Reader(false, Idle)), w, n))
  {
    var s, idle := Initial(docs, w, n), Scene(docs, 0, None, None, Ready, Ready, Reader(true, Idle));
    assert s.writers == Writers(Ready, Ready, w) && s.readers == Readers(Reader(true, Idle), true, n);
    WritersUpdate(idle, 0, Committed, w);
    ReadersUpdate(Reader(true, Idle), true, n, Reader(true, Idle));
    hide Reaches, Writers, Readers, AllDisturbed;
    Start(s);
    Advance(s, s, Commit(0, docs), Full(Scene(docs, 0, None, None, Committed, Ready, Reader(false, Idle)), w, n));
  }

  /** A reader finds no index and takes the lock. */
  lemma Asks(s: State, x: Scene, w: nat, n: nat) returns (y: Scene)
    requires w >= 2 && n >= 1 && Reaches(s, Full(x, w, n))
    requires x.index.None? && x.version == 1 && x.first == Loaded(0) && x.reader == Reader(false, Idle)
    ensures y == x.(reader := Reader(false, Building(1))) && Reaches(s, Full(y, w, n))
  {
    hide Reaches, Writers, Readers;
    y := Reads(s, x, Begin(0), Asking, w, n);
    y := Reads(s, y, LookIndex(0), Waiting, w, n);
    y := Reads(s, y, Acquire(0), Holding(1), w, n);
    y := Reads(s, y, Check(0, false), Building(1), w, n);
  }

  /** It builds the index. */
  lemma Builds(s: State, x: Scene, w: nat, n: nat) returns (y: Scene)
    requires w >= 2 && n >= 1 && Reaches(s, Full(x, w, n)) && x.reader == Reader(false, Building(1))
    ensures y == x.(reader := Reader(false, Returned(Index(x.docs), x.docs)),
                    index := Some(Index(x.docs)), indexVersion := Some(1))
    ensures Reaches(s, Full(y, w, n))
  {
    hide Reaches, Writers, Readers;
    y := Reads(s, x, ReadDocs(0), Read(1, x.docs), w, n);
    y := Reads(s, y, StoreIndex(0), Stored(1, x.docs), w, n);
    y := Reads(s, y, StoreVersion(0), Finishing, w, n);
    y := Reads(s, y, Release(0), Returned(Index(x.docs), x.docs), w, n);
  }

  /** Other documents are stored; the first writer's late save takes the version back. */
  lemma LaterWrites(s: State, x: Scene, later: Docs, w: nat, n: nat) returns (y: Scene)
    requires w >= 2 && n >= 1 && Reaches(s, Full(x, w, n))
    requires x.version == 1 && x.first == Loaded(0) && x.second.Ready? && x.reader.at.Returned?
    ensures y == x.(docs := later, first := Ready) && Reaches(s, Full(y, w, n))
  {
    hide Reaches, Full;
    Commits(s, x, 1, later, w, n);
    y := x.(docs := later, second := Committed);
    Loads(s, y, 1, w, n);
    y := y.(second := Loaded(1));
    Saves(s, y, 1, w, n);
    y := y.(second := Ready, version := 2);
    Saves(s, y, 0, w, n);
    y := y.(first := Ready, version := 1);
  }

  /** The reader calls again, calmly. */
  lemma ReadsAgain(s: State, x: Scene, i: Index, w: nat, n: nat) returns (y: Scene)
    requires w >= 2 && n >= 1 && Reaches(s, Full(x, w, n)) && x.first.Ready? && x.second.Ready?
    requires x.index == Some(i) && x.indexVersion == Some(x.version) && x.reader.at.Returned?
    ensures y == x.(reader := Reader(true, Returned(i, x.docs))) && Reaches(s, Full(y, w, n))
  {
    hide Reaches, Writers, Readers;
    y := Reads(s, x, Begin(0), Asking, w, n);
    y := Reads(s, y, LookIndex(0), SawIndex, w, n);
    y := Reads(s, y, LookVersion(0), SawVersion(x.indexVersion), w, n);
    y := Reads(s, y, Compare(0, false), Matched, w, n);
    y := Reads(s, y, TakeIndex(0), Returned(i, x.docs), w, n);
  }

  /** A calm call returned an index of other documents than there were. */
  ghost predicate Stale(s: State) {
    exists i :: 0 <= i < |s.readers| && s.readers[i].calm && s.readers[i].at.Returned?
                && s.readers[i].at.index.docs != s.readers[i].at.present
  }

  /** Two bumps that overlap can take the version back: from any documents, with two writers or more, a run
      ends with no writer under way and a calm call that returned an index without the documents stored last. */
  lemma SplitBumpIsStale(docs: Docs, later: Docs, w: nat, n: nat) returns (states: seq<State>, steps: seq<Step>)
    requires w >= 2 && n >= 1 && docs != later
    ensures IsRun(states, steps) && states[0] == Initial(docs, w, n) && !AllForward(states, steps)
    ensures Stale(states[|steps|]) && !Busy(states[|steps|].writers) && states[|steps|].docs == later
  {
    var s := Initial(docs, w, n);
    var x := FirstWrites(docs, w, n);
    x := Asks(s, x, w, n);
    x := Builds(s, x, w, n);
    x := LaterWrites(s, x, later, w, n);
    x := ReadsAgain(s, x, Index(docs), w, n);
    var last := Full(x, w, n);
    states, steps :| IsRun(states, steps) && states[0] == s && states[|steps|] == last;
    assert last.readers[0] == x.reader;
    BusyWriters(Ready, Ready, w);
    hide Initial;
    if AllForward(states, steps) { CalmReadersAreFresh(docs, w, n, states, steps, |steps|, 0); }
  }

  lemma {:induction false} NumbersStay(states: seq<State>, steps: seq<Step>, k: nat)
    requires IsRun(states, steps) && k < |states|
    ensures |states[k].writers| == |states[0].writers| && |states[k].readers| == |states[0].readers|
  {
    if k > 0 {
      NumbersStay(states, steps, k - 1);
      assert Stepped(states, steps, k - 1);
      hide IsRun;
    }
  }

  /** One writer's bumps never overlap. */
  lemma OneWriterApart(docs: Docs, w: nat, n: nat, states: seq<State>, steps: seq<Step>)
    requires w <= 1 && IsRun(states, steps) && states[0] == Initial(docs, w, n)
    ensures BumpsApart(states, steps)
  {
    forall k: nat | k < |steps| && (steps[k].Load? || steps[k].Bump?)
      ensures NoneLoaded(states[k].writers)
    {
      NumbersStay(states, steps, k);
      assert Stepped(states, steps, k);
    }
  }

  /** Whatever the documents at the start: a calm call can return a stale index exactly when there are two
      writers or more, and a reader. */
  lemma CanBeStaleExactlyWhen(docs: Docs, w: nat, n: nat)
    ensures (exists t :: Reaches(Initial(docs, w, n), t) && Stale(t)) <==> w >= 2 && n >= 1
  {
    var s := Initial(docs, w, n);
    if w >= 2 && n >= 1 {
      var later := if 1 in docs then docs - {1} else docs[1 := Doc("", "", None)];
      assert (1 in later) != (1 in docs);
      var states, steps := SplitBumpIsStale(docs, later, w, n);
      assert Reaches(s, states[|steps|]);
    }
    if t :| Reaches(s, t) && Stale(t) {
      var states, steps :| IsRun(states, steps) && states[0] == s && states[|steps|] == t;
      NumbersStay(states, steps, |steps|);
      if w <= 1 {
        OneWriterApart(docs, w, n, states, steps);
        ApartGoesForward(docs, w, n, states, steps);
        NoneStale(docs, w, n, states, steps);
      }
    }
  }

  lemma NoneStale(docs: Docs, w: nat, n: nat, states: seq<State>, steps: seq<Step>)
    requires IsRun(states, steps) && states[0] == Initial(docs, w, n) && AllForward(states, steps)
    ensures !Stale(states[|steps|])
  {
    var t := states[|steps|];
    hide IsRun, AllForward, Initial;
    forall i: nat | i < |t.readers| && t.readers[i].calm && t.readers[i].at.Returned?
      ensures t.readers[i].at.index.docs == t.readers[i].at.present
    {
      CalmReadersAreFresh(docs, w, n, states, steps, |steps|, i);
    }
  }
}
