/**
 The download job of `update_manager.py`: resume, restart, repair and hand-over, each change to the
 files made one at a time. A finite network script stands for the connections the job meets; where
 it ends, the power fails.
 */
module UpdateManager {
  import opened Common
  import opened UpdateDisk

  datatype ContentRange = ContentRange(first: int, last: int, total: int)

  /** What one read of a response does. */
  datatype Read =
    | Got(data: Bytes)                      // an empty block ends the response
    | GotNoRoom(data: Bytes, stored: nat)   // the disk took only the first bytes of the block
    | Dropped                               // a network error
    | Failed                                // any other exception

  /** What one request meets. */
  datatype Exchange =
    | HttpError(code: nat)
    | Unreachable
    | OpenFailed                            // an exception that is no network error
    | Response(status: nat, contentRange: Option<ContentRange>, body: seq<Read>)

  datatype Fetched = Finished | Retry | Gone | FetchCancelled | FetchBroke | FetchPowerLoss

  datatype Downloaded = Complete | GaveUp | Cancelled | Broke | PowerLoss

  datatype Phase = Idle | Checking | UpToDate | Available | Downloading | Paused | Verifying | Ready | Installing

  const SPACE_MARGIN: nat := 1073741824

  /** The reads deliver the content from a position on. */
  ghost predicate Faithful(body: seq<Read>, content: Bytes, at: nat)
    decreases |body|
  {
    body != [] && (body[0].Got? || body[0].GotNoRoom?) ==>
      Continues(content, at, body[0].data) && (body[0].Got? ==> Faithful(body[1..], content, at + |body[0].data|))
  }

  /** The block is the content's next one. */
  predicate Continues(content: Bytes, at: nat, data: Bytes) {
    at + |data| <= |content| && data == content[at..at + |data|]
  }

  /** A server that sends the bundle: from the start, or from the first position its Content-Range names. */
  ghost predicate Honest(x: Exchange, b: Bundle) {
    x.Response? ==>
      && (x.status == 200 ==> Faithful(x.body, b.sha256.content, 0))
      && (x.status == 206 && x.contentRange.Some? && x.contentRange.value.first >= 0 ==>
          Faithful(x.body, b.sha256.content, x.contentRange.value.first))
  }

  ghost predicate HonestNet(net: seq<Exchange>, b: Bundle) {
    forall k :: 0 <= k < |net| ==> Honest(net[k], b)
  }

  // ---------- What a response amounts to ----------

  /** The bytes taken from a response before it ends or stops, with so much room in the signed size. */
  function Taken(body: seq<Read>, room: nat): Bytes {
    if body == [] then []
    else match body[0]
      case Got(data) => if data == [] || |data| > room then [] else data + Taken(body[1..], room - |data|)
      case GotNoRoom(data, stored) => if |data| > room then [] else data[..Min(stored, |data|)]
      case _ => []
  }

  /** A block that fits: the loop takes it and reads on. */
  predicate GoesThrough(x: Read, room: nat) {
    x.Got? && x.data != [] && |x.data| <= room
  }

  /** What the read brings is the content's next bytes. */
  predicate Next(x: Read, content: Bytes, at: nat) {
    && (x.Got? ==> Continues(content, at, x.data))
    && (x.GotNoRoom? ==> Continues(content, at, x.data[..Min(x.stored, |x.data|)]))
  }

  /** How it ends when nobody cancels. */
  function EndOf(body: seq<Read>, room: nat): Fetched {
    if body == [] then FetchPowerLoss
    else match body[0]
      case Got(data) =>
        if data == [] then (if room == 0 then Finished else Retry)
        else if |data| > room then Retry
        else EndOf(body[1..], room - |data|)
      case GotNoRoom(_, _) => Retry
      case Dropped => Retry
      case Failed => FetchBroke
  }

  /** What a request for the rest from `offset` on amounts to when nobody cancels. */
  function Verdict(x: Exchange, offset: nat, size: nat): Fetched
    requires offset <= size
  {
    match x
    case HttpError(code) => if code in {403, 404, 410} then Gone else Retry
    case Unreachable => Retry
    case OpenFailed => FetchBroke
    case Response(status, contentRange, body) =>
      if offset > 0 && status == 206 then
        if contentRange == Some(ContentRange(offset, size - 1, size)) then EndOf(body, size - offset) else Retry
      else if status == 200 then EndOf(body, size)
      else Retry
  }

  /** The part a request leaves when nobody cancels. */
  function PartAfter(x: Exchange, part: Option<Bytes>, size: nat): Option<Bytes>
    requires part.Some? ==> |part.value| <= size
  {
    var offset := if part.Some? then |part.value| else 0;
    if !x.Response? then part
    else if offset > 0 && x.status == 206 then
      if x.contentRange == Some(ContentRange(offset, size - 1, size))
      then Some(part.value + Taken(x.body, size - offset)) else part
    else if x.status == 200 then Some(Taken(x.body, size))
    else part
  }

  /** A response that neither fails outside the network nor is cut by a power loss. */
  predicate Passable(body: seq<Read>) {
    body != [] && !body[0].Failed? && (body[0].Got? && body[0].data != [] ==> Passable(body[1..]))
  }

  /** A connection after which the download goes on, whatever it brought. */
  predicate GoesOn(x: Exchange) {
    match x
    case HttpError(code) => code !in {403, 404, 410}
    case Unreachable => true
    case OpenFailed => false
    case Response(_, _, body) => Passable(body)
  }

  /** A response that brings the whole bundle, whatever range was asked for. */
  predicate Whole(x: Exchange, size: nat) {
    x.Response? && x.status == 200 && EndOf(x.body, size) == Finished
  }

  /** One connection brings it all, and none before it ends the job. */
  ghost predicate Reachable(net: seq<Exchange>, size: nat) {
    exists j :: 0 <= j < |net| && Whole(net[j], size) && forall k :: 0 <= k < j ==> GoesOn(net[k])
  }

  lemma {:induction false} PassableEnds(body: seq<Read>, room: nat)
    requires Passable(body)
    ensures EndOf(body, room) in {Retry, Finished}
  {
    if body[0].Got? && body[0].data != [] && |body[0].data| <= room {
      PassableEnds(body[1..], room - |body[0].data|);
    }
  }

  lemma GoingOnRetries(x: Exchange, offset: nat, size: nat)
    requires offset <= size && GoesOn(x)
    ensures Verdict(x, offset, size) in {Retry, Finished}
  {
    if x.Response? {
      PassableEnds(x.body, size - offset);
      PassableEnds(x.body, size);
    }
  }

  lemma ReachableStep(net: seq<Exchange>, size: nat)
    requires Reachable(net, size)
    ensures net != [] && (Whole(net[0], size) || (GoesOn(net[0]) && Reachable(net[1..], size)))
  {
    var j :| 0 <= j < |net| && Whole(net[j], size) && forall k :: 0 <= k < j ==> GoesOn(net[k]);
    if j > 0 {
      var rest := net[1..];
      assert Whole(rest[j - 1], size);
      assert forall k :: 0 <= k < j - 1 ==> rest[k] == net[k + 1];
    }
  }

  function PartData(d: Disk): Option<Bytes> {
    if d.part.Some? then Some(Values(d.part.value)) else None
  }

  function PartSize(d: Disk): nat {
    if d.part.Some? then |d.part.value| else 0
  }

  /** The history grows, by changes made for one bundle. */
  ghost predicate Grew(h: seq<Entry>, g: seq<Entry>, b: Bundle) {
    h <= g && forall k :: |h| <= k < |g| ==> g[k].bundle == b
  }

  lemma GrewOn(h: seq<Entry>, g: seq<Entry>, k: seq<Entry>, b: Bundle)
    requires Grew(h, g, b) && Grew(g, k, b)
    ensures Grew(h, k, b)
  {
  }

  lemma GrewNot(h: seq<Entry>, b: Bundle)
    ensures Grew(h, h, b)
  {
  }

  lemma HonestTail(net: seq<Exchange>, b: Bundle)
    requires net != []
    ensures HonestNet(net, b) ==> Honest(net[0], b) && HonestNet(net[1..], b)
  {
  }

  class Manager {
    var disk: Disk
    var phase: Phase
    var manifest: Option<Bundle>
    var repairAttempts: nat
    var installWhenReady: bool
    var helper: bool          // a helper that can reach the engine is configured
    var free: nat             // free storage
    var net: seq<Exchange>    // the connections still to come
    var cancelIn: Option<nat> // how many more looks find the cancel flag clear; none: it is never set
    var handedOff: nat        // how often the engine was asked to install
    ghost var boot: Disk
    ghost var history: seq<Entry>
    ghost var passes: nat     // verification passes so far

    ghost predicate Valid()
      reads this
    {
      Legal(boot, history) && disk == After(boot, history) && OneBundle(boot)
    }

    /** Every byte received so far came from an honest server, and so did what was there before. */
    ghost predicate Genuine()
      reads this
      requires Valid()
    {
      GenuinePrefix(boot) && HonestHistory(boot, history)
    }

    /** Power on: `_load`. A download that was under way resumes as paused. */
    constructor (d: Disk, saved: Phase, m: Option<Bundle>, attempts: nat)
      requires OneBundle(d)
      ensures Valid() && disk == boot == d && history == []
      ensures manifest == m && repairAttempts == attempts && passes == 0
      ensures phase == if saved in {Checking, Downloading, Verifying} then (if m.Some? then Paused else Idle) else saved
    {
      disk, boot, history := d, d, [];
      manifest, repairAttempts := m, attempts;
      phase := if saved in {Checking, Downloading, Verifying} then (if m.Some? then Paused else Idle) else saved;
      installWhenReady, helper, free, net, cancelIn, handedOff, passes := false, false, 0, [], None, 0, 0;
    }

    /** One change to the files. */
    method Perform(b: Bundle, c: Change, d: Disk)
      requires Valid() && May(disk, Entry(b, c)) && d == Make(disk, Entry(b, c))
      modifies this`disk, this`history
      ensures Valid() && disk == d
      ensures history == old(history) + [Entry(b, c)]
      ensures old(Genuine()) && HonestEntry(old(disk), Entry(b, c)) ==> Genuine()
    {
      HistoryStep(boot, history, Entry(b, c));
      assert (history + [Entry(b, c)])[..|history|] == history;
      history := history + [Entry(b, c)];
      disk := d;
    }

    /** A look at the cancel flag. */
    method IsCancelled() returns (yes: bool)
      modifies this`cancelIn
      ensures yes <==> old(cancelIn) == Some(0)
      ensures cancelIn == match old(cancelIn) case None => None case Some(n) => Some(if n == 0 then 0 else n - 1)
    {
      yes := cancelIn == Some(0);
      if cancelIn.Some? && cancelIn.value > 0 { cancelIn := Some(cancelIn.value - 1); }
    }

    /** `_fetch_range`: one request, appended to the part or replacing it. */
    method FetchRange(b: Bundle, offset: nat, x: Exchange) returns (r: Fetched)
      requires Valid() && disk.sidecar == Some(Written(MetaOf(b))) && offset == PartSize(disk) < b.size
      modifies this`disk, this`history, this`cancelIn
      ensures Valid() && Grew(old(history), history, b)
      ensures disk.sidecar == old(disk.sidecar) && disk.final == old(disk.final) && PartSize(disk) <= b.size
      ensures r == Finished ==> PartSize(disk) == b.size
      ensures r == FetchCancelled ==> old(cancelIn).Some?
      ensures r != FetchCancelled ==>
        r == Verdict(x, offset, b.size) && PartData(disk) == PartAfter(x, PartData(old(disk)), b.size)
      ensures old(cancelIn).None? ==> cancelIn.None?
      ensures old(Genuine()) && Honest(x, b) ==> Genuine()
    {
      hide Verified, FirstBad, OneBundle, HonestHistory, Legal, After, Taken, EndOf;
      match x {
        case HttpError(code) => return if code in {403, 404, 410} then Gone else Retry;
        case Unreachable => return Retry;
        case OpenFailed => return FetchBroke;
        case Response(status, contentRange, body) =>
          if offset > 0 && status == 206 {
            if contentRange != Some(ContentRange(offset, b.size - 1, b.size)) { return Retry; }
          } else if status == 200 {
            Perform(b, StartOver, disk.(part := Some([])));
          } else {
            return Retry;
          }
          ghost var before := Values(disk.part.value);
          assert status == 200 && !(offset > 0 && status == 206) ==> before == [];
          r := Receive(b, body);
          assert before == [] ==> before + Taken(body, b.size) == Taken(body, b.size);
      }
    }

    /** One block at the end of the part. */
    method AppendBlock(b: Bundle, data: Bytes)
      requires Valid() && disk.sidecar == Some(Written(MetaOf(b)))
      requires disk.part.Some? && |disk.part.value| + |data| <= b.size
      modifies this`disk, this`history
      ensures Valid() && Grew(old(history), history, b)
      ensures disk == old(disk).(part := Some(old(disk.part.value) + Delivered(data, b)))
      ensures old(Genuine()) && Continues(b.sha256.content, |old(disk.part.value)|, data) ==> Genuine()
    {
      hide Verified, FirstBad, OneBundle, HonestHistory, Legal, After, Values, Delivered;
      Perform(b, Append(data), disk.(part := Some(disk.part.value + Delivered(data, b))));
    }

    /** The read loop of a response. */
    method Receive(b: Bundle, body: seq<Read>) returns (r: Fetched)
      requires Valid() && disk.sidecar == Some(Written(MetaOf(b))) && disk.part.Some? && |disk.part.value| <= b.size
      modifies this`disk, this`history, this`cancelIn
      ensures Valid() && Grew(old(history), history, b)
      ensures disk.sidecar == old(disk.sidecar) && disk.final == old(disk.final)
      ensures disk.part.Some? && |disk.part.value| <= b.size
      ensures r == Finished ==> |disk.part.value| == b.size
      ensures r == FetchCancelled ==> old(cancelIn).Some?
      ensures var room := b.size - |old(disk.part.value)|;
              r != FetchCancelled ==>
                r == EndOf(body, room) && Values(disk.part.value) == Values(old(disk.part.value)) + Taken(body, room)
      ensures old(cancelIn).None? ==> cancelIn.None?
      ensures old(Genuine()) && Faithful(body, b.sha256.content, old(|disk.part.value|)) ==> Genuine()
    {
      GrewNot(history, b);
      hide Verified, FirstBad, OneBundle, HonestHistory, Legal, After, Taken, EndOf, Faithful, Values;
      hide Delivered, Grew, Continues;
      var i, done := 0, |disk.part.value|;
      ghost var all := Values(disk.part.value) + Taken(body, b.size - done);
      assert body[0..] == body;
      while true
        invariant Valid() && Grew(old(history), history, b)
        invariant disk.sidecar == old(disk.sidecar) && disk.final == old(disk.final)
        invariant 0 <= i <= |body| && disk.part.Some? && done == |disk.part.value| <= b.size
        invariant all == Values(disk.part.value) + Taken(body[i..], b.size - done)
        invariant EndOf(body[i..], b.size - done) == EndOf(body, b.size - old(|disk.part.value|))
        invariant old(cancelIn).None? ==> cancelIn.None?
        invariant old(Genuine()) && Faithful(body, b.sha256.content, old(|disk.part.value|)) ==>
          Genuine() && Faithful(body[i..], b.sha256.content, done)
        decreases |body| - i
      {
        var cancelled := IsCancelled();
        if cancelled { return FetchCancelled; }
        if i == |body| {
          NothingMore(body, b.size - done, Values(disk.part.value));
          return FetchPowerLoss;
        }
        ghost var before, had := history, Values(disk.part.value);
        OneRead(body, i, b.size - done, had);
        if Faithful(body[i..], b.sha256.content, done) { FaithfulRead(body, i, b.sha256.content, done); }
        var over;
        over, r := HandleRead(b, body[i]);
        GrewOn(old(history), before, history, b);
        if over { return; }
        done := done + |body[i].data|;
        i := i + 1;
      }
    }

    /** One read of that loop. */
    method HandleRead(b: Bundle, x: Read) returns (over: bool, r: Fetched)
      requires Valid() && disk.sidecar == Some(Written(MetaOf(b))) && disk.part.Some? && |disk.part.value| <= b.size
      modifies this`disk, this`history
      ensures Valid() && Grew(old(history), history, b)
      ensures disk.sidecar == old(disk.sidecar) && disk.final == old(disk.final)
      ensures disk.part.Some? && |disk.part.value| <= b.size
      ensures Values(disk.part.value) == Values(old(disk.part.value)) + Taken([x], b.size - |old(disk.part.value)|)
      ensures over <==> !GoesThrough(x, b.size - |old(disk.part.value)|)
      ensures over ==> r == EndOf([x], b.size - |old(disk.part.value)|) && r in {Finished, Retry, FetchBroke}
      ensures over && r == Finished ==> |disk.part.value| == b.size
      ensures old(Genuine()) && Next(x, b.sha256.content, |old(disk.part.value)|) ==> Genuine()
    {
      hide Verified, FirstBad, OneBundle, HonestHistory, Legal, After, Values, Delivered, Grew, Continues;
      hide Valid, Genuine;
      ghost var had, room := Values(disk.part.value), b.size - |disk.part.value|;
      GrewNot(history, b);
      OneAlone(x, room, had);
      match x {
        case Dropped => return true, Retry;
        case Failed => return true, FetchBroke;
        case Got(data) =>
          if data == [] { return true, if |disk.part.value| < b.size then Retry else Finished; }
          if |disk.part.value| + |data| > b.size { return true, Retry; }
          ValuesGrow(disk.part.value, data, b);
          AppendBlock(b, data);
          return false, Retry;
        case GotNoRoom(data, stored) =>
          if |disk.part.value| + |data| > b.size { return true, Retry; }
          ValuesGrow(disk.part.value, data[..Min(stored, |data|)], b);
          AppendBlock(b, data[..Min(stored, |data|)]);
          return true, Retry;
      }
    }

    /** `_download`: a part of another bundle is dropped, then the rest is fetched until it is all there. */
    method Download(b: Bundle) returns (r: Downloaded)
      requires Valid() && b.size > 0
      modifies this`disk, this`history, this`net, this`phase, this`cancelIn
      ensures Valid() && Grew(old(history), history, b)
      ensures disk.final == old(disk.final)
      ensures r == Complete ==>
        disk.sidecar == Some(Written(MetaOf(b))) && disk.part.Some? && |disk.part.value| == b.size
      ensures r == GaveUp ==> phase == Available
      ensures r == Cancelled ==> old(cancelIn).Some?
      ensures old(cancelIn).None? ==> cancelIn.None?
      ensures old(cancelIn).None? && old(Reachable(net, b.size)) ==> r == Complete
      ensures old(HonestNet(net, b)) ==> HonestNet(net, b)
      ensures old(Genuine()) && old(HonestNet(net, b)) ==> Genuine()
    {
      GrewNot(history, b);
      hide Verified, FirstBad, OneBundle, HonestHistory, Honest, Legal, After, Reachable, Grew, HonestNet;
      if disk.sidecar != Some(Written(MetaOf(b))) { Adopt(b); }
      r := PowerLoss;
      var over := false;
      while !over
        invariant Valid() && Grew(old(history), history, b)
        invariant disk.sidecar == Some(Written(MetaOf(b))) && disk.final == old(disk.final)
        invariant over && r == Complete ==> disk.part.Some? && |disk.part.value| == b.size
        invariant over && r == GaveUp ==> phase == Available
        invariant over && r == Cancelled ==> old(cancelIn).Some?
        invariant old(cancelIn).None? ==> cancelIn.None?
        invariant old(cancelIn).None? && old(Reachable(net, b.size)) ==>
          if over then r == Complete else Reachable(net, b.size) || PartSize(disk) == b.size
        invariant old(HonestNet(net, b)) ==> HonestNet(net, b)
        invariant old(Genuine()) && old(HonestNet(net, b)) ==> Genuine()
        decreases !over, |net|
      {
        ghost var before := history;
        over, r := Attempt(b);
        GrewOn(old(history), before, history, b);
      }
    }

    /** One pass of the download loop. */
    method Attempt(b: Bundle) returns (over: bool, r: Downloaded)
      requires Valid() && b.size > 0 && disk.sidecar == Some(Written(MetaOf(b)))
      modifies this`disk, this`history, this`net, this`phase, this`cancelIn
      ensures Valid() && Grew(old(history), history, b)
      ensures disk.sidecar == old(disk.sidecar) && disk.final == old(disk.final)
      ensures over && r == Complete ==> disk.part.Some? && |disk.part.value| == b.size
      ensures over && r == GaveUp ==> phase == Available
      ensures over && r == Cancelled ==> old(cancelIn).Some?
      ensures !over ==> |net| < |old(net)|
      ensures old(cancelIn).None? ==> cancelIn.None?
      ensures old(cancelIn).None? && old(Reachable(net, b.size) || PartSize(disk) == b.size) ==>
        if over then r == Complete else Reachable(net, b.size) || PartSize(disk) == b.size
      ensures old(HonestNet(net, b)) ==> HonestNet(net, b)
      ensures old(Genuine()) && old(HonestNet(net, b)) ==> Genuine()
    {
      GrewNot(history, b);
      PartFits(b);
      hide Verified, FirstBad, OneBundle, HonestHistory, Honest, Legal, After, Verdict, PartAfter;
      hide Reachable, Whole, GoesOn;
      hide Grew, HonestNet;
      var cancelled := IsCancelled();
      if cancelled { return true, Cancelled; }
      var have := PartSize(disk);
      if have >= b.size { return true, Complete; }
      phase := Downloading;
      if Reachable(net, b.size) { ReachableStep(net, b.size); }
      if net == [] { return true, PowerLoss; }
      var x := net[0];
      HonestTail(net, b);
      NextIsFine(x, have, b.size);
      net := net[1..];
      var f := FetchRange(b, have, x);
      match f {
        case Finished => return false, Complete;
        case Gone =>
          phase := Available;
          return true, GaveUp;
        case FetchCancelled => return true, Cancelled;
        case FetchBroke => return true, Broke;
        case FetchPowerLoss => return true, PowerLoss;
        case Retry =>
          phase := Paused;
          cancelled := IsCancelled();   // while waiting to try again
          return cancelled, Cancelled;
      }
    }

    /** What the sidecar vouches for is no longer than the bundle. */
    lemma PartFits(b: Bundle)
      requires Valid() && disk.sidecar == Some(Written(MetaOf(b)))
      ensures PartSize(disk) <= b.size
    {
      assert history[..|history|] == history;
      PartNeverMixesBundles(boot, history, |history|);
      if PartSize(disk) > 0 { assert disk.part.value[0].origin == MetaOf(b); }
    }

    /** Drop a part the sidecar does not vouch for, then name the bundle: in this order. */
    method Adopt(b: Bundle)
      requires Valid()
      modifies this`disk, this`history
      ensures Valid() && Grew(old(history), history, b)
      ensures disk == Disk(old(disk.final), None, Some(Written(MetaOf(b))))
      ensures old(Genuine()) ==> Genuine()
    {
      hide Verified, FirstBad, OneBundle, HonestHistory, Legal, After;
      if disk.part.Some? { Perform(b, DropPart, disk.(part := None)); }
      if disk.sidecar.Some? { Perform(b, DropSidecar, disk.(sidecar := None)); }
      Perform(b, TearSidecar, disk.(sidecar := Some(Torn)));
      Perform(b, WriteSidecar, disk.(sidecar := Some(Written(MetaOf(b)))));
    }

    /** `_discard_download`: the three files, if they are there. */
    method DiscardDownload()
      requires Valid()
      modifies this`disk, this`history
      ensures Valid() && old(history) <= history
      ensures disk == if manifest.Some? then Disk(None, None, None) else old(disk)
      ensures manifest.Some? ==> Grew(old(history), history, manifest.value)
      ensures old(Genuine()) ==> Genuine()
    {
      hide Verified, FirstBad, OneBundle, HonestHistory, Legal, After;
      if manifest.None? { return; }
      var b := manifest.value;
      if disk.final.Some? { Perform(b, DropFinal, disk.(final := None)); }
      if disk.part.Some? { Perform(b, DropPart, disk.(part := None)); }
      if disk.sidecar.Some? { Perform(b, DropSidecar, disk.(sidecar := None)); }
    }

    /** `install`: only a ready download is handed to the engine, which may refuse. */
    method Install()
      modifies this`phase, this`handedOff
      ensures !(old(helper) && old(phase) == Ready) ==> phase == old(phase) && handedOff == old(handedOff)
      ensures old(helper) && old(phase) == Ready ==> phase in {Ready, Installing} && handedOff == old(handedOff) + 1
    {
      if !helper || phase != Ready { return; }
      phase := Installing;
      handedOff := handedOff + 1;
      if * { phase := Ready; }   // the helper refused
    }

    /** `_run_job`. False when the power failed. */
    method RunJob() returns (on: bool)
      requires Valid() && manifest.Some? && Validated(manifest.value)
      modifies this
      ensures JobKeeps(old(manifest.value), old(history), old(disk))
      ensures manifest == old(manifest) && boot == old(boot) && helper == old(helper)
      ensures on ==> phase in {Available, Ready, Installing}
      ensures on && phase != Available ==> disk.final.Some?
      ensures old(passes) <= passes <= old(passes) + (if old(repairAttempts) >= 3 then 1 else 4 - old(repairAttempts))
      ensures on && phase != Available && old(disk.final).None? ==>
        passes - old(passes) == 1 + repairAttempts - old(repairAttempts)
      ensures old(disk.final).Some? ==> on && phase != Available && passes == old(passes)
      ensures old(disk.final).None? && old(free) < 3 * old(manifest.value.size) + SPACE_MARGIN ==>
        on && phase == Available && disk == old(disk) && passes == old(passes)
      ensures old(Genuine()) && Consistent(old(manifest.value)) && old(HonestNet(net, manifest.value))
              && old(cancelIn).None? && old(Reachable(net, manifest.value.size))
              && old(free) >= 3 * old(manifest.value.size) + SPACE_MARGIN ==>
        on && phase != Available
      ensures handedOff == old(handedOff) || (handedOff == old(handedOff) + 1 && disk.final.Some?)
      ensures old(Genuine()) && old(HonestNet(net, manifest.value)) && Consistent(old(manifest.value)) ==>
        Genuine() && passes <= old(passes) + 1 && repairAttempts == old(repairAttempts)
      decreases if repairAttempts > 3 then 0 else 4 - repairAttempts, 2
    {
      GrewNot(history, manifest.value);
      ghost var before := history;
      hide Verified, FirstBad, OneBundle, HonestHistory, Legal, After, GenuinePrefix, Honest;
      hide NoneBad, Consistent, Reachable, HonestNet, Values, Grew;
      var b := manifest.value;
      if disk.final.None? {
        if free < 3 * b.size + SPACE_MARGIN {
          phase := Available;
          return true;
        }
        var got := Download(b);
        ghost var fetched := history;
        match got {
          case PowerLoss => return false;
          case GaveUp => return true;
          case Broke =>
            phase := Available;
            return true;
          case Cancelled =>
            DiscardDownload();
            GrewOn(before, fetched, history, b);
            phase := Available;
            return true;
          case Complete =>
        }
        on := ConcludeDownload(b);
        GrewOn(before, fetched, history, b);
        return;
      }
      AnnounceReady();
      return true;
    }

    /** The job once the part is complete: verify, then repair or publish. */
    method ConcludeDownload(b: Bundle) returns (on: bool)
      requires Valid() && manifest == Some(b) && Validated(b) && disk.final.None?
      requires disk.sidecar == Some(Written(MetaOf(b))) && disk.part.Some? && |disk.part.value| == b.size
      modifies this
      ensures JobKeeps(b, old(history), old(disk))
      ensures manifest == old(manifest) && boot == old(boot) && helper == old(helper)
      ensures on ==> phase in {Available, Ready, Installing}
      ensures on && phase != Available ==> disk.final.Some?
      ensures old(passes) < passes <= old(passes) + (if old(repairAttempts) >= 3 then 1 else 4 - old(repairAttempts))
      ensures on && phase != Available ==> passes - old(passes) == 1 + repairAttempts - old(repairAttempts)
      ensures handedOff == old(handedOff) || (handedOff == old(handedOff) + 1 && disk.final.Some?)
      ensures old(Genuine()) && Consistent(b) ==>
        Genuine() && on && phase != Available && passes == old(passes) + 1 && repairAttempts == old(repairAttempts)
      decreases if repairAttempts > 3 then 0 else 4 - repairAttempts, 1
    {
      GrewNot(history, b);
      hide Verified, FirstBad, OneBundle, HonestHistory, Legal, After, GenuinePrefix, NoneBad, Consistent, Values, Grew;
      phase := Verifying;
      passes := passes + 1;
      var bad := VerifyBundleFile(Values(disk.part.value), b);
      if bad.Some? {
        HonestNeedsNoRepair(b, bad);
        on := HandleBadDownload(bad.value);
        return;
      }
      PublishPart(b);
      AnnounceReady();
      return true;
    }

    /** The end of a successful job. */
    method AnnounceReady()
      modifies this`phase, this`handedOff
      ensures phase in {Ready, Installing} && handedOff <= old(handedOff) + 1 && handedOff >= old(handedOff)
      ensures phase == Installing ==> helper && installWhenReady && handedOff == old(handedOff) + 1
    {
      phase := Ready;
      if installWhenReady { Install(); }
    }

    /** A part that just verified becomes the final file; its sidecar goes. */
    method PublishPart(b: Bundle)
      requires Valid() && May(disk, Entry(b, Publish))
      modifies this`disk, this`history
      ensures Valid() && Grew(old(history), history, b)
      ensures disk == Disk(old(disk.part), None, None)
      ensures old(Genuine()) ==> Genuine()
    {
      hide Verified, FirstBad, OneBundle, HonestHistory, Legal, After;
      Perform(b, Publish, disk.(final := disk.part, part := None));
      if disk.sidecar.Some? { Perform(b, DropSidecar, disk.(sidecar := None)); }
    }

    /** `_handle_bad_download`: keep the good prefix and run again, at most three times. */
    method HandleBadDownload(bad: int) returns (on: bool)
      requires Valid() && manifest.Some? && Validated(manifest.value) && disk.final.None?
      requires disk.sidecar == Some(Written(MetaOf(manifest.value))) && disk.part.Some?
      requires bad >= 0 ==> FirstBad(Values(disk.part.value), manifest.value, bad)
      requires !(Genuine() && Consistent(manifest.value))
      modifies this
      ensures JobKeeps(old(manifest.value), old(history), old(disk))
      ensures manifest == old(manifest) && boot == old(boot) && helper == old(helper)
      ensures on ==> phase in {Available, Ready, Installing}
      ensures on && phase != Available ==> disk.final.Some?
      ensures old(passes) <= passes <= old(passes) + (if old(repairAttempts) >= 3 then 0 else 3 - old(repairAttempts))
      ensures on && phase != Available ==> passes - old(passes) == repairAttempts - old(repairAttempts)
      ensures bad < 0 || old(repairAttempts) >= 3 ==>
        on && disk == Disk(None, None, None) && phase == Available && repairAttempts == 0 && passes == old(passes)
      ensures bad >= 0 && old(repairAttempts) < 3 ==>
        |history| > |old(history)| && history[|old(history)|] == Entry(old(manifest.value), Truncate(bad))
      ensures handedOff == old(handedOff) || (handedOff == old(handedOff) + 1 && disk.final.Some?)
      decreases if repairAttempts > 3 then 0 else 4 - repairAttempts, 0
    {
      hide Verified, FirstBad, OneBundle, HonestHistory, Legal, After, GenuinePrefix, Honest, Consistent, Validated;
      var b := manifest.value;
      var attempts := repairAttempts + 1;
      if attempts > 3 || bad < 0 {
        DiscardDownload();
        phase := Available;
        repairAttempts := 0;
        return true;
      }
      FirstBadWithin(Values(disk.part.value), b, bad);
      KeepIsStart(b, bad);
      var keep := bad * b.chunkSize;
      Perform(b, Truncate(bad), disk.(part := Some(disk.part.value[..keep])));
      repairAttempts := attempts;
      on := RunJob();
    }

    /** What a job leaves: its own changes only, and a final file that was there before or just verified. */
    ghost predicate JobKeeps(b: Bundle, h: seq<Entry>, d: Disk)
      reads this
    {
      && Valid() && Grew(h, history, b)
      && (d.final.Some? ==> disk.final == d.final)
      && (d.final.None? && disk.final.Some? ==> Verified(Values(disk.final.value), b))
    }

    lemma HonestNeedsNoRepair(b: Bundle, bad: Option<int>)
      requires Valid() && disk.sidecar == Some(Written(MetaOf(b))) && disk.part.Some? && |disk.part.value| == b.size
      requires !Verified(Values(disk.part.value), b)
      ensures !(Genuine() && Consistent(b))
    {
      if Genuine() && Consistent(b) {
        HonestKeepsGenuine(boot, history);
        GenuineVerifies(disk, b);
        assert false;
      }
    }

    // ---------- Around the job ----------

    /** `start`: one job at a time, never while the engine installs, and only for a known release. */
    method Start(jobAlive: bool, install: bool) returns (spawned: bool)
      modifies this`installWhenReady
      ensures spawned <==> !jobAlive && phase != Installing && manifest.Some?
      ensures installWhenReady == if spawned then install else old(installWhenReady)
    {
      if jobAlive || phase == Installing || manifest.None? { return false; }
      installWhenReady := install;
      return true;
    }

    /** The guard of `check`, under the lock: a job, a download under way or a ready one is left alone. */
    method BeginCheck(jobAlive: bool) returns (begun: bool)
      modifies this`phase
      ensures begun <==> !jobAlive && old(phase) !in {Downloading, Paused, Verifying, Ready, Installing}
      ensures phase == if begun then Checking else old(phase)
    {
      if jobAlive || phase in {Downloading, Paused, Verifying, Ready, Installing} { return false; }
      phase := Checking;
      return true;
    }

    /** The rest of `check`, some time later, with what it found: nothing newer, or a release. It looks
        at nothing that happened since the guard. */
    method EndCheck(plausibleTime: bool, found: Found)
      modifies this`phase, this`manifest
      ensures if !plausibleTime || found.Offline? || found.NotVerified? then phase == Idle && manifest == old(manifest)
              else if found.NotNewer? then phase == UpToDate && manifest == None
              else phase == Available && manifest == Some(found.bundle)
    {
      if !plausibleTime {
        phase := Idle;
        return;
      }
      match found {
        case Offline => phase := Idle;
        case NotVerified => phase := Idle;
        case NotNewer => phase, manifest := UpToDate, None;
        case Newer(b) => phase, manifest := Available, Some(b);
      }
    }

    /** `check` with nothing in between. */
    method Check(jobAlive: bool, plausibleTime: bool, found: Found)
      modifies this`phase, this`manifest
      ensures jobAlive || old(phase) in {Downloading, Paused, Verifying, Ready, Installing} ==>
        phase == old(phase) && manifest == old(manifest)
      ensures !(jobAlive || old(phase) in {Downloading, Paused, Verifying, Ready, Installing}) ==>
        if !plausibleTime || found.Offline? || found.NotVerified? then phase == Idle && manifest == old(manifest)
        else if found.NotNewer? then phase == UpToDate && manifest == None
        else phase == Available && manifest == Some(found.bundle)
    {
      var begun := BeginCheck(jobAlive);
      if begun { EndCheck(plausibleTime, found); }
    }

    /** A check is not over when a download starts: once it is over, the state and the release it found
        stand in place of the download's, whatever the download does. */
    method StartDuringCheck(jobAlive: bool, install: bool, found: Found) returns (begun: bool, spawned: bool)
      modifies this`phase, this`manifest, this`installWhenReady
      ensures begun && old(manifest).Some? ==> spawned
      ensures begun && found.Newer? ==> phase == Available && manifest == Some(found.bundle)
      ensures begun && found.NotNewer? ==> phase == UpToDate && manifest == None
    {
      begun := BeginCheck(jobAlive);
      spawned := Start(jobAlive, install);
      if begun { EndCheck(true, found); }
    }

    /** `cancel`: with no job to notice the flag, the download is discarded at once. */
    method Cancel(jobAlive: bool)
      requires Valid()
      modifies this
      ensures Valid() && boot == old(boot) && old(history) <= history && manifest == old(manifest)
      ensures old(phase) == Installing || jobAlive ==> disk == old(disk) && phase == old(phase)
      ensures old(phase) != Installing && !jobAlive && manifest.Some? ==>
        disk == Disk(None, None, None) && phase == Available
      ensures old(phase) != Installing && !jobAlive && manifest.None? ==> disk == old(disk) && phase == Idle
      ensures old(Genuine()) ==> Genuine()
    {
      hide OneBundle, HonestHistory, Legal, After;
      if phase == Installing || jobAlive { return; }
      DiscardDownload();
      phase := if manifest.Some? then Available else Idle;
    }

    /** Removing the directory deletes its files in no particular order. */
    method RemoveFiles()
      requires Valid()
      modifies this`disk, this`history
      ensures Valid() && old(history) <= history && disk == Disk(None, None, None)
      ensures old(Genuine()) ==> Genuine()
    {
      hide Verified, FirstBad, OneBundle, HonestHistory, Legal, After;
      while
        invariant Valid() && old(history) <= history
        invariant old(Genuine()) ==> Genuine()
        decreases if disk.final.Some? then 1 else 0, if disk.part.Some? then 1 else 0,
                  if disk.sidecar.Some? then 1 else 0
      {
        case disk.final.Some? => Perform(NO_BUNDLE, DropFinal, disk.(final := None));
        case disk.part.Some? => Perform(NO_BUNDLE, DropPart, disk.(part := None));
        case disk.sidecar.Some? => Perform(NO_BUNDLE, DropSidecar, disk.(sidecar := None));
      }
    }

    /** `forget`, once no job runs. */
    method Forget() returns (done: bool)
      requires Valid()
      modifies this
      ensures Valid() && boot == old(boot) && old(history) <= history
      ensures done <==> old(phase) != Installing
      ensures !done ==> disk == old(disk) && phase == old(phase) && manifest == old(manifest)
      ensures done ==> disk == Disk(None, None, None) && phase == Idle && manifest == None && repairAttempts == 0
    {
      if phase == Installing { return false; }
      RemoveFiles();
      phase, manifest, repairAttempts := Idle, None, 0;
      return true;
    }

    /** `reconcile_after_restart` with `_finish`: an installation ends once the engine no longer works on it. */
    method Reconcile(engineBusy: bool, success: bool)
      requires Valid()
      modifies this
      ensures Valid() && boot == old(boot) && old(history) <= history
      ensures old(phase) != Installing || engineBusy ==>
                disk == old(disk) && phase == old(phase) && manifest == old(manifest)
      ensures old(phase) == Installing && !engineBusy && success ==>
        phase == UpToDate && manifest == None && disk == Disk(None, None, None)
      ensures old(phase) == Installing && !engineBusy && !success ==>
        disk == old(disk) && manifest == old(manifest) && phase == if manifest.Some? then Available else Idle
    {
      if phase != Installing || engineBusy { return; }
      if success {
        phase, manifest := UpToDate, None;
        RemoveFiles();
      } else {
        phase := if manifest.Some? then Available else Idle;
      }
    }
  }

  /** A connection that brings it all finishes; one that lets the download go on ends in no other way. */
  lemma NextIsFine(x: Exchange, offset: nat, size: nat)
    requires offset <= size
    ensures Whole(x, size) ==> Verdict(x, offset, size) == Finished
    ensures GoesOn(x) ==> Verdict(x, offset, size) in {Retry, Finished}
  {
    if GoesOn(x) { GoingOnRetries(x, offset, size); }
  }

  /** What one read decides of the rest of a response. */
  lemma OneRead(body: seq<Read>, i: nat, room: nat, had: Bytes)
    requires i < |body|
    ensures if GoesThrough(body[i], room)
            then Taken([body[i]], room) == body[i].data
                 && EndOf(body[i..], room) == EndOf(body[i + 1..], room - |body[i].data|)
                 && had + Taken(body[i..], room)
                    == (had + Taken([body[i]], room)) + Taken(body[i + 1..], room - |body[i].data|)
            else EndOf(body[i..], room) == EndOf([body[i]], room) && Taken(body[i..], room) == Taken([body[i]], room)
  {
    var rest := body[i..];
    assert rest[0] == body[i] && rest[1..] == body[i + 1..];
    OneAlone(body[i], room, had);
    if GoesThrough(body[i], room) {
      var data, more := body[i].data, Taken(body[i + 1..], room - |body[i].data|);
      assert had + (data + more) == (had + data) + more;
    }
  }

  /** A response of one read. */
  lemma OneAlone(x: Read, room: nat, had: Bytes)
    ensures had + [] == had
    ensures match x
            case Got(data) =>
              Taken([x], room) == (if |data| > room then [] else data)
              && (!GoesThrough(x, room) ==> EndOf([x], room) == if data == [] && room == 0 then Finished else Retry)
            case GotNoRoom(data, stored) =>
              Taken([x], room) == (if |data| > room then [] else data[..Min(stored, |data|)])
              && EndOf([x], room) == Retry
            case Dropped => Taken([x], room) == [] && EndOf([x], room) == Retry
            case Failed => Taken([x], room) == [] && EndOf([x], room) == FetchBroke
  {
    assert [x][1..] == [];
    if x.Got? { assert x.data + [] == x.data; }
  }

  lemma NothingMore(body: seq<Read>, room: nat, had: Bytes)
    ensures EndOf(body[|body|..], room) == FetchPowerLoss && had + Taken(body[|body|..], room) == had
  {
  }

  lemma ValuesGrow(part: File, data: Bytes, b: Bundle)
    ensures Values(part + Delivered(data, b)) == Values(part) + data
  {
  }

  lemma FaithfulRead(body: seq<Read>, i: nat, content: Bytes, at: nat)
    requires i < |body| && Faithful(body[i..], content, at)
    ensures Next(body[i], content, at)
    ensures body[i].Got? ==> Faithful(body[i + 1..], content, at + |body[i].data|)
  {
    assert body[i..][0] == body[i] && body[i..][1..] == body[i + 1..];
  }

  const NO_BUNDLE: Bundle := Bundle(0, Sha256([]), 0, None)

  /** What a check for updates finds. */
  datatype Found = Offline | NotVerified | NotNewer | Newer(bundle: Bundle)

  lemma KeepIsStart(b: Bundle, bad: nat)
    requires Validated(b) && b.chunks.Some?
    ensures bad * b.chunkSize == Start(bad, b)
  {
  }

  /** A release that reuses the file name of an older bundle: its job reports it ready, without a
      verification pass, over a file that is the older bundle and not the new one. */
  method ReusedName(older: Bundle, newer: Bundle) returns (m: Manager)
    requires Consistent(older) && Validated(newer) && MetaOf(older) != MetaOf(newer)
    ensures Legal(NOTHING, DownloadOf(older)) && m.boot == After(NOTHING, DownloadOf(older))
    ensures m.Valid() && m.manifest == Some(newer)
    ensures m.phase in {Ready, Installing} && m.passes == 0
    ensures m.disk.final == Some(Delivered(older.sha256.content, older))
    ensures !Verified(Values(m.disk.final.value), newer)
  {
    OlderFileMeets(older, newer);
    hide Legal, After, HonestHistory, FirstBad, Consistent, Verified, Validated;
    m := new Manager(Disk(Some(Delivered(older.sha256.content, older)), None, None), Available, Some(newer), 0);
    var on := m.RunJob();
  }
}
