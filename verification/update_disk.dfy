/**
 The files of the resumable download of `update_manager.py`: what each change to them does, when the
 code may make it, and what every history of changes keeps. A history may stop anywhere (power loss,
 restart) and go on with another release under the same bundle name.
 */
module UpdateDisk {
  import opened Common

  type Bytes = seq<bv8>

  /** SHA-256, idealised: equal digests come from equal contents. */
  datatype Digest = Sha256(content: Bytes)

  /** The bundle entry of a signed manifest; `chunkSize` is 0 when the manifest has none. */
  datatype Bundle = Bundle(size: nat, sha256: Digest, chunkSize: nat, chunks: Option<seq<Digest>>)

  const MIB: nat := 1048576

  /** What manifest validation guarantees. */
  predicate Validated(b: Bundle) {
    && b.size > 0
    && (b.chunks.Some? ==> b.chunkSize >= MIB && |b.chunks.value| == (b.size + b.chunkSize - 1) / b.chunkSize)
  }

  // ---------- Verifying a part ----------

  function BlockSize(b: Bundle): (n: nat)
    ensures n > 0
  {
    if b.chunkSize > 0 then b.chunkSize else MIB
  }

  function Min(x: nat, y: nat): nat {
    if x < y then x else y
  }

  /** The block of a file that a verification pass reads from position `at`. */
  function BlockAt(data: Bytes, at: nat, n: nat): Bytes
    requires at <= |data|
  {
    data[at..Min(at + n, |data|)]
  }

  function Start(k: nat, b: Bundle): nat {
    k * BlockSize(b)
  }

  /** Block `k` exists in the file and has the digest the manifest lists for it. */
  predicate ChunkGood(data: Bytes, b: Bundle, k: nat)
    requires b.chunks.Some? && Start(k, b) <= |data|
  {
    k < |b.chunks.value| && Sha256(BlockAt(data, Start(k, b), BlockSize(b))) == b.chunks.value[k]
  }

  lemma StartNext(k: nat, b: Bundle)
    ensures Start(k + 1, b) == Start(k, b) + BlockSize(b) && Start(0, b) == 0
  {
    var n := BlockSize(b);
    assert (k + 1) * n == k * n + n;
  }

  lemma {:induction false} StartMonotone(j: nat, k: nat, b: Bundle)
    requires j <= k
    ensures Start(j, b) <= Start(k, b)
    decreases k - j
  {
    if j < k {
      StartMonotone(j, k - 1, b);
      StartNext(k - 1, b);
    }
  }

  /** The first `k` blocks of the file are the ones the manifest lists. */
  ghost predicate LeadingGood(data: Bytes, b: Bundle, k: nat)
    requires b.chunks.Some? && Start(k, b) <= |data|
  {
    forall i: nat | i < k :: Start(i, b) <= |data| && ChunkGood(data, b, i)
  }

  /** Block `k` is the first damaged block of the file. */
  ghost predicate FirstBad(data: Bytes, b: Bundle, k: nat) {
    && b.chunks.Some? && Start(k, b) < |data|
    && LeadingGood(data, b, k) && !ChunkGood(data, b, k)
  }

  predicate Verified(data: Bytes, b: Bundle) {
    |data| == b.size && Sha256(data) == b.sha256
  }

  /** Every block the file has is good. */
  ghost predicate NoneBad(data: Bytes, b: Bundle) {
    b.chunks.Some? ==> forall k: nat | Start(k, b) < |data| :: ChunkGood(data, b, k)
  }

  /** `verify_bundle_file`: nothing, the first bad chunk, or -1 when no single chunk is to blame. */
  method VerifyBundleFile(data: Bytes, b: Bundle) returns (bad: Option<int>)
    ensures bad.None? <==> Verified(data, b)
    ensures bad.Some? && bad.value >= 0 ==> FirstBad(data, b, bad.value)
    ensures bad.Some? && bad.value < 0 ==> bad.value == -1 && NoneBad(data, b)
  {
    hide ChunkGood, Start;
    var n := BlockSize(b);
    var badChunk: Option<int> := None;
    var at, index := 0, 0;
    ghost var limit := 0;
    StartNext(0, b);
    while at < |data|
      invariant 0 <= at <= |data| && 0 <= index && at == Min(Start(index, b), |data|)
      invariant badChunk.None? && b.chunks.Some? ==>
        forall i: nat | i < index :: Start(i, b) < |data| && ChunkGood(data, b, i)
      invariant badChunk.Some? ==> badChunk.value >= 0 && FirstBad(data, b, badChunk.value)
      decreases |data| - at
    {
      var block := BlockAt(data, at, n);
      assert at == Start(index, b);
      ChunkGoodIs(data, b, index);
      if b.chunks.Some? && badChunk.None? {
        if index >= |b.chunks.value| || Sha256(block) != b.chunks.value[index] {
          badChunk := Some(index);
        }
      }
      StartNext(index, b);
      index := index + 1;
      at := at + |block|;
    }
    if |data| != b.size || Sha256(data) != b.sha256 {
      if badChunk.None? {
        forall k: nat | b.chunks.Some? && Start(k, b) < |data|
          ensures ChunkGood(data, b, k)
        {
          if k >= index { StartMonotone(index, k, b); }
        }
      }
      return if badChunk.Some? then badChunk else Some(-1);
    }
    return None;
  }

  lemma ChunkGoodIs(data: Bytes, b: Bundle, k: nat)
    requires Start(k, b) < |data|
    ensures b.chunks.Some? ==>
      (ChunkGood(data, b, k)
       <==> k < |b.chunks.value| && Sha256(BlockAt(data, Start(k, b), BlockSize(b))) == b.chunks.value[k])
  {
  }

  // ---------- The genuine bundle ----------

  /** A manifest that describes its bundle: the size and every chunk digest are those of the content. */
  ghost predicate Consistent(b: Bundle) {
    && Validated(b) && b.size == |b.sha256.content|
    && (b.chunks.Some? ==>
        forall k: nat | k < |b.chunks.value| ::
          Start(k, b) < b.size && b.chunks.value[k] == Sha256(BlockAt(b.sha256.content, Start(k, b), BlockSize(b))))
  }

  /** A repair keeps exactly what is right: everything before the first bad chunk equals the bundle,
      and the bad chunk itself differs from it. */
  lemma {:induction false} RepairKeepsGenuinePrefix(data: Bytes, b: Bundle, bad: nat)
    requires Consistent(b) && |data| <= b.size && FirstBad(data, b, bad)
    ensures data[..Start(bad, b)] <= b.sha256.content
    ensures !(data[..Min(Start(bad + 1, b), |data|)] <= b.sha256.content) || |data| < Min(Start(bad + 1, b), b.size)
  {
    LeadingIsGenuine(data, b, bad);
    BadDiffers(data, b, bad);
  }

  lemma {:induction false} LeadingIsGenuine(data: Bytes, b: Bundle, k: nat)
    requires Consistent(b) && b.chunks.Some? && Start(k, b) <= |data| <= b.size && LeadingGood(data, b, k)
    ensures data[..Start(k, b)] <= b.sha256.content
  {
    var content := b.sha256.content;
    if k == 0 {
      StartNext(0, b);
    } else {
      var j := k - 1;
      StartNext(j, b);
      assert ChunkGood(data, b, j);
      assert LeadingGood(data, b, j);
      LeadingIsGenuine(data, b, j);
      var s, e, n := Start(j, b), Start(k, b), BlockSize(b);
      hide Start, BlockSize, LeadingGood;
      assert BlockAt(data, s, n) == data[s..e] == BlockAt(content, s, n) == content[s..e];
      assert data[..e] == data[..s] + data[s..e] && content[..e] == content[..s] + content[s..e];
    }
  }

  lemma BadDiffers(data: Bytes, b: Bundle, bad: nat)
    requires Consistent(b) && |data| <= b.size && FirstBad(data, b, bad)
    ensures !(data[..Min(Start(bad + 1, b), |data|)] <= b.sha256.content) || |data| < Min(Start(bad + 1, b), b.size)
  {
    var content := b.sha256.content;
    var s, n := Start(bad, b), BlockSize(b);
    StartNext(bad, b);
    ChunkCount(b, bad);
    ChunkGoodIs(data, b, bad);
    assert Sha256(BlockAt(data, s, n)) != Sha256(BlockAt(content, s, n));
    var e := Min(s + n, |data|);
    hide Start, BlockSize, FirstBad, Consistent, LeadingGood, ChunkGood;
    if data[..e] <= content && |data| >= Min(s + n, |content|) {
      SamePrefixSameBlock(data, content, s, e);
      assert false;
    }
  }

  lemma SamePrefixSameBlock(data: Bytes, content: Bytes, s: nat, e: nat)
    requires s <= e <= |data| && data[..e] <= content
    ensures e <= |content| && data[s..e] == content[s..e]
  {
    assert data[..e] == content[..e];
    assert data[s..e] == data[..e][s..] && content[s..e] == content[..e][s..];
  }

  lemma ChunkCount(b: Bundle, k: nat)
    requires Validated(b) && b.chunks.Some? && Start(k, b) < b.size
    ensures k < |b.chunks.value|
  {
    var n, m := BlockSize(b), |b.chunks.value|;
    assert m == (b.size + n - 1) / n;
    if k >= m { Ceiling(b.size, n, m, k); }
  }

  lemma Ceiling(size: nat, n: nat, m: nat, k: nat)
    requires n > 0 && m == (size + n - 1) / n && k >= m
    ensures k * n >= size
  {
    var r := (size + n - 1) % n;
    assert size + n - 1 == n * m + r;
    assert n * m >= size;
    assert (k - m) * n >= 0;
    assert k * n == m * n + (k - m) * n;
  }

  // ---------- The files ----------

  /** What the sidecar records of the bundle a part belongs to. */
  datatype Meta = Meta(sha256: Digest, size: nat)

  /** A sidecar file: written whole, or cut off while being written (it then reads as empty). */
  datatype Sidecar = Torn | Written(meta: Meta)

  /** A downloaded byte, with the bundle whose download delivered it; no operation reads `origin`. */
  datatype Cell = Cell(value: bv8, origin: Meta)

  type File = seq<Cell>

  /** The three files of one bundle name. */
  datatype Disk = Disk(final: Option<File>, part: Option<File>, sidecar: Option<Sidecar>)

  function MetaOf(b: Bundle): Meta {
    Meta(b.sha256, b.size)
  }

  function Values(f: File): (data: Bytes)
    ensures |data| == |f|
    ensures forall i :: 0 <= i < |f| ==> data[i] == f[i].value
  {
    seq(|f|, i requires 0 <= i < |f| => f[i].value)
  }

  function Delivered(data: Bytes, b: Bundle): (f: File)
    ensures Values(f) == data
    ensures forall c :: c in f ==> c.origin == MetaOf(b)
  {
    seq(|data|, i requires 0 <= i < |data| => Cell(data[i], MetaOf(b)))
  }

  /** One atomic change to the files. */
  datatype Change =
    | DropPart
    | DropSidecar
    | DropFinal
    | TearSidecar                 // opened for writing
    | WriteSidecar
    | StartOver                   // part opened "wb"
    | Append(data: Bytes)
    | Truncate(bad: nat)
    | Publish                     // part renamed to the final name

  datatype Entry = Entry(bundle: Bundle, change: Change)

  /** When the code makes a change. */
  ghost predicate May(d: Disk, e: Entry) {
    var b := e.bundle;
    match e.change
    case DropPart => d.part.Some?
    case DropSidecar => d.sidecar.Some?
    case DropFinal => d.final.Some?
    case TearSidecar => d.part.None?
    case WriteSidecar => d.part.None? && d.sidecar == Some(Torn)
    case StartOver => d.sidecar == Some(Written(MetaOf(b)))
    case Append(data) => d.sidecar == Some(Written(MetaOf(b))) && d.part.Some? && |d.part.value| + |data| <= b.size
    case Truncate(bad) =>
      d.sidecar == Some(Written(MetaOf(b))) && d.part.Some? && FirstBad(Values(d.part.value), b, bad)
    case Publish =>
      && d.final.None? && d.sidecar == Some(Written(MetaOf(b)))
      && d.part.Some? && Verified(Values(d.part.value), b)
  }

  ghost function Make(d: Disk, e: Entry): Disk
    requires May(d, e)
  {
    var b := e.bundle;
    match e.change
    case DropPart => d.(part := None)
    case DropSidecar => d.(sidecar := None)
    case DropFinal => d.(final := None)
    case TearSidecar => d.(sidecar := Some(Torn))
    case WriteSidecar => d.(sidecar := Some(Written(MetaOf(b))))
    case StartOver => d.(part := Some([]))
    case Append(data) => d.(part := Some(d.part.value + Delivered(data, b)))
    case Truncate(bad) => d.(part := Some(d.part.value[..Start(bad, b)]))
    case Publish => d.(final := d.part, part := None)
  }

  // ---------- Histories ----------

  ghost predicate Legal(d: Disk, h: seq<Entry>)
    decreases |h|, 0
  {
    h != [] ==> Legal(d, h[..|h| - 1]) && May(After(d, h[..|h| - 1]), h[|h| - 1])
  }

  /** The files after a history of changes. */
  ghost function After(d: Disk, h: seq<Entry>): Disk
    requires Legal(d, h)
    decreases |h|, 1
  {
    if h == [] then d else Make(After(d, h[..|h| - 1]), h[|h| - 1])
  }

  lemma HistoryStep(d: Disk, h: seq<Entry>, e: Entry)
    requires Legal(d, h) && May(After(d, h), e)
    ensures Legal(d, h + [e]) && After(d, h + [e]) == Make(After(d, h), e)
  {
    assert (h + [e])[..|h|] == h;
  }

  /** A history may stop after any change. */
  lemma {:induction false} LegalPrefix(d: Disk, h: seq<Entry>, k: nat)
    requires Legal(d, h) && k <= |h|
    ensures Legal(d, h[..k])
  {
    if k == |h| {
      assert h[..k] == h;
    } else {
      var init := h[..|h| - 1];
      LegalPrefix(d, init, k);
      assert init[..k] == h[..k];
    }
  }

  /** What comes after a restart continues the history. */
  lemma {:induction false} LegalConcat(d: Disk, g: seq<Entry>, h: seq<Entry>)
    requires Legal(d, g) && Legal(After(d, g), h)
    ensures Legal(d, g + h) && After(d, g + h) == After(After(d, g), h)
  {
    if h == [] {
      assert g + h == g;
    } else {
      var init := h[..|h| - 1];
      LegalConcat(d, g, init);
      assert (g + h)[..|g + h| - 1] == g + init;
    }
  }

  /** All bytes of a part belong to one bundle, the one the sidecar names if it names any,
      and there are no more of them than that bundle has. */
  ghost predicate OneBundle(d: Disk) {
    d.part.Some? ==>
      forall i :: 0 <= i < |d.part.value| ==>
        && d.part.value[i].origin == d.part.value[0].origin
        && |d.part.value| <= d.part.value[i].origin.size
        && (d.sidecar.Some? && d.sidecar.value.Written? ==> d.part.value[i].origin == d.sidecar.value.meta)
  }

  lemma MakeKeepsOneBundle(d: Disk, e: Entry)
    requires OneBundle(d) && May(d, e)
    ensures OneBundle(Make(d, e))
  {
    hide FirstBad, Start, Verified;
    match e.change
    case Append(data) =>
      var part := d.part.value + Delivered(data, e.bundle);
      forall i | 0 <= i < |part|
        ensures part[i].origin == MetaOf(e.bundle)
      {
        if i >= |d.part.value| { assert part[i] in Delivered(data, e.bundle); }
      }
    case Truncate(bad) =>
      FirstBadWithin(Values(d.part.value), e.bundle, bad);
    case _ =>
  }

  /** In every history, whatever releases it works on: at each moment the part holds bytes of one
      bundle only and is no longer than its signed size. */
  lemma {:induction false} PartNeverMixesBundles(d: Disk, h: seq<Entry>, k: nat)
    requires OneBundle(d) && Legal(d, h) && k <= |h|
    ensures Legal(d, h[..k]) && OneBundle(After(d, h[..k]))
  {
    LegalPrefix(d, h, k);
    if k > 0 {
      var g := h[..k];
      assert g[..k - 1] == h[..k - 1];
      PartNeverMixesBundles(d, h, k - 1);
      MakeKeepsOneBundle(After(d, h[..k - 1]), h[k - 1]);
    }
  }

  /** A part that the sidecar vouches for is a prefix of its bundle. */
  ghost predicate GenuinePrefix(d: Disk) {
    d.part.Some? && d.sidecar.Some? && d.sidecar.value.Written? ==>
      Values(d.part.value) <= d.sidecar.value.meta.sha256.content
  }

  /** The bytes an honest server delivers are the bundle's, from where the part ends. */
  ghost predicate HonestEntry(d: Disk, e: Entry)
    requires May(d, e)
  {
    e.change.Append? ==>
      var at, data, content := |d.part.value|, e.change.data, e.bundle.sha256.content;
      at + |data| <= |content| && data == content[at..at + |data|]
  }

  ghost predicate HonestHistory(d: Disk, h: seq<Entry>)
    requires Legal(d, h)
  {
    h != [] ==> HonestHistory(d, h[..|h| - 1]) && HonestEntry(After(d, h[..|h| - 1]), h[|h| - 1])
  }

  lemma MakeKeepsGenuine(d: Disk, e: Entry)
    requires GenuinePrefix(d) && May(d, e) && HonestEntry(d, e)
    ensures GenuinePrefix(Make(d, e))
  {
    hide FirstBad, Start, Verified;
    match e.change
    case Append(data) =>
      var part, more := d.part.value, Delivered(data, e.bundle);
      assert Values(part + more) == Values(part) + data;
      PrefixGrows(Values(part), data, e.bundle.sha256.content);
    case Truncate(bad) =>
      var part := d.part.value;
      var keep := Start(bad, e.bundle);
      assert keep < |part| by { FirstBadWithin(Values(part), e.bundle, bad); }
      assert Values(part[..keep]) == Values(part)[..keep];
    case _ =>
  }

  lemma PrefixGrows(part: Bytes, more: Bytes, content: Bytes)
    requires part <= content && |part| + |more| <= |content| && more == content[|part|..|part| + |more|]
    ensures part + more <= content
  {
  }

  lemma FirstBadWithin(data: Bytes, b: Bundle, bad: nat)
    requires FirstBad(data, b, bad)
    ensures b.chunks.Some? && Start(bad, b) < |data|
  {
  }

  /** With an honest server the part is, at each moment of every history, a prefix of the bundle its
      sidecar names: across cuts, ignored Range requests, restarts and repairs. */
  lemma {:induction false} PartStaysGenuine(d: Disk, h: seq<Entry>, k: nat)
    requires GenuinePrefix(d) && Legal(d, h) && HonestHistory(d, h) && k <= |h|
    ensures Legal(d, h[..k]) && HonestHistory(d, h[..k]) && GenuinePrefix(After(d, h[..k]))
    decreases |h| - k, k
  {
    LegalPrefix(d, h, k);
    if k == |h| {
      assert h[..k] == h;
      HonestKeepsGenuine(d, h);
    } else {
      var init := h[..|h| - 1];
      assert init[..k] == h[..k];
      PartStaysGenuine(d, init, k);
    }
  }

  lemma {:induction false} HonestKeepsGenuine(d: Disk, h: seq<Entry>)
    requires GenuinePrefix(d) && Legal(d, h) && HonestHistory(d, h)
    ensures GenuinePrefix(After(d, h))
  {
    if h != [] {
      HonestKeepsGenuine(d, h[..|h| - 1]);
      MakeKeepsGenuine(After(d, h[..|h| - 1]), h[|h| - 1]);
    }
  }

  /** A complete genuine part passes verification. */
  lemma GenuineVerifies(d: Disk, b: Bundle)
    requires Consistent(b) && GenuinePrefix(d) && d.sidecar == Some(Written(MetaOf(b)))
    requires d.part.Some? && |d.part.value| == b.size
    ensures Verified(Values(d.part.value), b)
  {
    hide Start;
    assert b.sha256.content[..b.size] == b.sha256.content;
  }

  /** A final file is the one there at the start, or a part that had just verified for the bundle
      under which it was published, every byte of it delivered for that bundle. */
  lemma {:induction false} FinalComesFromVerifiedPart(d: Disk, h: seq<Entry>) returns (k: nat)
    requires OneBundle(d) && Legal(d, h)
    requires After(d, h).final.Some? && After(d, h).final != d.final
    ensures k < |h| && h[k].change == Publish && Legal(d, h[..k])
    ensures var before := After(d, h[..k]);
            && before.part == After(d, h).final
            && Verified(Values(before.part.value), h[k].bundle)
            && (forall c :: c in before.part.value ==> c.origin == MetaOf(h[k].bundle))
  {
    var n := |h| - 1;
    var init := h[..n];
    var before := After(d, init);
    if h[n].change == Publish {
      k := n;
      PartNeverMixesBundles(d, h, n);
    } else {
      hide Start, Verified, FirstBad;
      assert before.final == After(d, h).final;
      k := FinalComesFromVerifiedPart(d, init);
      assert init[..k] == h[..k];
    }
  }

  /** A final file that was published is good for a bundle exactly when it was published for a bundle
      of the same digest and size: the job accepts an existing final file without verifying it, so a
      release that reuses an older bundle's file name meets the older file. */
  lemma FinalServes(d: Disk, h: seq<Entry>, b: Bundle) returns (k: nat)
    requires OneBundle(d) && Legal(d, h)
    requires After(d, h).final.Some? && After(d, h).final != d.final
    ensures k < |h| && h[k].change == Publish
    ensures Verified(Values(After(d, h).final.value), b) <==> MetaOf(h[k].bundle) == MetaOf(b)
  {
    k := FinalComesFromVerifiedPart(d, h);
  }

  const NOTHING: Disk := Disk(None, None, None)

  /** The changes of one download of the whole bundle in one response, and its publication. */
  function DownloadOf(b: Bundle): seq<Entry> {
    [Entry(b, TearSidecar), Entry(b, WriteSidecar), Entry(b, StartOver), Entry(b, Append(b.sha256.content)),
     Entry(b, Publish), Entry(b, DropSidecar)]
  }

  /** Any bundle can be met by such a file: an honest download of an older one, from nothing on, leaves a
      final file that is good for the newer one only if both have the same digest and size. */
  lemma OlderFileMeets(older: Bundle, newer: Bundle)
    requires Consistent(older)
    ensures Legal(NOTHING, DownloadOf(older)) && HonestHistory(NOTHING, DownloadOf(older))
    ensures After(NOTHING, DownloadOf(older)) == Disk(Some(Delivered(older.sha256.content, older)), None, None)
    ensures Verified(Values(Delivered(older.sha256.content, older)), newer) <==> MetaOf(older) == MetaOf(newer)
  {
    var content, name := older.sha256.content, Some(Written(MetaOf(older)));
    var file := Delivered(content, older);
    var h := DownloadOf(older);
    assert [] + file == file && content[0..|content|] == content && |content| == older.size;
    assert h[..0] == [] && [] + [h[0]] == h[..1] && h[..1] + [h[1]] == h[..2] && h[..2] + [h[2]] == h[..3];
    assert h[..3] + [h[3]] == h[..4] && h[..4] + [h[4]] == h[..5] && h[..5] + [h[5]] == h;
    hide Legal, After, HonestHistory, FirstBad, Consistent, DownloadOf;
    EmptyHistory(NOTHING);
    Follow(NOTHING, [], h[0], Disk(None, None, Some(Torn)));
    Follow(NOTHING, h[..1], h[1], Disk(None, None, name));
    Follow(NOTHING, h[..2], h[2], Disk(None, Some([]), name));
    Follow(NOTHING, h[..3], h[3], Disk(None, Some(file), name));
    Follow(NOTHING, h[..4], h[4], Disk(Some(file), None, name));
    Follow(NOTHING, h[..5], h[5], Disk(Some(file), None, None));
  }

  lemma EmptyHistory(d: Disk)
    ensures Legal(d, []) && HonestHistory(d, []) && After(d, []) == d
  {
  }

  lemma Follow(d: Disk, h: seq<Entry>, e: Entry, next: Disk)
    requires Legal(d, h) && HonestHistory(d, h) && May(After(d, h), e) && HonestEntry(After(d, h), e)
    requires Make(After(d, h), e) == next
    ensures Legal(d, h + [e]) && HonestHistory(d, h + [e]) && After(d, h + [e]) == next
  {
    assert (h + [e])[..|h|] == h;
    hide May, Make, HonestEntry;
  }
}
