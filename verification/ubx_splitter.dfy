/**
 The byte-level splitter of `gps_node.py`: one serial stream carries NMEA 0183 sentences
 and UBX frames, and the read loop separates them.

 The serial port delivers the stream in order; how many bytes each read yields, of the loop
 and inside the frame parser, is a parameter of the run.
 */
module UbxSplitter {
  import opened UbxFrame

  const DOLLAR: Byte := 0x24
  const NEWLINE: Byte := 0x0A

  /** What the loop hands on: a checked UBX message, or the bytes of a sentence. */
  datatype Item =
    | Ubx(cls: Byte, id: Byte, payload: seq<Byte>)
    | Nmea(text: seq<Byte>)

  function Min(a: nat, b: nat): nat {
    if a <= b then a else b
  }

  // ---------- What the loop computes ----------

  /** The port: what it has still to deliver, and how many bytes each read of the frame parser
      yields at most, in order. A parser read past the end of that list yields all it asks for. */
  datatype Port = Port(pending: seq<Byte>, limits: seq<nat>)

  function Yielded(limits: seq<nat>, asked: nat): nat {
    if limits == [] then asked else Min(limits[0], asked)
  }

  function LaterLimits(limits: seq<nat>): seq<nat> {
    if limits == [] then [] else limits[1..]
  }

  /** The parser on `tail`: its verdict, and the port after its one read, if it makes one. */
  function Parse(tail: seq<Byte>, port: Port): (r: (Parsed, Port))
    ensures r.0.Good? ==> r.0.total >= 8
    ensures |r.1.pending| <= |port.pending|
  {
    var asked := Missing(tail);
    if asked == 0 then (Judge(tail), port)
    else
      var n := Min(Yielded(port.limits, asked), |port.pending|);
      (Judge(tail + port.pending[..n]), Port(port.pending[n..], LaterLimits(port.limits)))
  }

  predicate FrameStart(chunk: seq<Byte>, nmea: seq<Byte>) {
    nmea == [] && |chunk| >= 2 && chunk[0] == SYNC_1 && chunk[1] == SYNC_2
  }

  datatype Scanned = Scanned(nmea: seq<Byte>, port: Port, items: seq<Item>)

  function Prepend(item: Item, s: Scanned): Scanned {
    s.(items := [item] + s.items)
  }

  /** The inner loop on the rest of a chunk. */
  function Scan(chunk: seq<Byte>, nmea: seq<Byte>, port: Port): Scanned
    decreases |chunk|
  {
    if chunk == [] then Scanned(nmea, port, [])
    else if FrameStart(chunk, nmea) then
      var (parsed, left) := Parse(chunk, port);
      match parsed
      case NoFrame => Scan(chunk[1..], nmea, left)
      case BadChecksum => Scan(chunk[1..], nmea, left)
      case Good(total, cls, id, payload) =>
        Prepend(Ubx(cls, id, payload), Scan(chunk[Min(total, |chunk|)..], nmea, left))
    else if chunk[0] == DOLLAR || nmea != [] then
      if chunk[0] == NEWLINE then Prepend(Nmea(nmea + [chunk[0]]), Scan(chunk[1..], [], port))
      else Scan(chunk[1..], nmea + [chunk[0]], port)
    else Scan(chunk[1..], nmea, port)
  }

  /** The items found so far, then those of `s`. */
  function Resume(items: seq<Item>, s: Scanned): Scanned {
    s.(items := items + s.items)
  }

  /** One round of the inner loop. */
  lemma ScanStep(chunk: seq<Byte>, nmea: seq<Byte>, port: Port)
    requires chunk != []
    ensures FrameStart(chunk, nmea) ==>
              var (parsed, left) := Parse(chunk, port);
              (match parsed
               case Good(total, cls, id, payload) =>
                 forall items :: Resume(items, Scan(chunk, nmea, port))
                                 == Resume(items + [Ubx(cls, id, payload)],
                                           Scan(chunk[Min(total, |chunk|)..], nmea, left))
               case _ => Scan(chunk, nmea, port) == Scan(chunk[1..], nmea, left))
    ensures !FrameStart(chunk, nmea) ==>
              if chunk[0] != DOLLAR && nmea == [] then Scan(chunk, nmea, port) == Scan(chunk[1..], nmea, port)
              else if chunk[0] != NEWLINE then Scan(chunk, nmea, port) == Scan(chunk[1..], nmea + [chunk[0]], port)
              else forall items :: Resume(items, Scan(chunk, nmea, port))
                                   == Resume(items + [Nmea(nmea + [chunk[0]])], Scan(chunk[1..], [], port))
  {
    hide Parse;
    forall items: seq<Item>, item, more: seq<Item>
      ensures items + ([item] + more) == items + [item] + more
    {
    }
  }

  lemma ScanEnds(nmea: seq<Byte>, port: Port)
    ensures Scan([], nmea, port) == Scanned(nmea, port, [])
  {
  }

  /** The outer loop: `sizes` are the lengths of the successive reads. It gives up after more
      than 100 empty reads in a row. */
  function Split(sizes: seq<nat>, empties: nat, nmea: seq<Byte>, port: Port): Scanned {
    if sizes == [] then Scanned(nmea, port, [])
    else
      var n := Min(Min(sizes[0], 512), |port.pending|);
      if n == 0 then
        if empties + 1 > 100 then Scanned(nmea, port, []) else Split(sizes[1..], empties + 1, nmea, port)
      else
        var s := Scan(port.pending[..n], nmea, port.(pending := port.pending[n..]));
        var t := Split(sizes[1..], 0, s.nmea, s.port);
        t.(items := s.items + t.items)
  }

  // ---------- The loops themselves ----------

  class Receiver {
    var pending: seq<Byte>     // what the port has still to deliver
    var limits: seq<nat>       // what the parser's reads yield at most

    ghost function View(): Port reads this {
      Port(pending, limits)
    }

    constructor (stream: seq<Byte>, limit: seq<nat>)
      ensures View() == Port(stream, limit)
    {
      pending, limits := stream, limit;
    }

    /** `self._ser.read(n)`, yielding at most `limit` bytes. */
    method Read(n: nat, limit: nat) returns (data: seq<Byte>)
      modifies this`pending
      ensures data == old(pending)[..Min(Min(limit, n), |old(pending)|)]
      ensures data + pending == old(pending)
    {
      var k := Min(Min(limit, n), |pending|);
      data := pending[..k];
      pending := pending[k..];
    }

    /** `_parse_ubx_frame`. */
    method ParseUbxFrame(tail: seq<Byte>) returns (r: Parsed)
      modifies this
      ensures (r, View()) == Parse(tail, old(View()))
    {
      var buf := tail;
      if |buf| < 8 || buf[0] != SYNC_1 || buf[1] != SYNC_2 { return NoFrame; }
      var n := LengthField(buf);
      var total := 6 + n + 2;
      if |buf| < total {
        var asked := total - |buf|;
        var extra := Read(asked, Yielded(limits, asked));
        limits := LaterLimits(limits);
        buf := buf + extra;
        assert buf == tail + old(pending)[..Min(Yielded(old(limits), asked), |old(pending)|)];
        assert LengthField(buf) == n;
      }
      if |buf| < total { return NoFrame; }
      var a, b := UbxCksum(buf[2..6 + n]);
      if a != buf[6 + n] || b != buf[7 + n] { return BadChecksum; }
      return Good(total, buf[2], buf[3], buf[6..6 + n]);
    }

    /** `while i < len(chunk)`. */
    method ProcessChunk(chunk: seq<Byte>, nmea: seq<Byte>) returns (held: seq<Byte>, items: seq<Item>)
      modifies this
      ensures Scanned(held, View(), items) == Scan(chunk, nmea, old(View()))
    {
      hide Parse, Judge, Missing, Scan;
      held, items := nmea, [];
      var i := 0;
      ghost var goal := Scan(chunk, nmea, View());
      assert chunk[0..] == chunk;
      while i < |chunk|
        invariant i <= |chunk|
        invariant goal == Resume(items, Scan(chunk[i..], held, View()))
        decreases |chunk| - i
      {
        var b := chunk[i];
        ScanStep(chunk[i..], held, View());
        if held == [] && b == SYNC_1 && i + 1 < |chunk| && chunk[i + 1] == SYNC_2 {
          var r := ParseUbxFrame(chunk[i..]);
          match r {
            case Good(total, cls, id, payload) =>
              assert chunk[i..][Min(total, |chunk[i..]|)..] == chunk[Min(i + total, |chunk|)..];
              items := items + [Ubx(cls, id, payload)];
              i := Min(i + total, |chunk|);
            case BadChecksum =>
              assert chunk[i..][1..] == chunk[i + 1..];
              i := i + 1;
            case NoFrame =>
              assert chunk[i..][1..] == chunk[i + 1..];
              i := i + 1;
          }
        } else {
          assert chunk[i..][1..] == chunk[i + 1..];
          if b == DOLLAR || held != [] {
            held := held + [b];
            if b == NEWLINE {
              items := items + [Nmea(held)];
              held := [];
            }
          }
          i := i + 1;
        }
      }
      assert chunk[i..] == [] && items + [] == items;
      ScanEnds(held, View());
    }

    /** `_read_loop`. */
    method ReadLoop(sizes: seq<nat>) returns (items: seq<Item>, nmea: seq<Byte>)
      modifies this
      ensures Scanned(nmea, View(), items) == Split(sizes, 0, [], old(View()))
    {
      hide Split, Scan;
      items, nmea := [], [];
      var empties := 0;
      var k := 0;
      ghost var goal := Split(sizes, 0, [], View());
      assert sizes[0..] == sizes;
      while k < |sizes|
        invariant k <= |sizes|
        invariant goal == Resume(items, Split(sizes[k..], empties, nmea, View()))
      {
        ghost var before := View();
        assert sizes[k..][1..] == sizes[k + 1..];
        SplitStep(sizes[k..], empties, nmea, before, items);
        var chunk := Read(512, sizes[k]);
        k := k + 1;
        if chunk == [] {
          assert View() == before;
          empties := empties + 1;
          if empties > 100 { return; }
        } else {
          assert View() == before.(pending := before.pending[|chunk|..]);
          empties := 0;
          var found;
          nmea, found := ProcessChunk(chunk, nmea);
          items := items + found;
        }
      }
      assert sizes[k..] == [];
      SplitStops(empties, nmea, View());
      assert items + [] == items;
    }
  }

  lemma SplitStops(empties: nat, nmea: seq<Byte>, port: Port)
    ensures Split([], empties, nmea, port) == Scanned(nmea, port, [])
  {
  }

  /** One round of the outer loop. */
  lemma SplitStep(sizes: seq<nat>, empties: nat, nmea: seq<Byte>, port: Port, items: seq<Item>)
    requires sizes != []
    ensures var n := Min(Min(sizes[0], 512), |port.pending|);
            Resume(items, Split(sizes, empties, nmea, port))
            == if n == 0 then
                 if empties + 1 > 100 then Scanned(nmea, port, items)
                 else Resume(items, Split(sizes[1..], empties + 1, nmea, port))
               else
                 var s := Scan(port.pending[..n], nmea, port.(pending := port.pending[n..]));
                 Resume(items + s.items, Split(sizes[1..], 0, s.nmea, s.port))
  {
    hide Scan;
    var n := Min(Min(sizes[0], 512), |port.pending|);
    assert items + [] == items;
    if n > 0 {
      var s := Scan(port.pending[..n], nmea, port.(pending := port.pending[n..]));
      var t := Split(sizes[1..], 0, s.nmea, s.port);
      assert items + (s.items + t.items) == (items + s.items) + t.items;
    }
  }

  // ---------- What the loop is for ----------

  predicate Sentence(text: seq<Byte>) {
    && |text| >= 2 && text[0] == DOLLAR && text[|text| - 1] == NEWLINE
    && forall k :: 0 <= k < |text| - 1 ==> text[k] != NEWLINE
  }

  /** A message the receiver can send: a sentence, or a frame whose length fits its field. */
  predicate Sendable(item: Item) {
    match item
    case Ubx(_, _, payload) => |payload| < 65536
    case Nmea(text) => Sentence(text)
  }

  function Bytes(item: Item): (b: seq<Byte>)
    ensures Sendable(item) ==> |b| >= 2
  {
    match item
    case Ubx(cls, id, payload) => Frame(cls, id, payload)
    case Nmea(text) => text
  }

  function Stream(items: seq<Item>): seq<Byte> {
    if items == [] then [] else Bytes(items[0]) + Stream(items[1..])
  }

  /** A read that ends `cut` bytes into the stream of `items` does not end inside the first
      eight bytes of a frame. */
  predicate CutAllowed(items: seq<Item>, cut: nat) {
    if items == [] then true
    else if cut >= |Bytes(items[0])| then CutAllowed(items[1..], cut - |Bytes(items[0])|)
    else items[0].Ubx? ==> cut == 0 || cut >= 8
  }

  /** Where the loop stands after such a read: the messages still to come, and how many bytes
      of the first one it holds. A frame it has begun, it finishes. */
  function AfterCut(items: seq<Item>, cut: nat): (r: (seq<Item>, nat)) {
    if items == [] then ([], 0)
    else if cut >= |Bytes(items[0])| then AfterCut(items[1..], cut - |Bytes(items[0])|)
    else if items[0].Ubx? && cut > 0 then (items[1..], 0)
    else (items, cut)
  }

  /** How many bytes the parser asks the port for after such a read: the rest of the frame it
      ended in, if it ended in one. */
  function AskedAfterCut(items: seq<Item>, cut: nat): nat {
    if items == [] then 0
    else if cut >= |Bytes(items[0])| then AskedAfterCut(items[1..], cut - |Bytes(items[0])|)
    else if items[0].Ubx? && cut > 0 then |Bytes(items[0])| - cut
    else 0
  }

  /** The parser's read, if it makes one, yields all it asks for. */
  predicate ReadsWhole(asked: nat, limits: seq<nat>) {
    asked == 0 || Yielded(limits, asked) == asked
  }

  function LimitsAfter(asked: nat, limits: seq<nat>): seq<nat> {
    if asked == 0 then limits else LaterLimits(limits)
  }

  /** No read of the run ends inside the first eight bytes of a frame, and each parser read is
      complete; `held` bytes of the first message have been taken already. */
  predicate Chunking(items: seq<Item>, held: nat, sizes: seq<nat>, limits: seq<nat>, empties: nat)
    decreases |sizes|
  {
    sizes == [] || held > |Stream(items)| ||
    var n := Min(Min(sizes[0], 512), |Stream(items)| - held);
    if n == 0 then empties + 1 > 100 || Chunking(items, held, sizes[1..], limits, empties + 1)
    else
      var asked, after := AskedAfterCut(items, held + n), AfterCut(items, held + n);
      CutAllowed(items, held + n) && ReadsWhole(asked, limits)
      && Chunking(after.0, after.1, sizes[1..], LimitsAfter(asked, limits), 0)
  }

  predicate AllSendable(items: seq<Item>) {
    forall k :: 0 <= k < |items| ==> Sendable(items[k])
  }

  /** The loop holds `nmea` out of the first message and the rest of the stream is ahead. */
  predicate InStep(items: seq<Item>, nmea: seq<Byte>, ahead: seq<Byte>) {
    && AllSendable(items)
    && nmea + ahead == Stream(items)
    && (nmea != [] ==> items != [] && items[0].Nmea? && |nmea| < |items[0].text|)
  }

  /** On a stream that starts with a frame, and a chunk that shows at least its first eight
      bytes, the parser returns the frame and takes exactly its bytes, if its read is complete. */
  lemma ParseTakesFrame(cls: Byte, id: Byte, payload: seq<Byte>, chunk: seq<Byte>, port: Port, more: seq<Byte>)
    requires |payload| < 65536 && |chunk| >= 8
    requires chunk + port.pending == Frame(cls, id, payload) + more
    requires |chunk| < |payload| + 8 ==> ReadsWhole(|payload| + 8 - |chunk|, port.limits)
    ensures FrameStart(chunk, [])
    ensures var total := |payload| + 8;
            var (parsed, left) := Parse(chunk, port);
            && parsed == Good(total, cls, id, payload)
            && chunk[Min(total, |chunk|)..] + left.pending == more
            && left.limits == LimitsAfter(if |chunk| < total then total - |chunk| else 0, port.limits)
  {
    hide Checksum;
    var frame, pending := Frame(cls, id, payload), port.pending;
    var total := |payload| + 8;
    FrameInView(cls, id, payload, chunk, pending, more);
    if |chunk| >= total {
      assert chunk[..total] == (chunk + pending)[..total] == frame;
      assert chunk == frame + chunk[total..];
      FrameRoundTrip(cls, id, payload, chunk[total..]);
      assert more == (chunk + pending)[total..] == chunk[total..] + pending;
    } else {
      var n := total - |chunk|;
      assert |chunk + pending| == |frame + more|;
      assert chunk + pending[..n] == (chunk + pending)[..total] == frame;
      assert frame + [] == frame;
      FrameRoundTrip(cls, id, payload, []);
      assert more == (chunk + pending)[total..] == pending[n..];
    }
  }

  /** The first eight bytes of a frame show its start and its length. */
  lemma FrameInView(cls: Byte, id: Byte, payload: seq<Byte>, chunk: seq<Byte>, pending: seq<Byte>, more: seq<Byte>)
    requires |payload| < 65536 && |chunk| >= 8
    requires chunk + pending == Frame(cls, id, payload) + more
    ensures chunk[0] == SYNC_1 && chunk[1] == SYNC_2 && LengthField(chunk) == |payload|
    ensures Missing(chunk) == if |chunk| >= |payload| + 8 then 0 else |payload| + 8 - |chunk|
  {
    hide Checksum;
    var all := Frame(cls, id, payload) + more;
    assert forall k :: 0 <= k < 8 ==> chunk[k] == all[k];
    LengthRoundTrip(|payload|);
    assert all[4] == Low(|payload|) && all[5] == High(|payload|);
  }

  /** Two ways to cut one sequence, the first cut earlier. */
  lemma FirstOf(a: seq<Byte>, b: Byte, c: seq<Byte>, t: seq<Byte>, u: seq<Byte>)
    requires a + ([b] + c) == t + u && |a| < |t|
    ensures a == t[..|a|] && b == t[|a|]
    ensures (a + [b]) + c == t + u && a + [b] == t[..|a| + 1]
    ensures |a| + 1 == |t| ==> a + [b] == t && c == u
  {
    var all, k := t + u, |a|;
    assert (a + [b]) + c == all;
    assert all[..k] == a && all[..k] == t[..k] && all[k] == b;
    if k + 1 == |t| { assert c == all[k + 1..] == u; }
  }

  /** One more byte of a sentence keeps the loop in step. */
  lemma SentenceByte(items: seq<Item>, nmea: seq<Byte>, chunk: seq<Byte>, pending: seq<Byte>)
    requires InStep(items, nmea, chunk + pending) && chunk != [] && items != [] && items[0].Nmea?
    ensures Sentence(items[0].text) && |nmea| < |items[0].text|
    ensures chunk[0] == items[0].text[|nmea|] && nmea == items[0].text[..|nmea|]
    ensures if chunk[0] == NEWLINE
            then nmea + [chunk[0]] == items[0].text && InStep(items[1..], [], chunk[1..] + pending)
            else InStep(items, nmea + [chunk[0]], chunk[1..] + pending)
  {
    var text, b, rest := items[0].text, chunk[0], chunk[1..] + pending;
    assert Sendable(items[0]);
    assert chunk + pending == [b] + rest;
    assert nmea == [] ==> |nmea| < |text|;
    FirstOf(nmea, b, rest, text, Stream(items[1..]));
    SentenceGoesOn(items, nmea, b, rest);
  }

  lemma SentenceGoesOn(items: seq<Item>, nmea: seq<Byte>, b: Byte, rest: seq<Byte>)
    requires AllSendable(items) && items != [] && items[0].Nmea? && |nmea| < |items[0].text|
    requires b == items[0].text[|nmea|] && (nmea + [b]) + rest == Stream(items)
    requires |nmea| + 1 == |items[0].text| ==> rest == Stream(items[1..])
    ensures if b == NEWLINE then |nmea| + 1 == |items[0].text| && InStep(items[1..], [], rest)
            else InStep(items, nmea + [b], rest)
  {
    assert Sendable(items[0]);
    assert [] + rest == rest;
    hide Stream;
  }

  /** What a scan of `chunk` must leave behind. */
  ghost predicate SplitsOff(items: seq<Item>, cut: nat, limits: seq<nat>, s: Scanned) {
    var (rest, held) := AfterCut(items, cut);
    && items == s.items + rest && InStep(rest, s.nmea, s.port.pending) && |s.nmea| == held
    && s.port.limits == LimitsAfter(AskedAfterCut(items, cut), limits)
  }

  /** The chunk ends where it may, and the parser's read, if the chunk's last frame needs one, is complete. */
  predicate WholeRead(items: seq<Item>, cut: nat, limits: seq<nat>) {
    CutAllowed(items, cut) && ReadsWhole(AskedAfterCut(items, cut), limits)
  }

  /** A message that lies within the chunk decides nothing: the rest does. */
  lemma CutMovesOn(items: seq<Item>, cut: nat)
    requires items != [] && cut >= |Bytes(items[0])|
    ensures CutAllowed(items, cut) == CutAllowed(items[1..], cut - |Bytes(items[0])|)
    ensures AfterCut(items, cut) == AfterCut(items[1..], cut - |Bytes(items[0])|)
    ensures AskedAfterCut(items, cut) == AskedAfterCut(items[1..], cut - |Bytes(items[0])|)
  {
  }

  lemma SplitsOffFirst(items: seq<Item>, cut: nat, limits: seq<nat>, s: Scanned)
    requires items != [] && cut >= |Bytes(items[0])| && SplitsOff(items[1..], cut - |Bytes(items[0])|, limits, s)
    ensures SplitsOff(items, cut, limits, Prepend(items[0], s))
  {
    CutMovesOn(items, cut);
    hide InStep, Bytes, AfterCut, AskedAfterCut;
    assert items == [items[0]] + items[1..];
  }

  /** The inner loop on one chunk splits off exactly the messages that the chunk completes. */
  lemma {:induction false} ScanSplits(items: seq<Item>, nmea: seq<Byte>, chunk: seq<Byte>, port: Port)
    requires InStep(items, nmea, chunk + port.pending) && WholeRead(items, |nmea| + |chunk|, port.limits)
    ensures SplitsOff(items, |nmea| + |chunk|, port.limits, Scan(chunk, nmea, port))
    decreases |chunk|, 1
  {
    if chunk == [] {
      NothingScanned(items, nmea, port);
    } else if items[0].Ubx? {
      ScanFrame(items, chunk, port);
    } else {
      ScanSentence(items, nmea, chunk, port);
    }
  }

  lemma NothingScanned(items: seq<Item>, nmea: seq<Byte>, port: Port)
    requires InStep(items, nmea, [] + port.pending)
    ensures SplitsOff(items, |nmea|, port.limits, Scan([], nmea, port))
  {
    assert [] + port.pending == port.pending;
    if items != [] { assert Sendable(items[0]); }
  }

  lemma {:induction false} ScanFrame(items: seq<Item>, chunk: seq<Byte>, port: Port)
    requires items != [] && items[0].Ubx? && chunk != []
    requires InStep(items, [], chunk + port.pending) && WholeRead(items, |chunk|, port.limits)
    ensures SplitsOff(items, |chunk|, port.limits, Scan(chunk, [], port))
    decreases |chunk|, 0
  {
    var Ubx(cls, id, payload) := items[0];
    var total := |payload| + 8;
    FrameAhead(items, chunk + port.pending);
    if |chunk| >= total {
      CutMovesOn(items, |chunk|);
    } else {
      assert AskedAfterCut(items, |chunk|) == total - |chunk|;
    }
    ParseTakesFrame(cls, id, payload, chunk, port, Stream(items[1..]));
    var left := Parse(chunk, port).1;
    var after := chunk[Min(total, |chunk|)..];
    ScanTakes(chunk, port);
    hide Parse, Frame, Bytes, Sentence, SplitsOff, Scan, CutAllowed, AskedAfterCut;
    if |chunk| >= total {
      assert |Bytes(items[0])| == total;
      assert InStep(items[1..], [], after + left.pending) by {
        assert [] + (after + left.pending) == after + left.pending;
      }
      ScanSplits(items[1..], [], after, left);
      SplitsOffFirst(items, |chunk|, port.limits, Scan(after, [], left));
    } else {
      assert after == [] && [] + left.pending == left.pending;
      ScanEnds([], left);
      FrameCutLate(items, |chunk|, port.limits, left);
    }
  }

  /** What being in step means when a frame comes next. */
  lemma FrameAhead(items: seq<Item>, ahead: seq<Byte>)
    requires items != [] && items[0].Ubx? && InStep(items, [], ahead)
    ensures |items[0].payload| < 65536 && |Bytes(items[0])| == |items[0].payload| + 8
    ensures ahead == Frame(items[0].cls, items[0].id, items[0].payload) + Stream(items[1..])
    ensures AllSendable(items[1..])
  {
    assert Sendable(items[0]);
    assert [] + ahead == ahead;
  }

  /** One round of the inner loop that takes a whole frame. */
  lemma ScanTakes(chunk: seq<Byte>, port: Port)
    requires chunk != [] && FrameStart(chunk, []) && Parse(chunk, port).0.Good?
    ensures var (parsed, left) := Parse(chunk, port);
            Scan(chunk, [], port)
            == Prepend(Ubx(parsed.cls, parsed.id, parsed.payload), Scan(chunk[Min(parsed.total, |chunk|)..], [], left))
  {
    hide Parse;
  }

  /** A frame cut after its eighth byte is finished from the port. */
  lemma FrameCutLate(items: seq<Item>, cut: nat, limits: seq<nat>, left: Port)
    requires items != [] && items[0].Ubx? && 0 < cut < |Bytes(items[0])|
    requires AllSendable(items[1..]) && left.pending == Stream(items[1..])
    requires left.limits == LimitsAfter(|Bytes(items[0])| - cut, limits)
    ensures SplitsOff(items, cut, limits, Scanned([], left, [items[0]]))
  {
    assert items == [items[0]] + items[1..];
    assert [] + left.pending == left.pending;
  }

  lemma {:induction false} ScanSentence(items: seq<Item>, nmea: seq<Byte>, chunk: seq<Byte>, port: Port)
    requires items != [] && items[0].Nmea? && chunk != []
    requires InStep(items, nmea, chunk + port.pending) && WholeRead(items, |nmea| + |chunk|, port.limits)
    ensures SplitsOff(items, |nmea| + |chunk|, port.limits, Scan(chunk, nmea, port))
    decreases |chunk|, 0
  {
    SentenceRound(items, nmea, chunk, port);
    hide Scan, SplitsOff, InStep, WholeRead, Sendable, Bytes, Sentence;
    if chunk[0] == NEWLINE {
      WholeMovesOn(items, |nmea| + |chunk|, port.limits);
      ScanSplits(items[1..], [], chunk[1..], port);
      SplitsOffFirst(items, |nmea| + |chunk|, port.limits, Scan(chunk[1..], [], port));
    } else {
      ScanSplits(items, nmea + [chunk[0]], chunk[1..], port);
    }
  }

  /** One round of the inner loop inside a sentence. */
  lemma SentenceRound(items: seq<Item>, nmea: seq<Byte>, chunk: seq<Byte>, port: Port)
    requires items != [] && items[0].Nmea? && chunk != []
    requires InStep(items, nmea, chunk + port.pending)
    ensures if chunk[0] == NEWLINE
            then Scan(chunk, nmea, port) == Prepend(items[0], Scan(chunk[1..], [], port))
                 && InStep(items[1..], [], chunk[1..] + port.pending) && |Bytes(items[0])| == |nmea| + 1
            else Scan(chunk, nmea, port) == Scan(chunk[1..], nmea + [chunk[0]], port)
                 && InStep(items, nmea + [chunk[0]], chunk[1..] + port.pending)
  {
    SentenceScan(items, nmea, chunk, port);
    SentenceByte(items, nmea, chunk, port.pending);
    hide InStep, Scan, Bytes, WholeRead, Sentence;
    if chunk[0] == NEWLINE {
      SentenceSize(items[0], nmea, chunk[0]);
    }
  }

  lemma SentenceSize(item: Item, nmea: seq<Byte>, b: Byte)
    requires item.Nmea? && nmea + [b] == item.text
    ensures |Bytes(item)| == |nmea| + 1
  {
  }

  lemma WholeMovesOn(items: seq<Item>, cut: nat, limits: seq<nat>)
    requires items != [] && cut >= |Bytes(items[0])|
    ensures WholeRead(items, cut, limits) == WholeRead(items[1..], cut - |Bytes(items[0])|, limits)
  {
    CutMovesOn(items, cut);
    hide CutAllowed, AskedAfterCut, Bytes;
  }

  lemma SentenceScan(items: seq<Item>, nmea: seq<Byte>, chunk: seq<Byte>, port: Port)
    requires items != [] && items[0].Nmea? && chunk != []
    requires InStep(items, nmea, chunk + port.pending)
    ensures Scan(chunk, nmea, port)
            == if chunk[0] == NEWLINE then Prepend(items[0], Scan(chunk[1..], [], port))
               else Scan(chunk[1..], nmea + [chunk[0]], port)
  {
    SentenceByte(items, nmea, chunk, port.pending);
    assert nmea == [] ==> chunk[0] == DOLLAR;
    hide InStep, Parse, Stream, Sentence;
  }

  /** The outer loop over any allowed chunking: what it returns, then what it still holds and
      has ahead of it, is exactly what was sent. */
  lemma {:induction false} SplitFollows(items: seq<Item>, sizes: seq<nat>, empties: nat, nmea: seq<Byte>, port: Port)
    returns (rest: seq<Item>)
    requires InStep(items, nmea, port.pending) && Chunking(items, |nmea|, sizes, port.limits, empties)
    ensures var t := Split(sizes, empties, nmea, port); items == t.items + rest && InStep(rest, t.nmea, t.port.pending)
    decreases |sizes|
  {
    hide InStep, CutAllowed, AfterCut, AskedAfterCut, Stream, Scan, Chunking, Split;
    rest := items;
    if sizes == [] {
      SplitStops(empties, nmea, port);
    } else {
      InStepLength(items, nmea, port.pending);
      ChunkingStep(items, |nmea|, sizes, port.limits, empties);
      SplitStep(sizes, empties, nmea, port, []);
      NothingBefore(Split(sizes, empties, nmea, port));
      var n := Min(Min(sizes[0], 512), |port.pending|);
      if n > 0 {
        var ahead := port.(pending := port.pending[n..]);
        assert port.pending[..n] + ahead.pending == port.pending;
        ScanSplits(items, nmea, port.pending[..n], ahead);
        var s := Scan(port.pending[..n], nmea, ahead);
        rest := SplitFollows(AfterCut(items, |nmea| + n).0, sizes[1..], 0, s.nmea, s.port);
        assert [] + s.items == s.items;
        assert items == (s.items + Split(sizes[1..], 0, s.nmea, s.port).items) + rest;
      } else if empties + 1 <= 100 {
        rest := SplitFollows(items, sizes[1..], empties + 1, nmea, port);
        NothingBefore(Split(sizes[1..], empties + 1, nmea, port));
      }
    }
  }

  lemma NothingBefore(s: Scanned)
    ensures Resume([], s) == s
  {
  }

  lemma InStepLength(items: seq<Item>, nmea: seq<Byte>, ahead: seq<Byte>)
    requires InStep(items, nmea, ahead)
    ensures |Stream(items)| == |nmea| + |ahead|
  {
    assert |nmea + ahead| == |nmea| + |ahead|;
  }

  /** One round of the condition on a chunking. */
  lemma ChunkingStep(items: seq<Item>, held: nat, sizes: seq<nat>, limits: seq<nat>, empties: nat)
    requires sizes != [] && held <= |Stream(items)|
    ensures var n := Min(Min(sizes[0], 512), |Stream(items)| - held);
            Chunking(items, held, sizes, limits, empties)
            <==> if n == 0 then empties + 1 > 100 || Chunking(items, held, sizes[1..], limits, empties + 1)
                 else
                   WholeRead(items, held + n, limits)
                   && Chunking(AfterCut(items, held + n).0, AfterCut(items, held + n).1, sizes[1..],
                               LimitsAfter(AskedAfterCut(items, held + n), limits), 0)
  {
  }

  // ---------- Any other chunking loses bytes ----------

  /** The bytes of the messages handed on, of the sentence still held and of the stream still ahead. */
  function Accounted(s: Scanned): nat {
    |Stream(s.items)| + |s.nmea| + |s.port.pending|
  }

  lemma AccountedPrepend(item: Item, s: Scanned)
    ensures Accounted(Prepend(item, s)) == |Bytes(item)| + Accounted(s)
  {
    assert ([item] + s.items)[1..] == s.items;
  }

  lemma {:induction false} StreamAppend(a: seq<Item>, b: seq<Item>)
    ensures Stream(a + b) == Stream(a) + Stream(b)
  {
    hide Bytes;
    if a == [] {
      assert a + b == b;
    } else {
      assert (a + b)[1..] == a[1..] + b;
      StreamAppend(a[1..], b);
      assert Bytes(a[0]) + (Stream(a[1..]) + Stream(b)) == (Bytes(a[0]) + Stream(a[1..])) + Stream(b);
    }
  }

  lemma AccountedResume(items: seq<Item>, s: Scanned)
    ensures Accounted(Resume(items, s)) == |Stream(items)| + Accounted(s)
  {
    StreamAppend(items, s.items);
  }

  /** A frame the parser accepts takes from chunk and port exactly its own bytes. */
  lemma GoodTakesItsBytes(chunk: seq<Byte>, port: Port)
    requires Parse(chunk, port).0.Good?
    ensures var (r, left) := Parse(chunk, port);
            && |Bytes(Ubx(r.cls, r.id, r.payload))| == r.total
            && |chunk| + |port.pending| == r.total + |chunk[Min(r.total, |chunk|)..]| + |left.pending|
  {
    hide Checksum;
  }

  /** A scan hands on no more bytes than it takes. */
  lemma {:induction false} ScanAccounts(chunk: seq<Byte>, nmea: seq<Byte>, port: Port)
    ensures Accounted(Scan(chunk, nmea, port)) <= |nmea| + |chunk| + |port.pending|
    decreases |chunk|
  {
    hide Accounted, Parse, Bytes;
    if chunk == [] {
      ScanEnds(nmea, port);
      NothingAccounted(nmea, port);
    } else if FrameStart(chunk, nmea) {
      var (r, left) := Parse(chunk, port);
      if r.Good? {
        var after := chunk[Min(r.total, |chunk|)..];
        GoodTakesItsBytes(chunk, port);
        ScanAccounts(after, nmea, left);
        AccountedPrepend(Ubx(r.cls, r.id, r.payload), Scan(after, nmea, left));
      } else {
        ScanAccounts(chunk[1..], nmea, left);
      }
    } else if chunk[0] == DOLLAR || nmea != [] {
      if chunk[0] == NEWLINE {
        ScanAccounts(chunk[1..], [], port);
        AccountedPrepend(Nmea(nmea + [chunk[0]]), Scan(chunk[1..], [], port));
        assert |Bytes(Nmea(nmea + [chunk[0]]))| == |nmea| + 1 by { NmeaBytes(nmea + [chunk[0]]); }
      } else {
        ScanAccounts(chunk[1..], nmea + [chunk[0]], port);
      }
    } else {
      ScanAccounts(chunk[1..], nmea, port);
    }
  }

  lemma NmeaBytes(text: seq<Byte>)
    ensures |Bytes(Nmea(text))| == |text|
  {
  }

  lemma NothingAccounted(nmea: seq<Byte>, port: Port)
    ensures Accounted(Scanned(nmea, port, [])) == |nmea| + |port.pending|
  {
  }

  /** A chunk that ends inside the first eight bytes of a frame, or whose last frame is read short,
      loses at least a byte. */
  lemma {:induction false} ScanLoses(items: seq<Item>, nmea: seq<Byte>, chunk: seq<Byte>, port: Port)
    requires InStep(items, nmea, chunk + port.pending) && !WholeRead(items, |nmea| + |chunk|, port.limits)
    ensures Accounted(Scan(chunk, nmea, port)) < |nmea| + |chunk| + |port.pending|
    decreases |chunk|, 1
  {
    if chunk == [] {
      NothingCut(items, nmea, port.pending, port.limits);
    } else if items[0].Ubx? {
      FrameLoses(items, chunk, port);
    } else {
      SentenceRound(items, nmea, chunk, port);
      hide InStep, Accounted, Scan, Bytes, WholeRead;
      if chunk[0] == NEWLINE {
        WholeMovesOn(items, |nmea| + |chunk|, port.limits);
        ScanLoses(items[1..], [], chunk[1..], port);
        AccountedPrepend(items[0], Scan(chunk[1..], [], port));
      } else {
        ScanLoses(items, nmea + [chunk[0]], chunk[1..], port);
      }
    }
  }

  lemma {:induction false} FrameLoses(items: seq<Item>, chunk: seq<Byte>, port: Port)
    requires items != [] && items[0].Ubx? && chunk != []
    requires InStep(items, [], chunk + port.pending) && !WholeRead(items, |chunk|, port.limits)
    ensures Accounted(Scan(chunk, [], port)) < |chunk| + |port.pending|
    decreases |chunk|, 0
  {
    FrameAhead(items, chunk + port.pending);
    var total := |Bytes(items[0])|;
    if |chunk| >= total {
      FrameThenLoss(items, chunk, port);
      hide Parse, Accounted, Scan, InStep, Bytes, WholeRead, Frame;
      var left := Parse(chunk, port).1;
      ScanLoses(items[1..], [], chunk[total..], left);
      AccountedPrepend(items[0], Scan(chunk[total..], [], left));
    } else {
      BadCut(items, |chunk|, port.limits);
      CutFrameDropped(items, chunk, port);
    }
  }

  /** What is wrong with a cut inside the first message, a frame. */
  lemma BadCut(items: seq<Item>, cut: nat, limits: seq<nat>)
    requires items != [] && items[0].Ubx? && 0 < cut < |Bytes(items[0])| && !WholeRead(items, cut, limits)
    ensures cut < 8 || !ReadsWhole(|Bytes(items[0])| - cut, limits)
  {
  }

  lemma FrameThenLoss(items: seq<Item>, chunk: seq<Byte>, port: Port)
    requires items != [] && items[0].Ubx? && InStep(items, [], chunk + port.pending)
    requires |chunk| >= |Bytes(items[0])| && !WholeRead(items, |chunk|, port.limits)
    ensures var total := |Bytes(items[0])|;
            var left := Parse(chunk, port).1;
            && Scan(chunk, [], port) == Prepend(items[0], Scan(chunk[total..], [], left))
            && left == port && InStep(items[1..], [], chunk[total..] + left.pending)
            && !WholeRead(items[1..], |chunk| - total, left.limits)
  {
    var Ubx(cls, id, payload) := items[0];
    FrameAhead(items, chunk + port.pending);
    CutMovesOn(items, |chunk|);
    ParseTakesFrame(cls, id, payload, chunk, port, Stream(items[1..]));
    ScanTakes(chunk, port);
    var total := |payload| + 8;
    assert Parse(chunk, port).1 == port by {
      FrameInView(cls, id, payload, chunk, port.pending, Stream(items[1..]));
    }
    hide Parse, Scan, Bytes, CutAllowed, AskedAfterCut;
    assert [] + (chunk[total..] + port.pending) == chunk[total..] + port.pending;
  }

  lemma NothingCut(items: seq<Item>, nmea: seq<Byte>, pending: seq<Byte>, limits: seq<nat>)
    requires InStep(items, nmea, [] + pending)
    ensures WholeRead(items, |nmea|, limits)
  {
  }

  /** A frame that is cut too early, or not read to its end, is skipped byte by byte. */
  lemma CutFrameDropped(items: seq<Item>, chunk: seq<Byte>, port: Port)
    requires items != [] && items[0].Ubx? && InStep(items, [], chunk + port.pending)
    requires 0 < |chunk| < |Bytes(items[0])|
    requires |chunk| < 8 || !ReadsWhole(|Bytes(items[0])| - |chunk|, port.limits)
    ensures Accounted(Scan(chunk, [], port)) < |chunk| + |port.pending|
  {
    var Ubx(cls, id, payload) := items[0];
    FrameAhead(items, chunk + port.pending);
    var all := chunk + port.pending;
    assert all[0] == SYNC_1 && all[1] == SYNC_2 && chunk[0] == all[0];
    if |chunk| == 1 {
      ScanAccounts(chunk[1..], [], port);
    } else {
      assert chunk[1] == all[1];
      if |chunk| >= 8 {
        ShortRead(cls, id, payload, chunk, port, Stream(items[1..]));
      }
      assert Parse(chunk, port).0 == NoFrame;
      ScanAccounts(chunk[1..], [], Parse(chunk, port).1);
      hide Parse, Frame, Stream, Accounted;
    }
  }

  lemma ShortRead(cls: Byte, id: Byte, payload: seq<Byte>, chunk: seq<Byte>, port: Port, more: seq<Byte>)
    requires |payload| < 65536 && 8 <= |chunk| < |payload| + 8
    requires chunk + port.pending == Frame(cls, id, payload) + more
    requires !ReadsWhole(|payload| + 8 - |chunk|, port.limits)
    ensures Parse(chunk, port).0 == NoFrame
  {
    FrameInView(cls, id, payload, chunk, port.pending, more);
    hide Checksum, Frame;
    var n := Min(Yielded(port.limits, Missing(chunk)), |port.pending|);
    assert LengthField(chunk + port.pending[..n]) == LengthField(chunk);
  }

  /** What a run accounts for, by its first read. */
  lemma SplitAccountsStep(sizes: seq<nat>, empties: nat, nmea: seq<Byte>, port: Port)
    requires sizes != []
    ensures var n := Min(Min(sizes[0], 512), |port.pending|);
            if n == 0 then
              if empties + 1 > 100 then Accounted(Split(sizes, empties, nmea, port)) == |nmea| + |port.pending|
              else Split(sizes, empties, nmea, port) == Split(sizes[1..], empties + 1, nmea, port)
            else
              var s := Scan(port.pending[..n], nmea, port.(pending := port.pending[n..]));
              Accounted(Split(sizes, empties, nmea, port)) + |s.nmea| + |s.port.pending|
              == Accounted(s) + Accounted(Split(sizes[1..], 0, s.nmea, s.port))
  {
    hide Split, Scan, Accounted;
    SplitStep(sizes, empties, nmea, port, []);
    NothingBefore(Split(sizes, empties, nmea, port));
    NothingAccounted(nmea, port);
    var n := Min(Min(sizes[0], 512), |port.pending|);
    if n > 0 {
      var s := Scan(port.pending[..n], nmea, port.(pending := port.pending[n..]));
      Together(s, Split(sizes[1..], 0, s.nmea, s.port));
    } else {
      NothingBefore(Split(sizes[1..], empties + 1, nmea, port));
    }
  }

  /** What one chunk and the rest of the run account for together. */
  lemma Together(s: Scanned, t: Scanned)
    ensures Accounted(Resume([] + s.items, t)) + |s.nmea| + |s.port.pending| == Accounted(s) + Accounted(t)
  {
    assert [] + s.items == s.items;
    AccountedResume(s.items, t);
    hide Stream;
  }

  lemma {:induction false} SplitAccounts(sizes: seq<nat>, empties: nat, nmea: seq<Byte>, port: Port)
    ensures Accounted(Split(sizes, empties, nmea, port)) <= |nmea| + |port.pending|
    decreases |sizes|
  {
    hide Split, Scan, Accounted;
    if sizes == [] {
      SplitStops(empties, nmea, port);
      NothingAccounted(nmea, port);
    } else {
      var n := Min(Min(sizes[0], 512), |port.pending|);
      SplitAccountsStep(sizes, empties, nmea, port);
      if n > 0 {
        var ahead := port.(pending := port.pending[n..]);
        var s := Scan(port.pending[..n], nmea, ahead);
        ScanAccounts(port.pending[..n], nmea, ahead);
        SplitAccounts(sizes[1..], 0, s.nmea, s.port);
      } else if empties + 1 <= 100 {
        SplitAccounts(sizes[1..], empties + 1, nmea, port);
      }
    }
  }

  /** The first read of a run: it leaves the loop in step, or loses a byte. */
  lemma FirstRead(items: seq<Item>, n: nat, nmea: seq<Byte>, port: Port)
    requires InStep(items, nmea, port.pending) && n <= |port.pending|
    ensures var s := Scan(port.pending[..n], nmea, port.(pending := port.pending[n..]));
            if WholeRead(items, |nmea| + n, port.limits)
            then SplitsOff(items, |nmea| + n, port.limits, s) && Accounted(s) <= |nmea| + |port.pending|
            else Accounted(s) < |nmea| + |port.pending|
  {
    hide Scan, Accounted, InStep, WholeRead, SplitsOff;
    var ahead := port.(pending := port.pending[n..]);
    assert port.pending[..n] + ahead.pending == port.pending;
    if WholeRead(items, |nmea| + n, port.limits) {
      ScanSplits(items, nmea, port.pending[..n], ahead);
      ScanAccounts(port.pending[..n], nmea, ahead);
    } else {
      ScanLoses(items, nmea, port.pending[..n], ahead);
    }
  }

  /** A run that is no allowed chunking loses at least a byte. */
  lemma {:induction false} SplitLoses(items: seq<Item>, sizes: seq<nat>, empties: nat, nmea: seq<Byte>, port: Port)
    requires InStep(items, nmea, port.pending) && !Chunking(items, |nmea|, sizes, port.limits, empties)
    ensures Accounted(Split(sizes, empties, nmea, port)) < |nmea| + |port.pending|
    decreases |sizes|, 1
  {
    InStepLength(items, nmea, port.pending);
    assert sizes != [];
    ChunkingStep(items, |nmea|, sizes, port.limits, empties);
    hide Split, Scan, Accounted, InStep, Chunking, Stream, WholeRead, AfterCut, AskedAfterCut;
    var n := Min(Min(sizes[0], 512), |port.pending|);
    if n == 0 {
      SplitAccountsStep(sizes, empties, nmea, port);
      SplitLoses(items, sizes[1..], empties + 1, nmea, port);
    } else {
      ChunkLoses(items, sizes, empties, nmea, port, n);
    }
  }

  lemma {:induction false} ChunkLoses(items: seq<Item>, sizes: seq<nat>, empties: nat,
                                      nmea: seq<Byte>, port: Port, n: nat)
    requires sizes != [] && InStep(items, nmea, port.pending) && n == Min(Min(sizes[0], 512), |port.pending|) > 0
    requires WholeRead(items, |nmea| + n, port.limits) ==>
      !Chunking(AfterCut(items, |nmea| + n).0, AfterCut(items, |nmea| + n).1, sizes[1..],
                LimitsAfter(AskedAfterCut(items, |nmea| + n), port.limits), 0)
    ensures Accounted(Split(sizes, empties, nmea, port)) < |nmea| + |port.pending|
    decreases |sizes|, 0
  {
    SplitAccountsStep(sizes, empties, nmea, port);
    FirstRead(items, n, nmea, port);
    hide Split, Scan, Accounted, InStep, Chunking, WholeRead, AfterCut, AskedAfterCut, LimitsAfter;
    var s := Scan(port.pending[..n], nmea, port.(pending := port.pending[n..]));
    if WholeRead(items, |nmea| + n, port.limits) {
      SplitLoses(AfterCut(items, |nmea| + n).0, sizes[1..], 0, s.nmea, s.port);
    } else {
      SplitAccounts(sizes[1..], 0, s.nmea, s.port);
    }
  }

  // ---------- Main results ----------

  /** The run handed on some of the messages, in order, and still has the rest. */
  ghost predicate NothingLost(items: seq<Item>, t: Scanned) {
    exists rest :: items == t.items + rest && InStep(rest, t.nmea, t.port.pending)
  }

  /** On the stream of any sendable messages, nothing is lost exactly when no read of the loop ends
      inside the first eight bytes of a frame and each read of the parser is complete. */
  lemma NothingLostExactlyWhen(items: seq<Item>, sizes: seq<nat>, limits: seq<nat>)
    requires AllSendable(items)
    ensures NothingLost(items, Split(sizes, 0, [], Port(Stream(items), limits)))
            <==> Chunking(items, 0, sizes, limits, 0)
  {
    var port := Port(Stream(items), limits);
    var t := Split(sizes, 0, [], port);
    assert [] + Stream(items) == Stream(items);
    if Chunking(items, 0, sizes, limits, 0) {
      var rest := SplitFollows(items, sizes, 0, [], port);
    } else {
      SplitLoses(items, sizes, 0, [], port);
      hide Split, Chunking, Stream;
      if rest :| items == t.items + rest && InStep(rest, t.nmea, t.port.pending) {
        StreamAppend(t.items, rest);
        InStepLength(rest, t.nmea, t.port.pending);
      }
    }
  }

  /** Once the stream is used up, splitting returns exactly the messages that were sent, in order,
      if and only if the chunking is allowed; before that, an allowed chunking returns a prefix. */
  lemma SplitReturnsWhatWasSent(items: seq<Item>, sizes: seq<nat>, limits: seq<nat>)
    requires AllSendable(items)
    ensures var t := Split(sizes, 0, [], Port(Stream(items), limits));
            && (Chunking(items, 0, sizes, limits, 0) ==> t.items <= items)
            && (t.port.pending == [] ==>
                (t.items == items <==> Chunking(items, 0, sizes, limits, 0)) && (t.items == items ==> t.nmea == []))
  {
    var t := Split(sizes, 0, [], Port(Stream(items), limits));
    NothingLostExactlyWhen(items, sizes, limits);
    SplitAccounts(sizes, 0, [], Port(Stream(items), limits));
    hide Split, Chunking;
    if NothingLost(items, t) {
      var rest :| items == t.items + rest && InStep(rest, t.nmea, t.port.pending);
      if t.port.pending == [] { UsedUp(rest, t.nmea); }
    }
    if t.port.pending == [] && t.items == items {
      assert items == t.items + [] && InStep([], t.nmea, t.port.pending);
    }
  }

  /** A sentence is not over before the stream is. */
  lemma UsedUp(items: seq<Item>, nmea: seq<Byte>)
    requires InStep(items, nmea, [])
    ensures items == [] && nmea == []
  {
    assert nmea + [] == nmea;
  }

  const POLL: seq<Byte> := [0xB5, 0x62, 1, 7, 0, 0, 8, 25]

  lemma PollBytes()
    ensures Stream([Ubx(1, 7, [])]) == POLL
  {
    PollChecksum();
    hide Checksum;
    var covered := Covered(1, 7, []);
    assert covered == [1, 7, 0, 0];
    assert Frame(1, 7, []) == POLL;
  }

  lemma PollChecksum()
    ensures Checksum([1, 7, 0, 0]) == (8, 25)
  {
    HalfChecksum();
    hide Checksum;
    ChecksumGrows([1, 7], 0, [1, 7, 0]);
    ChecksumGrows([1, 7, 0], 0, [1, 7, 0, 0]);
  }

  lemma HalfChecksum()
    ensures Checksum([1, 7]) == (8, 9)
  {
    assert Checksum([]) == (0, 0);
    hide Checksum;
    ChecksumGrows([], 1, [1]);
    ChecksumGrows([1], 7, [1, 7]);
  }

  lemma ChecksumGrows(data: seq<Byte>, v: Byte, longer: seq<Byte>)
    requires longer == data + [v]
    ensures Checksum(longer) == var (a, b) := Checksum(data); ((a + v) % 256, (b + (a + v) % 256) % 256)
  {
    assert longer[..|data|] == data;
  }

  /** One such loss: a read that ends after the first byte of this frame. */
  lemma CutFrameIsDropped()
    ensures var frame := Ubx(1, 7, []);
            AllSendable([frame])
            && Split([1, 512], 0, [], Port(Stream([frame]), [])) == Scanned([], Port([], []), [])
  {
    PollBytes();
    hide Stream, Scan, Split;
    var b, sizes: seq<nat> := POLL, [1, 512];
    assert b[..1] == [SYNC_1] && sizes[1..] == [512] && sizes[1..][1..] == [];
    assert b[1..][..7] == b[1..] && b[1..][7..] == [];
    LoneSyncSkipped(Port(b[1..], []));
    SkipsPlain(b[1..], Port([], []));
    SplitStep(sizes, 0, [], Port(b, []), []);
    SplitStep(sizes[1..], 0, [], Port(b[1..], []), []);
    SplitStops(0, [], Port([], []));
    NothingBefore(Split(sizes, 0, [], Port(b, [])));
    NothingBefore(Split(sizes[1..], 0, [], Port(b[1..], [])));
  }

  lemma LoneSyncSkipped(port: Port)
    ensures Scan([SYNC_1], [], port) == Scanned([], port, [])
  {
    assert [SYNC_1][1..] == [];
  }

  /** Bytes that begin neither a sentence nor a frame are skipped. */
  lemma {:induction false} SkipsPlain(chunk: seq<Byte>, port: Port)
    requires forall k :: 0 <= k < |chunk| ==> chunk[k] != DOLLAR && chunk[k] != SYNC_1
    ensures Scan(chunk, [], port) == Scanned([], port, [])
    decreases |chunk|
  {
    if chunk != [] { SkipsPlain(chunk[1..], port); }
  }
}
