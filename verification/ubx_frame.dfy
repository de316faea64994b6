/**
 UBX frames of `gps_node.py`: the printer, the parser and the checksum that ties them.

 The frame layout and the 8-bit Fletcher checksum are those of sections "UBX Frame
 Structure" and "UBX Checksum" of the u-blox M8 Receiver Description.
 */
module UbxFrame {

  type Byte = b: int | 0 <= b < 256

  const SYNC_1: Byte := 0xB5
  const SYNC_2: Byte := 0x62

  // ---------- Checksum ----------

  /** The two running bytes after `data`. */
  function Checksum(data: seq<Byte>): (Byte, Byte) {
    if data == [] then (0, 0)
    else
      var (a, b) := Checksum(data[..|data| - 1]);
      var a' := (a + data[|data| - 1]) % 256;
      (a', (b + a') % 256)
  }

  /** `_ubx_cksum`. */
  method UbxCksum(data: seq<Byte>) returns (a: Byte, b: Byte)
    ensures (a, b) == Checksum(data)
  {
    a, b := 0, 0;
    for i := 0 to |data|
      invariant (a, b) == Checksum(data[..i])
    {
      assert data[..i + 1][..i] == data[..i];
      a := (a + data[i]) % 256;
      b := (b + a) % 256;
    }
    assert data[..|data|] == data;
  }

  /** The plain sum of the bytes. */
  function Sum(data: seq<Byte>): int {
    if data == [] then 0 else Sum(data[..|data| - 1]) + data[|data| - 1]
  }

  /** The sum of all prefix sums: the byte `k` places before the end counts k + 1 times. */
  function Weighted(data: seq<Byte>): int {
    if data == [] then 0 else Weighted(data[..|data| - 1]) + Sum(data)
  }

  /** The checksum is the pair of plain and weighted sums modulo 256. */
  lemma {:induction false} ChecksumIsFletcher(data: seq<Byte>)
    ensures Checksum(data) == (Sum(data) % 256, Weighted(data) % 256)
  {
    if data != [] {
      var front, last := data[..|data| - 1], data[|data| - 1];
      ChecksumIsFletcher(front);
      ModAdd(Sum(front), last);
      ModAdd(Weighted(front), Sum(data) % 256);
      ModAdd(Sum(data), Weighted(front));
    }
  }

  lemma ModAdd(x: int, y: int)
    ensures (x % 256 + y) % 256 == (x + y) % 256
  {
    var k := x / 256;
    assert x + y == x % 256 + y + 256 * k;
  }

  /** Replacing one byte shifts the plain sum by the difference. */
  lemma {:induction false} ReplaceShiftsSum(data: seq<Byte>, i: nat, v: Byte)
    requires i < |data|
    ensures Sum(data[i := v]) == Sum(data) + v - data[i]
  {
    var n := |data| - 1;
    if i == n {
      assert data[i := v][..n] == data[..n];
    } else {
      ReplaceShiftsSum(data[..n], i, v);
      assert data[i := v][..n] == data[..n][i := v];
    }
  }

  lemma ModDiffers(x: int, d: int)
    requires -256 < d < 256 && d != 0
    ensures (x + d) % 256 != x % 256
  {
  }

  /** Any change of one byte changes the checksum. */
  lemma OneByteChangeShows(data: seq<Byte>, i: nat, v: Byte)
    requires i < |data| && v != data[i]
    ensures Checksum(data[i := v]).0 != Checksum(data).0
  {
    ReplaceShiftsSum(data, i, v);
    ChecksumIsFletcher(data);
    ChecksumIsFletcher(data[i := v]);
    ModDiffers(Sum(data), v - data[i]);
  }

  function Swapped(data: seq<Byte>, i: nat): seq<Byte>
    requires i + 1 < |data|
  {
    data[i := data[i + 1]][i + 1 := data[i]]
  }

  /** Swapping two neighbours leaves the plain sum and shifts the weighted one by their difference. */
  lemma {:induction false} SwapShiftsWeighted(data: seq<Byte>, i: nat)
    requires i + 1 < |data|
    ensures Sum(Swapped(data, i)) == Sum(data)
    ensures Weighted(Swapped(data, i)) == Weighted(data) + data[i + 1] - data[i]
  {
    var n := |data| - 1;
    var swapped := Swapped(data, i);
    if i + 1 == n {
      var front := data[..i];
      assert data[..n] == front + [data[i]] && swapped[..n] == front + [data[n]];
      assert (front + [data[i]])[..i] == front && (front + [data[n]])[..i] == front;
    } else {
      SwapShiftsWeighted(data[..n], i);
      assert swapped[..n] == Swapped(data[..n], i);
    }
  }

  /** Swapping two unequal neighbours changes the checksum. */
  lemma SwapShows(data: seq<Byte>, i: nat)
    requires i + 1 < |data| && data[i] != data[i + 1]
    ensures Checksum(Swapped(data, i)).1 != Checksum(data).1
  {
    hide Weighted, Sum, Checksum, Swapped;
    SwapShiftsWeighted(data, i);
    ChecksumIsFletcher(data);
    ChecksumIsFletcher(Swapped(data, i));
    var x: int, y: int := data[i], data[i + 1];
    ModDiffers(Weighted(data), y - x);
  }

  // ---------- Printer ----------

  function Low(n: nat): Byte {
    var low: int := n % 256;
    low
  }

  function High(n: nat): Byte {
    Low(n / 256)
  }

  /** What the checksum covers: class, id, length and payload. */
  function Covered(cls: Byte, id: Byte, payload: seq<Byte>): seq<Byte> {
    [cls, id, Low(|payload|), High(|payload|)] + payload
  }

  /** `_ubx_frame`. */
  function Frame(cls: Byte, id: Byte, payload: seq<Byte>): seq<Byte> {
    var (a, b) := Checksum(Covered(cls, id, payload));
    [SYNC_1, SYNC_2, cls, id, Low(|payload|), High(|payload|)] + payload + [a, b]
  }

  // ---------- Parser ----------

  /** What `_parse_ubx_frame` returns: nothing, one byte to skip, or a whole frame. */
  datatype Parsed =
    | NoFrame
    | BadChecksum
    | Good(total: nat, cls: Byte, id: Byte, payload: seq<Byte>)

  function LengthField(buf: seq<Byte>): nat
    requires |buf| >= 8
  {
    var low: int, high: int := buf[4], buf[5];
    low + 256 * high
  }

  /** How many bytes the parser asks the serial port for. */
  function Missing(tail: seq<Byte>): nat {
    if |tail| < 8 || tail[0] != SYNC_1 || tail[1] != SYNC_2 || |tail| >= 8 + LengthField(tail) then 0
    else 8 + LengthField(tail) - |tail|
  }

  /** The verdict on a buffer that holds everything the parser could get. */
  function Judge(buf: seq<Byte>): (r: Parsed)
    ensures r.Good? ==> r.total == |r.payload| + 8 <= |buf|
  {
    if |buf| < 8 || buf[0] != SYNC_1 || buf[1] != SYNC_2 || |buf| < 8 + LengthField(buf) then NoFrame
    else
      var n := LengthField(buf);
      if Checksum(buf[2..6 + n]) != (buf[6 + n], buf[7 + n]) then BadChecksum
      else Good(8 + n, buf[2], buf[3], buf[6..6 + n])
  }

  lemma LengthRoundTrip(n: nat)
    ensures Low(n) + 256 * High(n) == n % 65536
  {
    assert n == 256 * (n / 256) + n % 256;
    assert n / 256 == 256 * (n / 65536) + (n / 256) % 256;
  }

  /** Printing then parsing, whatever follows the frame, gives the message back exactly when
      its payload length fits the two length bytes. */
  lemma FrameRoundTrip(cls: Byte, id: Byte, payload: seq<Byte>, more: seq<Byte>)
    ensures Judge(Frame(cls, id, payload) + more) == Good(|payload| + 8, cls, id, payload) <==> |payload| < 65536
  {
    hide Checksum;
    var buf := Frame(cls, id, payload) + more;
    LengthRoundTrip(|payload|);
    assert LengthField(buf) == |payload| % 65536;
    if |payload| < 65536 {
      assert buf[2..6 + |payload|] == Covered(cls, id, payload);
      assert buf[6..6 + |payload|] == payload;
    }
  }

  /** A frame with one byte of its class, id or payload changed is rejected. */
  lemma ChangedByteRejected(cls: Byte, id: Byte, payload: seq<Byte>, more: seq<Byte>, i: nat, v: Byte)
    requires |payload| < 65536
    requires i == 2 || i == 3 || 6 <= i < 6 + |payload|
    requires v != Frame(cls, id, payload)[i]
    ensures Judge(Frame(cls, id, payload)[i := v] + more) == BadChecksum
  {
    hide Checksum;
    var frame := Frame(cls, id, payload);
    var covered := Covered(cls, id, payload);
    var buf := frame[i := v] + more;
    LengthRoundTrip(|payload|);
    assert LengthField(buf) == |payload|;
    assert frame[2..6 + |payload|] == covered;
    assert covered[i - 2] == frame[i];
    assert buf[2..6 + |payload|] == covered[i - 2 := v];
    OneByteChangeShows(covered, i - 2, v);
  }

  /** A frame with two unequal adjacent payload bytes swapped is rejected. */
  lemma SwappedBytesRejected(cls: Byte, id: Byte, payload: seq<Byte>, more: seq<Byte>, i: nat)
    requires |payload| < 65536
    requires 6 <= i && i + 1 < 6 + |payload|
    requires Frame(cls, id, payload)[i] != Frame(cls, id, payload)[i + 1]
    ensures Judge(Swapped(Frame(cls, id, payload), i) + more) == BadChecksum
  {
    hide Checksum;
    var frame := Frame(cls, id, payload);
    var covered := Covered(cls, id, payload);
    var buf := Swapped(frame, i) + more;
    LengthRoundTrip(|payload|);
    assert LengthField(buf) == |payload|;
    assert frame[2..6 + |payload|] == covered;
    assert covered[i - 2] == frame[i] && covered[i - 1] == frame[i + 1];
    assert buf[2..6 + |payload|] == Swapped(covered, i - 2);
    SwapShows(covered, i - 2);
  }
}
