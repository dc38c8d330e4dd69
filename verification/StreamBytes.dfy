/** Byte rings and length-prefixed frames: the arithmetic of stream_buffer.c on values. */
module StreamBytes {
  import opened Rings

  /** sizeof( configMESSAGE_BUFFER_LENGTH_TYPE ), a 32-bit size_t. */
  const HEADER: nat := 4
  const SIZE_MOD: nat := 0x1_0000_0000

  // ---------------------------------------------------------------- index arithmetic

  /** prvBytesInBuffer. */
  function BytesBetween(n: nat, head: nat, tail: nat): (r: nat)
    requires tail <= n
    ensures head < n && tail < n ==> r < n
  {
    var count := n + head - tail;
    if count >= n then count - n else count
  }

  /** xStreamBufferSpacesAvailable. */
  function SpacesBetween(n: nat, head: nat, tail: nat): (r: nat)
    requires head < n
    ensures tail < n ==> r < n
  {
    var space := n + tail - head - 1;
    if space >= n then space - n else space
  }

  /** One byte of the ring always stays free. */
  lemma BytesPlusSpaces(n: nat, head: nat, tail: nat)
    requires head < n && tail < n
    ensures BytesBetween(n, head, tail) + SpacesBetween(n, head, tail) == n - 1
    ensures head == Slot(n, tail + BytesBetween(n, head, tail))
  {
  }

  /** Where byte `j` of a copy of `count` bytes starting at `pos` goes: the first memcpy runs to the end of
      the storage, the second starts at its beginning. */
  function CopySlot(n: nat, pos: nat, count: nat, j: nat): nat
    requires pos <= n
  {
    var first := if n - pos < count then n - pos else count;
    if j < first then pos + j else j - first
  }

  /** The index after a copy. */
  function Advance(n: nat, pos: nat, count: nat): nat {
    if pos + count >= n then pos + count - n else pos + count
  }

  lemma CopyInOrder(n: nat, pos: nat, count: nat, j: nat)
    requires pos < n && count < n && j < count
    ensures CopySlot(n, pos, count, j) == Slot(n, pos + j) < n
    ensures Advance(n, pos, count) == Slot(n, pos + count) < n
  {
  }

  /** Two chained copies, of `p` and of `total - p` bytes, fill consecutive slots. */
  lemma ChainedCopies(n: nat, pos: nat, p: nat, total: nat, j: nat)
    requires pos < n && p <= total < n && j < total
    ensures (if j < p then CopySlot(n, pos, p, j) else CopySlot(n, Advance(n, pos, p), total - p, j - p))
            == Slot(n, pos + j)
    ensures Slot(n, pos + j) < n
    ensures Advance(n, Advance(n, pos, p), total - p) == Slot(n, pos + total) < n
  {
  }

  /** A free slot is not the slot of an unread byte, nor of another free slot. */
  lemma FreeSlot(n: nat, head: nat, tail: nat, k: nat, j: nat)
    requires head < n && tail < n && k < SpacesBetween(n, head, tail)
    ensures j < BytesBetween(n, head, tail) ==> Slot(n, head + k) != Slot(n, tail + j)
    ensures j < k ==> Slot(n, head + k) != Slot(n, head + j)
  {
  }

  /** Moving the head over `f` free bytes. */
  lemma HeadMoves(n: nat, head: nat, tail: nat, f: nat, j: nat)
    requires head < n && tail < n && f <= SpacesBetween(n, head, tail)
    ensures var h := Slot(n, head + f);
            && h < n && BytesBetween(n, h, tail) == BytesBetween(n, head, tail) + f
            && SpacesBetween(n, h, tail) == SpacesBetween(n, head, tail) - f
    ensures var b := BytesBetween(n, head, tail); b <= j < b + f ==> Slot(n, tail + j) == Slot(n, head + (j - b))
  {
  }

  /** Moving the tail over `c` unread bytes. */
  lemma TailMoves(n: nat, head: nat, tail: nat, c: nat, j: nat)
    requires head < n && tail < n && c <= BytesBetween(n, head, tail)
    ensures var t := Slot(n, tail + c);
            && t < n && BytesBetween(n, head, t) == BytesBetween(n, head, tail) - c
            && SpacesBetween(n, head, t) == SpacesBetween(n, head, tail) + c
    ensures j < BytesBetween(n, head, tail) - c ==> Slot(n, Slot(n, tail + c) + j) == Slot(n, tail + (c + j))
  {
  }

  // ---------------------------------------------------------------- frames

  /** A message length as it is stored, least significant byte first. */
  function EncodeLength(len: nat): (r: seq<byte>)
    requires len < SIZE_MOD
    ensures |r| == HEADER
  {
    [len % 256, len / 256 % 256, len / 65536 % 256, len / 16777216]
  }

  function DecodeLength(b: seq<byte>): nat
    requires |b| == HEADER
  {
    (b[0] as int) + 256 * (b[1] as int) + 65536 * (b[2] as int) + 16777216 * (b[3] as int)
  }

  lemma LengthRoundTrip(len: nat)
    requires len < SIZE_MOD
    ensures DecodeLength(EncodeLength(len)) == len
  {
    var q1, q2, q3 := len / 256, len / 65536, len / 16777216;
    assert q2 == q1 / 256 && q3 == q2 / 256;
  }

  /** A message that can be sent; an empty one is never stored. */
  type message = m: seq<byte> | 0 < |m| < SIZE_MOD - HEADER witness [0]

  function Frame(m: seq<byte>): seq<byte>
    requires |m| < SIZE_MOD
  {
    EncodeLength(|m|) + m
  }

  /** Whole frames, end to end. */
  function Frames(ms: seq<message>): seq<byte> {
    if ms == [] then [] else Frame(ms[0]) + Frames(ms[1..])
  }

  lemma {:induction false} FramesAppend(ms: seq<message>, m: message)
    ensures Frames(ms + [m]) == Frames(ms) + Frame(m)
  {
    if ms == [] {
      assert ([m])[1..] == [];
      assert Frames([m]) == Frame(m);
    } else {
      assert (ms + [m])[1..] == ms[1..] + [m];
      FramesAppend(ms[1..], m);
    }
  }

  /** Fewer bytes than a header and one more means no message at all. */
  lemma NoPartialFrame(ms: seq<message>)
    ensures |Frames(ms)| <= HEADER ==> ms == [] && Frames(ms) == []
    ensures ms != [] ==> HEADER + |ms[0]| <= |Frames(ms)| && Frames(ms)[..HEADER] == EncodeLength(|ms[0]|)
                         && Frames(ms)[HEADER..HEADER + |ms[0]|] == ms[0]
                         && Frames(ms)[HEADER + |ms[0]|..] == Frames(ms[1..])
  {
  }
}
