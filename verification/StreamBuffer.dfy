/** The stream and message buffer object of stream_buffer.c, for calls that run to completion: the interrupt
    forms, and the task forms that do not block.  Interleavings are the subject of StreamProtocol. */
module StreamBuffer {
  import opened Rings
  import opened StreamBytes

  class Buffer {
    const xLength: nat
    const isMessage: bool
    const pucBuffer: array<byte>
    var xHead: nat
    var xTail: nat
    var xTriggerLevelBytes: nat
    var receiverWaiting: bool              // xTaskWaitingToReceive != NULL
    var senderWaiting: bool                // xTaskWaitingToSend != NULL
    var receiverNotified: bool
    var senderNotified: bool

    /** The messages in the buffer, oldest first. */
    ghost var messages: seq<message>

    ghost predicate Valid()
      reads this, pucBuffer
    {
      && Prefix() + 1 < xLength < SIZE_MOD && pucBuffer.Length == xLength && xHead < xLength && xTail < xLength
      && 0 < xTriggerLevelBytes
      && (isMessage ==> Contents() == Frames(messages))
    }

    /** The unread bytes, oldest first. */
    ghost function Contents(): (r: seq<byte>)
      requires pucBuffer.Length == xLength && xHead < xLength && xTail < xLength
      reads this, pucBuffer
      ensures |r| == BytesBetween(xLength, xHead, xTail)
    {
      Window(pucBuffer[..], xTail, BytesBetween(xLength, xHead, xTail))
    }

    /** xBytesToStoreMessageLength. */
    function Prefix(): nat { if isMessage then HEADER else 0 }

    /** xStreamBufferGenericCreate: one byte more than asked for, as one always stays free. */
    constructor (size: nat, isMessage: bool, trigger: nat)
      requires (if isMessage then HEADER else 0) < size < SIZE_MOD - 1 && trigger <= size
      ensures Valid() && Contents() == [] && messages == [] && xLength == size + 1 && this.isMessage == isMessage
      ensures xTriggerLevelBytes == (if trigger == 0 then 1 else trigger) && !receiverWaiting && !senderWaiting
      ensures fresh(pucBuffer)
    {
      xLength, this.isMessage := size + 1, isMessage;
      pucBuffer := new byte[size + 1];
      xHead, xTail, xTriggerLevelBytes := 0, 0, if trigger == 0 then 1 else trigger;
      receiverWaiting, senderWaiting, receiverNotified, senderNotified := false, false, false, false;
      messages := [];
    }

    method SpacesAvailable() returns (space: nat)
      requires Valid()
      ensures space == xLength - 1 - |Contents()|
    {
      space := xLength + xTail - xHead - 1;
      if space >= xLength {
        space := space - xLength;
      }
    }

    method BytesInBuffer() returns (count: nat)
      requires Valid()
      ensures count == |Contents()|
    {
      count := xLength + xHead - xTail;
      if count >= xLength {
        count := count - xLength;
      }
    }

    /** Copies into the storage from an index on; the index after the copy is returned, xHead stays. */
    method WriteBytesToBuffer(data: seq<byte>, head: nat) returns (next: nat)
      requires pucBuffer.Length == xLength && head < xLength && 0 < |data| < xLength
      modifies pucBuffer
      ensures next == Slot(xLength, head + |data|)
      ensures pucBuffer[..] == Written(old(pucBuffer[..]), head, data)
    {
      var first := if xLength - head < |data| then xLength - head else |data|;
      assert head + first <= xLength;
      forall j | 0 <= j < first {
        pucBuffer[head + j] := data[j];
      }
      if |data| > first {
        assert |data| - first <= xLength;
        forall j | 0 <= j < |data| - first {
          pucBuffer[j] := data[first + j];
        }
      }
      next := head + |data|;
      if next >= xLength {
        next := next - xLength;
      }
    }

    /** Copies out of the storage; the index after the copy is returned, xTail stays. */
    method ReadBytesFromBuffer(count: nat, tail: nat) returns (data: seq<byte>, next: nat)
      requires pucBuffer.Length == xLength && tail < xLength && 0 < count < xLength
      ensures next == Slot(xLength, tail + count)
      ensures data == Window(pucBuffer[..], tail, count)
    {
      var first := if xLength - tail < count then xLength - tail else count;
      assert first <= count && tail + first <= xLength;
      data := pucBuffer[tail..tail + first];
      if count > first {
        data := data + pucBuffer[..count - first];
      }
      next := tail + count;
      if next >= xLength {
        next := next - xLength;
      }
    }

    method WriteMessageToBuffer(data: seq<byte>, space: nat, required: nat) returns (sent: nat)
      requires Valid() && |data| + Prefix() < SIZE_MOD && space <= xLength - 1 - |Contents()|
      requires isMessage ==> required == |data| + HEADER
      modifies `xHead, `messages, pucBuffer
      ensures Valid()
      ensures sent == (if isMessage then (if space >= required then |data| else 0)
                       else if |data| < space then |data| else space)
      ensures Contents() == old(Contents()) + if isMessage && sent > 0 then Frame(data) else data[..sent]
      ensures messages == old(messages) + if isMessage && sent > 0 then [data] else []
    {
      hide Window, Written, Slot, EncodeLength, BytesBetween, SpacesBetween, Frames;
      var next := xHead;
      sent := |data|;
      BytesPlusSpaces(xLength, xHead, xTail);
      ghost var was := pucBuffer[..];
      var header: seq<byte> := [];
      if isMessage {
        if space >= required {
          header := EncodeLength(|data|);
          next := WriteBytesToBuffer(header, next);
        } else {
          sent := 0;
        }
      } else {
        sent := if sent < space then sent else space;
      }
      Appended(was, xHead, xTail, header, data[..sent]);
      if sent != 0 {
        xHead := WriteBytesToBuffer(data[..sent], next);
        assert header + data[..sent] == if isMessage then Frame(data) else data[..sent];
        if isMessage {
          FramesAppend(messages, data);
          messages := messages + [data];
        }
      }
    }

    /** xStreamBufferSendFromISR: what fits of a stream, a whole message or nothing, is appended; a waiting
        receiver is notified if the bytes now held reach its trigger level. */
    method SendFromISR(data: seq<byte>) returns (sent: nat)
      requires Valid() && |data| + Prefix() < SIZE_MOD
      modifies this, pucBuffer
      ensures Valid()
      ensures isMessage ==> sent == if |old(Contents())| + HEADER + |data| < xLength then |data| else 0
      ensures !isMessage ==>
                sent <= |data| && |Contents()| < xLength && (sent == |data| || |Contents()| == xLength - 1)
      ensures Contents() == old(Contents()) + if isMessage && sent > 0 then Frame(data) else data[..sent]
      ensures messages == old(messages) + if isMessage && sent > 0 then [data] else []
      ensures var wake := sent > 0 && |Contents()| >= xTriggerLevelBytes && old(receiverWaiting);
              && receiverNotified == (old(receiverNotified) || wake)
              && receiverWaiting == (old(receiverWaiting) && !wake)
      ensures senderWaiting == old(senderWaiting) && senderNotified == old(senderNotified)
      ensures xTriggerLevelBytes == old(xTriggerLevelBytes) && xTail == old(xTail)
    {
      var required := |data|;
      if isMessage {
        required := required + HEADER;
      }
      var space := SpacesAvailable();
      sent := WriteMessageToBuffer(data, space, required);
      if sent > 0 {
        var count := BytesInBuffer();
        if count >= xTriggerLevelBytes {
          var _ := SendCompletedFromISR();
        }
      }
    }

    method SendCompletedFromISR() returns (woken: bool)
      modifies `receiverWaiting, `receiverNotified
      ensures woken == old(receiverWaiting) && !receiverWaiting
      ensures receiverNotified == (old(receiverNotified) || woken)
    {
      woken := receiverWaiting;
      if receiverWaiting {
        receiverNotified := true;
        receiverWaiting := false;
      }
    }

    method ReceiveCompletedFromISR() returns (woken: bool)
      modifies `senderWaiting, `senderNotified
      ensures woken == old(senderWaiting) && !senderWaiting
      ensures senderNotified == (old(senderNotified) || woken)
    {
      woken := senderWaiting;
      if senderWaiting {
        senderNotified := true;
        senderWaiting := false;
      }
    }

    /** The bytes that store the length of the oldest message. */
    method ReadLength() returns (length: nat, next: nat)
      requires Valid() && isMessage && messages != []
      ensures length == |messages[0]| && next == Slot(xLength, xTail + HEADER)
    {
      hide Window, Slot, EncodeLength, DecodeLength, BytesBetween;
      var bytes;
      BytesPlusSpaces(xLength, xHead, xTail);
      NoPartialFrame(messages);
      WindowSplit(pucBuffer[..], xTail, HEADER, |Contents()| - HEADER);
      bytes, next := ReadBytesFromBuffer(HEADER, xTail);
      LengthRoundTrip(|messages[0]|);
      assert bytes == Contents()[..HEADER];
      length := DecodeLength(bytes);
    }

    /** prvReadMessageFromBuffer.  `available` was read before, and more may have been sent since: it is any count
        that is not too high and, if it is not 0, includes a whole message. */
    method ReadMessageFromBuffer(room: nat, available: nat) returns (data: seq<byte>)
      requires Valid() && Prefix() < available <= |Contents()|
      requires isMessage ==> messages != [] && HEADER + |messages[0]| <= available
      modifies `xTail, `messages
      ensures Valid()
      ensures isMessage ==> data == if |old(messages)[0]| <= room then old(messages)[0] else []
      ensures !isMessage ==> data == old(Contents())[..if room < available then room else available]
      ensures Contents() == old(Contents())[if isMessage && data != [] then HEADER + |data| else |data|..]
      ensures messages == old(messages)[if isMessage && data != [] then 1 else 0..]
    {
      hide Window, Slot, DecodeLength, BytesBetween, Frames;
      var next, wanted, left := xTail, room, available;
      ghost var skip := Prefix();
      if isMessage {
        NoPartialFrame(messages);
        wanted, next := ReadLength();
        left := left - HEADER;
        if wanted > room {
          wanted := 0;
        }
      }
      var count := if wanted < left then wanted else left;
      data := [];
      if count != 0 {
        Consumed(pucBuffer[..], xHead, xTail, skip, count);
        data, xTail := ReadBytesFromBuffer(count, next);
        assert Contents() == old(Contents())[skip + count..];
        if isMessage {
          messages := messages[1..];
        }
      }
    }

    /** xStreamBufferReceiveFromISR: the oldest bytes, as many as fit; or the oldest message, whole, if it
        fits; a waiting sender is notified if anything was taken. */
    method ReceiveFromISR(room: nat) returns (data: seq<byte>)
      requires Valid()
      modifies this
      ensures Valid()
      ensures isMessage ==>
                data == if old(messages) != [] && |old(messages)[0]| <= room then old(messages)[0] else []
      ensures !isMessage ==>
                data <= old(Contents()) && |data| <= room && (|data| == room || data == old(Contents()))
      ensures Contents() == old(Contents())[if isMessage && data != [] then HEADER + |data| else |data|..]
      ensures messages == old(messages)[if isMessage && data != [] then 1 else 0..]
      ensures var wake := data != [] && old(senderWaiting);
              && senderNotified == (old(senderNotified) || wake) && senderWaiting == (old(senderWaiting) && !wake)
      ensures receiverWaiting == old(receiverWaiting) && receiverNotified == old(receiverNotified)
      ensures xTriggerLevelBytes == old(xTriggerLevelBytes) && xHead == old(xHead)
    {
      var available := BytesInBuffer();
      data := [];
      if isMessage {
        NoPartialFrame(messages);
      }
      if available > Prefix() {
        data := ReadMessageFromBuffer(room, available);
        if |data| != 0 {
          var _ := ReceiveCompletedFromISR();
        }
      }
    }

    /** The length of the next message, or 0; the source's assertion that fewer bytes than a header are no
        bytes at all never fails. */
    method NextMessageLengthBytes() returns (length: nat)
      requires Valid()
      ensures length == if isMessage && messages != [] then |messages[0]| else 0
    {
      hide Window, Slot, BytesBetween;
      length := 0;
      if isMessage {
        var available := BytesInBuffer();
        NoPartialFrame(messages);
        if available > HEADER {
          var next;
          length, next := ReadLength();
        } else {
          assert available == 0;
        }
      }
    }

    method IsEmpty() returns (empty: bool)
      requires Valid()
      ensures empty <==> Contents() == []
      ensures isMessage ==> (empty <==> messages == [])
    {
      if isMessage {
        NoPartialFrame(messages);
      }
      empty := xHead == xTail;
    }

    /** Full means that not one more byte, or one more message of one byte, can be sent. */
    method IsFull() returns (full: bool)
      requires Valid()
      ensures full <==> |Contents()| + (if isMessage then HEADER + 1 else 1) >= xLength
    {
      var space := SpacesAvailable();
      full := space <= Prefix();
    }

    method SetTriggerLevel(level: nat) returns (ok: bool)
      requires Valid()
      modifies `xTriggerLevelBytes
      ensures Valid()
      ensures ok <==> level < xLength
      ensures xTriggerLevelBytes == if !ok then old(xTriggerLevelBytes) else if level == 0 then 1 else level
    {
      var l := if level == 0 then 1 else level;
      ok := l < xLength;
      if ok {
        xTriggerLevelBytes := l;
      }
    }

    /** Refused while anybody waits; otherwise the buffer is as new, its size, kind and trigger level kept. */
    method Reset() returns (ok: bool)
      requires Valid()
      modifies this
      ensures Valid() && xTriggerLevelBytes == old(xTriggerLevelBytes)
      ensures ok <==> !old(receiverWaiting) && !old(senderWaiting)
      ensures ok ==> Contents() == [] && messages == []
      ensures !ok ==> Contents() == old(Contents()) && messages == old(messages)
      ensures receiverWaiting == old(receiverWaiting) && senderWaiting == old(senderWaiting)
      ensures receiverNotified == old(receiverNotified) && senderNotified == old(senderNotified)
    {
      ok := !receiverWaiting && !senderWaiting;
      if ok {
        xHead, xTail, messages := 0, 0, [];
      }
    }
  }

  /** Skipping some unread bytes and taking the next ones leaves the others. */
  lemma Consumed(storage: seq<byte>, head: nat, tail: nat, skip: nat, count: nat)
    requires head < |storage| && tail < |storage| && skip + count <= BytesBetween(|storage|, head, tail)
    ensures var n, b := |storage|, BytesBetween(|storage|, head, tail); var mid := Slot(n, tail + skip);
            var end := Slot(n, mid + count);
            && mid < n && end < n && BytesBetween(n, head, end) == b - skip - count && (skip == 0 ==> mid == tail)
            && Window(storage, mid, count) == Window(storage, tail, b)[skip..skip + count]
            && Window(storage, end, b - skip - count) == Window(storage, tail, b)[skip + count..]
  {
    hide Window, Slot, BytesBetween;
    ConsumedAt(|storage|, head, tail, skip, count);
    WindowInThree(storage, tail, skip, count, BytesBetween(|storage|, head, tail) - skip - count);
  }

  lemma ConsumedAt(n: nat, head: nat, tail: nat, skip: nat, count: nat)
    requires head < n && tail < n && skip + count <= BytesBetween(n, head, tail)
    ensures var b, mid := BytesBetween(n, head, tail), Slot(n, tail + skip); var end := Slot(n, mid + count);
            && b < n && mid < n && end == Slot(n, tail + (skip + count)) < n
            && BytesBetween(n, head, end) == b - skip - count
            && (skip == 0 ==> mid == tail)
  {
  }

  lemma WindowInThree(storage: seq<byte>, tail: nat, a: nat, b: nat, c: nat)
    requires tail < |storage| && a + b + c < |storage|
    ensures var n := |storage|; var mid := Slot(n, tail + a); var end := Slot(n, tail + (a + b));
            && mid < n && end < n
            && Window(storage, mid, b) == Window(storage, tail, a + b + c)[a..a + b]
            && Window(storage, end, c) == Window(storage, tail, a + b + c)[a + b..]
  {
    hide Window, Slot;
    WindowSplit(storage, tail, a, b);
    WindowSplit(storage, tail, a + b, c);
  }

  /** Nothing written is no change. */
  ghost function WrittenIfAny(storage: seq<byte>, pos: nat, data: seq<byte>): (r: seq<byte>)
    requires pos < |storage| && |data| < |storage|
    ensures |r| == |storage|
  {
    if data == [] then storage else Written(storage, pos, data)
  }

  /** A header and then data, written behind the head into free space: the unread region stays, and is
      extended by both once the head moves. */
  lemma Appended(storage: seq<byte>, head: nat, tail: nat, header: seq<byte>, data: seq<byte>)
    requires head < |storage| && tail < |storage| && |header| + |data| <= SpacesBetween(|storage|, head, tail)
    ensures var n, b := |storage|, BytesBetween(|storage|, head, tail);
            && Slot(n, head) == head && Slot(n, head + |header|) < n
            && Window(WrittenIfAny(storage, head, header), tail, b) == Window(storage, tail, b)
            && var end := Slot(n, Slot(n, head + |header|) + |data|);
            && end < n && BytesBetween(n, end, tail) == b + |header| + |data| < n
            && Window(WrittenIfAny(WrittenIfAny(storage, head, header), Slot(n, head + |header|), data),
                      tail, b + |header| + |data|)
               == Window(storage, tail, b) + (header + data)
  {
    hide Window, Written, Slot, BytesBetween, SpacesBetween, WrittenIfAny;
    AppendedAt(|storage|, head, tail, |header|, |data|);
    WrittenTwice(storage, tail, BytesBetween(|storage|, head, tail), header, data);
  }

  lemma AppendedAt(n: nat, head: nat, tail: nat, h: nat, d: nat)
    requires head < n && tail < n && h + d <= SpacesBetween(n, head, tail)
    ensures var b, mid := BytesBetween(n, head, tail), Slot(n, head + h); var end := Slot(n, mid + d);
            && head == Slot(n, head) == Slot(n, tail + b) && mid == Slot(n, tail + b + h) < n
            && end < n && BytesBetween(n, end, tail) == b + h + d < n
  {
  }

  /** The storage after `data` is written round the ring from an index on. */
  ghost function Written(storage: seq<byte>, pos: nat, data: seq<byte>): (r: seq<byte>)
    requires pos < |storage| && |data| < |storage|
    ensures |r| == |storage|
  {
    var n := |storage|;
    seq(n, i requires 0 <= i < n =>
      if pos <= i < pos + |data| then data[i - pos] else if i < pos + |data| - n then data[i + n - pos] else storage[i])
  }

  /** Bytes written behind a window that leave room in the ring extend the window and change nothing in it. */
  lemma WrittenBehind(storage: seq<byte>, tail: nat, b: nat, data: seq<byte>)
    requires tail < |storage| && b + |data| < |storage|
    ensures var head := Slot(|storage|, tail + b);
            && head < |storage|
            && Window(Written(storage, head, data), tail, b) == Window(storage, tail, b)
            && Window(Written(storage, head, data), tail, b + |data|) == Window(storage, tail, b) + data
  {
  }

  lemma WrittenTwice(storage: seq<byte>, tail: nat, b: nat, header: seq<byte>, data: seq<byte>)
    requires tail < |storage| && b + |header| + |data| < |storage|
    ensures var head, mid := Slot(|storage|, tail + b), Slot(|storage|, tail + b + |header|);
            && head < |storage| && mid < |storage|
            && Window(WrittenIfAny(storage, head, header), tail, b) == Window(storage, tail, b)
            && Window(WrittenIfAny(WrittenIfAny(storage, head, header), mid, data), tail, b + |header| + |data|)
               == Window(storage, tail, b) + (header + data)
  {
    hide Window, Written, Slot, WrittenIfAny;
    AnyBehind(storage, tail, b, header);
    AnyBehind(WrittenIfAny(storage, Slot(|storage|, tail + b), header), tail, b + |header|, data);
    assert Window(storage, tail, b) + header + data == Window(storage, tail, b) + (header + data);
  }

  lemma AnyBehind(storage: seq<byte>, tail: nat, b: nat, data: seq<byte>)
    requires tail < |storage| && b + |data| < |storage|
    ensures var head := Slot(|storage|, tail + b);
            && head < |storage|
            && Window(WrittenIfAny(storage, head, data), tail, b) == Window(storage, tail, b)
            && Window(WrittenIfAny(storage, head, data), tail, b + |data|) == Window(storage, tail, b) + data
  {
    WrittenBehind(storage, tail, b, data);
  }
}
