/** A stream or message buffer shared by one writer and one reader (stream_buffer.c), as a state machine
    whose steps are the single loads, byte copies and publications, interleaved in any order. */
module StreamProtocol {
  import opened Rings
  import opened StreamBytes

  /** Where the writing side is, with its local variables; `data` is what the caller asked to send, and a copy
      remembers the space it was planned with. */
  datatype Writer =
    | WIdle
    | WTop(data: seq<byte>)                                  // about to enter the critical section
    | WWait(data: seq<byte>, space: nat)                     // blocked, after registering
    | WBack(data: seq<byte>, space: nat)                     // unblocked, handle not yet cleared
    | WLoad(data: seq<byte>)                                 // about to read xTail for xOriginalTail
    | WLoaded(data: seq<byte>, original: nat)                // about to read xTail for xSpace
    | WSummed(data: seq<byte>, original: nat, space: nat)    // about to read xTail for the comparison
    | WCopy(data: seq<byte>, space: nat, frame: seq<byte>, payload: seq<byte>, done: nat) // xHead not yet written
    | WPublished(data: seq<byte>, space: nat, payload: seq<byte>)                         // xHead written
    | WComplete(data: seq<byte>)                             // about to run sbSEND_COMPLETED

  /** Where the reading side is; `room` is what the caller's buffer holds, and a copy remembers the bytes that were
      counted before it. */
  datatype Reader =
    | RIdle
    | RWait(room: nat)                                       // blocked, after registering
    | RBack(room: nat)                                       // unblocked, handle not yet cleared
    | RLoad(room: nat)                                       // about to read xHead
    | RLength(room: nat, available: nat, got: seq<byte>)     // copying the length of a message
    | RCopy(room: nat, available: nat, skip: nat, count: nat, got: seq<byte>) // copying out; xTail not yet written
    | RPublished(room: nat, available: nat, got: seq<byte>)  // xTail written

  datatype State = State(
    length: nat, isMessage: bool, trigger: nat,
    buffer: seq<byte>, head: nat, tail: nat,
    waitingToSend: bool, waitingToReceive: bool,             // a handle is registered
    writerNotified: bool, readerNotified: bool,              // a notification is pending
    writer: Writer, reader: Reader,
    written: seq<byte>, consumed: nat,                       // every byte published; how many are consumed
    sent: seq<message>, received: seq<seq<byte>>,            // message buffers: messages in order
    read: seq<byte>                                          // every byte handed to the reader's caller
  ) {
    function Bytes(): nat
      requires tail <= length
    {
      BytesBetween(length, head, tail)
    }

    function Spaces(): nat
      requires head < length
    {
      SpacesBetween(length, head, tail)
    }

    function Prefix(): nat { if isMessage then HEADER else 0 }

    /** xRequiredSpace. */
    function Required(data: seq<byte>): nat
      requires 0 < length
    {
      if isMessage then |data| + HEADER else if |data| > length - 1 then length - 1 else |data|
    }
  }

  datatype Event =
    | WStart(data: seq<byte>, wait: bool)
    | WEnter | WWake | WLeave(timedOut: bool) | WReadTail | WReadAgain | WCompare | WByte | WPublish | WCheck | WNotify
    | RStart(room: nat, wait: bool)
    | RWake | RClear | RReadHead | RLengthByte | RPlan | RByte | RPublish | RNotify
    | SetTrigger(level: nat)

  /** prvWriteMessageToBuffer up to the copying: what will be copied, given the space believed to be free. */
  function Plan(s: State, data: seq<byte>, space: nat): Writer
    requires 0 < s.length && |data| + s.Prefix() < SIZE_MOD
  {
    if s.isMessage then
      if space >= s.Required(data) then WCopy(data, space, EncodeLength(|data|) + data, data, 0) else WIdle
    else
      var n := if |data| < space then |data| else space;
      if n == 0 then WIdle else WCopy(data, space, data[..n], data[..n], 0)
  }

  /** The space is looked up again if none was seen so far. */
  function AfterWait(s: State, data: seq<byte>, space: nat): Writer
    requires 0 < s.length && |data| + s.Prefix() < SIZE_MOD
  {
    if space == 0 then WLoad(data) else Plan(s, data, space)
  }

  /** prvReadMessageFromBuffer up to the copying of data, given the bytes believed to be there. */
  function Have(s: State, room: nat, available: nat): Reader {
    if available <= s.Prefix() then RIdle
    else if s.isMessage then RLength(room, available, [])
    else CopyOut(room, available, 0, if room < available then room else available)
  }

  function CopyOut(room: nat, available: nat, skip: nat, count: nat): Reader {
    if count == 0 then RIdle else RCopy(room, available, skip, count, [])
  }

  ghost predicate Shape(s: State) {
    && 1 < s.length && (s.isMessage ==> HEADER + 1 < s.length) && |s.buffer| == s.length
    && s.head < s.length && s.tail < s.length && 0 < s.trigger
    && (s.writer.WTop? || s.writer.WWait? || s.writer.WBack? || s.writer.WLoad? || s.writer.WLoaded?
        || s.writer.WSummed? ==>
          |s.writer.data| + s.Prefix() < SIZE_MOD)
  }

  ghost predicate Enabled(s: State, e: Event) {
    match e
    case WStart(data, _) => s.writer.WIdle? && |data| + s.Prefix() < SIZE_MOD
    case WEnter => s.writer.WTop?
    case WWake => s.writer.WWait?       // notified, or timed out
    case WLeave(_) => s.writer.WBack?
    case WReadTail => s.writer.WLoad?
    case WReadAgain => s.writer.WLoaded?
    case WCompare => s.writer.WSummed?
    case WByte => s.writer.WCopy? && s.writer.done < |s.writer.frame| < s.length
    case WPublish => s.writer.WCopy? && s.writer.done == |s.writer.frame|
        && (s.isMessage ==> |s.writer.payload| < SIZE_MOD - HEADER)
    case WCheck => s.writer.WPublished?
    case WNotify => s.writer.WComplete?
    case RStart(_, _) => s.reader.RIdle?
    case RWake => s.reader.RWait?
    case RClear => s.reader.RBack?
    case RReadHead => s.reader.RLoad?
    case RLengthByte => s.isMessage && s.reader.RLength? && |s.reader.got| < HEADER
    case RPlan => s.isMessage && s.reader.RLength? && |s.reader.got| == HEADER && s.reader.available >= HEADER
    case RByte => s.reader.RCopy? && |s.reader.got| < s.reader.count && s.reader.skip + s.reader.count < s.length
    case RPublish => s.reader.RCopy? && |s.reader.got| == s.reader.count
    case RNotify => s.reader.RPublished?
    case SetTrigger(level) => true
  }

  function WriterStep(s: State, e: Event): State
    requires Shape(s) && Enabled(s, e)
  {
    match e
    case WStart(data, wait) =>
      s.(writer := if wait && !(s.isMessage && s.Required(data) > s.length - 1) then WTop(data) else WLoad(data))
    case WEnter =>
      var data := s.writer.data;
      if s.Spaces() < s.Required(data) then
        s.(waitingToSend := true, writerNotified := false, writer := WWait(data, s.Spaces()))
      else s.(writer := AfterWait(s, data, s.Spaces()))
    case WWake => s.(writerNotified := false, writer := WBack(s.writer.data, s.writer.space))
    case WLeave(timedOut) =>
      s.(waitingToSend := false,
         writer := if timedOut then AfterWait(s, s.writer.data, s.writer.space) else WTop(s.writer.data))
    case WReadTail => s.(writer := WLoaded(s.writer.data, s.tail))
    case WReadAgain => s.(writer := WSummed(s.writer.data, s.writer.original, s.Spaces()))
    case WCompare =>
      s.(writer := if s.writer.original != s.tail then WLoad(s.writer.data) else Plan(s, s.writer.data, s.writer.space))
    case WByte =>
      var w := s.writer;
      s.(buffer := s.buffer[WriteSlot(s) := w.frame[w.done]],
          writer := WCopy(w.data, w.space, w.frame, w.payload, w.done + 1))
    case WPublish =>
      if s.writer.payload == [] then s.(writer := WIdle)
      else
        s.(head := Advance(s.length, Advance(s.length, s.head, s.Prefix()), |s.writer.payload|),
           written := s.written + s.writer.frame,
           sent := if s.isMessage then s.sent + [s.writer.payload] else s.sent,
           writer := WPublished(s.writer.data, s.writer.space, s.writer.payload))
    case WCheck => s.(writer := if s.Bytes() >= s.trigger then WComplete(s.writer.data) else WIdle)
    case WNotify =>
      if s.waitingToReceive then s.(readerNotified := true, waitingToReceive := false, writer := WIdle)
      else s.(writer := WIdle)
    case _ => s
  }

  /** Where the next byte is written: the length of a message first, then the data. */
  function WriteSlot(s: State): (i: nat)
    requires Shape(s) && s.writer.WCopy? && s.writer.done < |s.writer.frame| < s.length
    ensures i < s.length
  {
    var p, w := s.Prefix(), s.writer;
    if w.done < p then CopySlot(s.length, s.head, p, w.done)
    else CopySlot(s.length, Advance(s.length, s.head, p), |w.frame| - p, w.done - p)
  }

  function ReaderStep(s: State, e: Event): State
    requires Shape(s) && Enabled(s, e)
  {
    match e
    case RStart(room, wait) =>
      if !wait then s.(reader := RLoad(room))
      else if s.Bytes() <= s.Prefix() then
        s.(waitingToReceive := true, readerNotified := false, reader := RWait(room))
      else s.(reader := Have(s, room, s.Bytes()))
    case RWake => s.(readerNotified := false, reader := RBack(s.reader.room))
    case RClear => s.(waitingToReceive := false, reader := RLoad(s.reader.room))
    case RReadHead => s.(reader := Have(s, s.reader.room, s.Bytes()))
    case RLengthByte =>
      var r := s.reader;
      s.(reader := RLength(r.room, r.available, r.got + [s.buffer[CopySlot(s.length, s.tail, HEADER, |r.got|)]]))
    case RPlan =>
      var r := s.reader;
      var len := DecodeLength(r.got);
      var wanted := if len > r.room then 0 else len;
      var left := r.available - HEADER;
      s.(reader := CopyOut(r.room, r.available, HEADER, if wanted < left then wanted else left))
    case RByte =>
      var r := s.reader;
      s.(reader := RCopy(r.room, r.available, r.skip, r.count,
          r.got + [s.buffer[CopySlot(s.length, Advance(s.length, s.tail, r.skip), r.count, |r.got|)]]))
    case RPublish =>
      var r := s.reader;
      s.(tail := Advance(s.length, Advance(s.length, s.tail, r.skip), r.count),
         consumed := s.consumed + r.skip + r.count,
         received := if s.isMessage then s.received + [r.got] else s.received,
         read := s.read + r.got,
         reader := RPublished(r.room, r.available, r.got))
    case RNotify =>
      if s.waitingToSend then s.(writerNotified := true, waitingToSend := false, reader := RIdle)
      else s.(reader := RIdle)
    case _ => s
  }

  predicate ByWriter(e: Event) {
    e.WStart? || e.WEnter? || e.WWake? || e.WLeave? || e.WReadTail? || e.WReadAgain? || e.WCompare? || e.WByte?
    || e.WPublish? || e.WCheck? || e.WNotify?
  }

  /** xStreamBufferSetTriggerLevel: a level the buffer can never hold is refused. */
  function WithTrigger(s: State, level: nat): State {
    var l := if level == 0 then 1 else level;
    if l < s.length then s.(trigger := l) else s
  }

  function Step(s: State, e: Event): State
    requires Shape(s) && Enabled(s, e)
  {
    if e.SetTrigger? then WithTrigger(s, e.level)
    else if ByWriter(e) then WriterStep(s, e)
    else ReaderStep(s, e)
  }

  // ---------------------------------------------------------------- the invariant

  /** The bytes published and not yet consumed. */
  ghost function Unread(s: State): seq<byte>
    requires s.consumed <= |s.written|
  {
    s.written[s.consumed..]
  }

  /** The storage between tail and head holds exactly the unread bytes. */
  ghost predicate Stored(s: State)
    requires Shape(s)
  {
    && s.consumed <= |s.written| && |Unread(s)| == s.Bytes()
    && (forall j :: 0 <= j < s.Bytes() ==> s.buffer[Slot(s.length, s.tail + j)] == Unread(s)[j])
  }

  /** Message buffers: the unread region is whole frames, one for each message not yet received, and
      messages were received whole and in order.  Stream buffers: what was read is what was written. */
  ghost predicate InOrder(s: State)
    requires Shape(s) && Stored(s)
  {
    if s.isMessage then
      && |s.received| <= |s.sent| && Unread(s) == Frames(s.sent[|s.received|..])
      && (forall i :: 0 <= i < |s.received| ==> s.received[i] == s.sent[i])
    else s.read == s.written[..s.consumed]
  }

  /** `available` bytes hold the next message whole, if they hold anything. */
  ghost predicate FrontFits(s: State, available: nat)
    requires Shape(s)
  {
    && available <= s.Bytes()
    && (s.isMessage && available > 0 ==> |s.received| < |s.sent| && HEADER + |s.sent[|s.received|]| <= available)
  }

  /** What the writer believes about space is never more than there is, and what it has copied so far is
      in place, outside the unread region. */
  ghost predicate WriterOk(s: State)
    requires Shape(s)
  {
    match s.writer
    case WWait(_, space) => space <= s.Spaces()
    case WBack(_, space) => space <= s.Spaces()
    case WSummed(_, _, space) => space <= s.Spaces()
    case WCopy(data, space, frame, payload, done) =>
      && |payload| + s.Prefix() < SIZE_MOD && done <= |frame| <= space <= s.Spaces()
      && (if s.isMessage then payload == data else payload == Fitting(data, space))
      && (if s.isMessage then frame == EncodeLength(|payload|) + payload else frame == payload && payload != [])
      && (forall j :: 0 <= j < done ==> s.buffer[Slot(s.length, s.head + j)] == frame[j])
    case WPublished(data, space, payload) =>
      if s.isMessage then
        payload == data && |data| + HEADER <= space && s.sent != [] && s.sent[|s.sent| - 1] == data
      else
        && payload == Fitting(data, space) && payload != []
        && |payload| <= |s.written| && s.written[|s.written| - |payload|..] == payload
    case _ => true
  }

  /** The first bytes, as many as there is space for. */
  ghost function Fitting(data: seq<byte>, space: nat): seq<byte> {
    if |data| <= space then data else data[..space]
  }

  ghost predicate ReaderOk(s: State)
    requires Shape(s) && Stored(s)
  {
    match s.reader
    case RLength(room, available, got) =>
      && s.isMessage && 0 < available && FrontFits(s, available)
      && |got| <= HEADER && got == Unread(s)[..|got|]
    case RCopy(room, available, skip, count, got) =>
      && skip == s.Prefix() && 0 < count <= room && skip + count <= s.Bytes()
      && (!s.isMessage ==> count == if room < available then room else available)
      && |got| <= count && got == Unread(s)[skip..skip + |got|]
      && (s.isMessage ==> |s.received| < |s.sent| && count == |s.sent[|s.received|]|)
    case RPublished(room, available, got) =>
      && 0 < |got| <= room
      && (if s.isMessage then s.received != [] && s.received[|s.received| - 1] == got
          else && |got| == (if room < available then room else available)
               && |got| <= |s.read| && s.read[|s.read| - |got|..] == got)
    case _ => true
  }

  /** Nobody sleeps through the event waited for. */
  ghost predicate NoLostWakeUp(s: State)
    requires Shape(s)
  {
    && (s.waitingToSend ==> s.writer.WWait? || s.writer.WBack?)
    && (s.writer.WWait? && s.waitingToSend ==> s.Spaces() < s.Required(s.writer.data) || s.reader.RPublished?)
    && (s.writer.WWait? && !s.waitingToSend ==> s.writerNotified)
    && (s.waitingToReceive ==> s.reader.RWait? || s.reader.RBack?)
    && (s.reader.RWait? && s.waitingToReceive ==> s.Bytes() < s.trigger || s.writer.WPublished? || s.writer.WComplete?)
    && (s.reader.RWait? && !s.waitingToReceive ==> s.readerNotified)
  }

  ghost predicate Inv(s: State) {
    Shape(s) && Stored(s) && InOrder(s) && WriterOk(s) && ReaderOk(s) && NoLostWakeUp(s)
  }

  /** In a message buffer any byte at all means a whole message. */
  lemma WholeMessages(s: State)
    requires Shape(s) && Stored(s) && InOrder(s)
    ensures FrontFits(s, s.Bytes())
    ensures s.isMessage && s.Bytes() <= HEADER ==> s.Bytes() == 0
  {
    if s.isMessage {
      NoPartialFrame(s.sent[|s.received|..]);
    }
  }

  /** Writing the next byte of a copy changes no unread byte and no byte copied before. */
  lemma ByteWritten(s: State, j: nat)
    requires Inv(s) && Enabled(s, WByte)
    ensures WriteSlot(s) == Slot(s.length, s.head + s.writer.done)
    ensures j < s.Bytes() ==> WriteSlot(s) != Slot(s.length, s.tail + j)
    ensures j < s.writer.done ==> WriteSlot(s) != Slot(s.length, s.head + j)
  {
    hide BytesBetween, SpacesBetween, Slot, CopySlot, Advance, InOrder, ReaderOk, NoLostWakeUp, Stored, EncodeLength;
    ChainedCopies(s.length, s.head, s.Prefix(), |s.writer.frame|, s.writer.done);
    FreeSlot(s.length, s.head, s.tail, s.writer.done, j);
  }

  lemma ByteStepInv(s: State)
    requires Inv(s) && Enabled(s, WByte)
    ensures Inv(Step(s, WByte))
  {
    hide BytesBetween, SpacesBetween, Slot, CopySlot, Advance, WriteSlot, EncodeLength, Frames, ReaderStep,
         State.Required, Fitting;
    ByteOthers(s);
    hide InOrder, ReaderOk, NoLostWakeUp, State.Bytes, State.Spaces;
    var t := Step(s, WByte);
    forall j | 0 <= j < s.Bytes() ensures t.buffer[Slot(s.length, s.tail + j)] == Unread(s)[j] {
      ByteWritten(s, j);
    }
    forall j | 0 <= j <= s.writer.done ensures t.buffer[Slot(s.length, s.head + j)] == s.writer.frame[j] {
      ByteWritten(s, j);
    }
  }

  /** Everything but the storage and the place of the writer stays. */
  lemma ByteOthers(s: State)
    requires Inv(s) && Enabled(s, WByte)
    ensures var t := Step(s, WByte);
            && Shape(t) && t.Bytes() == s.Bytes() && t.Spaces() == s.Spaces() && Unread(t) == Unread(s)
            && NoLostWakeUp(t) && (Stored(t) ==> InOrder(t) && ReaderOk(t))
  {
    hide BytesBetween, SpacesBetween, Slot, CopySlot, Advance, WriteSlot, EncodeLength, Frames, ReaderStep,
         State.Required, Fitting;
  }

  lemma PublishStored(s: State)
    requires Inv(s) && Enabled(s, WPublish) && s.writer.payload != []
    ensures var t := Step(s, WPublish);
            && Shape(t) && Stored(t) && Unread(t) == Unread(s) + s.writer.frame
            && t.Bytes() == s.Bytes() + |s.writer.frame| && t.Spaces() == s.Spaces() - |s.writer.frame|
  {
    PublishCounts(s);
    PublishedUnread(s);
    hide Inv, Step, Shape, Stored, Unread, State.Bytes, State.Spaces, BytesBetween;
    UnreadCounted(s);
    PublishedStored(s, Step(s, WPublish));
  }

  lemma PublishedStored(s: State, t: State)
    requires Inv(s) && s.writer.WCopy? && s.writer.done == |s.writer.frame| && Shape(t)
    requires t.length == s.length && t.tail == s.tail && t.buffer == s.buffer && t.consumed <= |t.written|
    requires s.consumed <= |s.written| && |Unread(s)| == s.Bytes() && Unread(t) == Unread(s) + s.writer.frame
    requires t.Bytes() == s.Bytes() + |s.writer.frame|
    ensures Stored(t)
  {
    hide BytesBetween, SpacesBetween, Slot, Inv, Unread;
    forall j | 0 <= j < t.Bytes() ensures t.buffer[Slot(t.length, t.tail + j)] == Unread(t)[j] {
      PublishedByte(s, j);
    }
  }

  lemma UnreadCounted(s: State)
    requires Inv(s)
    ensures Shape(s) && s.consumed <= |s.written| && |Unread(s)| == s.Bytes()
  {
    hide BytesBetween, InOrder, ReaderOk, WriterOk, NoLostWakeUp;
  }

  lemma PublishCounts(s: State)
    requires Inv(s) && Enabled(s, WPublish) && s.writer.payload != []
    ensures var t := Step(s, WPublish);
            && Shape(t) && t.Bytes() == s.Bytes() + |s.writer.frame| && t.Spaces() == s.Spaces() - |s.writer.frame|
  {
    hide BytesBetween, SpacesBetween, Slot, Advance, EncodeLength, InOrder, ReaderOk, NoLostWakeUp, Stored;
    ChainedCopies(s.length, s.head, s.Prefix(), |s.writer.frame|, 0);
    HeadMoves(s.length, s.head, s.tail, |s.writer.frame|, 0);
  }

  lemma PublishedUnread(s: State)
    requires Inv(s) && Enabled(s, WPublish) && s.writer.payload != []
    ensures var t := Step(s, WPublish);
            && t.consumed == s.consumed <= |s.written| && t.buffer == s.buffer && t.tail == s.tail
            && t.length == s.length
            && Unread(t) == Unread(s) + s.writer.frame
  {
    hide BytesBetween, SpacesBetween, Slot, Advance, EncodeLength, InOrder, ReaderOk, NoLostWakeUp, WriterOk;
  }

  lemma PublishedByte(s: State, j: nat)
    requires Inv(s) && s.writer.WCopy? && s.writer.done == |s.writer.frame| && j < s.Bytes() + |s.writer.frame|
    ensures Slot(s.length, s.tail + j) < s.length
    ensures s.buffer[Slot(s.length, s.tail + j)] == (Unread(s) + s.writer.frame)[j]
  {
    hide BytesBetween, SpacesBetween, Slot, Advance, EncodeLength, InOrder, ReaderOk, NoLostWakeUp;
    HeadMoves(s.length, s.head, s.tail, |s.writer.frame|, j);
    if j >= s.Bytes() {
      assert s.buffer[Slot(s.length, s.head + (j - s.Bytes()))] == s.writer.frame[j - s.Bytes()];
    }
  }

  lemma PublishInv(s: State)
    requires Inv(s) && Enabled(s, WPublish) && s.writer.payload != []
    ensures Inv(Step(s, WPublish))
  {
    PublishStored(s);
    PublishInOrder(s);
    PublishOthers(s);
  }

  lemma PublishInOrder(s: State)
    requires Inv(s) && Enabled(s, WPublish) && s.writer.payload != []
    requires var t := Step(s, WPublish); Shape(t) && Stored(t) && Unread(t) == Unread(s) + s.writer.frame
    ensures InOrder(Step(s, WPublish))
  {
    assert s.consumed <= |s.written|;
    hide BytesBetween, SpacesBetween, Slot, Advance, EncodeLength, Stored, ReaderOk, NoLostWakeUp;
    var t, w := Step(s, WPublish), s.writer;
    if s.isMessage {
      var k := |s.received|;
      assert t.sent[k..] == s.sent[k..] + [w.payload];
      FramesAppend(s.sent[k..], w.payload);
    } else {
      assert t.written[..t.consumed] == s.written[..s.consumed];
    }
  }

  lemma PublishOthers(s: State)
    requires Inv(s) && Enabled(s, WPublish) && s.writer.payload != []
    requires var t := Step(s, WPublish);
             && Shape(t) && Stored(t) && Unread(t) == Unread(s) + s.writer.frame
             && t.Bytes() == s.Bytes() + |s.writer.frame| && t.Spaces() == s.Spaces() - |s.writer.frame|
    ensures var t := Step(s, WPublish); WriterOk(t) && ReaderOk(t) && NoLostWakeUp(t)
  {
    hide BytesBetween, SpacesBetween, Slot, Advance, EncodeLength, InOrder, Stored, WriterOk, ReaderOk, Fitting;
    PublishWriterOk(s);
    PublishReaderOk(s);
  }

  lemma PublishWriterOk(s: State)
    requires Shape(s) && WriterOk(s) && Enabled(s, WPublish) && s.writer.payload != [] && Shape(Step(s, WPublish))
    ensures WriterOk(Step(s, WPublish))
  {
    hide BytesBetween, SpacesBetween, Slot, Advance, EncodeLength, Fitting, ReaderStep;
  }

  lemma PublishReaderOk(s: State)
    requires Inv(s) && Enabled(s, WPublish) && s.writer.payload != []
    requires var t := Step(s, WPublish);
             && Shape(t) && Stored(t) && Unread(t) == Unread(s) + s.writer.frame
             && t.Bytes() == s.Bytes() + |s.writer.frame|
    ensures ReaderOk(Step(s, WPublish))
  {
    hide BytesBetween, SpacesBetween, Slot, Advance, EncodeLength, InOrder, Fitting, WriterOk, NoLostWakeUp;
  }

  lemma CopyBounds(s: State)
    requires Shape(s) && Stored(s) && ReaderOk(s) && s.reader.RCopy?
    ensures s.reader.skip + s.reader.count <= s.Bytes() && 0 < s.reader.count
  {
    hide BytesBetween, Stored;
  }

  /** What consuming changes. */
  lemma Consumed(s: State)
    requires Shape(s) && Enabled(s, RPublish)
    ensures var t, c := Step(s, RPublish), s.reader.skip + s.reader.count;
            && t.tail == Advance(s.length, Advance(s.length, s.tail, s.reader.skip), s.reader.count)
            && t.head == s.head && t.length == s.length && t.buffer == s.buffer && t.written == s.written
            && t.consumed == s.consumed + c && t.isMessage == s.isMessage && t.trigger == s.trigger
            && t.writer == s.writer
            && t.sent == s.sent && t.read == s.read + s.reader.got
            && t.received == if s.isMessage then s.received + [s.reader.got] else s.received
  {
    hide Advance, WriterStep;
    assert Step(s, RPublish) == ReaderStep(s, RPublish);
  }

  lemma ConsumeStored(s: State)
    requires Inv(s) && Enabled(s, RPublish)
    ensures var t := Step(s, RPublish); var c := s.reader.skip + s.reader.count;
            && c <= s.Bytes() && Shape(t) && Stored(t) && Unread(t) == Unread(s)[c..]
            && t.Bytes() == s.Bytes() - c && t.Spaces() == s.Spaces() + c
  {
    hide BytesBetween, SpacesBetween, Slot, Advance, EncodeLength, Inv, Step, ReaderOk, InOrder, State.Bytes,
         State.Spaces;
    ReaderFacts(s);
    ConsumeCounts(s);
    Consumed(s);
    var t, c := Step(s, RPublish), s.reader.skip + s.reader.count;
    assert Unread(t) == Unread(s)[c..];
    forall j | 0 <= j < t.Bytes() ensures t.buffer[Slot(s.length, t.tail + j)] == Unread(t)[j] {
      StoredBehind(s, c, j);
    }
  }

  lemma ConsumeCounts(s: State)
    requires Inv(s) && Enabled(s, RPublish)
    ensures var t := Step(s, RPublish); var c := s.reader.skip + s.reader.count;
            && c <= s.Bytes() && Shape(t) && t.tail == Slot(s.length, s.tail + c)
            && t.Bytes() == s.Bytes() - c && t.Spaces() == s.Spaces() + c
  {
    hide BytesBetween, SpacesBetween, Slot, Advance, EncodeLength, Inv, Step, ReaderOk, InOrder, Stored;
    ReaderFacts(s);
    CopyBounds(s);
    ChainedCopies(s.length, s.tail, s.reader.skip, s.reader.skip + s.reader.count, 0);
    TailMoves(s.length, s.head, s.tail, s.reader.skip + s.reader.count, 0);
    Consumed(s);
  }

  /** Unread bytes beyond the first `c`, seen from the tail moved over those. */
  lemma StoredBehind(s: State, c: nat, j: nat)
    requires Shape(s) && Stored(s) && c + j < s.Bytes()
    ensures Slot(s.length, Slot(s.length, s.tail + c) + j) < s.length
    ensures s.buffer[Slot(s.length, Slot(s.length, s.tail + c) + j)] == Unread(s)[c..][j]
  {
    hide BytesBetween, SpacesBetween, Slot;
    TailMoves(s.length, s.head, s.tail, c, j);
    assert s.buffer[Slot(s.length, s.tail + (c + j))] == Unread(s)[c + j];
  }

  lemma ConsumeInv(s: State)
    requires Inv(s) && Enabled(s, RPublish)
    ensures Inv(Step(s, RPublish))
  {
    hide BytesBetween, SpacesBetween, Slot, Advance, EncodeLength, Stored, InOrder, WriterOk, ReaderOk,
         NoLostWakeUp, Step;
    ConsumeStored(s);
    ConsumeInOrder(s);
    ConsumeOthers(s);
  }

  /** The bytes copied behind a header are the next message, and whole frames are left. */
  lemma NextMessage(unread: seq<byte>, sent: seq<message>, k: nat, got: seq<byte>)
    requires k < |sent| && unread == Frames(sent[k..])
    requires HEADER + |sent[k]| <= |unread| && got == unread[HEADER..HEADER + |sent[k]|]
    ensures got == sent[k] && unread[HEADER + |sent[k]|..] == Frames(sent[k + 1..])
  {
    hide Frames;
    NoPartialFrame(sent[k..]);
    assert sent[k..][0] == sent[k] && sent[k..][1..] == sent[k + 1..];
  }

  lemma ConsumeInOrder(s: State)
    requires Inv(s) && Enabled(s, RPublish)
    requires var t := Step(s, RPublish); var c := s.reader.skip + s.reader.count;
             Shape(t) && Stored(t) && c <= s.Bytes() && Unread(t) == Unread(s)[c..]
    ensures InOrder(Step(s, RPublish))
  {
    hide BytesBetween, SpacesBetween, Slot, Advance, EncodeLength, Inv, Step, Frames, Stored, InOrder, ReaderOk;
    ReaderFacts(s);
    if s.isMessage { ConsumeMessage(s); } else { ConsumeBytes(s); }
  }

  lemma ConsumeMessage(s: State)
    requires Shape(s) && Stored(s) && InOrder(s) && ReaderOk(s) && s.isMessage && Enabled(s, RPublish)
    requires var t := Step(s, RPublish); var c := s.reader.skip + s.reader.count;
             Shape(t) && Stored(t) && c <= s.Bytes() && Unread(t) == Unread(s)[c..]
    ensures InOrder(Step(s, RPublish))
  {
    hide BytesBetween, SpacesBetween, Slot, Advance, EncodeLength, Step, Frames;
    Consumed(s);
    NextMessage(Unread(s), s.sent, |s.received|, s.reader.got);
  }

  lemma ConsumeBytes(s: State)
    requires Shape(s) && Stored(s) && InOrder(s) && ReaderOk(s) && !s.isMessage && Enabled(s, RPublish)
    requires var t := Step(s, RPublish); var c := s.reader.skip + s.reader.count;
             Shape(t) && Stored(t) && c <= s.Bytes() && Unread(t) == Unread(s)[c..]
    ensures InOrder(Step(s, RPublish))
  {
    hide BytesBetween, SpacesBetween, Slot, Advance, EncodeLength, Step, Frames;
    var t := Step(s, RPublish);
    Consumed(s);
    assert t.written[..t.consumed] == s.written[..s.consumed] + Unread(s)[..s.reader.count];
  }

  lemma ConsumeOthers(s: State)
    requires Inv(s) && Enabled(s, RPublish)
    requires var t := Step(s, RPublish); var c := s.reader.skip + s.reader.count;
             Shape(t) && Stored(t) && t.Bytes() == s.Bytes() - c && t.Spaces() == s.Spaces() + c
    ensures var t := Step(s, RPublish); WriterOk(t) && ReaderOk(t) && NoLostWakeUp(t)
  {
    hide BytesBetween, SpacesBetween, Slot, Advance, EncodeLength, Stored, InOrder;
  }

  ghost predicate SameData(s: State, t: State) {
    && s.length == t.length && s.isMessage == t.isMessage
    && s.buffer == t.buffer && s.head == t.head && s.tail == t.tail
    && s.written == t.written && s.consumed == t.consumed && s.sent == t.sent && s.received == t.received
    && s.read == t.read
  }

  lemma DataKept(s: State, t: State)
    requires Shape(s) && Stored(s) && InOrder(s) && SameData(s, t) && Shape(t)
    ensures Stored(t) && InOrder(t) && t.Bytes() == s.Bytes() && t.Spaces() == s.Spaces()
    ensures WriterOk(s) && s.writer == t.writer ==> WriterOk(t)
    ensures ReaderOk(s) && s.reader == t.reader ==> ReaderOk(t)
  {
    hide BytesBetween, SpacesBetween, Slot, EncodeLength, Frames, Fitting, State.Required;
  }

  predicate WriterControl(s: State, e: Event)
    requires e.WPublish? ==> s.writer.WCopy?
  {
    ByWriter(e) && !e.WByte? && (e.WPublish? ==> s.writer.payload == [])
  }

  /** Steps of the writer that publish nothing and write no byte. */
  lemma WriterControlInv(s: State, e: Event)
    requires Inv(s) && Enabled(s, e) && WriterControl(s, e)
    ensures Inv(Step(s, e))
  {
    hide BytesBetween, SpacesBetween, Slot, EncodeLength, Stored, InOrder, ReaderOk, WriterOk, NoLostWakeUp;
    WriterControlOk(s, e);
    WriterControlWake(s, e);
    DataKept(s, Step(s, e));
  }

  lemma WriterControlOk(s: State, e: Event)
    requires Inv(s) && Enabled(s, e) && WriterControl(s, e)
    ensures Shape(Step(s, e)) && SameData(s, Step(s, e)) && Step(s, e).reader == s.reader && WriterOk(Step(s, e))
  {
    hide Inv, Stored, InOrder, WriterOk, ReaderOk, NoLostWakeUp, Shape, SameData, Step;
    if e.WEnter? || e.WLeave? || e.WCompare? { PlanningShape(s, e); PlanningOk(s, e); } else { NotPlanningOk(s, e); }
  }

  lemma PlanningShape(s: State, e: Event)
    requires Inv(s) && Enabled(s, e) && (e.WEnter? || e.WLeave? || e.WCompare?)
    ensures Shape(Step(s, e)) && SameData(s, Step(s, e)) && Step(s, e).reader == s.reader
  {
    hide Inv, Stored, InOrder, ReaderOk, NoLostWakeUp, BytesBetween, SpacesBetween, Slot, EncodeLength,
         WriteSlot, ReaderStep, Plan, Advance, WriterOk;
    WriterFacts(s);
    if e.WEnter? {
      EnterShape(s);
    } else {
      PlanShape(s, s.writer.data, s.writer.space);
    }
  }

  lemma EnterShape(s: State)
    requires Shape(s) && s.writer.WTop?
    ensures var t := Step(s, WEnter); Shape(t) && SameData(s, t) && t.reader == s.reader
  {
    hide BytesBetween, SpacesBetween, Slot, EncodeLength, WriteSlot, ReaderStep, Plan, Advance;
    PlanShape(s, s.writer.data, s.Spaces());
  }

  lemma PlanShape(s: State, data: seq<byte>, space: nat)
    requires 0 < s.length && |data| + s.Prefix() < SIZE_MOD
    ensures Plan(s, data, space).WIdle? || Plan(s, data, space).WCopy?
  {
    hide EncodeLength;
  }

  lemma PlanningOk(s: State, e: Event)
    requires Inv(s) && Enabled(s, e) && (e.WEnter? || e.WLeave? || e.WCompare?) && Shape(Step(s, e))
    ensures WriterOk(Step(s, e))
  {
    hide Inv, Stored, InOrder, ReaderOk, NoLostWakeUp, BytesBetween, SpacesBetween, Slot, EncodeLength,
         WriteSlot, ReaderStep, Plan, Advance;
    WriterFacts(s);
    if e.WEnter? {
      PlanOk(s, s.writer.data, s.Spaces());
    } else {
      PlanOk(s, s.writer.data, s.writer.space);
    }
  }

  lemma NotPlanningOk(s: State, e: Event)
    requires Inv(s) && Enabled(s, e) && WriterControl(s, e) && !e.WEnter? && !e.WLeave? && !e.WCompare?
    ensures Shape(Step(s, e)) && SameData(s, Step(s, e)) && Step(s, e).reader == s.reader && WriterOk(Step(s, e))
  {
    hide BytesBetween, SpacesBetween, Slot, EncodeLength, Stored, InOrder, ReaderOk, NoLostWakeUp, WriteSlot,
         ReaderStep, Plan, Advance;
  }

  /** What is planned fits the space. */
  lemma PlanOk(s: State, data: seq<byte>, space: nat)
    requires Shape(s) && |data| + s.Prefix() < SIZE_MOD && space <= s.Spaces()
    ensures var w := Plan(s, data, space);
            w.WIdle? || (w.WCopy? && w.done == 0 && WriterOk(s.(writer := w)))
  {
    hide BytesBetween, SpacesBetween, Slot, EncodeLength;
  }

  lemma WriterControlWake(s: State, e: Event)
    requires Inv(s) && Enabled(s, e) && WriterControl(s, e) && Shape(Step(s, e))
    ensures NoLostWakeUp(Step(s, e))
  {
    hide BytesBetween, SpacesBetween, Slot, EncodeLength, Stored, InOrder, ReaderOk, WriterOk;
  }

  predicate ReaderControl(e: Event) {
    e.RStart? || e.RWake? || e.RClear? || e.RReadHead? || e.RNotify?
  }

  /** Steps of the reader that consume nothing and copy no byte. */
  lemma ReaderControlInv(s: State, e: Event)
    requires Inv(s) && Enabled(s, e) && ReaderControl(e)
    ensures Inv(Step(s, e))
  {
    hide BytesBetween, SpacesBetween, Slot, EncodeLength, Stored, InOrder, ReaderOk, WriterOk, NoLostWakeUp;
    ReaderControlSame(s, e);
    ReaderControlWake(s, e);
    DataKept(s, Step(s, e));
    ReaderControlOk(s, e);
  }

  lemma ReaderControlOk(s: State, e: Event)
    requires Inv(s) && Enabled(s, e) && ReaderControl(e)
    requires Shape(Step(s, e)) && Stored(Step(s, e))
    ensures ReaderOk(Step(s, e))
  {
    hide BytesBetween, SpacesBetween, Slot, EncodeLength, Stored, InOrder, WriterOk, NoLostWakeUp, DecodeLength;
    WholeMessages(s);
  }

  lemma ReaderControlSame(s: State, e: Event)
    requires Shape(s) && Enabled(s, e) && ReaderControl(e)
    ensures Shape(Step(s, e)) && SameData(s, Step(s, e)) && Step(s, e).writer == s.writer
            && Step(s, e).trigger == s.trigger
  {
    hide BytesBetween, SpacesBetween, Slot, EncodeLength, DecodeLength, WriterStep, Have, State.Bytes, State.Spaces;
    if e.RStart? { StartSame(s, e); } else { NotStartSame(s, e); }
    hide Step, SameData;
  }

  lemma StartSame(s: State, e: Event)
    requires Shape(s) && Enabled(s, e) && e.RStart?
    ensures Shape(Step(s, e)) && SameData(s, Step(s, e)) && Step(s, e).writer == s.writer
            && Step(s, e).trigger == s.trigger
  {
    StartStep(s, e);
    hide *;
    OnlyReader(s, RLoad(e.room));
    OnlyReader(s, Have(s, e.room, s.Bytes()));
    OnlyReader(s.(waitingToReceive := true, readerNotified := false), RWait(e.room));
    Registered(s);
  }

  lemma StartStep(s: State, e: Event)
    requires Shape(s) && Enabled(s, e) && e.RStart?
    ensures Step(s, e) == if !e.wait then s.(reader := RLoad(e.room))
                          else if s.Bytes() <= s.Prefix() then s.(waitingToReceive := true, readerNotified := false,
                              reader := RWait(e.room))
                          else s.(reader := Have(s, e.room, s.Bytes()))
  {
    hide BytesBetween, Have, WriterStep;
  }

  lemma OnlyReader(s: State, r: Reader)
    requires Shape(s)
    ensures var t := s.(reader := r); Shape(t) && SameData(s, t) && t.writer == s.writer && t.trigger == s.trigger
  {
  }

  lemma Registered(s: State)
    requires Shape(s)
    ensures var t := s.(waitingToReceive := true, readerNotified := false);
            Shape(t) && t.writer == s.writer && t.trigger == s.trigger
    ensures forall r :: SameData(s.(waitingToReceive := true, readerNotified := false), r) ==> SameData(s, r)
  {
  }

  lemma NotStartSame(s: State, e: Event)
    requires Shape(s) && Enabled(s, e) && ReaderControl(e) && !e.RStart?
    ensures Shape(Step(s, e)) && SameData(s, Step(s, e)) && Step(s, e).writer == s.writer
            && Step(s, e).trigger == s.trigger
  {
    hide BytesBetween, SpacesBetween, Slot, EncodeLength, DecodeLength, WriterStep, Have, State.Bytes, State.Spaces;
  }

  lemma ReaderControlWake(s: State, e: Event)
    requires Inv(s) && Enabled(s, e) && ReaderControl(e) && Shape(Step(s, e))
    ensures NoLostWakeUp(Step(s, e))
  {
    hide BytesBetween, SpacesBetween, Slot, EncodeLength, Stored, InOrder, WriterOk, ReaderOk, FrontFits,
         DecodeLength, WriterStep, Have;
    WholeMessages(s);
    HaveRunning(s, if e.RReadHead? then s.reader.room else if e.RStart? then e.room else 0, s.Bytes());
  }

  lemma HaveRunning(s: State, room: nat, available: nat)
    ensures var r := Have(s, room, available); !r.RWait? && !r.RBack? && !r.RPublished?
  {
  }

  lemma ByteReadInv(s: State, e: Event)
    requires Inv(s) && Enabled(s, e) && (e.RLengthByte? || e.RByte?)
    ensures Inv(Step(s, e))
  {
    hide BytesBetween, SpacesBetween, Slot, EncodeLength, InOrder, WriterOk, ReaderOk, NoLostWakeUp, CopySlot,
         Advance, Stored, DecodeLength;
    ByteReadWake(s, e);
    DataKept(s, Step(s, e));
    ByteReadOk(s, e);
  }

  lemma ByteReadWake(s: State, e: Event)
    requires Inv(s) && Enabled(s, e) && (e.RLengthByte? || e.RByte?)
    ensures var t := Step(s, e); Shape(t) && SameData(s, t) && t.writer == s.writer && NoLostWakeUp(t)
  {
    hide BytesBetween, SpacesBetween, Slot, EncodeLength, InOrder, WriterOk, ReaderOk, CopySlot, Advance,
         Stored, DecodeLength;
    ByteRead(s, e);
  }

  lemma ByteReadOk(s: State, e: Event)
    requires Inv(s) && Enabled(s, e) && (e.RLengthByte? || e.RByte?)
    requires Shape(Step(s, e)) && Stored(Step(s, e)) && Step(s, e).Bytes() == s.Bytes()
    ensures ReaderOk(Step(s, e))
  {
    hide BytesBetween, SpacesBetween, Slot, EncodeLength, InOrder, WriterOk, CopySlot, Advance, NoLostWakeUp,
         DecodeLength;
    ByteRead(s, e);
    GotGrows(Unread(s), s.reader.got, if e.RLengthByte? then 0 else s.reader.skip);
  }

  lemma GotGrows(u: seq<byte>, got: seq<byte>, skip: nat)
    requires skip + |got| < |u| && got == u[skip..skip + |got|]
    ensures got + [u[skip + |got|]] == u[skip..skip + |got| + 1]
  {
  }

  /** The byte copied out is the next unread one. */
  lemma ByteRead(s: State, e: Event)
    requires Inv(s) && Enabled(s, e) && (e.RLengthByte? || e.RByte?)
    ensures var k := |s.reader.got| + if e.RLengthByte? then 0 else s.reader.skip;
            k < |Unread(s)| && Step(s, e).reader.got == s.reader.got + [Unread(s)[k]]
  {
    hide BytesBetween, SpacesBetween, Slot, EncodeLength, CopySlot, Advance, InOrder, WriterOk, NoLostWakeUp;
    var r := s.reader;
    var p, k := if e.RLengthByte? then 0 else r.skip, |r.got|;
    ChainedCopies(s.length, s.tail, p, if e.RLengthByte? then HEADER else r.skip + r.count, p + k);
    AdvanceZero(s.length, s.tail);
    assert s.buffer[Slot(s.length, s.tail + (p + k))] == Unread(s)[p + k];
  }

  lemma AdvanceZero(n: nat, pos: nat)
    requires pos < n
    ensures Advance(n, pos, 0) == pos
  {
  }

  /** The length that was copied is the length of the first unread message, so the smaller of the length
      and the bytes available is the length itself: no message is ever cut. */
  lemma LengthRead(s: State)
    requires Inv(s) && Enabled(s, RPlan)
    ensures var k := |s.received|;
            && k < |s.sent|
            && DecodeLength(s.reader.got) == |s.sent[k]| <= s.reader.available - HEADER
  {
    hide BytesBetween, SpacesBetween, Slot, EncodeLength;
    var k := |s.received|;
    NoPartialFrame(s.sent[k..]);
    LengthRoundTrip(|s.sent[k]|);
    assert s.sent[k..][0] == s.sent[k];
  }

  lemma PlanInv(s: State)
    requires Inv(s) && Enabled(s, RPlan)
    ensures Inv(Step(s, RPlan))
  {
    hide BytesBetween, SpacesBetween, Slot, EncodeLength, DecodeLength, InOrder, WriterOk;
    LengthRead(s);
    DataKept(s, Step(s, RPlan));
  }

  // ---------------------------------------------------------------- what a call comes to

  /** How a send goes on.  It blocks if it may and finds too little space: for a message too little for its bytes and
      its length, for a stream too little for all the bytes, or for as many as the buffer can ever hold.  A message
      that can never fit is not waited with. */
  lemma SendBlocks(s: State, e: Event)
    requires Inv(s) && Enabled(s, e) && (e.WStart? || e.WEnter? || e.WLeave?)
    ensures var t := Step(s, e);
            match e
            case WStart(data, wait) =>
              t == s.(writer := if wait && (s.isMessage ==> |data| + HEADER < s.length) then WTop(data)
                                else WLoad(data))
            case WEnter =>
              var data, space := s.writer.data, s.Spaces();
              var blocks := if s.isMessage then space < |data| + HEADER
                            else space < |data| && space < s.length - 1;
              && (t.writer.WWait? <==> blocks)
              && (blocks ==> t.waitingToSend && t.writer == WWait(data, space))
              && (!blocks && space == 0 ==> t.writer == WLoad(data))
              && (!blocks && space > 0 ==> Planned(s.isMessage, data, space, t.writer))
            case WLeave(timedOut) =>
              var data, space := s.writer.data, s.writer.space;
              && !t.waitingToSend
              && (!timedOut ==> t.writer == WTop(data))
              && (timedOut && space == 0 ==> t.writer == WLoad(data))
              && (timedOut && space > 0 ==> Planned(s.isMessage, data, space, t.writer))
            case _ => true
  {
    hide BytesBetween, SpacesBetween, EncodeLength, Stored, InOrder, ReaderOk, NoLostWakeUp, Plan, Planned, ReaderStep;
    WriterFacts(s);
    match e
    case WStart(_, _) =>
    case WEnter =>
      if s.Spaces() >= s.Required(s.writer.data) {
        PlansFitting(s, s.writer.data, s.Spaces());
        PlanShape(s, s.writer.data, s.Spaces());
      }
    case WLeave(_) => PlansFitting(s, s.writer.data, s.writer.space);
  }

  /** A message is copied whole, behind its length, if it fits with that, and else not at all; of a stream the first
      bytes are, as many as fit. */
  ghost predicate Planned(isMessage: bool, data: seq<byte>, space: nat, w: Writer)
    requires |data| < SIZE_MOD
  {
    if isMessage then
      w == if |data| + HEADER <= space then WCopy(data, space, Frame(data), data, 0) else WIdle
    else
      var fits := Fitting(data, space);
      w == if |fits| > 0 then WCopy(data, space, fits, fits, 0) else WIdle
  }

  lemma PlansFitting(s: State, data: seq<byte>, space: nat)
    requires 0 < s.length && |data| + s.Prefix() < SIZE_MOD
    ensures Planned(s.isMessage, data, space, Plan(s, data, space))
  {
    hide EncodeLength;
  }

  /** The space is looked at until the reader has not moved in between; then the copy is planned, and what was copied
      is published, with the reader told exactly if the bytes reach its level. */
  lemma SendOutcome(s: State, e: Event)
    requires Inv(s) && Enabled(s, e)
    ensures var t := Step(s, e);
            match e
            case WReadTail => t.writer == WLoaded(s.writer.data, s.tail)
            case WReadAgain => t.writer == WSummed(s.writer.data, s.writer.original, s.Spaces())
            case WCompare =>
              if s.writer.original != s.tail then t.writer == WLoad(s.writer.data)
              else Planned(s.isMessage, s.writer.data, s.writer.space, t.writer)
            case WPublish =>
              if s.writer.payload == [] then t.writer == WIdle
              else t.writer == WPublished(s.writer.data, s.writer.space, s.writer.payload)
                   && t.written == s.written + s.writer.frame
                   && t.sent == s.sent + if s.isMessage then [s.writer.payload] else []
            case WCheck =>
              t.writer == if s.Bytes() >= s.trigger then WComplete(s.writer.data) else WIdle
            case WNotify =>
              && t.writer == WIdle && !t.waitingToReceive
              && t.readerNotified == (s.readerNotified || s.waitingToReceive)
            case _ => true
  {
    hide BytesBetween, SpacesBetween, EncodeLength, Stored, InOrder, ReaderOk, NoLostWakeUp, Plan, Planned, Advance,
         ReaderStep, WriteSlot;
    WriterFacts(s);
    if e.WCompare? { PlansFitting(s, s.writer.data, s.writer.space); }
  }

  /** How a receive goes on: it blocks if it may and finds nothing, and looks once more when it was woken. */
  lemma ReceiveBlocks(s: State, e: Event)
    requires Inv(s) && Enabled(s, e) && (e.RStart? || e.RWake? || e.RClear? || e.RReadHead?)
    ensures var t := Step(s, e);
            match e
            case RStart(room, wait) =>
              && (wait && s.Bytes() == 0 ==> t.reader == RWait(room) && t.waitingToReceive)
              && (wait && s.Bytes() > 0 ==> Taking(s, room, t.reader))
              && (!wait ==> t.reader == RLoad(room))
            case RClear => t.reader == RLoad(s.reader.room) && !t.waitingToReceive
            case RReadHead => if s.Bytes() == 0 then t.reader == RIdle else Taking(s, s.reader.room, t.reader)
            case RWake => t.reader == RBack(s.reader.room)
            case _ => true
  {
    hide BytesBetween, SpacesBetween, EncodeLength, DecodeLength, Stored, InOrder, WriterOk, ReaderOk, NoLostWakeUp,
         Advance, WriterStep;
    WholeMessages(s);
  }

  /** What is handed over: as many bytes of a stream as there were when the receive looked and as fit, or the oldest
      message if that fits.  The sender is told exactly if it waits. */
  lemma ReceiveOutcome(s: State, e: Event)
    requires Inv(s) && Enabled(s, e)
    ensures var t := Step(s, e);
            match e
            case RPlan =>
              && |s.received| < |s.sent|
              && var n := |s.sent[|s.received|]|;
              t.reader == if n <= s.reader.room then RCopy(s.reader.room, s.reader.available, HEADER, n, [])
                          else RIdle
            case RPublish =>
              && t.reader == RPublished(s.reader.room, s.reader.available, s.reader.got)
              && t.read == s.read + s.reader.got
              && t.received == s.received + if s.isMessage then [s.reader.got] else []
            case RNotify =>
              && t.reader == RIdle && !t.waitingToSend
              && t.writerNotified == (s.writerNotified || s.waitingToSend)
            case _ => true
  {
    hide BytesBetween, SpacesBetween, EncodeLength, DecodeLength, Stored, InOrder, WriterOk, NoLostWakeUp, Advance,
         WriterStep;
    if e.RPlan? { LengthRead(s); }
  }

  /** The bytes there are, all counted at once. */
  ghost predicate Taking(s: State, room: nat, r: Reader)
    requires Shape(s)
  {
    var n := s.Bytes();
    if s.isMessage then r == RLength(room, n, [])
    else if room == 0 then r == RIdle
    else r == RCopy(room, n, 0, if room <= n then room else n, [])
  }

  // ---------------------------------------------------------------- whole runs

  /** A trigger level that no blocked reader is already past. */
  ghost predicate LevelMissesNobody(s: State, level: nat)
    requires Shape(s)
  {
    var t := WithTrigger(s, level).trigger;
    s.reader.RWait? && s.waitingToReceive ==> s.Bytes() < t || s.writer.WPublished? || s.writer.WComplete?
  }

  /** Changing the trigger level wakes nobody, so it keeps the invariant exactly when no blocked reader
      already has that many bytes. */
  lemma SetTriggerInv(s: State, level: nat)
    requires Inv(s)
    ensures Inv(Step(s, SetTrigger(level))) <==> LevelMissesNobody(s, level)
  {
    hide BytesBetween, SpacesBetween, Slot, EncodeLength, Stored, InOrder, WriterOk, ReaderOk, WriterStep, ReaderStep;
    var t := Step(s, SetTrigger(level));
    DataKept(s, t);
    assert NoLostWakeUp(t) <==> LevelMissesNobody(s, level);
  }

  /** What a caller can see: a level above the bytes available is always safe.  While a reader is blocked and the
      writer is done with its last send, no other is. */
  lemma LevelAboveBytes(s: State, level: nat)
    requires Inv(s)
    ensures var safe := (if level == 0 then 1 else level) > s.Bytes();
            && (safe ==> Inv(Step(s, SetTrigger(level))))
            && (s.reader.RWait? && s.waitingToReceive && s.writer.WIdle? ==>
               (Inv(Step(s, SetTrigger(level))) <==> safe))
  {
    SetTriggerInv(s, level);
    WriterFacts(s);
    hide BytesBetween, Inv, Step;
    if s.reader.RWait? && s.waitingToReceive && s.writer.WIdle? { BlockedBelow(s); }
  }

  lemma BlockedBelow(s: State)
    requires Inv(s) && s.reader.RWait? && s.waitingToReceive && s.writer.WIdle?
    ensures s.Bytes() < s.trigger
  {
    hide BytesBetween, Stored, InOrder, WriterOk, ReaderOk;
  }

  /** A run of a stream buffer of three bytes: a reader waits for two, and one is sent. */
  function OneSent(k: nat): State {
    var s := Fresh(4, false, 2, [0, 0, 0, 0]);
    var blocked := s.(waitingToReceive := true, reader := RWait(1));
    var sent := blocked.(buffer := [7, 0, 0, 0], head := 1, written := [7]);
    if k == 0 then s
    else if k == 1 then blocked
    else if k == 2 then blocked.(writer := WLoad([7]))
    else if k == 3 then blocked.(writer := WLoaded([7], 0))
    else if k == 4 then blocked.(writer := WSummed([7], 0, 3))
    else if k == 5 then blocked.(writer := WCopy([7], 3, [7], [7], 0))
    else if k == 6 then blocked.(buffer := [7, 0, 0, 0], writer := WCopy([7], 3, [7], [7], 1))
    else if k == 7 then sent.(writer := WPublished([7], 3, [7]))
    else sent
  }

  const ONE_SEND: seq<Event> := [RStart(1, true), WStart([7], false), WReadTail, WReadAgain, WCompare, WByte, WPublish,
      WCheck]

  lemma PlanOne(s: State)
    requires !s.isMessage && 0 < s.length
    ensures Plan(s, [7], 3) == WCopy([7], 3, [7], [7], 0)
  {
    assert [7 as byte][..1] == [7];
  }

  lemma OneLoaded(k: nat)
    requires k < 4
    ensures Shape(OneSent(k)) && Enabled(OneSent(k), ONE_SEND[k]) && Step(OneSent(k), ONE_SEND[k]) == OneSent(k + 1)
  {
  }

  lemma OnePlanned()
    ensures Shape(OneSent(4)) && Enabled(OneSent(4), WCompare) && Step(OneSent(4), WCompare) == OneSent(5)
  {
    hide Plan;
    PlanOne(OneSent(4));
  }

  lemma OneCopied(k: nat)
    requires 5 <= k < 8
    ensures Shape(OneSent(k)) && Enabled(OneSent(k), ONE_SEND[k]) && Step(OneSent(k), ONE_SEND[k]) == OneSent(k + 1)
  {
  }

  lemma {:induction false} OneRun(k: nat)
    requires k <= 8
    ensures Run(OneSent(k), ONE_SEND[k..], OneSent(8))
    decreases 8 - k
  {
    hide Step, Shape, Enabled, OneSent;
    if k < 8 {
      if k < 4 { OneLoaded(k); } else if k == 4 { OnePlanned(); } else { OneCopied(k); }
      assert ONE_SEND[k..][1..] == ONE_SEND[k + 1..];
      OneRun(k + 1);
    }
  }

  /** A blocked reader has the bytes it waits for, and nobody is about to wake it. */
  ghost predicate Stranded(s: State) {
    && Shape(s) && s.reader.RWait? && s.waitingToReceive && !s.readerNotified && s.writer.WIdle?
    && s.Bytes() >= s.trigger
  }

  lemma StrandedBreaks(s: State)
    requires Stranded(s)
    ensures !Inv(s)
  {
    hide BytesBetween, Stored, InOrder, WriterOk, ReaderOk;
  }

  lemma OneLowered()
    ensures WithTrigger(OneSent(8), 1) == OneSent(8).(trigger := 1) && Stranded(OneSent(8).(trigger := 1))
  {
  }

  /** Then the level is set to 1: the byte that is there would do, and nobody wakes the reader. */
  lemma LoweredLevelStrands()
    ensures Run(Fresh(4, false, 2, [0, 0, 0, 0]), ONE_SEND, OneSent(8))
    ensures Stranded(WithTrigger(OneSent(8), 1)) && !Inv(WithTrigger(OneSent(8), 1))
  {
    OneRun(0);
    assert ONE_SEND[0..] == ONE_SEND;
    hide Run, Shape, Stranded, Inv;
    OneLowered();
    StrandedBreaks(OneSent(8).(trigger := 1));
  }

  /** A call keeps its arguments from its start to its end. */
  lemma ArgumentsKept(s: State, e: Event)
    requires Shape(s) && Enabled(s, e)
    ensures var t := Step(s, e);
            && (e.WStart? ==> t.writer.data == e.data)
            && (ByWriter(e) && !e.WStart? ==> t.writer.WIdle? || t.writer.data == s.writer.data)
            && (!ByWriter(e) ==> t.writer == s.writer)
            && (e.RStart? ==> t.reader.RIdle? || t.reader.room == e.room)
            && (!ByWriter(e) && !e.RStart? && !e.SetTrigger? ==> t.reader.RIdle? || t.reader.room == s.reader.room)
            && (ByWriter(e) || e.SetTrigger? ==> t.reader == s.reader)
  {
    hide BytesBetween, SpacesBetween, EncodeLength, DecodeLength, Stored, InOrder, ReaderOk, WriterOk, NoLostWakeUp,
         Advance, CopySlot, WriteSlot, State.Bytes, State.Spaces, State.Required;
    if ByWriter(e) { hide ReaderStep; } else { hide WriterStep; }
  }

  lemma StepInv(s: State, e: Event)
    requires Inv(s) && Enabled(s, e) && (e.SetTrigger? ==> LevelMissesNobody(s, e.level))
    ensures Inv(Step(s, e))
  {
    hide Inv, Step, Shape;
    match e
    case SetTrigger(level) => SetTriggerInv(s, level);
    case WByte => ByteStepInv(s);
    case WPublish => if s.writer.payload == [] { WriterControlInv(s, e); } else { PublishInv(s); }
    case RPublish => ConsumeInv(s);
    case RPlan => PlanInv(s);
    case RLengthByte => ByteReadInv(s, e);
    case RByte => ByteReadInv(s, e);
    case RStart(_, _) => ReaderControlInv(s, e);
    case RWake => ReaderControlInv(s, e);
    case RClear => ReaderControlInv(s, e);
    case RReadHead => ReaderControlInv(s, e);
    case RNotify => ReaderControlInv(s, e);
    case _ => WriterControlInv(s, e);
  }

  /** A writer that is neither idle nor blocked can take its next step ... */
  lemma WriterNeverStuck(s: State)
    requires Inv(s)
    ensures s.writer.WIdle? || s.writer.WWait? || exists e :: ByWriter(e) && Enabled(s, e)
  {
    hide BytesBetween, SpacesBetween, Slot, EncodeLength, Stored, InOrder, ReaderOk, NoLostWakeUp, Inv;
    var e := match s.writer
      case WTop(_) => WEnter
      case WBack(_, _) => WLeave(false)
      case WLoad(_) => WReadTail
      case WLoaded(_, _) => WReadAgain
      case WSummed(_, _, _) => WCompare
      case WCopy(_, _, frame, _, done) => if done < |frame| then WByte else WPublish
      case WPublished(_, _, _) => WCheck
      case _ => WNotify;
    assert Shape(s) && WriterOk(s) by { WriterFacts(s); }
    assert ByWriter(e);
    if !s.writer.WIdle? && !s.writer.WWait? {
      assert Enabled(s, e);
    }
  }

  /** ... and so can a reader: the array bounds and the assertions of the code never stand in the way. */
  lemma ReaderNeverStuck(s: State)
    requires Inv(s)
    ensures s.reader.RIdle? || s.reader.RWait? || exists e :: !ByWriter(e) && !e.SetTrigger? && Enabled(s, e)
  {
    hide BytesBetween, SpacesBetween, Slot, EncodeLength, Stored, InOrder, WriterOk, NoLostWakeUp, Inv;
    var e := match s.reader
      case RBack(_) => RClear
      case RLoad(_) => RReadHead
      case RLength(_, _, got) => if |got| < HEADER then RLengthByte else RPlan
      case RCopy(_, _, _, count, got) => if |got| < count then RByte else RPublish
      case _ => RNotify;
    assert Shape(s) && ReaderOk(s) by { ReaderFacts(s); }
    assert !ByWriter(e) && !e.SetTrigger?;
    if !s.reader.RIdle? && !s.reader.RWait? {
      assert Enabled(s, e);
    }
  }

  lemma WriterFacts(s: State)
    requires Inv(s)
    ensures Shape(s) && WriterOk(s) && s.Spaces() < s.length && s.Bytes() < s.length
  {
    hide Stored, InOrder, ReaderOk, NoLostWakeUp, WriterOk;
  }

  lemma ReaderFacts(s: State)
    requires Inv(s)
    ensures Shape(s) && Stored(s) && InOrder(s) && ReaderOk(s) && s.Bytes() < s.length
  {
    hide Stored, InOrder, WriterOk, NoLostWakeUp, ReaderOk;
  }

  /** A buffer as prvInitialiseNewStreamBuffer makes it. */
  function Fresh(length: nat, isMessage: bool, trigger: nat, storage: seq<byte>): State {
    State(length, isMessage, trigger, storage, 0, 0, false, false, false, false, WIdle, RIdle, [], 0, [], [], [])
  }

  lemma FreshInv(length: nat, isMessage: bool, trigger: nat, storage: seq<byte>)
    requires (if isMessage then HEADER else 0) + 1 < length == |storage| && 0 < trigger
    ensures Inv(Fresh(length, isMessage, trigger, storage))
  {
  }

  ghost predicate Run(s: State, es: seq<Event>, t: State)
    decreases |es|
  {
    if es == [] then t == s
    else
      && Shape(s) && Enabled(s, es[0]) && (es[0].SetTrigger? ==> LevelMissesNobody(s, es[0].level))
      && Run(Step(s, es[0]), es[1..], t)
  }

  lemma {:induction false} RunInv(s: State, es: seq<Event>, t: State)
    requires Inv(s) && Run(s, es, t)
    ensures Inv(t)
    decreases |es|
  {
    if es != [] {
      StepInv(s, es[0]);
      RunInv(Step(s, es[0]), es[1..], t);
    }
  }

  /** What a receive with room for `room` bytes, that counted `available`, has just handed over: of a stream the
      smaller number of bytes, and those that come next; of messages the next one, which fits. */
  ghost predicate HandedOver(t: State, room: nat, available: nat, got: seq<byte>) {
    && 0 < |got| <= room
    && if t.isMessage then t.received != [] && got == t.received[|t.received| - 1]
       else && (|got| == room || |got| == available) && |got| <= available
            && |got| <= |t.read| && got == t.read[|t.read| - |got|..]
  }

  /** What a send of `data`, that counted `space`, has just added: of a stream the first bytes, as many as there was
      space for; or the message, whole. */
  ghost predicate TakenOver(t: State, data: seq<byte>, space: nat, payload: seq<byte>) {
    if t.isMessage then
      payload == data && |data| + HEADER <= space && t.sent != [] && t.sent[|t.sent| - 1] == data
    else
      && payload <= data && 0 < |payload| <= space && (|payload| == |data| || |payload| == space)
      && |payload| <= |t.written| && payload == t.written[|t.written| - |payload|..]
  }

  /** After any interleaving: bytes come out as a prefix of what went in; messages come out whole and in
      order; a receive hands over exactly what it found and its caller has room for, and a send adds exactly what
      its caller asked for and there was space for;
          with both sides idle the bytes and spaces reported add up to the length less one; and a
      blocked side has been notified or still has nothing to do, unless the other is about to look. */
  lemma AnyInterleaving(length: nat, isMessage: bool, trigger: nat, storage: seq<byte>, es: seq<Event>, t: State)
    requires (if isMessage then HEADER else 0) + 1 < length == |storage| && 0 < trigger
    requires Run(Fresh(length, isMessage, trigger, storage), es, t)
    ensures Inv(t)
    ensures t.isMessage ==> |t.received| <= |t.sent| && forall i :: 0 <= i < |t.received| ==> t.received[i] == t.sent[i]
    ensures !t.isMessage ==> t.consumed <= |t.written| && t.read == t.written[..t.consumed]
    ensures t.Bytes() + t.Spaces() == t.length - 1
    ensures t.reader.RCopy? ==> t.reader.count <= t.reader.room
    ensures t.reader.RPublished? ==> HandedOver(t, t.reader.room, t.reader.available, t.reader.got)
    ensures t.writer.WPublished? ==> TakenOver(t, t.writer.data, t.writer.space, t.writer.payload)
    ensures t.writer.WSummed? ==> t.writer.space <= t.Spaces()
    ensures t.reader.RLength? ==> t.reader.available <= t.Bytes()
    ensures t.writer.WWait? ==> t.writerNotified || t.Spaces() < t.Required(t.writer.data) || t.reader.RPublished?
    ensures t.reader.RWait? ==> t.readerNotified || t.Bytes() < t.trigger || t.writer.WPublished? || t.writer.WComplete?
  {
    FreshInv(length, isMessage, trigger, storage);
    RunInv(Fresh(length, isMessage, trigger, storage), es, t);
    BytesPlusSpaces(t.length, t.head, t.tail);
    hide BytesBetween, SpacesBetween, EncodeLength, Stored, Run;
  }

  /** A message that does not fit the caller's buffer stays where it is. */
  lemma TooSmallBuffer(s: State)
    requires Inv(s) && Enabled(s, RPlan) && |s.received| < |s.sent| && |s.sent[|s.received|]| > s.reader.room
    ensures var t := Step(s, RPlan); t.reader.RIdle? && SameData(s, t)
  {
    hide BytesBetween, SpacesBetween, Slot, EncodeLength, DecodeLength;
    LengthRead(s);
  }
}
