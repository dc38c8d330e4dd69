/** The XMODEM-CRC receiver of the boot loader (bootrom/main.c:62-204), over any stream of bytes.  The UART
    is the stream to read and a log of the bytes written; where the stream ends the receiver waits for ever. */
module Xmodem {
  import opened Crc16

  const SOH: byte8 := 0x01
  const EOT: byte8 := 0x04
  const ACK: byte8 := 0x06
  const NAK: byte8 := 0x15
  const CAN: byte8 := 0x18

  const BLOCK: nat := 128
  /** Header, number, complement, data, CRC. */
  const FRAME: nat := 133

  /** What one call of xmodem_receive_block does: the code it returns, where it leaves the stream, the byte it
      answers, and for an accepted block its number and data. */
  datatype Reply = Starved | Reply(code: int, next: nat, answer: byte8, num: byte8, data: seq<byte8>)

  /** A number and its complement. */
  predicate Complements(num: byte8, inverse: byte8) { num + inverse == 0xff }

  /** Block numbers go round after 255. */
  function NextNum(last: byte8): byte8 { last + 1 }

  function Refused(next: nat): Reply { Reply(-1, next, NAK, 0, []) }

  function ParseBlock(input: seq<byte8>, pos: nat, last: byte8): (r: Reply)
    requires pos <= |input|
    ensures r.Reply? ==> pos < r.next <= |input|
    ensures r.Reply? && r.code > 0 ==> |r.data| == BLOCK == r.code
  {
    if pos == |input| then Starved
    else if input[pos] == EOT then Reply(0, pos + 1, ACK, 0, [])
    else if input[pos] == CAN then
      if pos + 1 == |input| then Starved
      else if input[pos + 1] == CAN then Reply(-2, pos + 2, ACK, 0, [])
      else Refused(pos + 2)
    else if input[pos] != SOH then Refused(pos + 1)
    else if pos + 3 > |input| then Starved
    else if !Complements(input[pos + 1], input[pos + 2]) then Refused(pos + 3)
    else if pos + FRAME > |input| then Starved
    else if !Accepted(input[pos + 3..pos + FRAME]) then Refused(pos + FRAME)
    else if input[pos + 1] != NextNum(last) then Refused(pos + FRAME)
    else Reply(BLOCK, pos + FRAME, ACK, input[pos + 1], input[pos + 3..pos + 3 + BLOCK])
  }

  /** The state of xmodem_receive between blocks. */
  datatype Session = Session(
    pos: nat,
    last: byte8,              // block_num
    errors: nat,
    stored: seq<byte8>,       // what was written to memory, from dest_addr on
    out: seq<byte8>,          // what was sent
    frames: seq<nat>          // where in the stream each accepted block starts
  )

  datatype Final = Waiting(s: Session) | Returned(s: Session, value: int)

  function Receive(input: seq<byte8>, s: Session, maxSize: nat): Final
    requires s.pos <= |input|
    decreases |input| - s.pos
  {
    var r := ParseBlock(input, s.pos, s.last);
    if r.Starved? then Waiting(s)
    else if r.code > 0 then
      var s' := Session(r.next, r.num, 0, s.stored + r.data, s.out + [r.answer], s.frames + [s.pos]);
      if |s'.stored| > maxSize then Returned(s'.(out := s'.out + [CAN, CAN]), -1)
      else Receive(input, s', maxSize)
    else
      var s' := s.(pos := r.next, out := s.out + [r.answer]);
      if r.code == 0 then Returned(s', |s.stored|)
      else if s.errors + 1 > 3 then Returned(s'.(errors := s.errors + 1, out := s'.out + [CAN, CAN]), -1)
      else Receive(input, s'.(errors := s.errors + 1), maxSize)
  }

  function Begin(pos: nat, out: seq<byte8>): Session {
    Session(pos, 0, 0, [], out, [])
  }

  // ---------------------------------------------------------------- the receiver

  datatype Result = Starving | Code(value: int)

  class Loader {
    const input: seq<byte8>
    var pos: nat
    var out: seq<byte8>
    const memory: array<byte8>

    constructor (input: seq<byte8>, memory: array<byte8>)
      ensures this.input == input && this.memory == memory && pos == 0 && out == []
    {
      this.input, this.memory, pos, out := input, memory, 0, [];
    }

    /** uart_getc; false where the stream ends. */
    method GetC() returns (ok: bool, c: byte8)
      requires pos <= |input|
      modifies `pos
      ensures ok <==> old(pos) < |input|
      ensures ok ==> c == input[old(pos)] && pos == old(pos) + 1
      ensures !ok ==> pos == old(pos)
    {
      ok, c := pos < |input|, 0;
      if ok {
        c := input[pos];
        pos := pos + 1;
      }
    }

    method PutC(c: byte8)
      modifies `out
      ensures out == old(out) + [c]
    {
      out := out + [c];
    }

    /** The loop that reads the data of a block. */
    method ReadData(data: array<byte8>) returns (ok: bool)
      requires pos <= |input| && data.Length == BLOCK && data != memory
      modifies `pos, data
      ensures old(pos) <= pos <= |input|
      ensures ok <==> old(pos) + BLOCK <= |input|
      ensures ok ==> pos == old(pos) + BLOCK && data[..] == input[old(pos)..pos]
    {
      ok := true;
      for i := 0 to BLOCK
        invariant pos == old(pos) + i <= |input| && ok
        invariant data[..i] == input[old(pos)..pos]
      {
        var c;
        ok, c := GetC();
        if !ok { return; }
        data[i] := c;
      }
    }

    /** The loop that copies an accepted block to memory. */
    method CopyOut(buffer: nat, data: array<byte8>)
      requires buffer + BLOCK <= memory.Length && data.Length == BLOCK && data != memory
      modifies memory
      ensures memory[..] == old(memory[..buffer]) + data[..] + old(memory[buffer + BLOCK..])
    {
      ghost var was := memory[..];
      for i := 0 to BLOCK
        invariant |memory[..]| == |was| && memory[..buffer] == was[..buffer]
                  && memory[buffer + i..] == was[buffer + i..]
        invariant memory[buffer..buffer + i] == data[..i]
      {
        memory[buffer + i] := data[i];
      }
      assert memory[..] == memory[..buffer] + memory[buffer..buffer + BLOCK] + memory[buffer + BLOCK..];
    }

    /** xmodem_receive_block. */
    method ReceiveBlock(buffer: nat, blockNum: byte8) returns (result: Result, newBlockNum: byte8)
      requires pos <= |input| && buffer + BLOCK <= memory.Length
      modifies `pos, `out, memory
      ensures pos <= |input|
      ensures var r := ParseBlock(input, old(pos), blockNum);
              && (result.Starving? <==> r.Starved?)
              && (r.Starved? ==> out == old(out) && memory[..] == old(memory[..]) && newBlockNum == blockNum)
              && (r.Reply? ==>
                    && result == Code(r.code) && pos == r.next && out == old(out) + [r.answer]
                    && newBlockNum == (if r.code > 0 then r.num else blockNum)
                    && memory[..] == if r.code > 0 then old(memory[..buffer]) + r.data + old(memory[buffer + BLOCK..])
                       else old(memory[..]))
    {
      hide Crc, Accepted, Join, Complements, NextNum;
      result, newBlockNum := Starving, blockNum;
      ghost var start := pos;
      var ok, header := GetC();
      if !ok { return; }
      if header == EOT {
        PutC(ACK);
        return Code(0), blockNum;
      }
      if header == CAN {
        var ok2, second := GetC();
        if !ok2 { return; }
        if second == CAN {
          PutC(ACK);
          return Code(-2), blockNum;
        }
      }
      if header != SOH {
        PutC(NAK);
        return Code(-1), blockNum;
      }
      var okN, num := GetC();
      if !okN { return; }
      var okI, inverse := GetC();
      if !okI { return; }
      if !Complements(num, inverse) {
        PutC(NAK);
        return Code(-1), blockNum;
      }
      var data := new byte8[BLOCK];
      var okD := ReadData(data);
      if !okD { return; }
      assert data[..] == input[start + 3..start + 3 + BLOCK];
      var okH, hi := GetC();
      if !okH { return; }
      var okL, lo := GetC();
      if !okL { return; }
      var received := Join(hi, lo);
      var calculated := CalcCrc16(data, BLOCK);
      assert data[..BLOCK] == data[..];
      TestedUnit(input, start, data[..]);
      if received != calculated {
        PutC(NAK);
        return Code(-1), blockNum;
      }
      var expected := NextNum(blockNum);
      if num != expected {
        PutC(NAK);
        return Code(-1), blockNum;
      }
      CopyOut(buffer, data);
      newBlockNum := num;
      PutC(ACK);
      result := Code(BLOCK);
    }

    /** xmodem_receive, once a first byte is there. */
    method ReceiveAll(maxSize: nat) returns (result: Result)
      requires pos <= |input| && maxSize + BLOCK <= memory.Length
      modifies `pos, `out, memory
      ensures var f := Receive(input, Begin(old(pos), old(out)), maxSize); var n := |f.s.stored|;
              && (result.Starving? <==> f.Waiting?) && (f.Returned? ==> result == Code(f.value) && pos == f.s.pos)
              && out == f.s.out && n <= maxSize + BLOCK
              && memory[..n] == f.s.stored && memory[n..] == old(memory[n..])
    {
      hide ParseBlock;
      var total, blockNum: byte8, dest, errors := 0, 0, 0, 0;
      ghost var s, f := Begin(pos, out), Receive(input, Begin(pos, out), maxSize);
      while true
        invariant s.pos == pos <= |input| && s.out == out && s.last == blockNum && s.errors == errors
        invariant total == dest == |s.stored| <= maxSize
        invariant memory[..total] == s.stored && memory[total..] == old(memory[total..])
        invariant f == Receive(input, s, maxSize)
        decreases |input| - pos
      {
        ghost var was, r := memory[..], ParseBlock(input, pos, blockNum);
        assert r.Reply? ==> pos < r.next by { ParsedFurther(input, pos, blockNum); }
        result, blockNum := ReceiveBlock(dest, blockNum);
        if result.Starving? {
          return;
        }
        if result.value > 0 {
          BlockStored(was, memory[..], s.stored, r.data, old(memory[..]));
          dest := dest + result.value;
          total := total + result.value;
          errors := 0;
          s := Session(r.next, r.num, 0, s.stored + r.data, s.out + [r.answer], s.frames + [s.pos]);
          if total > maxSize {
            PutC(CAN);
            PutC(CAN);
            return Code(-1);
          }
        } else if result.value == 0 {
          return Code(total);
        } else {
          errors := errors + 1;
          s := s.(pos := r.next, out := s.out + [r.answer], errors := s.errors + 1);
          if errors > 3 {
            PutC(CAN);
            PutC(CAN);
            return Code(-1);
          }
        }
      }
    }
  }

  lemma TestedUnit(input: seq<byte8>, start: nat, data: seq<byte8>)
    requires start + FRAME <= |input| && data == input[start + 3..start + 3 + BLOCK]
    ensures Accepted(input[start + 3..start + FRAME])
            <==> Crc(0, data) == Join(input[start + FRAME - 2], input[start + FRAME - 1])
  {
    hide Crc, Join;
    var unit := input[start + 3..start + FRAME];
    assert unit[..BLOCK] == data;
  }

  lemma ParsedFurther(input: seq<byte8>, pos: nat, last: byte8)
    requires pos <= |input|
    ensures var r := ParseBlock(input, pos, last);
            r.Reply? ==> pos < r.next <= |input| && (r.code > 0 ==> |r.data| == BLOCK == r.code)
  {
    hide ParseBlock;
  }

  lemma BlockStored(was: seq<byte8>, now: seq<byte8>, stored: seq<byte8>, data: seq<byte8>, first: seq<byte8>)
    requires |was| == |first| && |stored| + |data| <= |was|
    requires was[..|stored|] == stored && was[|stored|..] == first[|stored|..]
    requires now == was[..|stored|] + data + was[|stored| + |data|..]
    ensures now[..|stored| + |data|] == stored + data && now[|stored| + |data|..] == first[|stored| + |data|..]
  {
  }

  // ---------------------------------------------------------------- what is received

  /** The number of the n-th block, counted from 1 and going round. */
  function Number(n: nat): byte8 {
    if n == 0 then 0 else NextNum(Number(n - 1))
  }

  /** The value of a byte. */
  function Value(b: byte8): int { b as int }

  lemma NextValue(x: byte8)
    ensures Value(NextNum(x)) == if Value(x) == 255 then 0 else Value(x) + 1
  {
  }

  lemma {:induction false} NumberValue(n: nat)
    ensures Value(Number(n)) == n % 256
  {
    hide NextNum, Value;
    ZeroValue();
    if n > 0 {
      NumberValue(n - 1);
      NextValue(Number(n - 1));
    }
  }

  lemma ZeroValue()
    ensures Value(0) == 0
  {
  }

  /** A whole frame with a given number, whose data passes its CRC. */
  predicate FrameAt(input: seq<byte8>, p: nat, num: byte8) {
    && p + FRAME <= |input| && input[p] == SOH && input[p + 1] == num && Complements(num, input[p + 2])
    && Accepted(input[p + 3..p + FRAME])
  }

  /** The data of some frames, end to end. */
  function Payloads(input: seq<byte8>, frames: seq<nat>): (r: seq<byte8>)
    requires forall i :: 0 <= i < |frames| ==> frames[i] + FRAME <= |input|
    ensures |r| == BLOCK * |frames|
  {
    if frames == [] then []
    else
      var p, before := frames[|frames| - 1], frames[..|frames| - 1];
      Payloads(input, before) + input[p + 3..p + 3 + BLOCK]
  }

  /** The accepted blocks are sound frames of the stream, one behind the other, numbered 1, 2, ... going round
      after 255, and memory holds their data in that order. */
  ghost predicate Sound(input: seq<byte8>, s: Session) {
    && s.pos <= |input|
    && (forall i :: 0 <= i < |s.frames| ==> FrameAt(input, s.frames[i], Number(i + 1)))
    && (forall i, j :: 0 <= i < j < |s.frames| ==> s.frames[i] + FRAME <= s.frames[j])
    && (forall i :: 0 <= i < |s.frames| ==> s.frames[i] + FRAME <= s.pos)
    && s.stored == Payloads(input, s.frames)
    && s.last == Number(|s.frames|)
  }

  lemma ParsedSound(input: seq<byte8>, s: Session)
    requires Sound(input, s)
    ensures var r := ParseBlock(input, s.pos, s.last);
            && (r.Reply? && r.code > 0 ==>
                  Sound(input, Session(r.next, r.num, 0, s.stored + r.data, s.out + [r.answer], s.frames + [s.pos])))
            && (r.Reply? && r.code <= 0 ==> forall e, out :: Sound(input, s.(pos := r.next, errors := e, out := out)))
  {
    hide Accepted, NextNum, Complements, FrameAt, ParseBlock;
    var r := ParseBlock(input, s.pos, s.last);
    ParsedFurther(input, s.pos, s.last);
    if r.Reply? && r.code > 0 {
      var frames := s.frames + [s.pos];
      assert frames[..|frames| - 1] == s.frames;
      assert Number(|frames|) == NextNum(s.last);
      ParsedFrame(input, s.pos, s.last);
    }
  }

  /** An accepted block is a sound frame with the expected number. */
  lemma ParsedFrame(input: seq<byte8>, pos: nat, last: byte8)
    requires pos <= |input| && ParseBlock(input, pos, last).Reply? && ParseBlock(input, pos, last).code > 0
    ensures var r := ParseBlock(input, pos, last);
            && FrameAt(input, pos, NextNum(last)) && r.num == NextNum(last) && r.next == pos + FRAME
            && r.data == input[pos + 3..pos + 3 + BLOCK]
  {
    hide Accepted, NextNum, Complements;
  }

  /** Whatever the stream: a result that is not negative is a multiple of 128 and at most the size allowed,
      and memory holds the accepted blocks in order; a negative one means four errors in a row, or one block
      more than fits; and no more than that block is ever written beyond the size allowed, just when the download
      fails right after a sound block. */
  lemma {:induction false} ReceiveSound(input: seq<byte8>, s: Session, maxSize: nat)
    requires Sound(input, s) && |s.stored| <= maxSize && s.errors <= 3
    ensures var f := Receive(input, s, maxSize);
            && Sound(input, f.s) && s.frames <= f.s.frames && |f.s.stored| <= maxSize + BLOCK
            && (f.Returned? && f.value >= 0 ==> f.value == |f.s.stored| <= maxSize && f.value % BLOCK == 0)
            && (f.Returned? && f.value < 0 ==> f.value == -1 && (f.s.errors == 4 || |f.s.stored| > maxSize))
            && (f.Waiting? ==> |f.s.stored| <= maxSize && f.s.errors <= 3)
            && (|f.s.stored| > maxSize <==> f.Returned? && f.value < 0 && f.s.errors == 0)
    decreases |input| - s.pos
  {
    hide ParseBlock, Sound, Payloads;
    SoundFacts(input, s);
    ParsedSound(input, s);
    var r := ParseBlock(input, s.pos, s.last);
    if r.Starved? {
    } else if r.code > 0 {
      var s' := Session(r.next, r.num, 0, s.stored + r.data, s.out + [r.answer], s.frames + [s.pos]);
      if |s'.stored| <= maxSize {
        ReceiveSound(input, s', maxSize);
      } else {
        SoundOut(input, s', s'.out + [CAN, CAN]);
      }
    } else {
      var s' := s.(pos := r.next, out := s.out + [r.answer]);
      if r.code < 0 && s.errors + 1 <= 3 {
        ReceiveSound(input, s'.(errors := s.errors + 1), maxSize);
      }
      assert s' == s.(pos := r.next, errors := s.errors, out := s.out + [r.answer]);
    }
  }

  lemma SoundFacts(input: seq<byte8>, s: Session)
    requires Sound(input, s)
    ensures s.pos <= |input| && (forall i :: 0 <= i < |s.frames| ==> s.frames[i] + FRAME <= |input|)
            && s.stored == Payloads(input, s.frames)
  {
    hide Accepted, Complements, Number;
  }

  lemma SoundOut(input: seq<byte8>, s: Session, out: seq<byte8>)
    requires Sound(input, s)
    ensures Sound(input, s.(out := out))
  {
    hide Accepted, Complements, Number;
  }

  /** The whole of xmodem_receive, from its beginning. */
  lemma ReceivedWhole(input: seq<byte8>, pos: nat, out: seq<byte8>, maxSize: nat, i: nat)
    requires pos <= |input|
    ensures var f := Receive(input, Begin(pos, out), maxSize); var n := |f.s.frames|;
            && (forall j :: 0 <= j < n ==> f.s.frames[j] + FRAME <= |input|)
            && |f.s.stored| <= maxSize + BLOCK && f.s.stored == Payloads(input, f.s.frames)
            && (f.Returned? && f.value >= 0 ==> f.value == BLOCK * n <= maxSize)
            && (i < n ==> FrameAt(input, f.s.frames[i], Number(i + 1)) && Value(Number(i + 1)) == (i + 1) % 256)
  {
    hide FrameAt, Receive;
    assert Sound(input, Begin(pos, out));
    ReceiveSound(input, Begin(pos, out), maxSize);
    SoundFacts(input, Receive(input, Begin(pos, out), maxSize).s);
    NumberValue(i + 1);
  }

  // ---------------------------------------------------------------- round trip

  function HighByte(c: Word): byte8 { ((c >> 8) & 0xff) as bv8 }

  function LowByte(c: Word): byte8 { (c & 0xff) as bv8 }

  lemma JoinSplitRaw(c: bv16)
    ensures (((((c >> 8) & 0xff) as bv8) as bv16) << 8) | (((c & 0xff) as bv8) as bv16) == c
  {
  }

  lemma JoinSplit(c: Word)
    ensures Join(HighByte(c), LowByte(c)) == c
  {
    JoinSplitRaw(c);
  }

  /** A sender's frame. */
  function Frame(num: byte8, data: seq<byte8>): (r: seq<byte8>)
    requires |data| == BLOCK
    ensures |r| == FRAME
  {
    [SOH, num, !num] + data + [HighByte(Crc(0, data)), LowByte(Crc(0, data))]
  }

  /** What a sender that is never refused sends: the blocks from number k + 1 on, and the end. */
  function Transmission(blocks: seq<seq<byte8>>, k: nat): seq<byte8>
    requires forall b :: b in blocks ==> |b| == BLOCK
  {
    if blocks == [] then [EOT] else Frame(Number(k + 1), blocks[0]) + Transmission(blocks[1..], k + 1)
  }

  function Joined(blocks: seq<seq<byte8>>): seq<byte8> {
    if blocks == [] then [] else blocks[0] + Joined(blocks[1..])
  }

  function Acks(n: nat): (r: seq<byte8>)
    ensures |r| == n
  {
    seq(n, _ => ACK)
  }

  lemma ComplementRaw(x: bv8)
    ensures x + !x == 0xff
  {
  }

  lemma SliceOfSlice<T>(s: seq<T>, a: nat, b: nat, i: nat, j: nat)
    requires a <= b <= |s| && i <= j <= b - a
    ensures s[a..b][i..j] == s[a + i..a + j]
  {
    forall k | 0 <= k < j - i ensures s[a..b][i..j][k] == s[a + i..a + j][k] {
      assert s[a..b][i + k] == s[a + (i + k)];
    }
  }

  lemma FrameParsed(input: seq<byte8>, pos: nat, last: byte8, data: seq<byte8>)
    requires |data| == BLOCK && pos + FRAME <= |input| && input[pos..pos + FRAME] == Frame(NextNum(last), data)
    ensures ParseBlock(input, pos, last) == Reply(BLOCK, pos + FRAME, ACK, NextNum(last), data)
  {
    hide Crc, Join, NextNum;
    var c, f := Crc(0, data), Frame(NextNum(last), data);
    JoinSplit(c);
    ComplementRaw(NextNum(last));
    var got := input[pos..pos + FRAME];
    assert input[pos] == got[0] == f[0] && input[pos + 1] == got[1] == f[1] && input[pos + 2] == got[2] == f[2];
    assert got[3..3 + BLOCK] == f[3..3 + BLOCK] == data;
    SliceOfSlice(input, pos, pos + FRAME, 3, 3 + BLOCK);
    assert input[pos + FRAME - 2] == got[FRAME - 2] == f[FRAME - 2];
    assert input[pos + FRAME - 1] == got[FRAME - 1] == f[FRAME - 1];
    TestedUnit(input, pos, data);
  }

  /** The first block of what is still to come is accepted. */
  lemma TransmissionHead(input: seq<byte8>, pos: nat, last: byte8, blocks: seq<seq<byte8>>, k: nat)
    requires pos <= |input| && last == Number(k) && blocks != [] && forall b :: b in blocks ==> |b| == BLOCK
    requires input[pos..] == Transmission(blocks, k)
    ensures ParseBlock(input, pos, last) == Reply(BLOCK, pos + FRAME, ACK, Number(k + 1), blocks[0])
    ensures pos + FRAME <= |input| && input[pos + FRAME..] == Transmission(blocks[1..], k + 1)
  {
    hide Frame, ParseBlock, NextNum;
    var f := Frame(Number(k + 1), blocks[0]);
    assert input[pos..pos + FRAME] == input[pos..][..FRAME] == f;
    FrameParsed(input, pos, last, blocks[0]);
    assert input[pos + FRAME..] == input[pos..][FRAME..];
  }

  /** What is sent is received, byte for byte, and every block and the end are acknowledged. */
  lemma {:induction false} RoundTrip(input: seq<byte8>, s: Session, blocks: seq<seq<byte8>>, k: nat, maxSize: nat)
    requires s.pos <= |input| && s.last == Number(k) && (forall b :: b in blocks ==> |b| == BLOCK)
    requires input[s.pos..] == Transmission(blocks, k) && |s.stored| + BLOCK * |blocks| <= maxSize
    ensures var f := Receive(input, s, maxSize);
            && f.Returned? && f.value == |s.stored| + BLOCK * |blocks| && f.s.pos == |input|
            && f.s.stored == s.stored + Joined(blocks) && f.s.out == s.out + Acks(|blocks| + 1)
    decreases |blocks|
  {
    hide Frame, ParseBlock, NextNum, Number, Transmission;
    if blocks == [] {
      TransmissionEnd(input, s.pos, k);
      EndParsed(input, s.pos, s.last);
      assert Acks(1) == [ACK];
    } else {
      TransmissionHead(input, s.pos, s.last, blocks, k);
      var s' := Session(s.pos + FRAME, Number(k + 1), 0, s.stored + blocks[0], s.out + [ACK], s.frames + [s.pos]);
      RoundTrip(input, s', blocks[1..], k + 1, maxSize);
      assert s.stored + blocks[0] + Joined(blocks[1..]) == s.stored + (blocks[0] + Joined(blocks[1..]));
      assert s.out + [ACK] + Acks(|blocks|) == s.out + Acks(|blocks| + 1);
    }
  }

  lemma TransmissionEnd(input: seq<byte8>, pos: nat, k: nat)
    requires pos <= |input| && input[pos..] == Transmission([], k)
    ensures |input| == pos + 1 && input[pos] == EOT
  {
    assert input[pos] == input[pos..][0];
  }

  /** The limit is tested after a block is stored, so memory beyond it is written exactly when more is sent
      than it allows: every block that was stored, the last one too, has been acknowledged by then. */
  lemma {:induction false} OverrunExactly(input: seq<byte8>, s: Session, blocks: seq<seq<byte8>>, k: nat, maxSize: nat)
    requires s.pos <= |input| && s.last == Number(k) && (forall b :: b in blocks ==> |b| == BLOCK)
    requires input[s.pos..] == Transmission(blocks, k) && |s.stored| <= maxSize
    ensures var f, n := Receive(input, s, maxSize), (maxSize - |s.stored|) / BLOCK;
            && (|f.s.stored| > maxSize <==> |s.stored| + BLOCK * |blocks| > maxSize)
            && (|blocks| > n ==>
                  && f.Returned? && f.value == -1 && f.s.stored == s.stored + Joined(blocks[..n + 1])
                  && f.s.out == s.out + Acks(n + 1) + [CAN, CAN])
    decreases |blocks|
  {
    hide Frame, ParseBlock, NextNum, Number, Transmission;
    if blocks == [] {
      TransmissionEnd(input, s.pos, k);
      EndParsed(input, s.pos, s.last);
    } else {
      TransmissionHead(input, s.pos, s.last, blocks, k);
      var n := (maxSize - |s.stored|) / BLOCK;
      var s' := Session(s.pos + FRAME, Number(k + 1), 0, s.stored + blocks[0], s.out + [ACK], s.frames + [s.pos]);
      assert Acks(1) == [ACK];
      if |s'.stored| <= maxSize {
        OverrunExactly(input, s', blocks[1..], k + 1, maxSize);
        FitsLess(maxSize - |s.stored|);
        if |blocks| > n { OverrunJoins(s, blocks, n); }
      } else {
        SmallFit(maxSize - |s.stored|);
        assert blocks[..1][1..] == [];
      }
    }
  }

  lemma FitsLess(room: nat)
    requires room >= BLOCK
    ensures room / BLOCK == (room - BLOCK) / BLOCK + 1
  {
  }

  lemma SmallFit(room: nat)
    requires room < BLOCK
    ensures room / BLOCK == 0
  {
  }

  lemma OverrunJoins(s: Session, blocks: seq<seq<byte8>>, n: nat)
    requires 0 < n < |blocks|
    ensures s.stored + blocks[0] + Joined(blocks[1..][..n]) == s.stored + Joined(blocks[..n + 1])
    ensures s.out + [ACK] + Acks(n) + [CAN, CAN] == s.out + Acks(n + 1) + [CAN, CAN]
  {
    assert blocks[..n + 1][1..] == blocks[1..][..n];
  }

  /** The first download of the boot loader, sent one block more than the 512 KiB it has room for, is written
      128 bytes beyond them. */
  lemma OneBlockTooMany()
    ensures var blocks := seq(0x1001, _ => ZEROS); var f := Receive(Transmission(blocks, 0), Begin(0, []), 0x80000);
            f.Returned? && f.value == -1 && |f.s.stored| == 0x80000 + BLOCK
  {
    hide Transmission, Receive;
    TooMany(seq(0x1001, _ => ZEROS));
  }

  const ZEROS: seq<byte8> := seq(BLOCK, _ => 0)

  lemma TooMany(blocks: seq<seq<byte8>>)
    requires (forall b :: b in blocks ==> |b| == BLOCK) && |blocks| == 0x1001
    ensures var f := Receive(Transmission(blocks, 0), Begin(0, []), 0x80000);
            f.Returned? && f.value == -1 && |f.s.stored| == 0x80000 + BLOCK
  {
    hide Transmission, Receive, Joined;
    var input := Transmission(blocks, 0);
    assert input[0..] == input && blocks[..0x1001] == blocks;
    OverrunExactly(input, Begin(0, []), blocks, 0, 0x80000);
    JoinedLength(blocks);
  }

  lemma {:induction false} JoinedLength(blocks: seq<seq<byte8>>)
    requires forall b :: b in blocks ==> |b| == BLOCK
    ensures |Joined(blocks)| == BLOCK * |blocks|
  {
    if blocks != [] {
      JoinedLength(blocks[1..]);
    }
  }

  lemma EndParsed(input: seq<byte8>, pos: nat, last: byte8)
    requires pos < |input| && input[pos] == EOT
    ensures ParseBlock(input, pos, last) == Reply(0, pos + 1, ACK, 0, [])
  {
  }

  // ---------------------------------------------------------------- errors on the line

  /** A refused block is counted, and nothing else changes. */
  lemma RefusedCounts(input: seq<byte8>, s: Session, next: nat, maxSize: nat)
    requires s.pos <= |input| && ParseBlock(input, s.pos, s.last) == Refused(next)
    ensures s.pos < next <= |input|
    ensures var s' := s.(pos := next, errors := s.errors + 1, out := s.out + [NAK]);
            Receive(input, s, maxSize) == if s.errors < 3 then Receive(input, s', maxSize)
                else Returned(s'.(out := s'.out + [CAN, CAN]), -1)
  {
    ParsedFurther(input, s.pos, s.last);
    hide ParseBlock;
  }

  /** Bytes that begin no frame, no end and no cancellation: a stray byte; CAN and some other byte; a header whose
      number and complement do not go together; a frame whose data fails its CRC.  They end before `next`. */
  predicate Noise(input: seq<byte8>, pos: nat, next: nat) {
    && pos < next <= |input|
    && var h := input[pos];
    || (next == pos + 1 && h != SOH && h != EOT && h != CAN)
    || (next == pos + 2 && h == CAN && input[pos + 1] != CAN)
    || (next == pos + 3 && h == SOH && input[pos + 1] + input[pos + 2] != 0xff)
    || (next == pos + FRAME && h == SOH && input[pos + 1] + input[pos + 2] == 0xff
        && !Accepted(input[pos + 3..pos + FRAME]))
  }

  /** Noise is answered with NAK and counted, no more of the stream is read for it, and nothing else changes. */
  lemma NoiseRefused(input: seq<byte8>, s: Session, next: nat, maxSize: nat)
    requires Noise(input, s.pos, next)
    ensures ParseBlock(input, s.pos, s.last) == Reply(-1, next, NAK, 0, [])
    ensures var s' := s.(pos := next, errors := s.errors + 1, out := s.out + [NAK]);
            Receive(input, s, maxSize) == if s.errors < 3 then Receive(input, s', maxSize)
                else Returned(s'.(out := s'.out + [CAN, CAN]), -1)
  {
    NoiseParsed(input, s.pos, s.last, next);
    hide Noise, ParseBlock, Receive;
    assert s.pos <= |input| by { NoiseInside(input, s.pos, next); }
    RefusedCounts(input, s, next, maxSize);
  }

  lemma NoiseInside(input: seq<byte8>, pos: nat, next: nat)
    requires Noise(input, pos, next)
    ensures pos < |input|
  {
    hide Accepted;
  }

  lemma NoiseParsed(input: seq<byte8>, pos: nat, last: byte8, next: nat)
    requires Noise(input, pos, next)
    ensures ParseBlock(input, pos, last) == Refused(next)
  {
    hide Accepted;
  }

  /** Every stream that is long enough begins with noise, a frame, an end or a cancellation; the receiver waits for
      more exactly if it is not long enough. */
  lemma WaitsForMore(input: seq<byte8>, pos: nat, last: byte8)
    requires pos <= |input|
    ensures var left := |input| - pos;
            ParseBlock(input, pos, last).Starved? <==>
            || left == 0 || (left == 1 && (input[pos] == CAN || input[pos] == SOH))
            || (left == 2 && input[pos] == SOH)
            || (left < FRAME && input[pos] == SOH && input[pos + 1] + input[pos + 2] == 0xff)
  {
    hide Accepted, NextNum;
  }

  /** The next block is stored and acknowledged, and the count of errors starts again; after the limit is passed the
      download is cancelled. */
  lemma NextStored(input: seq<byte8>, s: Session, maxSize: nat)
    requires FrameAt(input, s.pos, NextNum(s.last))
    ensures s.pos + FRAME <= |input|
    ensures var s' := Session(s.pos + FRAME, NextNum(s.last), 0, s.stored + input[s.pos + 3..s.pos + 3 + BLOCK],
                              s.out + [ACK], s.frames + [s.pos]);
            Receive(input, s, maxSize) == if |s.stored| + BLOCK <= maxSize then Receive(input, s', maxSize)
                else Returned(s'.(out := s'.out + [CAN, CAN]), -1)
  {
    hide Complements, Accepted, NextNum;
    assert ParseBlock(input, s.pos, s.last) == Reply(BLOCK, s.pos + FRAME, ACK, NextNum(s.last),
        input[s.pos + 3..s.pos + 3 + BLOCK]);
    hide ParseBlock;
  }

  /** The end is acknowledged, and the size received is returned. */
  lemma EndReturns(input: seq<byte8>, s: Session, maxSize: nat)
    requires s.pos < |input| && input[s.pos] == EOT
    ensures Receive(input, s, maxSize) == Returned(s.(pos := s.pos + 1, out := s.out + [ACK]), |s.stored|)
  {
    EndParsed(input, s.pos, s.last);
    hide ParseBlock;
  }

  /** A sound frame is acknowledged exactly if it has the next number; with any other it is refused. */
  lemma AcknowledgedIffNext(input: seq<byte8>, pos: nat, last: byte8, num: byte8)
    requires FrameAt(input, pos, num)
    ensures var r := ParseBlock(input, pos, last);
            && r.Reply? && (r.answer == ACK <==> num == NextNum(last)) && (r.code == BLOCK <==> num == NextNum(last))
            && (num != NextNum(last) ==> r == Refused(pos + FRAME))
  {
    hide Complements, Accepted, NextNum;
  }

  lemma NextDiffers(x: byte8)
    ensures NextNum(x) != x
  {
  }

  /** A sender that did not see an acknowledgement repeats its block, and the repetition is refused. */
  lemma RepetitionRefused(input: seq<byte8>, s: Session, maxSize: nat)
    requires FrameAt(input, s.pos, s.last)
    ensures var s' := s.(pos := s.pos + FRAME, errors := s.errors + 1, out := s.out + [NAK]);
            Receive(input, s, maxSize) == if s.errors < 3 then Receive(input, s', maxSize)
                else Returned(s'.(out := s'.out + [CAN, CAN]), -1)
  {
    hide Receive, ParseBlock, FrameAt, NextNum;
    FrameInside(input, s.pos, s.last);
    AcknowledgedIffNext(input, s.pos, s.last, s.last);
    NextDiffers(s.last);
    RefusedCounts(input, s, s.pos + FRAME, maxSize);
  }

  lemma FrameInside(input: seq<byte8>, pos: nat, num: byte8)
    requires FrameAt(input, pos, num)
    ensures pos + FRAME <= |input|
  {
  }

  /** So a sender that goes on repeating it is never acknowledged: after the fourth time the download fails. */
  lemma {:induction false} RepetitionsFail(input: seq<byte8>, s: Session, maxSize: nat)
    requires s.errors <= 3 && forall i :: 0 <= i < 4 - s.errors ==> FrameAt(input, s.pos + FRAME * i, s.last)
    ensures s.pos <= |input|
    ensures var f := Receive(input, s, maxSize);
            f.Returned? && f.value == -1 && f.s.stored == s.stored && f.s.errors == 4
    decreases 4 - s.errors
  {
    hide Receive, FrameAt;
    assert FrameAt(input, s.pos + FRAME * 0, s.last);
    FrameInside(input, s.pos, s.last);
    RepetitionRefused(input, s, maxSize);
    if s.errors < 3 {
      var s' := s.(pos := s.pos + FRAME, errors := s.errors + 1, out := s.out + [NAK]);
      forall i | 0 <= i < 4 - s'.errors ensures FrameAt(input, s'.pos + FRAME * i, s'.last) {
        assert FrameAt(input, s.pos + FRAME * (i + 1), s.last);
      }
      RepetitionsFail(input, s', maxSize);
    }
  }

  /** Two CAN bytes are acknowledged and counted as an error: the download goes on unless three came before. */
  lemma CancelCounts(input: seq<byte8>, s: Session, maxSize: nat)
    requires s.pos + 2 <= |input| && input[s.pos] == CAN && input[s.pos + 1] == CAN
    ensures var s' := s.(pos := s.pos + 2, errors := s.errors + 1, out := s.out + [ACK]);
            Receive(input, s, maxSize) == if s.errors < 3 then Receive(input, s', maxSize)
                else Returned(s'.(out := s'.out + [CAN, CAN]), -1)
  {
    assert ParseBlock(input, s.pos, s.last) == Reply(-2, s.pos + 2, ACK, 0, []);
    hide ParseBlock;
  }

  /** A sound frame whose data and CRC are hit by a burst of at most sixteen bits is refused, whatever its
      number, and memory and the expected number are as before. */
  lemma BurstRefused(input: seq<byte8>, s: Session, good: seq<byte8>, errors: seq<byte8>, maxSize: nat)
    requires s.pos + FRAME <= |input| && |good| == |errors| == FRAME - 3
    requires input[s.pos] == SOH && Accepted(good) && Burst(BitsOf(errors))
    requires Complements(input[s.pos + 1], input[s.pos + 2])
    requires input[s.pos + 3..s.pos + FRAME] == XorBytes(good, errors)
    ensures var s' := s.(pos := s.pos + FRAME, errors := s.errors + 1, out := s.out + [NAK]);
            Receive(input, s, maxSize) == if s.errors < 3 then Receive(input, s', maxSize)
                else Returned(s'.(out := s'.out + [CAN, CAN]), -1)
  {
    hide Accepted, Complements, NextNum, XorBytes, Receive;
    BurstRejected(good, errors);
    RefusedCounts(input, s, s.pos + FRAME, maxSize);
  }
}
