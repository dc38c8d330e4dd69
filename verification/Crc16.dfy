/** The CRC of the boot loader (bootrom/main.c:44-57): generator x^16 + x^12 + x^5 + 1, register starting
    at zero, most significant bit first. */
module Crc16 {

  type Word = bv16
  type byte8 = bv8

  const GENERATOR: Word := 0x1021
  const TOP: Word := 0x8000

  function Xor(a: Word, b: Word): Word { a ^ b }

  predicate High(x: Word) { x & TOP != 0 }

  function Double(x: Word): Word { x << 1 }

  /** One shift of the register. */
  function Shift(x: Word): Word {
    if High(x) then Xor(Double(x), GENERATOR) else Double(x)
  }

  function Shifts(n: nat, x: Word): Word {
    if n == 0 then x else Shifts(n - 1, Shift(x))
  }

  /** A byte at the top of the register. */
  function Upper(b: byte8): Word { (b as Word) << 8 }

  /** The register after one byte. */
  function Update(crc: Word, b: byte8): Word {
    Shifts(8, Xor(crc, Upper(b)))
  }

  function Crc(crc: Word, data: seq<byte8>): Word
    decreases |data|
  {
    if data == [] then crc else Crc(Update(crc, data[0]), data[1..])
  }

  lemma {:induction false} CrcAppend(crc: Word, a: seq<byte8>, b: seq<byte8>)
    ensures Crc(crc, a + b) == Crc(Crc(crc, a), b)
    decreases |a|
  {
    hide Update;
    if a == [] {
      assert a + b == b;
    } else {
      assert (a + b)[1..] == a[1..] + b;
      CrcAppend(Update(crc, a[0]), a[1..], b);
    }
  }

  /** calc_crc16. */
  method CalcCrc16(data: array<byte8>, size: nat) returns (crc: Word)
    requires size <= data.Length
    ensures crc == Crc(0, data[..size])
  {
    hide Upper, Xor, High, Double;
    crc := 0;
    for i := 0 to size
      invariant crc == Crc(0, data[..i])
    {
      assert data[..i + 1] == data[..i] + [data[i]];
      CrcAppend(0, data[..i], [data[i]]);
      assert Crc(crc, [data[i]]) == Update(crc, data[i]);
      crc := Xor(crc, Upper(data[i]));
      ghost var start := crc;
      for j := 0 to 8
        invariant Shifts(8 - j, crc) == Shifts(8, start)
      {
        if High(crc) {
          crc := Xor(Double(crc), GENERATOR);
        } else {
          crc := Double(crc);
        }
      }
    }
    assert data[..size] == data[..size];
  }

  // ---------------------------------------------------------------- linearity

  // Facts about words, first of the operators and then of the functions.

  lemma XorRaw(a: bv16, b: bv16, c: bv16)
    ensures (a ^ c) ^ b == (a ^ b) ^ c && a ^ (b ^ c) == (a ^ b) ^ c
  {
  }

  lemma XorBasicsRaw(a: bv16, b: bv16)
    ensures a ^ b == b ^ a && a ^ 0 == a && a ^ a == 0
    ensures a ^ b == 0 ==> a == b
  {
  }

  lemma XorSwaps(a: Word, b: Word, c: Word)
    ensures Xor(Xor(a, c), b) == Xor(Xor(a, b), c)
  {
    XorRaw(a, b, c);
  }

  lemma XorAssociates(a: Word, b: Word, c: Word)
    ensures Xor(a, Xor(b, c)) == Xor(Xor(a, b), c)
  {
    XorRaw(a, b, c);
  }

  lemma XorCancels(a: Word, b: Word, c: Word)
    ensures Xor(Xor(a, c), Xor(b, c)) == Xor(a, b)
  {
    hide Xor;
    XorAssociates(Xor(a, c), b, c);
    XorSwaps(a, b, c);
    XorAssociates(Xor(a, b), c, c);
    XorBasics(c, c);
    XorBasics(Xor(a, b), 0);
  }

  lemma XorBasics(a: Word, b: Word)
    ensures Xor(a, b) == Xor(b, a) && Xor(a, 0) == a && Xor(a, a) == 0
    ensures Xor(a, b) == 0 ==> a == b
  {
    XorBasicsRaw(a, b);
  }

  lemma XorLaws(a: Word, b: Word, c: Word)
    ensures Xor(Xor(a, c), Xor(b, c)) == Xor(a, b) && Xor(Xor(a, c), b) == Xor(Xor(a, b), c)
    ensures Xor(a, Xor(b, c)) == Xor(Xor(a, b), c)
    ensures Xor(a, b) == Xor(b, a) && Xor(a, 0) == a && Xor(a, a) == 0
    ensures Xor(a, b) == 0 ==> a == b
  {
    hide Xor;
    XorCancels(a, b, c);
    XorSwaps(a, b, c);
    XorAssociates(a, b, c);
    XorBasics(a, b);
  }

  lemma HighRaw(a: bv16, b: bv16)
    ensures (a ^ b) & 0x8000 != 0 <==> (a & 0x8000 != 0) != (b & 0x8000 != 0)
    ensures (a ^ b) << 1 == (a << 1) ^ (b << 1)
  {
  }

  lemma HighOfXor(a: Word, b: Word)
    ensures High(Xor(a, b)) <==> High(a) != High(b)
  {
    HighRaw(a, b);
  }

  lemma DoubleOfXor(a: Word, b: Word)
    ensures Double(Xor(a, b)) == Xor(Double(a), Double(b))
  {
    HighRaw(a, b);
  }

  lemma HighXor(a: Word, b: Word)
    ensures High(Xor(a, b)) <==> High(a) != High(b)
    ensures Double(Xor(a, b)) == Xor(Double(a), Double(b))
  {
    hide High, Xor, Double;
    HighOfXor(a, b);
    DoubleOfXor(a, b);
  }

  lemma ShiftLinear(a: Word, b: Word)
    ensures Shift(Xor(a, b)) == Xor(Shift(a), Shift(b))
  {
    hide Xor, High, Double;
    HighXor(a, b);
    XorLaws(Double(a), Double(b), GENERATOR);
  }

  lemma {:induction false} ShiftsLinear(n: nat, a: Word, b: Word)
    ensures Shifts(n, Xor(a, b)) == Xor(Shifts(n, a), Shifts(n, b))
  {
    hide Shift, Xor;
    if n > 0 {
      ShiftLinear(a, b);
      ShiftsLinear(n - 1, Shift(a), Shift(b));
    }
  }

  /** Two units of the same length, bit by bit. */
  function XorBytes(a: seq<byte8>, b: seq<byte8>): (r: seq<byte8>)
    requires |a| == |b|
    ensures |r| == |a|
  {
    seq(|a|, i requires 0 <= i < |a| => a[i] ^ b[i])
  }

  lemma UpperRaw(x: bv16, y: bv16, a: bv8, b: bv8)
    ensures (x ^ y) ^ (((a ^ b) as bv16) << 8) == (x ^ ((a as bv16) << 8)) ^ (y ^ ((b as bv16) << 8))
  {
  }

  lemma UpperXor(x: Word, y: Word, a: byte8, b: byte8)
    ensures Xor(Xor(x, y), Upper(a ^ b)) == Xor(Xor(x, Upper(a)), Xor(y, Upper(b)))
  {
    UpperRaw(x, y, a, b);
  }

  /** The CRC is linear: registers and data may be added before or after. */
  lemma {:induction false} CrcLinear(x: Word, y: Word, a: seq<byte8>, b: seq<byte8>)
    requires |a| == |b|
    ensures Crc(Xor(x, y), XorBytes(a, b)) == Xor(Crc(x, a), Crc(y, b))
    decreases |a|
  {
    hide Xor, Upper, Shifts;
    if a != [] {
      UpperXor(x, y, a[0], b[0]);
      ShiftsLinear(8, Xor(x, Upper(a[0])), Xor(y, Upper(b[0])));
      assert XorBytes(a, b)[1..] == XorBytes(a[1..], b[1..]);
      CrcLinear(Update(x, a[0]), Update(y, b[0]), a[1..], b[1..]);
    }
  }

  // ---------------------------------------------------------------- bit by bit

  /** One message bit enters at the top. */
  function Feed(crc: Word, bit: bool): Word {
    Shift(if bit then Xor(crc, TOP) else crc)
  }

  function FeedAll(crc: Word, bits: seq<bool>): Word
    decreases |bits|
  {
    if bits == [] then crc else FeedAll(Feed(crc, bits[0]), bits[1..])
  }

  lemma {:induction false} FeedAppend(crc: Word, a: seq<bool>, b: seq<bool>)
    ensures FeedAll(crc, a + b) == FeedAll(FeedAll(crc, a), b)
    decreases |a|
  {
    hide Feed;
    if a == [] {
      assert a + b == b;
    } else {
      assert (a + b)[1..] == a[1..] + b;
      FeedAppend(Feed(crc, a[0]), a[1..], b);
    }
  }

  /** The upper `n` bits of a byte, most significant first. */
  function BitsFrom(b: byte8, n: nat): (r: seq<bool>)
    ensures |r| == n
    decreases n
  {
    if n == 0 then [] else [b & 0x80 != 0] + BitsFrom(b << 1, n - 1)
  }

  function BitsOf(data: seq<byte8>): (r: seq<bool>)
    ensures |r| == 8 * |data|
  {
    if data == [] then [] else BitsFrom(data[0], 8) + BitsOf(data[1..])
  }

  /** What is left of a byte after `n` of its bits are gone. */
  function Rest(b: byte8, n: nat): byte8
    decreases n
  {
    if n == 0 then b else Rest(b << 1, n - 1)
  }

  lemma UpperBitRaw(b: bv8)
    ensures ((b as bv16) << 8) & 0x8000 != 0 <==> b & 0x80 != 0
    ensures ((b as bv16) << 8) << 1 == ((b << 1) as bv16) << 8
    ensures (0x8000 as bv16) << 1 == 0
  {
  }

  lemma UpperBit(b: byte8)
    ensures High(Upper(b)) <==> b & 0x80 != 0
    ensures Double(Upper(b)) == Upper(b << 1)
    ensures High(TOP) && Double(TOP) == 0
  {
    UpperBitRaw(b);
  }

  lemma UpperFed(crc: Word, b: byte8)
    ensures Shift(Xor(crc, Upper(b))) == Xor(Feed(crc, b & 0x80 != 0), Upper(b << 1))
  {
    hide Xor, High, Double, Upper;
    UpperBit(b);
    HighXor(crc, Upper(b));
    HighXor(crc, TOP);
    XorLaws(Double(crc), Upper(b << 1), GENERATOR);
    XorLaws(Double(crc), 0, GENERATOR);
  }

  /** Shifting a byte in all at once is feeding its bits one by one. */
  lemma {:induction false} ShiftedIn(crc: Word, b: byte8, n: nat)
    ensures Shifts(n, Xor(crc, Upper(b))) == Xor(FeedAll(crc, BitsFrom(b, n)), Upper(Rest(b, n)))
    decreases n
  {
    hide Shift, Xor, Upper, Feed;
    if n > 0 {
      UpperFed(crc, b);
      ShiftedIn(Feed(crc, b & 0x80 != 0), b << 1, n - 1);
      assert BitsFrom(b, n)[1..] == BitsFrom(b << 1, n - 1);
    }
  }

  lemma NothingLeftRaw(b: bv8)
    ensures b << 1 << 1 << 1 << 1 << 1 << 1 << 1 << 1 == 0
    ensures ((0 as bv8) as bv16) << 8 == 0
  {
  }

  lemma NothingLeft(b: byte8)
    ensures Upper(Rest(b, 8)) == 0
  {
    NothingLeftRaw(b);
    assert Rest(b, 8) == Rest(b << 1 << 1, 6);
    assert Rest(b << 1 << 1, 6) == Rest(b << 1 << 1 << 1 << 1, 4);
    assert Rest(b << 1 << 1 << 1 << 1, 4) == Rest(b << 1 << 1 << 1 << 1 << 1 << 1, 2);
  }

  lemma ByteFed(crc: Word, b: byte8)
    ensures Update(crc, b) == FeedAll(crc, BitsFrom(b, 8))
  {
    hide Xor, Upper, Shifts, FeedAll, Rest, BitsFrom;
    ShiftedIn(crc, b, 8);
    NothingLeft(b);
    XorLaws(FeedAll(crc, BitsFrom(b, 8)), 0, 0);
  }

  /** The byte-wise CRC is the bit-serial one. */
  lemma {:induction false} CrcBitSerial(crc: Word, data: seq<byte8>)
    ensures Crc(crc, data) == FeedAll(crc, BitsOf(data))
    decreases |data|
  {
    hide Update, BitsFrom;
    if data != [] {
      ByteFed(crc, data[0]);
      FeedAppend(crc, BitsFrom(data[0], 8), BitsOf(data[1..]));
      CrcBitSerial(Update(crc, data[0]), data[1..]);
    }
  }

  lemma {:induction false} ShiftOut(n: nat, x: Word)
    ensures Shifts(n, Shift(x)) == Shift(Shifts(n, x)) && Shifts(n + 1, x) == Shift(Shifts(n, x))
  {
    hide Shift;
    if n > 0 {
      ShiftOut(n - 1, Shift(x));
    }
  }

  lemma {:induction false} ShiftsAdd(m: nat, n: nat, x: Word)
    ensures Shifts(m + n, x) == Shifts(n, Shifts(m, x))
  {
    hide Shift;
    if m > 0 {
      ShiftsAdd(m - 1, n, Shift(x));
    }
  }

  // ---------------------------------------------------------------- long division

  function Bit(bit: bool): Word { if bit then 1 else 0 }

  /** One step of long division by the generator: the next bit of the dividend comes in at the bottom. */
  function Divide(remainder: Word, bits: seq<bool>): Word
    decreases |bits|
  {
    if bits == [] then remainder else Divide(Xor(Shift(remainder), Bit(bits[0])), bits[1..])
  }

  function Zeros(n: nat): (r: seq<bool>)
    ensures |r| == n
  {
    seq(n, _ => false)
  }

  lemma {:induction false} DivideAppend(r: Word, a: seq<bool>, b: seq<bool>)
    ensures Divide(r, a + b) == Divide(Divide(r, a), b)
    decreases |a|
  {
    hide Shift, Xor, Bit;
    if a == [] {
      assert a + b == b;
    } else {
      assert (a + b)[1..] == a[1..] + b;
      DivideAppend(Xor(Shift(r), Bit(a[0])), a[1..], b);
    }
  }

  lemma {:induction false} DivideZeros(r: Word, n: nat)
    ensures Divide(r, Zeros(n)) == Shifts(n, r)
    decreases n
  {
    hide Shift, Xor;
    if n > 0 {
      XorLaws(Shift(r), 0, 0);
      assert Zeros(n)[1..] == Zeros(n - 1);
      DivideZeros(Shift(r), n - 1);
    }
  }

  /** A one comes to the top after fifteen shifts. */
  lemma OneToTop()
    ensures Shifts(15, 1) == TOP
  {
    assert Shifts(15, 1) == Shifts(10, 0x20);
    assert Shifts(10, 0x20) == Shifts(5, 0x400);
    assert Shifts(5, 0x400) == TOP;
  }

  /** Sixteen shifts turn a bit at the bottom into a bit fed at the top. */
  lemma DividedFed(r: Word, bit: bool)
    ensures Shifts(16, Xor(Shift(r), Bit(bit))) == Feed(Shifts(16, r), bit)
  {
    hide Shift, Xor;
    ShiftsLinear(16, Shift(r), Bit(bit));
    ShiftOut(16, r);
    OneToTop();
    ShiftOut(15, Bit(bit));
    ShiftOut(15, 0);
    ShiftsZero(16);
    ShiftLinear(Shifts(16, r), TOP);
    XorLaws(Shift(Shifts(16, r)), 0, 0);
  }

  lemma {:induction false} ShiftsZero(n: nat)
    ensures Shifts(n, 0) == 0
  {
    if n > 0 {
      ShiftsZero(n - 1);
    }
  }

  lemma {:induction false} DividedAll(r: Word, bits: seq<bool>)
    ensures Shifts(16, Divide(r, bits)) == FeedAll(Shifts(16, r), bits)
    decreases |bits|
  {
    hide Shift, Xor, Feed, Shifts;
    if bits != [] {
      DividedFed(r, bits[0]);
      DividedAll(Xor(Shift(r), Bit(bits[0])), bits[1..]);
    }
  }

  /** The CRC is the remainder of the message, followed by sixteen zero bits, divided by the generator: the
      CRC of section 8.1 of Forsberg's XMODEM/YMODEM Protocol Reference. */
  lemma CrcIsRemainder(data: seq<byte8>)
    ensures Crc(0, data) == Divide(0, BitsOf(data) + Zeros(16))
  {
    hide Shift, Xor, Shifts, Divide, FeedAll, BitsOf;
    CrcBitSerial(0, data);
    DivideAppend(0, BitsOf(data), Zeros(16));
    DivideZeros(Divide(0, BitsOf(data)), 16);
    DividedAll(0, BitsOf(data));
    ShiftsZero(16);
  }

  // ---------------------------------------------------------------- bursts

  function Half(x: Word): Word { x >> 1 }

  predicate Clear(x: Word, mask: Word) { x & mask == 0 }

  /** Up to sixteen bits, the first at the top. */
  function WordOf(bits: seq<bool>): Word {
    if bits == [] then 0 else Xor(if bits[0] then TOP else 0, Half(WordOf(bits[1..])))
  }

  /** The places of a word below its first `n`. */
  function Below(n: nat): Word
    requires n <= 16
  {
    if n == 0 then 0xffff else if n == 1 then 0x7fff else if n == 2 then 0x3fff else if n == 3 then 0x1fff
    else if n == 4 then 0x0fff else if n == 5 then 0x07ff else if n == 6 then 0x03ff else if n == 7 then 0x01ff
    else if n == 8 then 0x00ff else if n == 9 then 0x007f else if n == 10 then 0x003f else if n == 11 then 0x001f
    else if n == 12 then 0x000f else if n == 13 then 0x0007 else if n == 14 then 0x0003 else if n == 15 then 0x0001
    else 0
  }

  lemma BelowNext(n: nat)
    requires n < 16
    ensures Below(n + 1) == Half(Below(n)) && !Clear(1, Below(n))
  {
  }

  lemma HalfRaw(y: bv16, m: bv16)
    ensures y & m == 0 ==> (y >> 1) & (m >> 1) == 0
    ensures (y >> 1) & 0x8000 == 0
  {
  }

  lemma TopRaw(h: bv16, m: bv16)
    ensures h & (m >> 1) == 0 ==> (0x8000 ^ h) & (m >> 1) == 0 && (0 ^ h) & (m >> 1) == 0
  {
  }

  lemma DoubleHalfRaw(y: bv16, m: bv16)
    ensures y & m == 0 && 1 & m != 0 ==> y & 1 == 0
    ensures y & 1 == 0 ==> (y >> 1) << 1 == y
  {
  }

  lemma HalfFits(y: Word, m: Word)
    requires Clear(y, m)
    ensures Clear(Xor(TOP, Half(y)), Half(m)) && Clear(Xor(0, Half(y)), Half(m))
  {
    hide Clear, Half, Xor;
    HalfClear(y, m);
    TopClear(Half(y), m);
  }

  lemma HalfClear(y: Word, m: Word)
    requires Clear(y, m)
    ensures Clear(Half(y), Half(m))
  {
    HalfRaw(y, m);
  }

  lemma TopClear(h: Word, m: Word)
    requires Clear(h, Half(m))
    ensures Clear(Xor(TOP, h), Half(m)) && Clear(Xor(0, h), Half(m))
  {
    TopRaw(h, m);
  }

  lemma HalfDoubles(y: Word, m: Word)
    requires Clear(y, m) && !Clear(1, m)
    ensures Double(Half(y)) == y && !High(Half(y))
  {
    HalfRaw(y, m);
    DoubleHalfRaw(y, m);
  }

  lemma {:induction false} WordFits(bits: seq<bool>)
    requires |bits| <= 16
    ensures Clear(WordOf(bits), Below(|bits|))
  {
    if bits == [] {
      ClearZero();
    } else {
      hide Xor, Half, Clear, Below;
      WordFits(bits[1..]);
      BelowNext(|bits| - 1);
      HalfFits(WordOf(bits[1..]), Below(|bits| - 1));
    }
  }

  lemma ClearZero()
    ensures Clear(0, 0xffff)
  {
  }

  /** Halving a word of fewer than sixteen bits loses nothing. */
  lemma WordHalves(bits: seq<bool>)
    requires |bits| < 16
    ensures Double(Half(WordOf(bits))) == WordOf(bits) && !High(Half(WordOf(bits)))
  {
    hide Half, Clear, Below, Double, High, WordOf;
    WordFits(bits);
    BelowNext(|bits|);
    HalfDoubles(WordOf(bits), Below(|bits|));
  }

  /** Feeding up to sixteen bits is shifting them in all at once. */
  lemma {:induction false} FedAtOnce(crc: Word, bits: seq<bool>)
    requires |bits| <= 16
    ensures FeedAll(crc, bits) == Shifts(|bits|, Xor(crc, WordOf(bits)))
    decreases |bits|
  {
    hide Xor, Half, Double, High;
    if bits == [] {
      XorLaws(crc, 0, 0);
    } else {
      var t: Word := if bits[0] then TOP else 0;
      var y := WordOf(bits[1..]);
      WordHalves(bits[1..]);
      XorLaws(crc, t, Half(y));
      XorLaws(crc, Half(y), t);
      ShiftLinear(Xor(crc, t), Half(y));
      FedAtOnce(Feed(crc, bits[0]), bits[1..]);
    }
  }

  lemma ShiftRaw(x: bv16)
    ensures x << 1 != 0x1021
    ensures x & 0x8000 == 0 && x << 1 == 0 ==> x == 0
  {
  }

  lemma DoubleFacts(x: Word)
    ensures Double(x) != GENERATOR
    ensures !High(x) && Double(x) == 0 ==> x == 0
  {
    ShiftRaw(x);
  }

  /** Shifting never loses an error: the generator has a lowest bit. */
  lemma {:induction false} ShiftsNonZero(n: nat, x: Word)
    requires x != 0
    ensures Shifts(n, x) != 0
  {
    hide Xor, High, Double;
    if n > 0 {
      DoubleFacts(x);
      XorLaws(Double(x), GENERATOR, 0);
      ShiftsNonZero(n - 1, Shift(x));
    }
  }

  lemma {:induction false} WordNonZero(bits: seq<bool>, i: nat)
    requires |bits| <= 16 && i < |bits| && bits[i]
    ensures WordOf(bits) != 0
  {
    hide Xor, Half, Double, High;
    var y := WordOf(bits[1..]);
    WordHalves(bits[1..]);
    XorLaws(if bits[0] then TOP else 0, Half(y), 0);
    UpperBit(0);
    DoubleZero();
    if !bits[0] {
      WordNonZero(bits[1..], i - 1);
      XorLaws(Half(y), 0, 0);
    }
  }

  lemma DoubleZero()
    ensures Double(0) == 0
  {
  }

  lemma {:induction false} FeedZeros(crc: Word, bits: seq<bool>)
    requires forall i :: 0 <= i < |bits| ==> !bits[i]
    ensures FeedAll(crc, bits) == Shifts(|bits|, crc)
    decreases |bits|
  {
    hide Shift, Xor;
    if bits != [] {
      FeedZeros(Shift(crc), bits[1..]);
    }
  }

  /** Some bits are wrong, and all of them lie within sixteen successive places. */
  ghost predicate Burst(errors: seq<bool>) {
    exists k: nat, i: nat :: BurstAt(errors, k, i)
  }

  ghost predicate BurstAt(errors: seq<bool>, k: nat, i: nat) {
    && k <= i < k + 16 <= |errors| && errors[i]
    && (forall j :: 0 <= j < |errors| && !(k <= j < k + 16) ==> !errors[j])
  }

  lemma BurstSeen(errors: seq<bool>, k: nat, i: nat)
    requires BurstAt(errors, k, i)
    ensures FeedAll(0, errors) != 0
  {
    hide Shift, Xor, FeedAll, WordOf;
    var a, w, c := errors[..k], errors[k..k + 16], errors[k + 16..];
    assert errors == a + (w + c);
    FeedAppend(0, a, w + c);
    FeedAppend(0, w, c);
    FeedZeros(0, a);
    ShiftsZero(k);
    FedAtOnce(0, w);
    XorLaws(WordOf(w), 0, 0);
    XorLaws(0, WordOf(w), 0);
    WordNonZero(w, i - k);
    ShiftsNonZero(16, WordOf(w));
    FeedZeros(FeedAll(0, w), c);
    ShiftsNonZero(|c|, FeedAll(0, w));
  }

  // ---------------------------------------------------------------- data with its CRC

  /** The two CRC bytes as they are received. */
  function Join(hi: byte8, lo: byte8): Word { Upper(hi) | (lo as Word) }

  /** What the receiver tests. */
  predicate Accepted(unit: seq<byte8>) {
    var n := |unit| - 2;
    n >= 0 && Crc(0, unit[..n]) == Join(unit[n], unit[n + 1])
  }

  lemma JoinRaw(hi: bv8, lo: bv8)
    ensures ((hi as bv16) << 8) | (lo as bv16) == ((hi as bv16) << 8) ^ (lo as bv16)
  {
  }

  lemma JoinXor(hi: byte8, lo: byte8)
    ensures Join(hi, lo) == Xor(Upper(hi), lo as Word)
  {
    JoinRaw(hi, lo);
  }

  lemma LowRaw(lo: bv8)
    ensures var x := lo as bv16;
            && x & 0x8000 == 0 && (x << 1) & 0x8000 == 0 && (x << 1 << 1) & 0x8000 == 0
            && (x << 1 << 1 << 1) & 0x8000 == 0
            && (x << 1 << 1 << 1 << 1) & 0x8000 == 0 && (x << 1 << 1 << 1 << 1 << 1) & 0x8000 == 0
            && (x << 1 << 1 << 1 << 1 << 1 << 1) & 0x8000 == 0 && (x << 1 << 1 << 1 << 1 << 1 << 1 << 1) & 0x8000 == 0
            && x << 1 << 1 << 1 << 1 << 1 << 1 << 1 << 1 == x << 8
  {
  }

  lemma NotHigh(n: nat, x: Word)
    requires n > 0 && x & 0x8000 == 0
    ensures Shifts(n, x) == Shifts(n - 1, x << 1)
  {
  }

  lemma LowToUpper(lo: byte8)
    ensures Shifts(8, lo as Word) == Upper(lo)
  {
    hide Shifts;
    LowRaw(lo);
    var x := lo as Word;
    NotHigh(8, x);
    NotHigh(7, x << 1);
    NotHigh(6, x << 1 << 1);
    NotHigh(5, x << 1 << 1 << 1);
    NotHigh(4, x << 1 << 1 << 1 << 1);
    NotHigh(3, x << 1 << 1 << 1 << 1 << 1);
    NotHigh(2, x << 1 << 1 << 1 << 1 << 1 << 1);
    NotHigh(1, x << 1 << 1 << 1 << 1 << 1 << 1 << 1);
    NoShifts(x << 1 << 1 << 1 << 1 << 1 << 1 << 1 << 1);
  }

  lemma NoShifts(x: Word)
    ensures Shifts(0, x) == x
  {
  }

  lemma OneByte(crc: Word, b: byte8)
    ensures Crc(crc, [b]) == Update(crc, b)
  {
    hide Update;
    assert [b][1..] == [];
  }

  /** Two more bytes are the register and the bytes, shifted out. */
  lemma TwoMore(crc: Word, hi: byte8, lo: byte8)
    ensures Crc(crc, [hi, lo]) == Shifts(16, Xor(crc, Join(hi, lo)))
  {
    hide Shift, Xor, Upper, Shifts, Join, Crc;
    var x := Xor(crc, Upper(hi));
    CrcAppend(crc, [hi], [lo]);
    assert [hi] + [lo] == [hi, lo];
    OneByte(crc, hi);
    OneByte(Update(crc, hi), lo);
    LowToUpper(lo);
    ShiftsLinear(8, x, lo as Word);
    ShiftsAdd(8, 8, Xor(x, lo as Word));
    JoinXor(hi, lo);
    XorLaws(crc, Upper(hi), lo as Word);
  }

  /** A unit is accepted exactly if its own CRC, over data and CRC bytes together, is zero. */
  lemma AcceptedIff(unit: seq<byte8>)
    requires |unit| >= 2
    ensures Accepted(unit) <==> Crc(0, unit) == 0
  {
    hide Shift, Xor, Upper, Shifts, Join, Crc;
    var n := |unit| - 2;
    var r, c := Crc(0, unit[..n]), Join(unit[n], unit[n + 1]);
    assert unit == unit[..n] + [unit[n], unit[n + 1]];
    CrcAppend(0, unit[..n], [unit[n], unit[n + 1]]);
    TwoMore(r, unit[n], unit[n + 1]);
    XorLaws(r, c, 0);
    XorLaws(r, r, 0);
    ShiftsZero(16);
    if r != c {
      ShiftsNonZero(16, Xor(r, c));
    }
  }

  /** No burst of at most sixteen wrong bits, wherever it falls in data or CRC, goes unnoticed. */
  lemma BurstRejected(unit: seq<byte8>, errors: seq<byte8>)
    requires |unit| == |errors| && Accepted(unit) && Burst(BitsOf(errors))
    ensures !Accepted(XorBytes(unit, errors))
  {
    hide Accepted, Crc, Xor, BitsOf, XorBytes, FeedAll;
    assert |unit| >= 2 by { UnitLength(unit); }
    AcceptedIff(unit);
    AcceptedIff(XorBytes(unit, errors));
    CrcLinear(0, 0, unit, errors);
    XorLaws(0, 0, 0);
    XorLaws(Crc(0, errors), 0, 0);
    XorLaws(0, Crc(0, errors), 0);
    CrcBitSerial(0, errors);
    var k: nat, i: nat :| BurstAt(BitsOf(errors), k, i);
    BurstSeen(BitsOf(errors), k, i);
  }

  lemma UnitLength(unit: seq<byte8>)
    requires Accepted(unit)
    ensures |unit| >= 2
  {
  }
}
