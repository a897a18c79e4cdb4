/** The table-driven CRC-32 of crc32.cpp against the bit-serial definition of section 8 of RFC 1952. */
module Crc32 {
  import opened Words
  import opened Crc32Table

  // ----- the bit-serial definition

  function Bit(b: bool): word {
    if b then 1 else 0
  }

  /** The register after shifting in `bits`, first bit first. */
  function Feed(c: word, bits: seq<bool>): word
    decreases |bits|
  {
    if bits == [] then c else Feed(BitStep(Xor(c, Bit(bits[0]))), bits[1..])
  }

  /** The bits of a byte, least significant first. */
  function ByteBits(b: byte): (bits: seq<bool>)
    ensures |bits| == 8
  {
    [b & 0x01 == 0x01, b & 0x02 == 0x02, b & 0x04 == 0x04, b & 0x08 == 0x08,
     b & 0x10 == 0x10, b & 0x20 == 0x20, b & 0x40 == 0x40, b & 0x80 == 0x80]
  }

  function MessageBits(message: seq<byte>): (bits: seq<bool>)
    ensures |bits| == 8 * |message|
  {
    if message == [] then [] else MessageBits(message[..|message| - 1]) + ByteBits(message[|message| - 1])
  }

  function Register(message: seq<byte>): word {
    Feed(0xFFFF_FFFF, MessageBits(message))
  }

  function Crc(message: seq<byte>): word {
    !Register(message)
  }

  // ----- the class

  class Crc32 {
    var crc32: word
    ghost var message: seq<byte>

    ghost predicate Valid()
      reads this
    {
      crc32 == Register(message)
    }

    constructor ()
      ensures Valid() && message == []
    {
      crc32, message := 0xFFFF_FFFF, [];
    }

    method Update(data: array<byte>, size: int)
      requires Valid() && size <= data.Length
      modifies this
      ensures Valid() && message == old(message) + data[..if size < 0 then 0 else size]
    {
      hide Register, ByteStep;
      var i := 0;
      ghost var was := message;
      while i < size
        invariant 0 <= i && (i <= size || i == 0)
        invariant Valid() && message == was + data[..i]
      {
        RegisterSnoc(message, data[i]);
        crc32 := ByteStep(crc32, data[i]);
        message := message + [data[i]];
        i := i + 1;
      }
    }

    method Value() returns (value: word)
      requires Valid()
      ensures value == Crc(message)
    {
      value := !crc32;
    }

    method Reset()
      modifies this
      ensures Valid() && message == []
    {
      crc32, message := 0xFFFF_FFFF, [];
    }
  }

  /** The body of the loop in `update`. */
  function ByteStep(c: word, data: byte): word {
    Xor(Eighth(c), Table(TableIndex(c, data)))
  }

  function TableIndex(c: word, data: byte): byte {
    data ^ Low(c)
  }

  function Eighth(c: word): word {
    c >> 8
  }

  /** One turn of the loop in `update`. */
  lemma RegisterSnoc(message: seq<byte>, b: byte)
    ensures Register(message + [b]) == ByteStep(Register(message), b)
  {
    hide ByteStep, Feed, MessageBits, ByteBits;
    NextByte(message, b);
    FeedAppend(0xFFFF_FFFF, MessageBits(message), ByteBits(b));
    ByteStepIsFeed(Register(message), b);
  }

  lemma NextByte(message: seq<byte>, b: byte)
    ensures MessageBits(message + [b]) == MessageBits(message) + ByteBits(b)
  {
    assert (message + [b])[..|message|] == message;
  }

  lemma {:induction false} FeedAppend(c: word, a: seq<bool>, b: seq<bool>)
    ensures Feed(c, a + b) == Feed(Feed(c, a), b)
    decreases |a|
  {
    hide BitStep, Xor, Bit;
    if a == [] {
      assert a + b == b;
    } else {
      assert (a + b)[1..] == a[1..] + b;
      FeedAppend(BitStep(Xor(c, Bit(a[0]))), a[1..], b);
    }
  }

  // ----- up to 32 bits as one word

  function Up(w: word): word {
    w << 1
  }

  function WordOf(bits: seq<bool>): word {
    if bits == [] then 0 else Xor(Bit(bits[0]), Up(WordOf(bits[1..])))
  }

  /** No bit outside `mask`. */
  predicate Within(w: word, mask: word) {
    w & !mask == 0
  }

  /** `n` one bits. */
  function Mask(n: nat): word {
    match n
    case 0 => 0x0 case 1 => 0x1 case 2 => 0x3 case 3 => 0x7 case 4 => 0xF case 5 => 0x1F case 6 => 0x3F case 7 => 0x7F
    case 8 => 0xFF case 9 => 0x1FF case 10 => 0x3FF case 11 => 0x7FF case 12 => 0xFFF case 13 => 0x1FFF
    case 14 => 0x3FFF case 15 => 0x7FFF
    case 16 => 0xFFFF case 17 => 0x1FFFF case 18 => 0x3FFFF case 19 => 0x7FFFF case 20 => 0xFFFFF
    case 21 => 0x1FFFFF case 22 => 0x3FFFFF case 23 => 0x7FFFFF
    case 24 => 0xFFFFFF case 25 => 0x1FFFFFF case 26 => 0x3FFFFFF case 27 => 0x7FFFFFF case 28 => 0xFFFFFFF
    case 29 => 0x1FFFFFFF case 30 => 0x3FFFFFFF case 31 => 0x7FFFFFFF
    case _ => 0xFFFFFFFF
  }

  function UpOne(mask: word): word {
    (mask << 1) | 1
  }

  lemma MaskStep(n: nat)
    requires n < 32
    ensures Mask(n + 1) == UpOne(Mask(n))
    ensures Mask(n) & 0x8000_0000 == 0
  {
  }

  lemma ShiftInWithin(b: bool, w: word, mask: word)
    requires Within(w, mask)
    ensures Within(Xor(Bit(b), Up(w)), UpOne(mask))
  {
    if b {
      assert w & !mask == 0 ==> (1 ^ (w << 1)) & !((mask << 1) | 1) == 0;
    } else {
      assert w & !mask == 0 ==> (0 ^ (w << 1)) & !((mask << 1) | 1) == 0;
    }
  }

  lemma {:induction false} WordOfWithin(bits: seq<bool>)
    requires |bits| <= 32
    ensures Within(WordOf(bits), Mask(|bits|))
  {
    hide Xor, Bit, Up, Within, UpOne, Mask;
    if bits == [] {
      ZeroWithin(Mask(0));
    } else {
      WordOfWithin(bits[1..]);
      ShiftInWithin(bits[0], WordOf(bits[1..]), Mask(|bits| - 1));
      MaskStep(|bits| - 1);
    }
  }

  lemma ZeroWithin(mask: word)
    ensures Within(0, mask)
  {
  }

  lemma TopBitClear(bits: seq<bool>)
    requires |bits| < 32
    ensures WordOf(bits) & 0x8000_0000 == 0
  {
    hide Mask, WordOf;
    WordOfWithin(bits);
    MaskStep(|bits|);
    SubMask(WordOf(bits), Mask(|bits|));
  }

  lemma SubMask(w: word, mask: word)
    requires w & !mask == 0 && mask & 0x8000_0000 == 0
    ensures w & 0x8000_0000 == 0
  {
  }

  /** A word without its top bit, shifted up, is even and shifts back. */
  lemma ShiftsBack(w: word)
    requires w & 0x8000_0000 == 0
    ensures BitStep(Up(w)) == w
  {
    assert (w << 1) & 1 == 0;
  }

  lemma TailShiftsBack(bits: seq<bool>)
    requires |bits| < 32
    ensures BitStep(Up(WordOf(bits))) == WordOf(bits)
  {
    hide BitStep, Up, WordOf;
    TopBitClear(bits);
    ShiftsBack(WordOf(bits));
  }

  lemma XorAssociates(x: word, y: word, z: word)
    ensures Xor(Xor(x, y), z) == Xor(x, Xor(y, z))
  {
  }

  /** Feeding up to 32 bits is adding them as one word and shifting. */
  lemma {:induction false} FeedIsSteps(c: word, bits: seq<bool>)
    requires |bits| <= 32
    ensures Feed(c, bits) == Steps(|bits|, Xor(c, WordOf(bits)))
    decreases |bits|
  {
    hide BitStep, Bit, Mask, Xor, Up;
    if bits == [] {
      XorZero(c);
    } else {
      var head, tail := Xor(c, Bit(bits[0])), bits[1..];
      FeedIsSteps(BitStep(head), tail);
      TailShiftsBack(tail);
      BitStepLinear(head, Up(WordOf(tail)));
      XorAssociates(c, Bit(bits[0]), Up(WordOf(tail)));
    }
  }

  lemma XorZero(c: word)
    ensures Xor(c, 0) == c
  {
  }

  // ----- the table step is eight bit steps

  lemma WordOfByte(b: byte)
    ensures WordOf(ByteBits(b)) == b as word
  {
    var bits := ByteBits(b);
    var w := [Bit(bits[0]), Bit(bits[1]), Bit(bits[2]), Bit(bits[3]), Bit(bits[4]), Bit(bits[5]), Bit(bits[6]), Bit(bits[7])];
    hide ByteBits;
    WordOfEight(bits);
    ByteFromBits(b, w[0], w[1], w[2], w[3], w[4], w[5], w[6], w[7]);
  }

  lemma WordOfEight(bits: seq<bool>)
    requires |bits| == 8
    ensures WordOf(bits)
         == Nest(Bit(bits[0]), Bit(bits[1]), Bit(bits[2]), Bit(bits[3]), Bit(bits[4]), Bit(bits[5]), Bit(bits[6]), Bit(bits[7]))
  {
    hide Bit, Xor, Up;
    assert WordOf(bits[8..]) == 0;
    assert WordOf(bits[7..]) == Xor(Bit(bits[7]), Up(WordOf(bits[8..])));
    assert WordOf(bits[6..]) == Xor(Bit(bits[6]), Up(WordOf(bits[7..])));
    assert WordOf(bits[5..]) == Xor(Bit(bits[5]), Up(WordOf(bits[6..])));
    assert WordOf(bits[4..]) == Xor(Bit(bits[4]), Up(WordOf(bits[5..])));
    assert WordOf(bits[3..]) == Xor(Bit(bits[3]), Up(WordOf(bits[4..])));
    assert WordOf(bits[2..]) == Xor(Bit(bits[2]), Up(WordOf(bits[3..])));
    assert WordOf(bits[1..]) == Xor(Bit(bits[1]), Up(WordOf(bits[2..])));
  }

  function Nest(w0: word, w1: word, w2: word, w3: word, w4: word, w5: word, w6: word, w7: word): word {
    Xor(w0, Up(Xor(w1, Up(Xor(w2, Up(Xor(w3, Up(Xor(w4, Up(Xor(w5, Up(Xor(w6, Up(Xor(w7, Up(0))))))))))))))))
  }

  lemma ByteFromBits(b: byte, w0: word, w1: word, w2: word, w3: word, w4: word, w5: word, w6: word, w7: word)
    requires w0 == (if b & 0x01 == 0x01 then 1 else 0) && w1 == (if b & 0x02 == 0x02 then 1 else 0)
    requires w2 == (if b & 0x04 == 0x04 then 1 else 0) && w3 == (if b & 0x08 == 0x08 then 1 else 0)
    requires w4 == (if b & 0x10 == 0x10 then 1 else 0) && w5 == (if b & 0x20 == 0x20 then 1 else 0)
    requires w6 == (if b & 0x40 == 0x40 then 1 else 0) && w7 == (if b & 0x80 == 0x80 then 1 else 0)
    ensures Nest(w0, w1, w2, w3, w4, w5, w6, w7) == b as word
  {
  }

  /** Eight shifts of a register with no low bits only move it. */
  lemma EvenSteps(w: word)
    requires w & 0xFF == 0
    ensures Steps(8, w) == w >> 8
  {
    Unroll(w);
    hide Steps;
    EvenStep(w);
    EvenStep(w >> 1);
    EvenStep(w >> 2);
    EvenStep(w >> 3);
    EvenStep(w >> 4);
    EvenStep(w >> 5);
    EvenStep(w >> 6);
    EvenStep(w >> 7);
  }

  lemma EvenStep(w: word)
    requires w & 1 == 0
    ensures BitStep(w) == w >> 1
  {
  }

  function HighBytes(c: word): word {
    c & 0xFFFF_FF00
  }

  lemma SplitRegister(c: word, b: byte)
    ensures Xor(c, b as word) == Xor(HighBytes(c), TableIndex(c, b) as word)
  {
    assert c ^ (b as word) == (c & 0xFFFF_FF00) ^ ((b ^ ((c & 0xff) as byte)) as word);
  }

  lemma HighSteps(c: word)
    ensures Steps(8, HighBytes(c)) == Eighth(c)
  {
    hide Steps;
    assert c & 0xFFFF_FF00 & 0xFF == 0 && (c & 0xFFFF_FF00) >> 8 == c >> 8;
    EvenSteps(c & 0xFFFF_FF00);
  }

  lemma ByteStepIsSteps(c: word, b: byte)
    ensures ByteStep(c, b) == Steps(8, Xor(c, b as word))
  {
    hide Steps, Table, Xor, TableIndex, HighBytes, Eighth;
    SplitRegister(c, b);
    TableEntry(TableIndex(c, b));
    HighSteps(c);
    StepsLinear(8, HighBytes(c), TableIndex(c, b) as word);
  }

  /** One table lookup does the work of eight bit-serial shifts. */
  lemma ByteStepIsFeed(c: word, b: byte)
    ensures ByteStep(c, b) == Feed(c, ByteBits(b))
  {
    hide Steps, Feed, WordOf, ByteStep, Xor, ByteBits;
    ByteStepIsSteps(c, b);
    FeedIsSteps(c, ByteBits(b));
    WordOfByte(b);
  }

  // ----- burst errors

  lemma BitStepInjective(x: word, y: word)
    requires BitStep(x) == BitStep(y)
    ensures x == y
  {
    OddOrEven(x);
    OddOrEven(y);
    TopBits(x, y);
  }

  /** Only the shift of an odd register has the top bit, so the low bit can be told from the result. */
  lemma TopBits(x: word, y: word)
    ensures 0xEDB88320 ^ (x >> 1) != y >> 1
    ensures x & 1 == y & 1 && x >> 1 == y >> 1 ==> x == y
    ensures 0xEDB88320 ^ (x >> 1) == 0xEDB88320 ^ (y >> 1) ==> x >> 1 == y >> 1
  {
  }

  lemma {:induction false} StepsInjective(n: nat, x: word, y: word)
    requires Steps(n, x) == Steps(n, y)
    ensures x == y
  {
    hide BitStep;
    if n > 0 {
      StepsInjective(n - 1, BitStep(x), BitStep(y));
      BitStepInjective(x, y);
    }
  }

  lemma XorCancels(x: word, y: word, z: word)
    ensures Xor(x, z) == Xor(y, z) ==> x == y
    ensures Xor(z, x) == Xor(z, y) ==> x == y
  {
  }

  /** Different registers stay different under the same bits. */
  lemma {:induction false} FeedInjectiveInRegister(c: word, d: word, bits: seq<bool>)
    requires Feed(c, bits) == Feed(d, bits)
    ensures c == d
    decreases |bits|
  {
    hide BitStep, Xor, Bit;
    if bits != [] {
      var x, y := Xor(c, Bit(bits[0])), Xor(d, Bit(bits[0]));
      FeedInjectiveInRegister(BitStep(x), BitStep(y), bits[1..]);
      BitStepInjective(x, y);
      XorCancels(c, d, Bit(bits[0]));
    }
  }

  lemma OneIn(w: word)
    ensures Xor(Bit(true), Up(w)) == 1 ^ (w << 1)
  {
  }

  lemma ZeroIn(w: word)
    ensures Xor(Bit(false), Up(w)) == w << 1
  {
  }

  lemma LowBits(w: word)
    ensures (1 ^ (w << 1)) & 1 == 1 && (w << 1) & 1 == 0
    ensures w & 0x8000_0000 == 0 ==> (1 ^ (w << 1)) >> 1 == w && (w << 1) >> 1 == w
  {
  }

  /** The shifted-in bit is the low bit, and nothing falls off the top. */
  lemma LowBit(b: bool, w: word)
    ensures Xor(Bit(b), Up(w)) & 1 == Bit(b)
    ensures w & 0x8000_0000 == 0 ==> Xor(Bit(b), Up(w)) >> 1 == w
  {
    hide Xor, Up;
    LowBits(w);
    if b {
      OneIn(w);
    } else {
      ZeroIn(w);
    }
  }

  lemma BitInInjective(a: bool, b: bool, v: word, w: word)
    requires v & 0x8000_0000 == 0 && w & 0x8000_0000 == 0
    requires Xor(Bit(a), Up(v)) == Xor(Bit(b), Up(w))
    ensures a == b && v == w
  {
    hide Xor, Up;
    LowBit(a, v);
    LowBit(b, w);
  }

  lemma {:induction false} WordOfInjective(u: seq<bool>, v: seq<bool>)
    requires |u| == |v| <= 32 && WordOf(u) == WordOf(v)
    ensures u == v
    decreases |u|
  {
    hide Xor, Bit, Up;
    if u != [] {
      TopBitClear(u[1..]);
      TopBitClear(v[1..]);
      BitInInjective(u[0], v[0], WordOf(u[1..]), WordOf(v[1..]));
      WordOfInjective(u[1..], v[1..]);
      assert u == [u[0]] + u[1..] && v == [v[0]] + v[1..];
    }
  }

  /** Up to 32 different bits drive the same register to different states. */
  lemma FeedInjectiveInBits(c: word, u: seq<bool>, v: seq<bool>)
    requires |u| == |v| <= 32 && Feed(c, u) == Feed(c, v)
    ensures u == v
  {
    hide Feed, Steps, WordOf, Xor;
    FeedIsSteps(c, u);
    FeedIsSteps(c, v);
    StepsInjective(|u|, Xor(c, WordOf(u)), Xor(c, WordOf(v)));
    XorCancels(WordOf(u), WordOf(v), c);
    WordOfInjective(u, v);
  }

  lemma ByteBitsInjective(a: byte, b: byte)
    requires ByteBits(a) == ByteBits(b)
    ensures a == b
  {
    hide ByteBits, WordOf;
    WordOfByte(a);
    WordOfByte(b);
    SameByte(a, b);
  }

  lemma SameByte(a: byte, b: byte)
    ensures a as word == b as word ==> a == b
  {
  }

  lemma {:induction false} MessageBitsInjective(m: seq<byte>, n: seq<byte>)
    requires |m| == |n| && MessageBits(m) == MessageBits(n)
    ensures m == n
    decreases |m|
  {
    hide ByteBits;
    if m != [] {
      var k := |m| - 1;
      assert MessageBits(m)[..8 * k] == MessageBits(m[..k]) && MessageBits(n)[..8 * k] == MessageBits(n[..k]);
      assert MessageBits(m)[8 * k..] == ByteBits(m[k]) && MessageBits(n)[8 * k..] == ByteBits(n[k]);
      MessageBitsInjective(m[..k], n[..k]);
      ByteBitsInjective(m[k], n[k]);
      assert m == m[..k] + [m[k]] && n == n[..k] + [n[k]];
    }
  }

  /**
   * Any two different messages of the same length whose bits agree outside some window of at most 32
   * consecutive bits have different check values.
   */
  lemma DetectsBitBurst(m: seq<byte>, n: seq<byte>, at: nat, width: nat)
    requires |m| == |n| && m != n && width <= 32 && at + width <= 8 * |m|
    requires MessageBits(m)[..at] == MessageBits(n)[..at]
    requires MessageBits(m)[at + width..] == MessageBits(n)[at + width..]
    ensures Crc(m) != Crc(n)
  {
    hide Feed, MessageBits;
    var a, b := MessageBits(m), MessageBits(n);
    var u, v := a[at..at + width], b[at..at + width];
    var pre, post := a[..at], a[at + width..];
    assert a == pre + (u + post) && b == pre + (v + post);
    FeedAppend(0xFFFF_FFFF, pre, u + post);
    FeedAppend(0xFFFF_FFFF, pre, v + post);
    var c := Feed(0xFFFF_FFFF, pre);
    FeedAppend(c, u, post);
    FeedAppend(c, v, post);
    if Register(m) == Register(n) {
      FeedInjectiveInRegister(Feed(c, u), Feed(c, v), post);
      FeedInjectiveInBits(c, u, v);
      MessageBitsInjective(m, n);
    }
    Complement(Register(m), Register(n));
  }

  lemma Complement(x: word, y: word)
    ensures !x == !y ==> x == y
  {
  }

  lemma {:induction false} MessageBitsAppend(a: seq<byte>, b: seq<byte>)
    ensures MessageBits(a + b) == MessageBits(a) + MessageBits(b)
    decreases |b|
  {
    hide ByteBits;
    if b == [] {
      assert a + b == a;
    } else {
      var k := |b| - 1;
      assert (a + b)[..|a| + k] == a + b[..k];
      MessageBitsAppend(a, b[..k]);
    }
  }

  /** The same for bytes: damage confined to four consecutive bytes never goes unnoticed. */
  lemma DetectsByteBurst(pre: seq<byte>, u: seq<byte>, v: seq<byte>, post: seq<byte>)
    requires |u| == |v| <= 4 && u != v
    ensures Crc(pre + u + post) != Crc(pre + v + post)
  {
    hide MessageBits, Crc;
    MessageBitsAppend(pre + u, post);
    MessageBitsAppend(pre, u);
    MessageBitsAppend(pre + v, post);
    MessageBitsAppend(pre, v);
    assert (pre + u + post)[|pre|..|pre| + |u|] == u;
    assert (pre + v + post)[|pre|..|pre| + |v|] == v;
    DetectsBitBurst(pre + u + post, pre + v + post, 8 * |pre|, 8 * |u|);
  }

  // ----- values that owe nothing to the definition

  lemma ValueOfNothing()
    ensures Crc([]) == 0 && Register([]) == 0xFFFFFFFF
  {
  }

  /** One turn of `update`, by number. */
  lemma OneStep(c: word, b: byte, index: byte, entry: word, next: word)
    requires TableIndex(c, b) == index && Table(index) == entry && entry ^ (c >> 8) == next
    ensures ByteStep(c, b) == next
  {
    hide Table, TableIndex;
  }

  lemma Entries()
    ensures Table(0xFF) == 0x2D02EF8D && Table(0x72) == 0xBE0B1010
    ensures Table(0x00) == 0x00000000 && Table(0xED) == 0xDEBB9EC5
  {
  }

  /** The register `c` after the first `k` bytes of its own value. */
  function After(c: word, k: nat): word {
    match k
    case 0 => c
    case 1 => 0x2D02EF8D ^ (c >> 8)
    case 2 => 0xBE2612FF ^ (c >> 16)
    case 3 => 0x00BE2612 ^ (c >> 24)
    case _ => 0xDEBB20E3
  }

  /** Byte `k` of the value of a register. */
  function OwnByte(c: word, k: nat): byte {
    match k
    case 0 => Low(!c)
    case 1 => Low(!c >> 8)
    case 2 => Low(!c >> 16)
    case _ => Low(!c >> 24)
  }

  lemma OwnStep0(c: word)
    ensures ByteStep(After(c, 0), OwnByte(c, 0)) == After(c, 1)
  {
    OwnIndex0(c);
    OwnShift0(c);
    Entries();
    hide ByteStep, TableIndex, Table, Low;
    OneStep(After(c, 0), OwnByte(c, 0), 0xFF, 0x2D02EF8D, After(c, 1));
  }

  lemma OwnIndex0(c: word)
    ensures TableIndex(After(c, 0), OwnByte(c, 0)) == 0xFF
  {
  }

  lemma OwnShift0(c: word)
    ensures 0x2D02EF8D ^ (After(c, 0) >> 8) == After(c, 1)
  {
  }

  lemma OwnStep1(c: word)
    ensures ByteStep(After(c, 1), OwnByte(c, 1)) == After(c, 2)
  {
    OwnIndex1(c);
    OwnShift1(c);
    Entries();
    hide ByteStep, TableIndex, Table, Low;
    OneStep(After(c, 1), OwnByte(c, 1), 0x72, 0xBE0B1010, After(c, 2));
  }

  lemma OwnIndex1(c: word)
    ensures TableIndex(After(c, 1), OwnByte(c, 1)) == 0x72
  {
  }

  lemma OwnShift1(c: word)
    ensures 0xBE0B1010 ^ (After(c, 1) >> 8) == After(c, 2)
  {
  }

  lemma OwnStep2(c: word)
    ensures ByteStep(After(c, 2), OwnByte(c, 2)) == After(c, 3)
  {
    OwnIndex2(c);
    OwnShift2(c);
    Entries();
    hide ByteStep, TableIndex, Table, Low;
    OneStep(After(c, 2), OwnByte(c, 2), 0x00, 0x00000000, After(c, 3));
  }

  lemma OwnIndex2(c: word)
    ensures TableIndex(After(c, 2), OwnByte(c, 2)) == 0x00
  {
  }

  lemma OwnShift2(c: word)
    ensures 0x00000000 ^ (After(c, 2) >> 8) == After(c, 3)
  {
  }

  lemma OwnStep3(c: word)
    ensures ByteStep(After(c, 3), OwnByte(c, 3)) == After(c, 4)
  {
    OwnIndex3(c);
    OwnShift3(c);
    Entries();
    hide ByteStep, TableIndex, Table, Low;
    OneStep(After(c, 3), OwnByte(c, 3), 0xED, 0xDEBB9EC5, After(c, 4));
  }

  lemma OwnIndex3(c: word)
    ensures TableIndex(After(c, 3), OwnByte(c, 3)) == 0xED
  {
  }

  lemma OwnShift3(c: word)
    ensures 0xDEBB9EC5 ^ (After(c, 3) >> 8) == After(c, 4)
  {
  }

  lemma ValueBytes(c: word)
    ensures LittleEndianBytes(!c) == [OwnByte(c, 0), OwnByte(c, 1), OwnByte(c, 2), OwnByte(c, 3)]
  {
    hide Low;
  }

  /** A message followed by its own value, least significant byte first, always leaves the same register. */
  lemma Residue(message: seq<byte>)
    ensures Register(message + LittleEndianBytes(Crc(message))) == 0xDEBB20E3
  {
    hide Register, ByteStep, LittleEndianBytes, After, OwnByte;
    var c := Register(message);
    ValueBytes(c);
    RegisterSnoc4(message, LittleEndianBytes(!c));
    Ends(c);
    OwnStep0(c);
    OwnStep1(c);
    OwnStep2(c);
    OwnStep3(c);
  }

  lemma Ends(c: word)
    ensures After(c, 0) == c && After(c, 4) == 0xDEBB20E3
  {
  }

  lemma RegisterSnoc4(message: seq<byte>, b: seq<byte>)
    requires |b| == 4
    ensures Register(message + b) == ByteStep(ByteStep(ByteStep(ByteStep(Register(message), b[0]), b[1]), b[2]), b[3])
  {
    hide Register, ByteStep;
    var m1 := message + [b[0]];
    var m2 := m1 + [b[1]];
    var m3 := m2 + [b[2]];
    RegisterSnoc(message, b[0]);
    RegisterSnoc(m1, b[1]);
    RegisterSnoc(m2, b[2]);
    RegisterSnoc(m3, b[3]);
    assert message + b == m3 + [b[3]];
  }

  /** The check value of the digits 1 to 9. */
  lemma ValueOfDigits()
    ensures Crc([0x31, 0x32, 0x33, 0x34, 0x35, 0x36, 0x37, 0x38, 0x39]) == 0xCBF43926
  {
    ValueOfNothing();
    hide Register, ByteStep, Table;
    Entries012();
    Entries345();
    Entries678();
    var s := [0x31, 0x32, 0x33, 0x34, 0x35, 0x36, 0x37, 0x38, 0x39];
    assert s[..0] == [] && s[..9] == s;
    OneStep(0xFFFFFFFF, 0x31, 0xCE, 0x7CDCEFB7, 0x7C231048);
    RegisterSnoc(s[..0], s[0]);
    assert s[..1] == s[..0] + [s[0]];
    OneStep(0x7C231048, 0x32, 0x7A, 0xB0D09822, 0xB0ACBB32);
    RegisterSnoc(s[..1], s[1]);
    assert s[..2] == s[..1] + [s[1]];
    OneStep(0xB0ACBB32, 0x33, 0x01, 0x77073096, 0x77B79C2D);
    RegisterSnoc(s[..2], s[2]);
    assert s[..3] == s[..2] + [s[2]];
    OneStep(0x77B79C2D, 0x34, 0x19, 0x646BA8C0, 0x641C1F5C);
    RegisterSnoc(s[..3], s[3]);
    assert s[..4] == s[..3] + [s[3]];
    OneStep(0x641C1F5C, 0x35, 0x69, 0x346ED9FC, 0x340AC5E3);
    RegisterSnoc(s[..4], s[4]);
    assert s[..5] == s[..4] + [s[4]];
    OneStep(0x340AC5E3, 0x36, 0xD5, 0xF6B9265B, 0xF68D2C9E);
    RegisterSnoc(s[..5], s[5]);
    assert s[..6] == s[..5] + [s[5]];
    OneStep(0xF68D2C9E, 0x37, 0xA9, 0xAF0A1B4C, 0xAFFC9660);
    RegisterSnoc(s[..6], s[6]);
    assert s[..7] == s[..6] + [s[6]];
    OneStep(0xAFFC9660, 0x38, 0x58, 0x65B0D9C6, 0x651F2550);
    RegisterSnoc(s[..7], s[7]);
    assert s[..8] == s[..7] + [s[7]];
    OneStep(0x651F2550, 0x39, 0x69, 0x346ED9FC, 0x340BC6D9);
    RegisterSnoc(s[..8], s[8]);
    assert s[..9] == s[..8] + [s[8]];
  }

  lemma Entries012()
    ensures Table(0xCE) == 0x7CDCEFB7
    ensures Table(0x7A) == 0xB0D09822
    ensures Table(0x01) == 0x77073096
  {
  }

  lemma Entries345()
    ensures Table(0x19) == 0x646BA8C0
    ensures Table(0x69) == 0x346ED9FC
    ensures Table(0xD5) == 0xF6B9265B
  {
  }

  lemma Entries678()
    ensures Table(0xA9) == 0xAF0A1B4C
    ensures Table(0x58) == 0x65B0D9C6
    ensures Table(0x69) == 0x346ED9FC
  {
  }
}
