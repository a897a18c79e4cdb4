/** MD5 as RFC 1321 defines it: sections 3.1 to 3.5. */
module Md5Spec {
  import opened Words
  import opened Streaming

  datatype Regs = Regs(a: word, b: word, c: word, d: word)

  const INITIAL := Regs(0x67452301, 0xefcdab89, 0x98badcfe, 0x10325476)

  function F(x: word, y: word, z: word): word {
    (x & y) | (!x & z)
  }

  function G(x: word, y: word, z: word): word {
    (x & z) | (y & !z)
  }

  function H(x: word, y: word, z: word): word {
    x ^ y ^ z
  }

  function I(x: word, y: word, z: word): word {
    y ^ (x | !z)
  }

  /** The auxiliary function of operation `i`, one to a round of 16. */
  function Auxiliary(i: nat, x: word, y: word, z: word): word
    requires i < 64
  {
    if i < 16 then F(x, y, z)
    else if i < 32 then G(x, y, z)
    else if i < 48 then H(x, y, z)
    else I(x, y, z)
  }

  /** The input word that operation `i` reads. */
  function WordIndex(i: nat): (k: nat)
    requires i < 64
    ensures k < 16
  {
    if i < 16 then i
    else if i < 32 then (5 * i + 1) % 16
    else if i < 48 then (3 * i + 5) % 16
    else (7 * i) % 16
  }

  function Shift(i: nat): (s: word)
    requires i < 64
    ensures 0 < s < 32
  {
    if i < 16 then (match i % 4 case 0 => 7 case 1 => 12 case 2 => 17 case _ => 22)
    else if i < 32 then (match i % 4 case 0 => 5 case 1 => 9 case 2 => 14 case _ => 20)
    else if i < 48 then (match i % 4 case 0 => 4 case 1 => 11 case 2 => 16 case _ => 23)
    else (match i % 4 case 0 => 6 case 1 => 10 case 2 => 15 case _ => 21)
  }

  /** Element `i + 1` of the table of section 3.4, the integer part of 2^32 * abs(sin(i + 1)). */
  function T(i: nat): word
    requires i < 64
  {
    if i < 16 then T1(i) else if i < 32 then T2(i - 16) else if i < 48 then T3(i - 32) else T4(i - 48)
  }

  function T1(i: nat): word
    requires i < 16
  {
    match i
    case 0 => 0xd76aa478 case 1 => 0xe8c7b756 case 2 => 0x242070db case 3 => 0xc1bdceee
    case 4 => 0xf57c0faf case 5 => 0x4787c62a case 6 => 0xa8304613 case 7 => 0xfd469501
    case 8 => 0x698098d8 case 9 => 0x8b44f7af case 10 => 0xffff5bb1 case 11 => 0x895cd7be
    case 12 => 0x6b901122 case 13 => 0xfd987193 case 14 => 0xa679438e case _ => 0x49b40821
  }

  function T2(i: nat): word
    requires i < 16
  {
    match i
    case 0 => 0xf61e2562 case 1 => 0xc040b340 case 2 => 0x265e5a51 case 3 => 0xe9b6c7aa
    case 4 => 0xd62f105d case 5 => 0x02441453 case 6 => 0xd8a1e681 case 7 => 0xe7d3fbc8
    case 8 => 0x21e1cde6 case 9 => 0xc33707d6 case 10 => 0xf4d50d87 case 11 => 0x455a14ed
    case 12 => 0xa9e3e905 case 13 => 0xfcefa3f8 case 14 => 0x676f02d9 case _ => 0x8d2a4c8a
  }

  function T3(i: nat): word
    requires i < 16
  {
    match i
    case 0 => 0xfffa3942 case 1 => 0x8771f681 case 2 => 0x6d9d6122 case 3 => 0xfde5380c
    case 4 => 0xa4beea44 case 5 => 0x4bdecfa9 case 6 => 0xf6bb4b60 case 7 => 0xbebfbc70
    case 8 => 0x289b7ec6 case 9 => 0xeaa127fa case 10 => 0xd4ef3085 case 11 => 0x04881d05
    case 12 => 0xd9d4d039 case 13 => 0xe6db99e5 case 14 => 0x1fa27cf8 case _ => 0xc4ac5665
  }

  function T4(i: nat): word
    requires i < 16
  {
    match i
    case 0 => 0xf4292244 case 1 => 0x432aff97 case 2 => 0xab9423a7 case 3 => 0xfc93a039
    case 4 => 0x655b59c3 case 5 => 0x8f0ccc92 case 6 => 0xffeff47d case 7 => 0x85845dd1
    case 8 => 0x6fa87e4f case 9 => 0xfe2ce6e0 case 10 => 0xa3014314 case 11 => 0x4e0811a1
    case 12 => 0xf7537e82 case 13 => 0xbd3af235 case 14 => 0x2ad7d2bb case _ => 0xeb86d391
  }

  /** The sum that is rotated in one operation. */
  function Sum(a: word, f: word, x: word, t: word): word {
    a + f + x + t
  }

  /** One operation a = b + ((a + f(b,c,d) + X[k] + T[i]) <<< s), after which the registers change roles. */
  function Step(r: Regs, x: seq<word>, i: nat): Regs
    requires |x| == 16 && i < 64
  {
    var sum := Sum(r.a, Auxiliary(i, r.b, r.c, r.d), x[WordIndex(i)], T(i));
    Regs(r.d, Plus(r.b, RotL(sum, Shift(i))), r.b, r.c)
  }

  function Rounds(r: Regs, x: seq<word>, i: nat): Regs
    requires |x| == 16 && i <= 64
  {
    if i == 0 then r else Step(Rounds(r, x, i - 1), x, i - 1)
  }

  function Add(r: Regs, s: Regs): Regs {
    Regs(Plus(r.a, s.a), Plus(r.b, s.b), Plus(r.c, s.c), Plus(r.d, s.d))
  }

  /** Whole words of a byte string, least significant byte first. */
  function DecodeWords(bytes: seq<byte>): (ws: seq<word>)
    requires |bytes| % 4 == 0
    ensures |ws| == |bytes| / 4
  {
    seq(|bytes| / 4, i requires 0 <= i < |bytes| / 4 =>
      LittleEndian(bytes[4 * i], bytes[4 * i + 1], bytes[4 * i + 2], bytes[4 * i + 3]))
  }

  function EncodeWords(ws: seq<word>): (bytes: seq<byte>)
    ensures |bytes| == 4 * |ws|
  {
    seq(4 * |ws|, j requires 0 <= j < 4 * |ws| => LittleEndianBytes(ws[j / 4])[j % 4])
  }

  function Compress(h: Regs, block: Block): Regs {
    Add(h, Rounds(h, DecodeWords(block), 64))
  }

  /** The bit length as a 64-bit little-endian integer. */
  function LengthBytes(n: nat): (s: seq<byte>)
    ensures |s| == 8
  {
    var bits := (8 * n) % 0x1_0000_0000_0000_0000;
    seq(8, i requires 0 <= i < 8 => ByteOf((bits / Power256(i)) % 256))
  }

  /** Those bytes spell the bit length, least significant first. */
  lemma LengthIsNumber(n: nat)
    ensures LittleEndianNumber(LengthBytes(n)) == (8 * n) % 0x1_0000_0000_0000_0000
  {
    LengthFrom(n, 0);
    assert LengthBytes(n)[0..] == LengthBytes(n);
  }

  lemma {:induction false} LengthFrom(n: nat, i: nat)
    requires i <= 8
    ensures LittleEndianNumber(LengthBytes(n)[i..]) == Above((8 * n) % 0x1_0000_0000_0000_0000, i)
    decreases 8 - i
  {
    if i < 8 {
      var bits, s := (8 * n) % 0x1_0000_0000_0000_0000, LengthBytes(n);
      LengthFrom(n, i + 1);
      NextDigit(bits, i);
      assert s[i..][0] == s[i] && s[i..][1..] == s[i + 1..];
    }
  }

  // ----- what one operation keeps apart

  /** Subtraction modulo 2^32. */
  function Minus(s: word, x: word): word {
    s - x
  }

  function Rest(s: word, x: word, y: word, z: word): word {
    s - x - y - z
  }

  lemma PlusIs(b: word, x: word, s: word)
    requires Plus(b, x) == s
    ensures b + x == s
  {
  }

  lemma MinusOf(b: word, x: word)
    ensures Minus(b + x, b) == x
  {
  }

  lemma PlusUndone(b: word, x: word)
    ensures Minus(Plus(b, x), b) == x
  {
    hide Plus, Minus;
    PlusIs(b, x, Plus(b, x));
    MinusOf(b, x);
  }

  lemma SumIs(a: word, f: word, x: word, t: word, s: word)
    requires Sum(a, f, x, t) == s
    ensures a + f + x + t == s
  {
  }

  lemma RestOf(a: word, f: word, x: word, t: word)
    ensures Rest(a + f + x + t, f, x, t) == a && Rest(a + f + x + t, a, f, t) == x
  {
  }

  lemma SumUndone(a: word, f: word, x: word, t: word)
    ensures Rest(Sum(a, f, x, t), f, x, t) == a && Rest(Sum(a, f, x, t), a, f, t) == x
  {
    hide Sum, Rest;
    SumIs(a, f, x, t, Sum(a, f, x, t));
    RestOf(a, f, x, t);
  }

  /** Operation `i` depends on the one word it reads: another value of it leads to other registers. */
  lemma StepReadsWord(r: Regs, x: seq<word>, y: seq<word>, i: nat)
    requires |x| == |y| == 16 && i < 64
    ensures Step(r, x, i) == Step(r, y, i) <==> x[WordIndex(i)] == y[WordIndex(i)]
  {
    hide Auxiliary, T, Shift, WordIndex, RotL, Plus, Sum, Minus, Rest;
    var f, s := Auxiliary(i, r.b, r.c, r.d), Shift(i);
    var sum, sum' := Sum(r.a, f, x[WordIndex(i)], T(i)), Sum(r.a, f, y[WordIndex(i)], T(i));
    if Step(r, x, i) == Step(r, y, i) {
      PlusUndone(r.b, RotL(sum, s));
      PlusUndone(r.b, RotL(sum', s));
      RotLInjective(sum, sum', s);
      SumUndone(r.a, f, x[WordIndex(i)], T(i));
      SumUndone(r.a, f, y[WordIndex(i)], T(i));
    }
  }

  lemma StepInjective(q: Regs, r: Regs, x: seq<word>, i: nat)
    requires |x| == 16 && i < 64 && Step(q, x, i) == Step(r, x, i)
    ensures q == r
  {
    hide Auxiliary, T, Shift, WordIndex, RotL, Plus, Sum, Minus, Rest;
    var f, s, w := Auxiliary(i, r.b, r.c, r.d), Shift(i), x[WordIndex(i)];
    PlusUndone(r.b, RotL(Sum(q.a, f, w, T(i)), s));
    PlusUndone(r.b, RotL(Sum(r.a, f, w, T(i)), s));
    RotLInjective(Sum(q.a, f, w, T(i)), Sum(r.a, f, w, T(i)), s);
    SumUndone(q.a, f, w, T(i));
    SumUndone(r.a, f, w, T(i));
  }

  /** For every block the operations permute the registers: no two chaining values meet before the final addition. */
  lemma {:induction false} RoundsInjective(q: Regs, r: Regs, x: seq<word>, i: nat)
    requires |x| == 16 && i <= 64 && Rounds(q, x, i) == Rounds(r, x, i)
    ensures q == r
    decreases i
  {
    hide Step;
    if i > 0 {
      StepInjective(Rounds(q, x, i - 1), Rounds(r, x, i - 1), x, i - 1);
      RoundsInjective(q, r, x, i - 1);
    }
  }

  function DigestFrom(iv: Regs, message: seq<byte>): seq<byte> {
    var r := Fold(Compress, iv, Padded(message, LengthBytes(|message|)));
    EncodeWords([r.a, r.b, r.c, r.d])
  }

  function Digest(message: seq<byte>): seq<byte> {
    DigestFrom(INITIAL, message)
  }
}
