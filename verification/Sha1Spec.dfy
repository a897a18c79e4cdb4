/** SHA-1 as RFC 3174 defines it: sections 4 (padding), 5 (functions and constants) and 6.1 (digest). */
module Sha1Spec {
  import opened Words
  import opened Streaming

  datatype Regs = Regs(a: word, b: word, c: word, d: word, e: word)

  const INITIAL := Regs(0x67452301, 0xEFCDAB89, 0x98BADCFE, 0x10325476, 0xC3D2E1F0)

  function F(t: nat, b: word, c: word, d: word): word
    requires t < 80
  {
    if t < 20 then (b & c) | (!b & d)
    else if t < 40 then b ^ c ^ d
    else if t < 60 then (b & c) | (b & d) | (c & d)
    else b ^ c ^ d
  }

  function K(t: nat): word
    requires t < 80
  {
    if t < 20 then 0x5A827999
    else if t < 40 then 0x6ED9EBA1
    else if t < 60 then 0x8F1BBCDC
    else 0xCA62C1D6
  }

  /** Word `t` of the 80-word message schedule. */
  function W(m: seq<word>, t: nat): word
    requires |m| == 16 && t < 80
  {
    if t < 16 then m[t]
    else Expand(W(m, t - 3), W(m, t - 8), W(m, t - 14), W(m, t - 16))
  }

  /** The schedule starts with the block, and each later word comes from four earlier ones. */
  lemma ScheduleWords(m: seq<word>, t: nat)
    requires |m| == 16 && t < 80
    ensures W(m, t) ==
      if t < 16 then m[t] else Expand(W(m, t - 3), W(m, t - 8), W(m, t - 14), W(m, t - 16))
  {
    hide Expand;
  }

  /** Bit `i + 1` of the next word is the sum modulo 2 of the bits `i` of those four. */
  lemma ExpandBit(w3: word, w8: word, w14: word, w16: word, i: word)
    requires i < 32
    ensures BitOf(Expand(w3, w8, w14, w16), (i + 1) & 31) == BitOf(w3, i) ^ BitOf(w8, i) ^ BitOf(w14, i) ^ BitOf(w16, i)
  {
    hide RotL, BitOf;
    RotLBit(w3 ^ w8 ^ w14 ^ w16, 1, i);
    XorBit(w3, w8, w14, w16, i);
  }

  lemma XorBit(w3: word, w8: word, w14: word, w16: word, i: word)
    requires i < 32
    ensures BitOf(w3 ^ w8 ^ w14 ^ w16, i) == BitOf(w3, i) ^ BitOf(w8, i) ^ BitOf(w14, i) ^ BitOf(w16, i)
  {
    assert ((w3 ^ w8 ^ w14 ^ w16) >> i) & 1 == ((w3 >> i) & 1) ^ ((w8 >> i) & 1) ^ ((w14 >> i) & 1) ^ ((w16 >> i) & 1);
  }

  function Expand(w3: word, w8: word, w14: word, w16: word): word {
    RotL(w3 ^ w8 ^ w14 ^ w16, 1)
  }

  /** TEMP of section 6.1: S^5(A) + f(t;B,C,D) + E + W(t) + K(t). */
  function Temp(s: word, f: word, e: word, w: word, k: word): word {
    s + f + e + w + k
  }

  /** One step of section 6.1 (d): every register moves on by one. */
  function Step(r: Regs, m: seq<word>, t: nat): Regs
    requires |m| == 16 && t < 80
  {
    Regs(Temp(RotL(r.a, 5), F(t, r.b, r.c, r.d), r.e, W(m, t), K(t)), r.a, RotL(r.b, 30), r.c, r.d)
  }

  function Rounds(r: Regs, m: seq<word>, t: nat): Regs
    requires |m| == 16 && t <= 80
  {
    if t == 0 then r else Step(Rounds(r, m, t - 1), m, t - 1)
  }

  function Add(r: Regs, s: Regs): Regs {
    Regs(Plus(r.a, s.a), Plus(r.b, s.b), Plus(r.c, s.c), Plus(r.d, s.d), Plus(r.e, s.e))
  }

  function BlockWords(block: Block): (m: seq<word>)
    ensures |m| == 16
  {
    seq(16, i requires 0 <= i < 16 =>
      BigEndian(block[4 * i], block[4 * i + 1], block[4 * i + 2], block[4 * i + 3]))
  }

  function Compress(h: Regs, block: Block): Regs {
    Add(h, Rounds(h, BlockWords(block), 80))
  }

  /** The bit length as the 64-bit big-endian integer that ends the last block. */
  function LengthBytes(n: nat): (s: seq<byte>)
    ensures |s| == 8
  {
    var bits := (8 * n) % 0x1_0000_0000_0000_0000;
    seq(8, i requires 0 <= i < 8 => BigEndianDigit(bits, i))
  }

  /** Base-256 digit `i`, counted from the most significant, of a 64-bit number. */
  function BigEndianDigit(bits: nat, i: nat): byte
    requires i < 8
  {
    ByteOf((bits / Power256(7 - i)) % 256)
  }

  /** Those bytes spell the bit length, most significant first. */
  lemma LengthIsNumber(n: nat)
    ensures BigEndianNumber(LengthBytes(n)) == (8 * n) % 0x1_0000_0000_0000_0000
  {
    LengthUpTo(n, 8);
    assert LengthBytes(n)[..8] == LengthBytes(n);
  }

  lemma {:induction false} LengthUpTo(n: nat, i: nat)
    requires i <= 8
    ensures BigEndianNumber(LengthBytes(n)[..i]) == Above((8 * n) % 0x1_0000_0000_0000_0000, 8 - i)
  {
    if i > 0 {
      var bits, s := (8 * n) % 0x1_0000_0000_0000_0000, LengthBytes(n);
      LengthUpTo(n, i - 1);
      NextDigit(bits, 8 - i);
      assert s[..i][..i - 1] == s[..i - 1] && s[..i][i - 1] == s[i - 1];
    }
  }

  // ----- what one step keeps apart

  /** What is left of the sum TEMP without four of its terms. */
  function Rest(temp: word, x: word, y: word, z: word, v: word): word {
    temp - x - y - z - v
  }

  lemma TempIs(s: word, f: word, e: word, w: word, k: word, temp: word)
    requires Temp(s, f, e, w, k) == temp
    ensures s + f + e + w + k == temp
  {
  }

  lemma RestOf(s: word, f: word, e: word, w: word, k: word)
    ensures Rest(s + f + e + w + k, s, f, w, k) == e && Rest(s + f + e + w + k, s, f, e, k) == w
  {
  }

  lemma TempUndone(s: word, f: word, e: word, w: word, k: word)
    ensures Rest(Temp(s, f, e, w, k), s, f, w, k) == e && Rest(Temp(s, f, e, w, k), s, f, e, k) == w
  {
    hide Temp, Rest;
    TempIs(s, f, e, w, k, Temp(s, f, e, w, k));
    RestOf(s, f, e, w, k);
  }

  /** Step `t` depends on its word of the schedule: another value of it leads to other registers. */
  lemma StepReadsWord(r: Regs, m: seq<word>, n: seq<word>, t: nat)
    requires |m| == |n| == 16 && t < 80
    ensures Step(r, m, t) == Step(r, n, t) <==> W(m, t) == W(n, t)
  {
    hide F, K, W, RotL, Temp, Rest;
    if Step(r, m, t) == Step(r, n, t) {
      TempUndone(RotL(r.a, 5), F(t, r.b, r.c, r.d), r.e, W(m, t), K(t));
      TempUndone(RotL(r.a, 5), F(t, r.b, r.c, r.d), r.e, W(n, t), K(t));
    }
  }

  lemma StepInjective(q: Regs, r: Regs, m: seq<word>, t: nat)
    requires |m| == 16 && t < 80 && Step(q, m, t) == Step(r, m, t)
    ensures q == r
  {
    hide F, K, W, RotL, Temp, Rest;
    RotLInjective(q.b, r.b, 30);
    TempUndone(RotL(q.a, 5), F(t, q.b, q.c, q.d), q.e, W(m, t), K(t));
    TempUndone(RotL(r.a, 5), F(t, r.b, r.c, r.d), r.e, W(m, t), K(t));
  }

  /** For every block the steps permute the registers: no two chaining values meet before the final addition. */
  lemma {:induction false} RoundsInjective(q: Regs, r: Regs, m: seq<word>, t: nat)
    requires |m| == 16 && t <= 80 && Rounds(q, m, t) == Rounds(r, m, t)
    ensures q == r
    decreases t
  {
    hide Step;
    if t > 0 {
      StepInjective(Rounds(q, m, t - 1), Rounds(r, m, t - 1), m, t - 1);
      RoundsInjective(q, r, m, t - 1);
    }
  }

  function DigestBytes(h: Regs): (s: seq<byte>)
    ensures |s| == 20
  {
    BigEndianBytes(h.a) + BigEndianBytes(h.b) + BigEndianBytes(h.c) + BigEndianBytes(h.d) + BigEndianBytes(h.e)
  }

  /** The digest of a message from an arbitrary chaining value; the standard's digest starts at INITIAL. */
  function DigestFrom(iv: Regs, message: seq<byte>): seq<byte> {
    DigestBytes(Fold(Compress, iv, Padded(message, LengthBytes(|message|))))
  }

  function Digest(message: seq<byte>): seq<byte> {
    DigestFrom(INITIAL, message)
  }
}
