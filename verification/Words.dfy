/** Bytes and 32-bit words as the C++ code sees them, with the two byte orders the hashes use. */
module Words {
  type byte = bv8
  type word = bv32

  /** Circular left shift; the amount is 1..31 as in every use of the source's rotation macros. */
  function RotL(x: word, n: word): word
    requires 0 < n < 32
  {
    (x << n) | (x >> (32 - n))
  }

  function BitOf(x: word, i: word): word
    requires i < 32
  {
    (x >> i) & 1
  }

  /** Bit `i` of a word is bit `i + n` modulo 32 of its rotation. */
  lemma RotLBit(x: word, n: word, i: word)
    requires 0 < n < 32 && i < 32
    ensures BitOf(RotL(x, n), (i + n) & 31) == BitOf(x, i)
  {
    if n < 16 {
      LowRotationBit(x, n, i);
    } else {
      HighRotationBit(x, n, i);
    }
  }

  lemma LowRotationBit(x: word, n: word, i: word)
    requires 0 < n < 16 && i < 32
    ensures (((x << n) | (x >> (32 - n))) >> ((i + n) & 31)) & 1 == (x >> i) & 1
  {
  }

  lemma HighRotationBit(x: word, n: word, i: word)
    requires 16 <= n < 32 && i < 32
    ensures (((x << n) | (x >> (32 - n))) >> ((i + n) & 31)) & 1 == (x >> i) & 1
  {
  }

  lemma RotLInjective(x: word, y: word, n: word)
    requires 0 < n < 32 && RotL(x, n) == RotL(y, n)
    ensures x == y
  {
    if n < 16 {
      LowRotation(x, y, n);
    } else {
      HighRotation(x, y, n);
    }
  }

  lemma LowRotation(x: word, y: word, n: word)
    requires 0 < n < 16 && RotL(x, n) == RotL(y, n)
    ensures x == y
  {
  }

  lemma HighRotation(x: word, y: word, n: word)
    requires 16 <= n < 32 && RotL(x, n) == RotL(y, n)
    ensures x == y
  {
  }

  lemma ByteAfter(b: byte)
    requires b != 255
    ensures (b + 1) as int == b as int + 1
  {
  }

  /** The cast to `unsigned char` of a number that fits. */
  function ByteOf(n: nat): (b: byte)
    requires n < 256
    ensures b as int == n
  {
    if n == 0 then 0 else
      var b := ByteOf(n - 1);
      ByteAfter(b);
      b + 1
  }

  /** The number that base-256 digits spell, least significant first. */
  function LittleEndianNumber(s: seq<byte>): nat {
    if s == [] then 0 else s[0] as nat + 256 * LittleEndianNumber(s[1..])
  }

  /** The number that base-256 digits spell, most significant first. */
  function BigEndianNumber(s: seq<byte>): nat {
    if s == [] then 0 else 256 * BigEndianNumber(s[..|s| - 1]) + s[|s| - 1] as nat
  }

  /** Addition modulo 2^32. */
  function Plus(x: word, y: word): word {
    x + y
  }

  function Xor(x: word, y: word): word {
    x ^ y
  }

  function Low(w: word): byte {
    (w & 0xff) as byte
  }

  /** The word whose least significant byte comes first. */
  function LittleEndian(b0: byte, b1: byte, b2: byte, b3: byte): word {
    (b0 as word) | ((b1 as word) << 8) | ((b2 as word) << 16) | ((b3 as word) << 24)
  }

  /** The word whose most significant byte comes first. */
  function BigEndian(b0: byte, b1: byte, b2: byte, b3: byte): word {
    LittleEndian(b3, b2, b1, b0)
  }

  function LittleEndianBytes(w: word): (s: seq<byte>)
    ensures |s| == 4
  {
    [Low(w), Low(w >> 8), Low(w >> 16), Low(w >> 24)]
  }

  function BigEndianBytes(w: word): (s: seq<byte>)
    ensures |s| == 4
  {
    [Low(w >> 24), Low(w >> 16), Low(w >> 8), Low(w)]
  }

  lemma LittleEndianRoundTrip(w: word)
    ensures LittleEndian(Low(w), Low(w >> 8), Low(w >> 16), Low(w >> 24)) == w
  {
  }

  lemma LittleEndianBytesRoundTrip(b0: byte, b1: byte, b2: byte, b3: byte)
    ensures var w := LittleEndian(b0, b1, b2, b3);
            Low(w) == b0 && Low(w >> 8) == b1 && Low(w >> 16) == b2 && Low(w >> 24) == b3
  {
  }
}
