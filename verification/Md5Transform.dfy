/** The compression function as md5.cpp computes it: 64 unrolled operations whose register names rotate. */
module Md5Transform {
  import opened Words
  import opened Streaming
  import opened Md5Spec

  const S11: word := 7
  const S12: word := 12
  const S13: word := 17
  const S14: word := 22
  const S21: word := 5
  const S22: word := 9
  const S23: word := 14
  const S24: word := 20
  const S31: word := 4
  const S32: word := 11
  const S33: word := 16
  const S34: word := 23
  const S41: word := 6
  const S42: word := 10
  const S43: word := 15
  const S44: word := 21

  /** `Encode`: `len` bytes from `len / 4` words. */
  method Encode(output: array<byte>, input: seq<word>, len: u32)
    requires len % 4 == 0 && |input| == (len / 4) as int && output.Length == len as int
    modifies output
    ensures output[..] == EncodeWords(input)
  {
    hide LittleEndianBytes;
    var i: u32, j: u32 := 0, 0;
    while j < len
      invariant j <= len && j as int == 4 * i as int
      invariant output[..j] == EncodeWords(input)[..j]
    {
      StoreWord(output, j, input[i]);
      assert output[..j + 4] == output[..j] + output[j..j + 4];
      WordBytes(input, i as nat);
      i, j := i + 1, j + 4;
    }
    assert output[..] == output[..j];
  }

  method StoreWord(output: array<byte>, j: u32, w: word)
    requires j as int + 4 <= output.Length
    modifies output
    ensures output[..j] == old(output[..j]) && output[j as int + 4..] == old(output[j as int + 4..])
    ensures output[j as int..j as int + 4] == LittleEndianBytes(w)
  {
    output[j] := Low(w);
    output[j as int + 1] := Low(w >> 8);
    output[j as int + 2] := Low(w >> 16);
    output[j as int + 3] := Low(w >> 24);
  }

  lemma WordBytes(ws: seq<word>, i: nat)
    requires i < |ws|
    ensures EncodeWords(ws)[..4 * i + 4] == EncodeWords(ws)[..4 * i] + LittleEndianBytes(ws[i])
  {
    hide LittleEndianBytes, EncodeWords;
    FourBytes(ws, i);
    assert EncodeWords(ws)[..4 * i + 4] == EncodeWords(ws)[..4 * i] + EncodeWords(ws)[4 * i..4 * i + 4];
  }

  /** `Decode`: the words of a 64-byte block. */
  method Decode(output: array<word>, input: array<byte>, off: nat, len: u32)
    requires len % 4 == 0 && output.Length == (len / 4) as int && off + len as int <= input.Length
    modifies output
    ensures output[..] == DecodeWords(input[off..off + len as int])
  {
    hide LittleEndian;
    var i: u32, j: u32 := 0, 0;
    ghost var bytes := input[off..off + len as int];
    while j < len
      invariant j <= len && j as int == 4 * i as int
      invariant output[..i] == DecodeWords(bytes)[..i]
      invariant input[off..off + len as int] == bytes
    {
      var at := off + j as int;
      output[i] := LittleEndian(input[at], input[at + 1], input[at + 2], input[at + 3]);
      assert output[i] == DecodeWords(bytes)[i];
      i, j := i + 1, j + 4;
    }
    assert output[..] == output[..i];
  }

  /** `Encode` and `Decode` undo each other on whole words. */
  lemma DecodeOfEncode(ws: seq<word>)
    ensures DecodeWords(EncodeWords(ws)) == ws
  {
    hide LittleEndian, LittleEndianBytes, EncodeWords;
    forall i | 0 <= i < |ws|
      ensures DecodeWords(EncodeWords(ws))[i] == ws[i]
    {
      FourBytes(ws, i);
      WordRoundTrip(ws[i]);
    }
  }

  lemma FourBytes(ws: seq<word>, i: nat)
    requires i < |ws|
    ensures EncodeWords(ws)[4 * i..4 * i + 4] == LittleEndianBytes(ws[i])
    ensures forall k | 0 <= k < 4 :: EncodeWords(ws)[4 * i + k] == LittleEndianBytes(ws[i])[k]
  {
    hide LittleEndianBytes;
    forall k | 0 <= k < 4
      ensures EncodeWords(ws)[4 * i + k] == LittleEndianBytes(ws[i])[k]
    {
      assert (4 * i + k) / 4 == i && (4 * i + k) % 4 == k;
    }
    var four := EncodeWords(ws)[4 * i..4 * i + 4];
    assert forall k | 0 <= k < 4 :: four[k] == EncodeWords(ws)[4 * i + k];
  }

  lemma WordRoundTrip(w: word)
    ensures var s := LittleEndianBytes(w); LittleEndian(s[0], s[1], s[2], s[3]) == w
  {
    LittleEndianRoundTrip(w);
  }

  lemma FourOfWord(bytes: seq<byte>, i: nat)
    requires |bytes| % 4 == 0 && 4 * i + 4 <= |bytes|
    ensures forall k | 0 <= k < 4 :: LittleEndianBytes(DecodeWords(bytes)[i])[k] == bytes[4 * i + k]
  {
    hide LittleEndian, LittleEndianBytes;
    BytesRoundTrip(bytes[4 * i], bytes[4 * i + 1], bytes[4 * i + 2], bytes[4 * i + 3]);
  }

  lemma EncodeOfDecode(bytes: seq<byte>)
    requires |bytes| % 4 == 0
    ensures EncodeWords(DecodeWords(bytes)) == bytes
  {
    hide LittleEndian, LittleEndianBytes, EncodeWords, DecodeWords;
    var ws := DecodeWords(bytes);
    forall j | 0 <= j < |bytes|
      ensures EncodeWords(ws)[j] == bytes[j]
    {
      var i := j / 4;
      FourOfWord(bytes, i);
      FourBytes(ws, i);
      assert j == 4 * i + j % 4;
    }
  }

  lemma BytesRoundTrip(b0: byte, b1: byte, b2: byte, b3: byte)
    ensures LittleEndianBytes(LittleEndian(b0, b1, b2, b3)) == [b0, b1, b2, b3]
  {
    LittleEndianBytesRoundTrip(b0, b1, b2, b3);
  }

  ghost predicate At(h: Regs, x: seq<word>, i: nat, r: Regs) {
    |x| == 16 && i <= 64 && r == Rounds(h, x, i)
  }

  /** Operation `i` reads word `k`, rotates by `s` and adds `t`. */
  predicate Scheduled(i: nat, k: nat, s: word, t: word)
    requires i < 64
  {
    WordIndex(i) == k && Shift(i) == s && T(i) == t
  }

  /** The last two lines of macros FF, GG, HH and II. */
  function RotateAndAdd(sum: word, s: word, b: word): word
    requires 0 < s < 32
  {
    RotL(sum, s) + b
  }

  lemma RotateAndAddIsPlus(sum: word, s: word, b: word)
    requires 0 < s < 32
    ensures RotateAndAdd(sum, s, b) == Plus(b, RotL(sum, s))
  {
  }

  method FF(a: word, b: word, c: word, d: word, x: word, s: word, ac: word,
            ghost i: nat, ghost k: nat, ghost h: Regs, ghost xs: seq<word>)
    returns (a': word)
    requires i < 16 && At(h, xs, i, Regs(a, b, c, d))
    requires Scheduled(i, k, s, ac) && x == xs[k]
    ensures At(h, xs, i + 1, Regs(d, a', b, c))
  {
    hide F, G, H, I, RotL, T, Sum, Plus, RotateAndAdd, Shift, WordIndex;
    a' := RotateAndAdd(Sum(a, F(b, c, d), x, ac), s, b);
    RotateAndAddIsPlus(Sum(a, F(b, c, d), x, ac), s, b);
  }

  method GG(a: word, b: word, c: word, d: word, x: word, s: word, ac: word,
            ghost i: nat, ghost k: nat, ghost h: Regs, ghost xs: seq<word>)
    returns (a': word)
    requires 16 <= i < 32 && At(h, xs, i, Regs(a, b, c, d))
    requires Scheduled(i, k, s, ac) && x == xs[k]
    ensures At(h, xs, i + 1, Regs(d, a', b, c))
  {
    hide F, G, H, I, RotL, T, Sum, Plus, RotateAndAdd, Shift, WordIndex;
    a' := RotateAndAdd(Sum(a, G(b, c, d), x, ac), s, b);
    RotateAndAddIsPlus(Sum(a, G(b, c, d), x, ac), s, b);
  }

  method HH(a: word, b: word, c: word, d: word, x: word, s: word, ac: word,
            ghost i: nat, ghost k: nat, ghost h: Regs, ghost xs: seq<word>)
    returns (a': word)
    requires 32 <= i < 48 && At(h, xs, i, Regs(a, b, c, d))
    requires Scheduled(i, k, s, ac) && x == xs[k]
    ensures At(h, xs, i + 1, Regs(d, a', b, c))
  {
    hide F, G, H, I, RotL, T, Sum, Plus, RotateAndAdd, Shift, WordIndex;
    a' := RotateAndAdd(Sum(a, H(b, c, d), x, ac), s, b);
    RotateAndAddIsPlus(Sum(a, H(b, c, d), x, ac), s, b);
  }

  method II(a: word, b: word, c: word, d: word, x: word, s: word, ac: word,
            ghost i: nat, ghost k: nat, ghost h: Regs, ghost xs: seq<word>)
    returns (a': word)
    requires 48 <= i < 64 && At(h, xs, i, Regs(a, b, c, d))
    requires Scheduled(i, k, s, ac) && x == xs[k]
    ensures At(h, xs, i + 1, Regs(d, a', b, c))
  {
    hide F, G, H, I, RotL, T, Sum, Plus, RotateAndAdd, Shift, WordIndex;
    a' := RotateAndAdd(Sum(a, I(b, c, d), x, ac), s, b);
    RotateAndAddIsPlus(Sum(a, I(b, c, d), x, ac), s, b);
  }

  lemma Schedule1()
    ensures Scheduled(0, 0, S11, 0xd76aa478)
    ensures Scheduled(1, 1, S12, 0xe8c7b756)
    ensures Scheduled(2, 2, S13, 0x242070db)
    ensures Scheduled(3, 3, S14, 0xc1bdceee)
    ensures Scheduled(4, 4, S11, 0xf57c0faf)
    ensures Scheduled(5, 5, S12, 0x4787c62a)
    ensures Scheduled(6, 6, S13, 0xa8304613)
    ensures Scheduled(7, 7, S14, 0xfd469501)
    ensures Scheduled(8, 8, S11, 0x698098d8)
    ensures Scheduled(9, 9, S12, 0x8b44f7af)
    ensures Scheduled(10, 10, S13, 0xffff5bb1)
    ensures Scheduled(11, 11, S14, 0x895cd7be)
    ensures Scheduled(12, 12, S11, 0x6b901122)
    ensures Scheduled(13, 13, S12, 0xfd987193)
    ensures Scheduled(14, 14, S13, 0xa679438e)
    ensures Scheduled(15, 15, S14, 0x49b40821)
  {
    hide T2, T3, T4;
  }

  method Round1(a0: word, b0: word, c0: word, d0: word, x: array<word>, ghost h: Regs)
    returns (a: word, b: word, c: word, d: word)
    requires x.Length == 16 && At(h, x[..], 0, Regs(a0, b0, c0, d0))
    ensures At(h, x[..], 16, Regs(a, b, c, d))
  {
    Schedule1();
    hide At, Scheduled;
    ghost var xs := x[..];
    a, b, c, d := a0, b0, c0, d0;
    a := FF(a, b, c, d, x[0], S11, 0xd76aa478, 0, 0, h, xs);
    d := FF(d, a, b, c, x[1], S12, 0xe8c7b756, 1, 1, h, xs);
    c := FF(c, d, a, b, x[2], S13, 0x242070db, 2, 2, h, xs);
    b := FF(b, c, d, a, x[3], S14, 0xc1bdceee, 3, 3, h, xs);
    a := FF(a, b, c, d, x[4], S11, 0xf57c0faf, 4, 4, h, xs);
    d := FF(d, a, b, c, x[5], S12, 0x4787c62a, 5, 5, h, xs);
    c := FF(c, d, a, b, x[6], S13, 0xa8304613, 6, 6, h, xs);
    b := FF(b, c, d, a, x[7], S14, 0xfd469501, 7, 7, h, xs);
    a := FF(a, b, c, d, x[8], S11, 0x698098d8, 8, 8, h, xs);
    d := FF(d, a, b, c, x[9], S12, 0x8b44f7af, 9, 9, h, xs);
    c := FF(c, d, a, b, x[10], S13, 0xffff5bb1, 10, 10, h, xs);
    b := FF(b, c, d, a, x[11], S14, 0x895cd7be, 11, 11, h, xs);
    a := FF(a, b, c, d, x[12], S11, 0x6b901122, 12, 12, h, xs);
    d := FF(d, a, b, c, x[13], S12, 0xfd987193, 13, 13, h, xs);
    c := FF(c, d, a, b, x[14], S13, 0xa679438e, 14, 14, h, xs);
    b := FF(b, c, d, a, x[15], S14, 0x49b40821, 15, 15, h, xs);
  }

  lemma Schedule2()
    ensures Scheduled(16, 1, S21, 0xf61e2562)
    ensures Scheduled(17, 6, S22, 0xc040b340)
    ensures Scheduled(18, 11, S23, 0x265e5a51)
    ensures Scheduled(19, 0, S24, 0xe9b6c7aa)
    ensures Scheduled(20, 5, S21, 0xd62f105d)
    ensures Scheduled(21, 10, S22, 0x2441453)
    ensures Scheduled(22, 15, S23, 0xd8a1e681)
    ensures Scheduled(23, 4, S24, 0xe7d3fbc8)
    ensures Scheduled(24, 9, S21, 0x21e1cde6)
    ensures Scheduled(25, 14, S22, 0xc33707d6)
    ensures Scheduled(26, 3, S23, 0xf4d50d87)
    ensures Scheduled(27, 8, S24, 0x455a14ed)
    ensures Scheduled(28, 13, S21, 0xa9e3e905)
    ensures Scheduled(29, 2, S22, 0xfcefa3f8)
    ensures Scheduled(30, 7, S23, 0x676f02d9)
    ensures Scheduled(31, 12, S24, 0x8d2a4c8a)
  {
    hide T1, T3, T4;
  }

  method Round2(a0: word, b0: word, c0: word, d0: word, x: array<word>, ghost h: Regs)
    returns (a: word, b: word, c: word, d: word)
    requires x.Length == 16 && At(h, x[..], 16, Regs(a0, b0, c0, d0))
    ensures At(h, x[..], 32, Regs(a, b, c, d))
  {
    Schedule2();
    hide At, Scheduled;
    ghost var xs := x[..];
    a, b, c, d := a0, b0, c0, d0;
    a := GG(a, b, c, d, x[1], S21, 0xf61e2562, 16, 1, h, xs);
    d := GG(d, a, b, c, x[6], S22, 0xc040b340, 17, 6, h, xs);
    c := GG(c, d, a, b, x[11], S23, 0x265e5a51, 18, 11, h, xs);
    b := GG(b, c, d, a, x[0], S24, 0xe9b6c7aa, 19, 0, h, xs);
    a := GG(a, b, c, d, x[5], S21, 0xd62f105d, 20, 5, h, xs);
    d := GG(d, a, b, c, x[10], S22, 0x2441453, 21, 10, h, xs);
    c := GG(c, d, a, b, x[15], S23, 0xd8a1e681, 22, 15, h, xs);
    b := GG(b, c, d, a, x[4], S24, 0xe7d3fbc8, 23, 4, h, xs);
    a := GG(a, b, c, d, x[9], S21, 0x21e1cde6, 24, 9, h, xs);
    d := GG(d, a, b, c, x[14], S22, 0xc33707d6, 25, 14, h, xs);
    c := GG(c, d, a, b, x[3], S23, 0xf4d50d87, 26, 3, h, xs);
    b := GG(b, c, d, a, x[8], S24, 0x455a14ed, 27, 8, h, xs);
    a := GG(a, b, c, d, x[13], S21, 0xa9e3e905, 28, 13, h, xs);
    d := GG(d, a, b, c, x[2], S22, 0xfcefa3f8, 29, 2, h, xs);
    c := GG(c, d, a, b, x[7], S23, 0x676f02d9, 30, 7, h, xs);
    b := GG(b, c, d, a, x[12], S24, 0x8d2a4c8a, 31, 12, h, xs);
  }

  lemma Schedule3()
    ensures Scheduled(32, 5, S31, 0xfffa3942)
    ensures Scheduled(33, 8, S32, 0x8771f681)
    ensures Scheduled(34, 11, S33, 0x6d9d6122)
    ensures Scheduled(35, 14, S34, 0xfde5380c)
    ensures Scheduled(36, 1, S31, 0xa4beea44)
    ensures Scheduled(37, 4, S32, 0x4bdecfa9)
    ensures Scheduled(38, 7, S33, 0xf6bb4b60)
    ensures Scheduled(39, 10, S34, 0xbebfbc70)
    ensures Scheduled(40, 13, S31, 0x289b7ec6)
    ensures Scheduled(41, 0, S32, 0xeaa127fa)
    ensures Scheduled(42, 3, S33, 0xd4ef3085)
    ensures Scheduled(43, 6, S34, 0x4881d05)
    ensures Scheduled(44, 9, S31, 0xd9d4d039)
    ensures Scheduled(45, 12, S32, 0xe6db99e5)
    ensures Scheduled(46, 15, S33, 0x1fa27cf8)
    ensures Scheduled(47, 2, S34, 0xc4ac5665)
  {
    hide T1, T2, T4;
  }

  method Round3(a0: word, b0: word, c0: word, d0: word, x: array<word>, ghost h: Regs)
    returns (a: word, b: word, c: word, d: word)
    requires x.Length == 16 && At(h, x[..], 32, Regs(a0, b0, c0, d0))
    ensures At(h, x[..], 48, Regs(a, b, c, d))
  {
    Schedule3();
    hide At, Scheduled;
    ghost var xs := x[..];
    a, b, c, d := a0, b0, c0, d0;
    a := HH(a, b, c, d, x[5], S31, 0xfffa3942, 32, 5, h, xs);
    d := HH(d, a, b, c, x[8], S32, 0x8771f681, 33, 8, h, xs);
    c := HH(c, d, a, b, x[11], S33, 0x6d9d6122, 34, 11, h, xs);
    b := HH(b, c, d, a, x[14], S34, 0xfde5380c, 35, 14, h, xs);
    a := HH(a, b, c, d, x[1], S31, 0xa4beea44, 36, 1, h, xs);
    d := HH(d, a, b, c, x[4], S32, 0x4bdecfa9, 37, 4, h, xs);
    c := HH(c, d, a, b, x[7], S33, 0xf6bb4b60, 38, 7, h, xs);
    b := HH(b, c, d, a, x[10], S34, 0xbebfbc70, 39, 10, h, xs);
    a := HH(a, b, c, d, x[13], S31, 0x289b7ec6, 40, 13, h, xs);
    d := HH(d, a, b, c, x[0], S32, 0xeaa127fa, 41, 0, h, xs);
    c := HH(c, d, a, b, x[3], S33, 0xd4ef3085, 42, 3, h, xs);
    b := HH(b, c, d, a, x[6], S34, 0x4881d05, 43, 6, h, xs);
    a := HH(a, b, c, d, x[9], S31, 0xd9d4d039, 44, 9, h, xs);
    d := HH(d, a, b, c, x[12], S32, 0xe6db99e5, 45, 12, h, xs);
    c := HH(c, d, a, b, x[15], S33, 0x1fa27cf8, 46, 15, h, xs);
    b := HH(b, c, d, a, x[2], S34, 0xc4ac5665, 47, 2, h, xs);
  }

  lemma Schedule4()
    ensures Scheduled(48, 0, S41, 0xf4292244)
    ensures Scheduled(49, 7, S42, 0x432aff97)
    ensures Scheduled(50, 14, S43, 0xab9423a7)
    ensures Scheduled(51, 5, S44, 0xfc93a039)
    ensures Scheduled(52, 12, S41, 0x655b59c3)
    ensures Scheduled(53, 3, S42, 0x8f0ccc92)
    ensures Scheduled(54, 10, S43, 0xffeff47d)
    ensures Scheduled(55, 1, S44, 0x85845dd1)
    ensures Scheduled(56, 8, S41, 0x6fa87e4f)
    ensures Scheduled(57, 15, S42, 0xfe2ce6e0)
    ensures Scheduled(58, 6, S43, 0xa3014314)
    ensures Scheduled(59, 13, S44, 0x4e0811a1)
    ensures Scheduled(60, 4, S41, 0xf7537e82)
    ensures Scheduled(61, 11, S42, 0xbd3af235)
    ensures Scheduled(62, 2, S43, 0x2ad7d2bb)
    ensures Scheduled(63, 9, S44, 0xeb86d391)
  {
    hide T1, T2, T3;
  }

  method Round4(a0: word, b0: word, c0: word, d0: word, x: array<word>, ghost h: Regs)
    returns (a: word, b: word, c: word, d: word)
    requires x.Length == 16 && At(h, x[..], 48, Regs(a0, b0, c0, d0))
    ensures At(h, x[..], 64, Regs(a, b, c, d))
  {
    Schedule4();
    hide At, Scheduled;
    ghost var xs := x[..];
    a, b, c, d := a0, b0, c0, d0;
    a := II(a, b, c, d, x[0], S41, 0xf4292244, 48, 0, h, xs);
    d := II(d, a, b, c, x[7], S42, 0x432aff97, 49, 7, h, xs);
    c := II(c, d, a, b, x[14], S43, 0xab9423a7, 50, 14, h, xs);
    b := II(b, c, d, a, x[5], S44, 0xfc93a039, 51, 5, h, xs);
    a := II(a, b, c, d, x[12], S41, 0x655b59c3, 52, 12, h, xs);
    d := II(d, a, b, c, x[3], S42, 0x8f0ccc92, 53, 3, h, xs);
    c := II(c, d, a, b, x[10], S43, 0xffeff47d, 54, 10, h, xs);
    b := II(b, c, d, a, x[1], S44, 0x85845dd1, 55, 1, h, xs);
    a := II(a, b, c, d, x[8], S41, 0x6fa87e4f, 56, 8, h, xs);
    d := II(d, a, b, c, x[15], S42, 0xfe2ce6e0, 57, 15, h, xs);
    c := II(c, d, a, b, x[6], S43, 0xa3014314, 58, 6, h, xs);
    b := II(b, c, d, a, x[13], S44, 0x4e0811a1, 59, 13, h, xs);
    a := II(a, b, c, d, x[4], S41, 0xf7537e82, 60, 4, h, xs);
    d := II(d, a, b, c, x[11], S42, 0xbd3af235, 61, 11, h, xs);
    c := II(c, d, a, b, x[2], S43, 0x2ad7d2bb, 62, 2, h, xs);
    b := II(b, c, d, a, x[9], S44, 0xeb86d391, 63, 9, h, xs);
  }

  ghost function RegsOf(state: array<word>): Regs
    requires state.Length == 4
    reads state
  {
    Regs(state[0], state[1], state[2], state[3])
  }

  /** `MD5Transform` on the 64 bytes at `off`, which it only reads. */
  method Transform(state: array<word>, block: array<byte>, off: nat)
    requires state.Length == 4 && off + 64 <= block.Length
    modifies state
    ensures RegsOf(state) == Compress(old(RegsOf(state)), old(block[off..off + 64]))
    ensures block[..] == old(block[..])
  {
    hide Add, DecodeWords, Rounds;
    ghost var h := RegsOf(state);
    var a, b, c, d := state[0], state[1], state[2], state[3];
    var x := new word[16];
    Decode(x, block, off, 64);
    NoRounds(h, x[..]);
    a, b, c, d := Round1(a, b, c, d, x, h);
    a, b, c, d := Round2(a, b, c, d, x, h);
    a, b, c, d := Round3(a, b, c, d, x, h);
    a, b, c, d := Round4(a, b, c, d, x, h);
    AddToState(state, a, b, c, d);
  }

  lemma NoRounds(h: Regs, x: seq<word>)
    requires |x| == 16
    ensures At(h, x, 0, h)
  {
  }

  method AddToState(state: array<word>, a: word, b: word, c: word, d: word)
    requires state.Length == 4
    modifies state
    ensures RegsOf(state) == Add(old(RegsOf(state)), Regs(a, b, c, d))
  {
    hide Plus;
    state[0] := Plus(state[0], a);
    state[1] := Plus(state[1], b);
    state[2] := Plus(state[2], c);
    state[3] := Plus(state[3], d);
  }
}
