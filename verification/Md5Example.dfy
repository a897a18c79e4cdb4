/**
 * A published value of MD5, in section A.5 of RFC 1321: the digest of "abc", operation by operation. It ties the
 * tables, functions and rotations of Md5Spec to numbers that owe nothing to it.
 */
module Md5Example {
  import opened Words
  import opened Streaming
  import opened Md5Spec
  import opened Md5Transform

  /** "abc", its padding and its length, as words. */
  predicate Abc(x: seq<word>)
    requires |x| == 16
  {
    x[0] == 0x80636261 && x[14] == 0x18 && forall i | 1 <= i < 16 && i != 14 :: x[i] == 0
  }

  /** The registers after `i` operations. */
  predicate Reached(x: seq<word>, i: nat, r: Regs) {
    |x| == 16 && i <= 64 && Rounds(INITIAL, x, i) == r
  }

  lemma NextRegs(x: seq<word>, i: nat, r: Regs, k: nat, s: word, t: word)
    requires i < 64 && Reached(x, i, r) && Scheduled(i, k, s, t) && 0 < s < 32
    ensures var sum := Sum(r.a, Auxiliary(i, r.b, r.c, r.d), x[k], t);
            Reached(x, i + 1, Regs(r.d, Plus(r.b, RotL(sum, s)), r.b, r.c))
  {
    hide Auxiliary, T, Sum, RotL, Plus, Shift, WordIndex;
  }

  lemma Rounds0(x: seq<word>)
    requires |x| == 16 && Abc(x) && Reached(x, 0, Regs(0x67452301, 0xEFCDAB89, 0x98BADCFE, 0x10325476))
    ensures Reached(x, 16, Regs(0xDDA9B9A6, 0x72AFF2E0, 0xE396856B, 0xA1051895))
  {
    Schedule1();
    hide Reached, Scheduled;
    NextRegs(x, 0, Regs(0x67452301, 0xEFCDAB89, 0x98BADCFE, 0x10325476), 0, 7, 0xD76AA478);
    NextRegs(x, 1, Regs(0x10325476, 0xD6D117B4, 0xEFCDAB89, 0x98BADCFE), 1, 12, 0xE8C7B756);
    NextRegs(x, 2, Regs(0x98BADCFE, 0x344A8432, 0xD6D117B4, 0xEFCDAB89), 2, 17, 0x242070DB);
    NextRegs(x, 3, Regs(0xEFCDAB89, 0x2F6FBD72, 0x344A8432, 0xD6D117B4), 3, 22, 0xC1BDCEEE);
    NextRegs(x, 4, Regs(0xD6D117B4, 0x7AD956F2, 0x2F6FBD72, 0x344A8432), 4, 7, 0xF57C0FAF);
    NextRegs(x, 5, Regs(0x344A8432, 0xC73741EF, 0x7AD956F2, 0x2F6FBD72), 5, 12, 0x4787C62A);
    NextRegs(x, 6, Regs(0x2F6FBD72, 0x8BAC3051, 0xC73741EF, 0x7AD956F2), 6, 17, 0xA8304613);
    NextRegs(x, 7, Regs(0x7AD956F2, 0x207DC67B, 0x8BAC3051, 0xC73741EF), 7, 22, 0xFD469501);
    NextRegs(x, 8, Regs(0xC73741EF, 0x928D99F6, 0x207DC67B, 0x8BAC3051), 8, 7, 0x698098D8);
    NextRegs(x, 9, Regs(0x8BAC3051, 0x854B3712, 0x928D99F6, 0x207DC67B), 9, 12, 0x8B44F7AF);
    NextRegs(x, 10, Regs(0x207DC67B, 0x74E2F284, 0x854B3712, 0x928D99F6), 10, 17, 0xFFFF5BB1);
    NextRegs(x, 11, Regs(0x928D99F6, 0x3020401C, 0x74E2F284, 0x854B3712), 11, 22, 0x895CD7BE);
    NextRegs(x, 12, Regs(0x854B3712, 0x5ED49596, 0x3020401C, 0x74E2F284), 12, 7, 0x6B901122);
    NextRegs(x, 13, Regs(0x74E2F284, 0xDDA9B9A6, 0x5ED49596, 0x3020401C), 13, 12, 0xFD987193);
    NextRegs(x, 14, Regs(0x3020401C, 0xA1051895, 0xDDA9B9A6, 0x5ED49596), 14, 17, 0xA679438E);
    NextRegs(x, 15, Regs(0x5ED49596, 0xE396856B, 0xA1051895, 0xDDA9B9A6), 15, 22, 0x49B40821);
  }

  lemma Rounds16(x: seq<word>)
    requires |x| == 16 && Abc(x) && Reached(x, 16, Regs(0xDDA9B9A6, 0x72AFF2E0, 0xE396856B, 0xA1051895))
    ensures Reached(x, 32, Regs(0x790A77FB, 0x726342D3, 0xA62884AA, 0x9F47E4F8))
  {
    Schedule2();
    hide Reached, Scheduled;
    NextRegs(x, 16, Regs(0xDDA9B9A6, 0x72AFF2E0, 0xE396856B, 0xA1051895), 1, 5, 0xF61E2562);
    NextRegs(x, 17, Regs(0xA1051895, 0x3E9E9126, 0x72AFF2E0, 0xE396856B), 6, 9, 0xC040B340);
    NextRegs(x, 18, Regs(0xE396856B, 0x4A1D804E, 0x3E9E9126, 0x72AFF2E0), 11, 14, 0x265E5A51);
    NextRegs(x, 19, Regs(0x72AFF2E0, 0xE25E1652, 0x4A1D804E, 0x3E9E9126), 0, 20, 0xE9B6C7AA);
    NextRegs(x, 20, Regs(0x3E9E9126, 0xB5B204E4, 0xE25E1652, 0x4A1D804E), 5, 5, 0xD62F105D);
    NextRegs(x, 21, Regs(0x4A1D804E, 0x59A8FFDA, 0xB5B204E4, 0xE25E1652), 10, 9, 0x02441453);
    NextRegs(x, 22, Regs(0xE25E1652, 0x6D002F1E, 0x59A8FFDA, 0xB5B204E4), 15, 14, 0xD8A1E681);
    NextRegs(x, 23, Regs(0xB5B204E4, 0xABFC7920, 0x6D002F1E, 0x59A8FFDA), 4, 20, 0xE7D3FBC8);
    NextRegs(x, 24, Regs(0x59A8FFDA, 0x47092C07, 0xABFC7920, 0x6D002F1E), 9, 5, 0x21E1CDE6);
    NextRegs(x, 25, Regs(0x6D002F1E, 0xB7F268CF, 0x47092C07, 0xABFC7920), 14, 9, 0xC33707D6);
    NextRegs(x, 26, Regs(0xABFC7920, 0x09388EFF, 0xB7F268CF, 0x47092C07), 3, 14, 0xF4D50D87);
    NextRegs(x, 27, Regs(0x47092C07, 0xFE1623B1, 0x09388EFF, 0xB7F268CF), 8, 20, 0x455A14ED);
    NextRegs(x, 28, Regs(0xB7F268CF, 0x786ACB8F, 0xFE1623B1, 0x09388EFF), 13, 5, 0xA9E3E905);
    NextRegs(x, 29, Regs(0x09388EFF, 0x790A77FB, 0x786ACB8F, 0xFE1623B1), 2, 9, 0xFCEFA3F8);
    NextRegs(x, 30, Regs(0xFE1623B1, 0x9F47E4F8, 0x790A77FB, 0x786ACB8F), 7, 14, 0x676F02D9);
    NextRegs(x, 31, Regs(0x786ACB8F, 0xA62884AA, 0x9F47E4F8, 0x790A77FB), 12, 20, 0x8D2A4C8A);
  }

  lemma Rounds32(x: seq<word>)
    requires |x| == 16 && Abc(x) && Reached(x, 32, Regs(0x790A77FB, 0x726342D3, 0xA62884AA, 0x9F47E4F8))
    ensures Reached(x, 48, Regs(0x7F2E507B, 0x7BEB9700, 0x8FAE6399, 0x99D9679D))
  {
    Schedule3();
    hide Reached, Scheduled;
    NextRegs(x, 32, Regs(0x790A77FB, 0x726342D3, 0xA62884AA, 0x9F47E4F8), 5, 4, 0xFFFA3942);
    NextRegs(x, 33, Regs(0x9F47E4F8, 0xB3707EBF, 0x726342D3, 0xA62884AA), 8, 11, 0x8771F681);
    NextRegs(x, 34, Regs(0xA62884AA, 0x60127B2E, 0xB3707EBF, 0x726342D3), 11, 16, 0x6D9D6122);
    NextRegs(x, 35, Regs(0x726342D3, 0x8D212FF5, 0x60127B2E, 0xB3707EBF), 14, 23, 0xFDE5380C);
    NextRegs(x, 36, Regs(0xB3707EBF, 0x3B0875C7, 0x8D212FF5, 0x60127B2E), 1, 4, 0xA4BEEA44);
    NextRegs(x, 37, Regs(0x60127B2E, 0x21B117B9, 0x3B0875C7, 0x8D212FF5), 4, 11, 0x4BDECFA9);
    NextRegs(x, 38, Regs(0x8D212FF5, 0x6E7429D5, 0x21B117B9, 0x3B0875C7), 7, 16, 0xF6BB4B60);
    NextRegs(x, 39, Regs(0x3B0875C7, 0x3575227E, 0x6E7429D5, 0x21B117B9), 10, 23, 0xBEBFBC70);
    NextRegs(x, 40, Regs(0x21B117B9, 0x5A2F5EA5, 0x3575227E, 0x6E7429D5), 13, 4, 0x289B7EC6);
    NextRegs(x, 41, Regs(0x6E7429D5, 0x11DE1779, 0x5A2F5EA5, 0x3575227E), 0, 11, 0xEAA127FA);
    NextRegs(x, 42, Regs(0x3575227E, 0xFADCAA38, 0x11DE1779, 0x5A2F5EA5), 3, 16, 0xD4EF3085);
    NextRegs(x, 43, Regs(0x5A2F5EA5, 0x31C465CA, 0xFADCAA38, 0x11DE1779), 6, 23, 0x04881D05);
    NextRegs(x, 44, Regs(0x11DE1779, 0x4C6124F4, 0x31C465CA, 0xFADCAA38), 9, 4, 0xD9D4D039);
    NextRegs(x, 45, Regs(0xFADCAA38, 0x7F2E507B, 0x4C6124F4, 0x31C465CA), 12, 11, 0xE6DB99E5);
    NextRegs(x, 46, Regs(0x31C465CA, 0x99D9679D, 0x7F2E507B, 0x4C6124F4), 15, 16, 0x1FA27CF8);
    NextRegs(x, 47, Regs(0x4C6124F4, 0x8FAE6399, 0x99D9679D, 0x7F2E507B), 2, 23, 0xC4AC5665);
  }

  lemma Rounds48(x: seq<word>)
    requires |x| == 16 && Abc(x) && Reached(x, 48, Regs(0x7F2E507B, 0x7BEB9700, 0x8FAE6399, 0x99D9679D))
    ensures Reached(x, 64, Regs(0x310ADE8F, 0xC08226B3, 0xE484B9D8, 0x624D8CB2))
  {
    Schedule4();
    hide Reached, Scheduled;
    NextRegs(x, 48, Regs(0x7F2E507B, 0x7BEB9700, 0x8FAE6399, 0x99D9679D), 0, 6, 0xF4292244);
    NextRegs(x, 49, Regs(0x99D9679D, 0x7B201DF8, 0x7BEB9700, 0x8FAE6399), 7, 10, 0x432AFF97);
    NextRegs(x, 50, Regs(0x8FAE6399, 0xF4E8E96E, 0x7B201DF8, 0x7BEB9700), 14, 15, 0xAB9423A7);
    NextRegs(x, 51, Regs(0x7BEB9700, 0xB298CEFD, 0xF4E8E96E, 0x7B201DF8), 5, 21, 0xFC93A039);
    NextRegs(x, 52, Regs(0x7B201DF8, 0x8BF025C4, 0xB298CEFD, 0xF4E8E96E), 12, 6, 0x655B59C3);
    NextRegs(x, 53, Regs(0xF4E8E96E, 0x06CC5E8A, 0x8BF025C4, 0xB298CEFD), 3, 10, 0x8F0CCC92);
    NextRegs(x, 54, Regs(0xB298CEFD, 0x5B0D97AA, 0x06CC5E8A, 0x8BF025C4), 10, 15, 0xFFEFF47D);
    NextRegs(x, 55, Regs(0x8BF025C4, 0x7D632DD0, 0x5B0D97AA, 0x06CC5E8A), 1, 21, 0x85845DD1);
    NextRegs(x, 56, Regs(0x06CC5E8A, 0x3BFA2C27, 0x7D632DD0, 0x5B0D97AA), 8, 6, 0x6FA87E4F);
    NextRegs(x, 57, Regs(0x5B0D97AA, 0x7F81CC35, 0x3BFA2C27, 0x7D632DD0), 15, 10, 0xFE2CE6E0);
    NextRegs(x, 58, Regs(0x7D632DD0, 0x094454AB, 0x7F81CC35, 0x3BFA2C27), 6, 15, 0xA3014314);
    NextRegs(x, 59, Regs(0x3BFA2C27, 0x4F9DBE3F, 0x094454AB, 0x7F81CC35), 13, 21, 0x4E0811A1);
    NextRegs(x, 60, Regs(0x7F81CC35, 0x7327D604, 0x4F9DBE3F, 0x094454AB), 4, 6, 0xF7537E82);
    NextRegs(x, 61, Regs(0x094454AB, 0x310ADE8F, 0x7327D604, 0x4F9DBE3F), 11, 10, 0xBD3AF235);
    NextRegs(x, 62, Regs(0x4F9DBE3F, 0x624D8CB2, 0x310ADE8F, 0x7327D604), 2, 15, 0x2AD7D2BB);
    NextRegs(x, 63, Regs(0x7327D604, 0xE484B9D8, 0x624D8CB2, 0x310ADE8F), 9, 21, 0xEB86D391);
  }

  lemma AllRounds(x: seq<word>)
    requires |x| == 16 && Abc(x)
    ensures Rounds(INITIAL, x, 64) == Regs(0x310ADE8F, 0xC08226B3, 0xE484B9D8, 0x624D8CB2)
  {
    assert Reached(x, 0, INITIAL);
    hide Abc, Rounds;
    Rounds0(x);
    Rounds16(x);
    Rounds32(x);
    Rounds48(x);
  }

  lemma Sums()
    ensures Add(INITIAL, Regs(0x310ADE8F, 0xC08226B3, 0xE484B9D8, 0x624D8CB2))
         == Regs(0x98500190, 0xB04FD23C, 0x7D3F96D6, 0x727FE128)
  {
  }

  lemma Bytes()
    ensures EncodeWords([0x98500190, 0xB04FD23C, 0x7D3F96D6, 0x727FE128]) ==
      [0x90, 0x01, 0x50, 0x98, 0x3C, 0xD2, 0x4F, 0xB0,
       0xD6, 0x96, 0x3F, 0x7D, 0x28, 0xE1, 0x7F, 0x72]
  {
  }

  /** The digest of "abc" is the published one. */
  lemma DigestOfAbc()
    ensures Digest([0x61, 0x62, 0x63]) ==
      [0x90, 0x01, 0x50, 0x98, 0x3C, 0xD2, 0x4F, 0xB0,
       0xD6, 0x96, 0x3F, 0x7D, 0x28, 0xE1, 0x7F, 0x72]
  {
    hide Rounds, Add, EncodeWords, DecodeWords, Padded, LengthBytes;
    var padded := Padded([0x61, 0x62, 0x63], LengthBytes(3));
    OneBlock();
    BlockIsAbc(padded);
    AllRounds(DecodeWords(padded));
    Sums();
    Bytes();
    FoldBlock(Compress, INITIAL, [], padded);
    assert [] + padded == padded;
  }

  lemma OneBlock()
    ensures var padded := Padded([0x61, 0x62, 0x63], LengthBytes(3));
            && |padded| == 64 && padded[..4] == [0x61, 0x62, 0x63, 0x80] && padded[56] == 24
            && forall i | 4 <= i < 64 && i != 56 :: padded[i] == 0
  {
    assert ZeroCount(3) == 52;
    LengthOfAbc();
    hide LengthBytes;
  }

  lemma LengthOfAbc()
    ensures LengthBytes(3)[0] == 24 && forall i | 1 <= i < 8 :: LengthBytes(3)[i] == 0
  {
    forall i | 0 <= i < 8
      ensures LengthBytes(3)[i] == if i == 0 then 24 else 0
    {
      assert (24 / Power256(i)) % 256 == if i == 0 then 24 else 0;
    }
  }

  lemma BlockIsAbc(block: Block)
    requires block[..4] == [0x61, 0x62, 0x63, 0x80] && block[56] == 24
    requires forall i | 4 <= i < 64 && i != 56 :: block[i] == 0
    ensures Abc(DecodeWords(block))
  {
    hide LittleEndian;
    LittleEndians();
    assert forall i | 0 <= i < 4 :: block[i] == block[..4][i];
  }

  lemma LittleEndians()
    ensures LittleEndian(0x61, 0x62, 0x63, 0x80) == 0x80636261
    ensures LittleEndian(24, 0, 0, 0) == 0x18 && LittleEndian(0, 0, 0, 0) == 0
  {
  }
}
