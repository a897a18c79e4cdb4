/**
 * The compression function as sha1.cpp computes it: the block is expanded in place in a circular window of
 * 16 words that overlays the caller's bytes, and the register names rotate instead of the values.
 */
module Sha1Transform {
  import opened Words
  import opened Streaming
  import opened Sha1Spec

  /** A little-endian host reads byte quadruples as words; `htonl` reverses the bytes of a word. */
  function HostWord(bytes: seq<byte>, i: nat): word
    requires |bytes| == 64 && i < 16
  {
    LittleEndian(bytes[4 * i], bytes[4 * i + 1], bytes[4 * i + 2], bytes[4 * i + 3])
  }

  function HostWords(bytes: seq<byte>): (ws: seq<word>)
    requires |bytes| == 64
    ensures |ws| == 16
  {
    seq(16, i requires 0 <= i < 16 => HostWord(bytes, i))
  }

  function SwapBytes(w: word): word {
    LittleEndian(Low(w >> 24), Low(w >> 16), Low(w >> 8), Low(w))
  }

  /** The 16-word window after `t` steps on the block whose schedule starts with `m`. */
  ghost function Window(m: seq<word>, t: nat): (ws: seq<word>)
    requires |m| == 16 && t <= 80
    ensures |ws| == 16
  {
    if t == 0 then seq(16, i requires 0 <= i < 16 => SwapBytes(m[i]))
    else Window(m, t - 1)[(t - 1) % 16 := W(m, t - 1)]
  }

  /** Until step `k` slot `k` is untouched input; afterwards slot `j % 16` holds schedule word `j`. */
  lemma {:induction false} WindowSlot(m: seq<word>, t: nat, j: nat)
    requires |m| == 16 && t <= 80
    ensures t <= j < 16 ==> Window(m, t)[j] == SwapBytes(m[j])
    ensures t - 16 <= j < t ==> Window(m, t)[j % 16] == W(m, j)
    decreases t
  {
    hide W, SwapBytes;
    if t > 0 {
      WindowSlot(m, t - 1, j);
      if t - 16 <= j < t - 1 {
        assert j % 16 != (t - 1) % 16;
      }
    }
  }

  lemma SwapBytesInvolution(w: word)
    ensures SwapBytes(SwapBytes(w)) == w
  {
  }

  /** The bytes left where the block was: schedule words 64..79, each in host order. */
  ghost function Residue(block: Block): (r: seq<byte>)
    ensures |r| == 64
  {
    seq(64, k requires 0 <= k < 64 => LittleEndianBytes(W(BlockWords(block), 64 + k / 4))[k % 4])
  }

  /** Read word `i` of the overlay at `off`. */
  method LoadWord(buffer: array<byte>, off: nat, i: nat) returns (w: word)
    requires off + 64 <= buffer.Length && i < 16
    ensures w == HostWords(buffer[off..off + 64])[i]
  {
    w := LittleEndian(buffer[off + 4 * i], buffer[off + 4 * i + 1], buffer[off + 4 * i + 2], buffer[off + 4 * i + 3]);
  }

  method StoreWord(buffer: array<byte>, off: nat, i: nat, w: word)
    requires off + 64 <= buffer.Length && i < 16
    modifies buffer
    ensures buffer[..off] == old(buffer[..off]) && buffer[off + 64..] == old(buffer[off + 64..])
    ensures HostWords(buffer[off..off + 64]) == old(HostWords(buffer[off..off + 64]))[i := w]
  {
    hide Low, LittleEndian;
    ghost var before := buffer[off..off + 64];
    buffer[off + 4 * i] := Low(w);
    buffer[off + 4 * i + 1] := Low(w >> 8);
    buffer[off + 4 * i + 2] := Low(w >> 16);
    buffer[off + 4 * i + 3] := Low(w >> 24);
    LittleEndianRoundTrip(w);
    ghost var after := buffer[off..off + 64];
    forall k | 0 <= k < 16
      ensures HostWord(after, k) == if k == i then w else HostWord(before, k)
    {
      if k != i {
        assert 4 * k + 3 < 4 * i || 4 * i + 3 < 4 * k;
      }
    }
  }

  /** State of the computation before step `t`: registers and window, the rest of the buffer aside. */
  ghost predicate At(h: Regs, m: seq<word>, t: nat, r: Regs, bytes: seq<byte>) {
    |m| == 16 && t <= 80 && |bytes| == 64 && r == Rounds(h, m, t) && HostWords(bytes) == Window(m, t)
  }

  // The right-hand sides of macros R0 to R4.

  function Choose(w: word, x: word, y: word): word {
    (w & (x ^ y)) ^ y
  }

  function Parity(w: word, x: word, y: word): word {
    w ^ x ^ y
  }

  function Majority(w: word, x: word, y: word): word {
    ((w | x) & y) | (w & x)
  }

  function Mix(z: word, f: word, l: word, k: word, v5: word): word {
    z + f + l + k + v5
  }

  lemma ChooseForms(w: word, x: word, y: word)
    ensures Choose(w, x, y) == (w & x) | (!w & y)
  {
  }

  lemma MajorityForms(w: word, x: word, y: word)
    ensures Majority(w, x, y) == (w & x) | (w & y) | (x & y)
  {
  }

  /** The rewritten choose and majority expressions are the standard's functions. */
  lemma RoundFunctions(t: nat, w: word, x: word, y: word)
    requires t < 80
    ensures F(t, w, x, y) == if t < 20 then Choose(w, x, y) else if 40 <= t < 60 then Majority(w, x, y) else Parity(w, x, y)
  {
    if t < 20 {
      ChooseForms(w, x, y);
    } else if 40 <= t < 60 {
      MajorityForms(w, x, y);
    }
  }

  lemma MixIsTemp(z: word, f: word, l: word, k: word, v5: word)
    ensures Mix(z, f, l, k, v5) == Temp(v5, f, z, l, k)
  {
  }

  /** Macro `blk0(i)`: byte-swap slot `i` in place. */
  method Blk0(buffer: array<byte>, off: nat, i: nat, ghost m: seq<word>) returns (l: word)
    requires off + 64 <= buffer.Length && i < 16 && |m| == 16
    requires HostWords(buffer[off..off + 64]) == Window(m, i)
    modifies buffer
    ensures buffer[..off] == old(buffer[..off]) && buffer[off + 64..] == old(buffer[off + 64..])
    ensures l == W(m, i) && HostWords(buffer[off..off + 64]) == Window(m, i + 1)
  {
    hide HostWords, SwapBytes;
    l := LoadWord(buffer, off, i);
    l := SwapBytes(l);
    StoreWord(buffer, off, i, l);
    WindowSlot(m, i, i);
    SwapBytesInvolution(m[i]);
  }

  /** The four slots that `blk(i)` reads hold the schedule words 3, 8, 14 and 16 steps back. */
  lemma WindowReads(m: seq<word>, i: nat)
    requires |m| == 16 && 16 <= i < 80
    ensures W(m, i) == Expand(Window(m, i)[(i + 13) % 16], Window(m, i)[(i + 8) % 16],
                              Window(m, i)[(i + 2) % 16], Window(m, i)[i % 16])
  {
    ScheduleWords(m, i);
    hide Expand, W, Window;
    assert (i + 13) % 16 == (i - 3) % 16 && (i + 8) % 16 == (i - 8) % 16;
    assert (i + 2) % 16 == (i - 14) % 16 && i % 16 == (i - 16) % 16;
    WindowSlot(m, i, i - 3);
    WindowSlot(m, i, i - 8);
    WindowSlot(m, i, i - 14);
    WindowSlot(m, i, i - 16);
  }

  /** Macro `blk(i)`: overwrite slot `i & 15` with the next schedule word. */
  method Blk(buffer: array<byte>, off: nat, i: nat, ghost m: seq<word>) returns (l: word)
    requires off + 64 <= buffer.Length && 16 <= i < 80 && |m| == 16
    requires HostWords(buffer[off..off + 64]) == Window(m, i)
    modifies buffer
    ensures buffer[..off] == old(buffer[..off]) && buffer[off + 64..] == old(buffer[off + 64..])
    ensures l == W(m, i) && HostWords(buffer[off..off + 64]) == Window(m, i + 1)
  {
    hide HostWords, SwapBytes, Expand, W;
    var l13 := LoadWord(buffer, off, (i + 13) % 16);
    var l8 := LoadWord(buffer, off, (i + 8) % 16);
    var l2 := LoadWord(buffer, off, (i + 2) % 16);
    var l0 := LoadWord(buffer, off, i % 16);
    l := Expand(l13, l8, l2, l0);
    WindowReads(m, i);
    StoreWord(buffer, off, i % 16, l);
  }

  method R0(buffer: array<byte>, off: nat, v: word, w: word, x: word, y: word, z: word, i: nat,
            ghost h: Regs, ghost m: seq<word>)
    returns (w': word, z': word)
    requires off + 64 <= buffer.Length && i < 16
    requires At(h, m, i, Regs(v, w, x, y, z), buffer[off..off + 64])
    modifies buffer
    ensures buffer[..off] == old(buffer[..off]) && buffer[off + 64..] == old(buffer[off + 64..])
    ensures At(h, m, i + 1, Regs(z', v, w', x, y), buffer[off..off + 64])
  {
    hide HostWords, Window, W, RotL, F, Mix, Temp, Choose, Parity, Majority;
    var l := Blk0(buffer, off, i, m);
    z' := Mix(z, Choose(w, x, y), l, 0x5A827999, RotL(v, 5));
    w' := RotL(w, 30);
    MixIsTemp(z, Choose(w, x, y), l, 0x5A827999, RotL(v, 5));
    RoundFunctions(i, w, x, y);
  }

  method R1(buffer: array<byte>, off: nat, v: word, w: word, x: word, y: word, z: word, i: nat,
            ghost h: Regs, ghost m: seq<word>)
    returns (w': word, z': word)
    requires off + 64 <= buffer.Length && 16 <= i < 20
    requires At(h, m, i, Regs(v, w, x, y, z), buffer[off..off + 64])
    modifies buffer
    ensures buffer[..off] == old(buffer[..off]) && buffer[off + 64..] == old(buffer[off + 64..])
    ensures At(h, m, i + 1, Regs(z', v, w', x, y), buffer[off..off + 64])
  {
    hide HostWords, Window, W, RotL, F, Mix, Temp, Choose, Parity, Majority;
    var l := Blk(buffer, off, i, m);
    z' := Mix(z, Choose(w, x, y), l, 0x5A827999, RotL(v, 5));
    w' := RotL(w, 30);
    MixIsTemp(z, Choose(w, x, y), l, 0x5A827999, RotL(v, 5));
    RoundFunctions(i, w, x, y);
  }

  method R2(buffer: array<byte>, off: nat, v: word, w: word, x: word, y: word, z: word, i: nat,
            ghost h: Regs, ghost m: seq<word>)
    returns (w': word, z': word)
    requires off + 64 <= buffer.Length && 20 <= i < 40
    requires At(h, m, i, Regs(v, w, x, y, z), buffer[off..off + 64])
    modifies buffer
    ensures buffer[..off] == old(buffer[..off]) && buffer[off + 64..] == old(buffer[off + 64..])
    ensures At(h, m, i + 1, Regs(z', v, w', x, y), buffer[off..off + 64])
  {
    hide HostWords, Window, W, RotL, F, Mix, Temp, Choose, Parity, Majority;
    var l := Blk(buffer, off, i, m);
    z' := Mix(z, Parity(w, x, y), l, 0x6ED9EBA1, RotL(v, 5));
    w' := RotL(w, 30);
    MixIsTemp(z, Parity(w, x, y), l, 0x6ED9EBA1, RotL(v, 5));
    RoundFunctions(i, w, x, y);
  }

  method R3(buffer: array<byte>, off: nat, v: word, w: word, x: word, y: word, z: word, i: nat,
            ghost h: Regs, ghost m: seq<word>)
    returns (w': word, z': word)
    requires off + 64 <= buffer.Length && 40 <= i < 60
    requires At(h, m, i, Regs(v, w, x, y, z), buffer[off..off + 64])
    modifies buffer
    ensures buffer[..off] == old(buffer[..off]) && buffer[off + 64..] == old(buffer[off + 64..])
    ensures At(h, m, i + 1, Regs(z', v, w', x, y), buffer[off..off + 64])
  {
    hide HostWords, Window, W, RotL, F, Mix, Temp, Choose, Parity, Majority;
    var l := Blk(buffer, off, i, m);
    z' := Mix(z, Majority(w, x, y), l, 0x8F1BBCDC, RotL(v, 5));
    w' := RotL(w, 30);
    MixIsTemp(z, Majority(w, x, y), l, 0x8F1BBCDC, RotL(v, 5));
    RoundFunctions(i, w, x, y);
  }

  method R4(buffer: array<byte>, off: nat, v: word, w: word, x: word, y: word, z: word, i: nat,
            ghost h: Regs, ghost m: seq<word>)
    returns (w': word, z': word)
    requires off + 64 <= buffer.Length && 60 <= i < 80
    requires At(h, m, i, Regs(v, w, x, y, z), buffer[off..off + 64])
    modifies buffer
    ensures buffer[..off] == old(buffer[..off]) && buffer[off + 64..] == old(buffer[off + 64..])
    ensures At(h, m, i + 1, Regs(z', v, w', x, y), buffer[off..off + 64])
  {
    hide HostWords, Window, W, RotL, F, Mix, Temp, Choose, Parity, Majority;
    var l := Blk(buffer, off, i, m);
    z' := Mix(z, Parity(w, x, y), l, 0xCA62C1D6, RotL(v, 5));
    w' := RotL(w, 30);
    MixIsTemp(z, Parity(w, x, y), l, 0xCA62C1D6, RotL(v, 5));
    RoundFunctions(i, w, x, y);
  }

  // The 80 unrolled operations, 20 to a method so that each proof stays small.

  method OperationsTo20(buffer: array<byte>, off: nat, a0: word, b0: word, c0: word, d0: word, e0: word,
                        ghost h: Regs, ghost m: seq<word>)
    returns (a: word, b: word, c: word, d: word, e: word)
    requires off + 64 <= buffer.Length
    requires At(h, m, 0, Regs(a0, b0, c0, d0, e0), buffer[off..off + 64])
    modifies buffer
    ensures buffer[..off] == old(buffer[..off]) && buffer[off + 64..] == old(buffer[off + 64..])
    ensures At(h, m, 20, Regs(a, b, c, d, e), buffer[off..off + 64])
  {
    hide At;
    a, b, c, d, e := a0, b0, c0, d0, e0;
    b, e := R0(buffer, off, a, b, c, d, e, 0, h, m);
    a, d := R0(buffer, off, e, a, b, c, d, 1, h, m);
    e, c := R0(buffer, off, d, e, a, b, c, 2, h, m);
    d, b := R0(buffer, off, c, d, e, a, b, 3, h, m);
    c, a := R0(buffer, off, b, c, d, e, a, 4, h, m);
    b, e := R0(buffer, off, a, b, c, d, e, 5, h, m);
    a, d := R0(buffer, off, e, a, b, c, d, 6, h, m);
    e, c := R0(buffer, off, d, e, a, b, c, 7, h, m);
    d, b := R0(buffer, off, c, d, e, a, b, 8, h, m);
    c, a := R0(buffer, off, b, c, d, e, a, 9, h, m);
    b, e := R0(buffer, off, a, b, c, d, e, 10, h, m);
    a, d := R0(buffer, off, e, a, b, c, d, 11, h, m);
    e, c := R0(buffer, off, d, e, a, b, c, 12, h, m);
    d, b := R0(buffer, off, c, d, e, a, b, 13, h, m);
    c, a := R0(buffer, off, b, c, d, e, a, 14, h, m);
    b, e := R0(buffer, off, a, b, c, d, e, 15, h, m);
    a, d := R1(buffer, off, e, a, b, c, d, 16, h, m);
    e, c := R1(buffer, off, d, e, a, b, c, 17, h, m);
    d, b := R1(buffer, off, c, d, e, a, b, 18, h, m);
    c, a := R1(buffer, off, b, c, d, e, a, 19, h, m);
  }

  method OperationsTo40(buffer: array<byte>, off: nat, a0: word, b0: word, c0: word, d0: word, e0: word,
                        ghost h: Regs, ghost m: seq<word>)
    returns (a: word, b: word, c: word, d: word, e: word)
    requires off + 64 <= buffer.Length
    requires At(h, m, 20, Regs(a0, b0, c0, d0, e0), buffer[off..off + 64])
    modifies buffer
    ensures buffer[..off] == old(buffer[..off]) && buffer[off + 64..] == old(buffer[off + 64..])
    ensures At(h, m, 40, Regs(a, b, c, d, e), buffer[off..off + 64])
  {
    hide At;
    a, b, c, d, e := a0, b0, c0, d0, e0;
    b, e := R2(buffer, off, a, b, c, d, e, 20, h, m);
    a, d := R2(buffer, off, e, a, b, c, d, 21, h, m);
    e, c := R2(buffer, off, d, e, a, b, c, 22, h, m);
    d, b := R2(buffer, off, c, d, e, a, b, 23, h, m);
    c, a := R2(buffer, off, b, c, d, e, a, 24, h, m);
    b, e := R2(buffer, off, a, b, c, d, e, 25, h, m);
    a, d := R2(buffer, off, e, a, b, c, d, 26, h, m);
    e, c := R2(buffer, off, d, e, a, b, c, 27, h, m);
    d, b := R2(buffer, off, c, d, e, a, b, 28, h, m);
    c, a := R2(buffer, off, b, c, d, e, a, 29, h, m);
    b, e := R2(buffer, off, a, b, c, d, e, 30, h, m);
    a, d := R2(buffer, off, e, a, b, c, d, 31, h, m);
    e, c := R2(buffer, off, d, e, a, b, c, 32, h, m);
    d, b := R2(buffer, off, c, d, e, a, b, 33, h, m);
    c, a := R2(buffer, off, b, c, d, e, a, 34, h, m);
    b, e := R2(buffer, off, a, b, c, d, e, 35, h, m);
    a, d := R2(buffer, off, e, a, b, c, d, 36, h, m);
    e, c := R2(buffer, off, d, e, a, b, c, 37, h, m);
    d, b := R2(buffer, off, c, d, e, a, b, 38, h, m);
    c, a := R2(buffer, off, b, c, d, e, a, 39, h, m);
  }

  method OperationsTo60(buffer: array<byte>, off: nat, a0: word, b0: word, c0: word, d0: word, e0: word,
                        ghost h: Regs, ghost m: seq<word>)
    returns (a: word, b: word, c: word, d: word, e: word)
    requires off + 64 <= buffer.Length
    requires At(h, m, 40, Regs(a0, b0, c0, d0, e0), buffer[off..off + 64])
    modifies buffer
    ensures buffer[..off] == old(buffer[..off]) && buffer[off + 64..] == old(buffer[off + 64..])
    ensures At(h, m, 60, Regs(a, b, c, d, e), buffer[off..off + 64])
  {
    hide At;
    a, b, c, d, e := a0, b0, c0, d0, e0;
    b, e := R3(buffer, off, a, b, c, d, e, 40, h, m);
    a, d := R3(buffer, off, e, a, b, c, d, 41, h, m);
    e, c := R3(buffer, off, d, e, a, b, c, 42, h, m);
    d, b := R3(buffer, off, c, d, e, a, b, 43, h, m);
    c, a := R3(buffer, off, b, c, d, e, a, 44, h, m);
    b, e := R3(buffer, off, a, b, c, d, e, 45, h, m);
    a, d := R3(buffer, off, e, a, b, c, d, 46, h, m);
    e, c := R3(buffer, off, d, e, a, b, c, 47, h, m);
    d, b := R3(buffer, off, c, d, e, a, b, 48, h, m);
    c, a := R3(buffer, off, b, c, d, e, a, 49, h, m);
    b, e := R3(buffer, off, a, b, c, d, e, 50, h, m);
    a, d := R3(buffer, off, e, a, b, c, d, 51, h, m);
    e, c := R3(buffer, off, d, e, a, b, c, 52, h, m);
    d, b := R3(buffer, off, c, d, e, a, b, 53, h, m);
    c, a := R3(buffer, off, b, c, d, e, a, 54, h, m);
    b, e := R3(buffer, off, a, b, c, d, e, 55, h, m);
    a, d := R3(buffer, off, e, a, b, c, d, 56, h, m);
    e, c := R3(buffer, off, d, e, a, b, c, 57, h, m);
    d, b := R3(buffer, off, c, d, e, a, b, 58, h, m);
    c, a := R3(buffer, off, b, c, d, e, a, 59, h, m);
  }

  method OperationsTo80(buffer: array<byte>, off: nat, a0: word, b0: word, c0: word, d0: word, e0: word,
                        ghost h: Regs, ghost m: seq<word>)
    returns (a: word, b: word, c: word, d: word, e: word)
    requires off + 64 <= buffer.Length
    requires At(h, m, 60, Regs(a0, b0, c0, d0, e0), buffer[off..off + 64])
    modifies buffer
    ensures buffer[..off] == old(buffer[..off]) && buffer[off + 64..] == old(buffer[off + 64..])
    ensures At(h, m, 80, Regs(a, b, c, d, e), buffer[off..off + 64])
  {
    hide At;
    a, b, c, d, e := a0, b0, c0, d0, e0;
    b, e := R4(buffer, off, a, b, c, d, e, 60, h, m);
    a, d := R4(buffer, off, e, a, b, c, d, 61, h, m);
    e, c := R4(buffer, off, d, e, a, b, c, 62, h, m);
    d, b := R4(buffer, off, c, d, e, a, b, 63, h, m);
    c, a := R4(buffer, off, b, c, d, e, a, 64, h, m);
    b, e := R4(buffer, off, a, b, c, d, e, 65, h, m);
    a, d := R4(buffer, off, e, a, b, c, d, 66, h, m);
    e, c := R4(buffer, off, d, e, a, b, c, 67, h, m);
    d, b := R4(buffer, off, c, d, e, a, b, 68, h, m);
    c, a := R4(buffer, off, b, c, d, e, a, 69, h, m);
    b, e := R4(buffer, off, a, b, c, d, e, 70, h, m);
    a, d := R4(buffer, off, e, a, b, c, d, 71, h, m);
    e, c := R4(buffer, off, d, e, a, b, c, 72, h, m);
    d, b := R4(buffer, off, c, d, e, a, b, 73, h, m);
    c, a := R4(buffer, off, b, c, d, e, a, 74, h, m);
    b, e := R4(buffer, off, a, b, c, d, e, 75, h, m);
    a, d := R4(buffer, off, e, a, b, c, d, 76, h, m);
    e, c := R4(buffer, off, d, e, a, b, c, 77, h, m);
    d, b := R4(buffer, off, c, d, e, a, b, 78, h, m);
    c, a := R4(buffer, off, b, c, d, e, a, 79, h, m);
  }

  /** `SHA1_Transform`: the state absorbs the block, and the block's bytes become the schedule's tail. */
  method Transform(state: array<word>, buffer: array<byte>, off: nat)
    requires state.Length == 5 && off + 64 <= buffer.Length
    modifies state, buffer
    ensures RegsOf(state) == Compress(old(RegsOf(state)), old(buffer[off..off + 64]))
    ensures buffer[..] == old(buffer[..off]) + Residue(old(buffer[off..off + 64])) + old(buffer[off + 64..])
  {
    hide Window, W, Rounds, HostWords, Residue, BlockWords, Add;
    ghost var block: Block := buffer[off..off + 64];
    ghost var h, m := RegsOf(state), BlockWords(block);
    var a, b, c, d, e := state[0], state[1], state[2], state[3], state[4];
    InitialWindow(h, block);
    a, b, c, d, e := OperationsTo20(buffer, off, a, b, c, d, e, h, m);
    a, b, c, d, e := OperationsTo40(buffer, off, a, b, c, d, e, h, m);
    a, b, c, d, e := OperationsTo60(buffer, off, a, b, c, d, e, h, m);
    a, b, c, d, e := OperationsTo80(buffer, off, a, b, c, d, e, h, m);
    FinalWindow(block, buffer[off..off + 64]);
    assert buffer[..] == buffer[..off] + buffer[off..off + 64] + buffer[off + 64..];
    AddToState(state, a, b, c, d, e);
  }

  method AddToState(state: array<word>, a: word, b: word, c: word, d: word, e: word)
    requires state.Length == 5
    modifies state
    ensures RegsOf(state) == Add(old(RegsOf(state)), Regs(a, b, c, d, e))
  {
    hide Plus;
    state[0] := Plus(state[0], a);
    state[1] := Plus(state[1], b);
    state[2] := Plus(state[2], c);
    state[3] := Plus(state[3], d);
    state[4] := Plus(state[4], e);
  }

  ghost function RegsOf(state: array<word>): Regs
    requires state.Length == 5
    reads state
  {
    Regs(state[0], state[1], state[2], state[3], state[4])
  }

  lemma InitialWindow(h: Regs, block: Block)
    ensures At(h, BlockWords(block), 0, h, block)
  {
    hide SwapBytes, BigEndian, LittleEndian;
    forall i | 0 <= i < 16
      ensures HostWords(block)[i] == SwapBytes(BlockWords(block)[i])
    {
      SwapOfBigEndian(block[4 * i], block[4 * i + 1], block[4 * i + 2], block[4 * i + 3]);
    }
  }

  lemma SwapOfBigEndian(b0: byte, b1: byte, b2: byte, b3: byte)
    ensures SwapBytes(BigEndian(b0, b1, b2, b3)) == LittleEndian(b0, b1, b2, b3)
  {
  }

  /** A word's four bytes in the buffer are its little-endian bytes. */
  lemma HostBytes(bytes: seq<byte>, i: nat)
    requires |bytes| == 64 && i < 16
    ensures bytes[4 * i..4 * i + 4] == LittleEndianBytes(HostWord(bytes, i))
  {
    hide LittleEndian;
    LittleEndianBytesRoundTrip(bytes[4 * i], bytes[4 * i + 1], bytes[4 * i + 2], bytes[4 * i + 3]);
  }

  /** After 80 steps the window determines every byte of the buffer. */
  lemma FinalWindow(block: Block, bytes: seq<byte>)
    requires |bytes| == 64 && HostWords(bytes) == Window(BlockWords(block), 80)
    ensures bytes == Residue(block)
  {
    hide Window, W, LittleEndianBytes, LittleEndian;
    forall k | 0 <= k < 64
      ensures bytes[k] == Residue(block)[k]
    {
      var i := k / 4;
      WindowSlot(BlockWords(block), 80, 64 + i);
      assert (64 + i) % 16 == i;
      assert HostWords(bytes)[i] == HostWord(bytes, i);
      HostBytes(bytes, i);
      assert bytes[k] == bytes[4 * i..4 * i + 4][k % 4];
    }
  }
}
