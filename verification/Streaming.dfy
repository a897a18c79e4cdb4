/**
 * What MD5 and SHA-1 have in common: a chaining function folded over 64-byte blocks, a partial-block
 * buffer, a two-word bit counter, and the padding of a whole message.
 */
module Streaming {
  import opened Words

  type Block = s: seq<byte> | |s| == 64 witness seq(64, _ => 0)

  /** `unsigned int`: Dafny proves that no use of this type leaves its range. */
  newtype u32 = x: int | 0 <= x < 0x1_0000_0000

  /** The chaining function applied to each 64-byte block of `data` in turn. */
  function Fold<S>(f: (S, Block) -> S, s: S, data: seq<byte>): S
    requires |data| % 64 == 0
  {
    if data == [] then s else Fold(f, f(s, data[..64]), data[64..])
  }

  lemma {:induction false} FoldAppend<S>(f: (S, Block) -> S, s: S, a: seq<byte>, b: seq<byte>)
    requires |a| % 64 == 0 && |b| % 64 == 0
    ensures Fold(f, s, a + b) == Fold(f, Fold(f, s, a), b)
    decreases |a|
  {
    if a == [] {
      assert a + b == b;
    } else {
      assert (a + b)[..64] == a[..64] && (a + b)[64..] == a[64..] + b;
      FoldAppend(f, f(s, a[..64]), a[64..], b);
    }
  }

  lemma FoldBlock<S>(f: (S, Block) -> S, s: S, a: seq<byte>, block: Block)
    requires |a| % 64 == 0
    ensures |a + block| % 64 == 0
    ensures Fold(f, s, a + block) == f(Fold(f, s, a), block)
  {
    FoldAppend(f, s, a, block);
    assert block[..64] == block && block[64..] == [];
  }

  /** Length of the longest whole-block prefix of an `n`-byte message. */
  function Whole(n: nat): (w: nat)
    ensures w <= n < w + 64 && w % 64 == 0
  {
    n - n % 64
  }

  /** The context after `message`: complete blocks are chained, the rest is buffered. */
  ghost predicate Absorbed<S>(f: (S, Block) -> S, iv: S, message: seq<byte>, state: S, buffer: seq<byte>) {
    && |buffer| == 64
    && state == Fold(f, iv, message[..Whole(|message|)])
    && buffer[..|message| % 64] == message[Whole(|message|)..]
  }

  /** Too little input to complete a block: it only lengthens the buffered tail. */
  lemma AbsorbTail<S>(f: (S, Block) -> S, iv: S, message: seq<byte>, state: S, buffer: seq<byte>,
                      d: seq<byte>, buffer': seq<byte>)
    requires Absorbed(f, iv, message, state, buffer)
    requires |message| % 64 + |d| < 64 && |buffer'| == 64
    requires buffer'[..|message| % 64 + |d|] == buffer[..|message| % 64] + d
    ensures Absorbed(f, iv, message + d, state, buffer')
  {
    hide Fold;
    var w := Whole(|message|);
    assert Whole(|message + d|) == w;
    assert (message + d)[..w] == message[..w];
    assert (message + d)[w..] == message[w..] + d;
  }

  /** Input that completes the buffered block leaves a whole number of blocks to fold. */
  lemma AbsorbHead<S>(f: (S, Block) -> S, iv: S, message: seq<byte>, state: S, buffer: seq<byte>,
                      head: seq<byte>, full: Block)
    requires Absorbed(f, iv, message, state, buffer)
    requires |message| % 64 + |head| == 64 && full == buffer[..|message| % 64] + head
    ensures |message + head| % 64 == 0
    ensures f(state, full) == Fold(f, iv, message + head)
  {
    hide Fold;
    var w := Whole(|message|);
    assert message + head == message[..w] + full;
    FoldBlock(f, iv, message[..w], full);
  }

  /** What is left after the last whole block is buffered. */
  lemma AbsorbRest<S>(f: (S, Block) -> S, iv: S, message: seq<byte>, state: S, rest: seq<byte>, buffer: seq<byte>)
    requires |message| % 64 == 0 && |rest| < 64 && |buffer| == 64
    requires state == Fold(f, iv, message) && buffer[..|rest|] == rest
    ensures Absorbed(f, iv, message + rest, state, buffer)
  {
    hide Fold;
    var all := message + rest;
    assert Whole(|all|) == |message|;
    assert all[..|message|] == message && all[|message|..] == rest;
  }

  lemma InThreeParts(message: seq<byte>, all: seq<byte>, p: nat, i: nat, len: nat)
    requires p <= i <= len <= |all|
    ensures message + all[..p] + all[p..i] + all[i..len] == message + all[..len]
    ensures all[i..][..len - i] == all[i..len]
  {
  }

  lemma WholeMessage<S>(f: (S, Block) -> S, iv: S, message: seq<byte>, state: S, buffer: seq<byte>)
    requires Absorbed(f, iv, message, state, buffer) && |message| % 64 == 0
    ensures state == Fold(f, iv, message)
  {
    assert message[..Whole(|message|)] == message;
  }

  /** `lo` and `hi` hold the bit length of an `n`-byte message modulo 2^64. */
  predicate Counts(n: nat, lo: u32, hi: u32) {
    hi as int * 0x1_0000_0000 + lo as int == (8 * n) % 0x1_0000_0000_0000_0000
  }

  /** The byte position in the current block, read from the low counter word. */
  lemma CountIndex(n: nat, lo: u32, hi: u32)
    requires Counts(n, lo, hi)
    ensures lo as int % 8 == 0
    ensures (lo as int / 8) % 64 == n % 64
  {
    var q := (8 * n) / 0x1_0000_0000_0000_0000;
    var blocks := 0x80_0000_0000_0000 * q + 0x80_0000 * hi as int;
    assert lo as int == 8 * (n - 64 * blocks);
    assert n % 64 == (n - 64 * blocks) % 64;
  }

  /** The low counter word after `len` more bytes: a sum modulo 2^32. */
  function AddLow(lo: u32, len: u32): u32 {
    LowSum(lo as int, len as int) as u32
  }

  /** The high counter word: the source tests for a carry by comparing the new low word with the addend. */
  function AddHigh(lo: u32, hi: u32, len: u32): u32 {
    (HighSum(lo as int, hi as int, len as int) % 0x1_0000_0000) as u32
  }

  function LowSum(lo: nat, len: nat): (sum: nat)
    ensures sum < 0x1_0000_0000
  {
    (lo + 8 * len) % 0x1_0000_0000
  }

  function HighSum(lo: nat, hi: nat, len: nat): nat {
    hi + (if LowSum(lo, len) < (8 * len) % 0x1_0000_0000 then 1 else 0) + len / 0x2000_0000
  }

  /** The low word wraps exactly when the carry test sees a sum smaller than the addend. */
  lemma CarryTest(lo: nat, hi: nat, len: nat)
    requires lo < 0x1_0000_0000
    ensures HighSum(lo, hi, len) * 0x1_0000_0000 + LowSum(lo, len) == hi * 0x1_0000_0000 + lo + 8 * len
  {
    var shifted, top := (8 * len) % 0x1_0000_0000, len / 0x2000_0000;
    assert 8 * len == top * 0x1_0000_0000 + shifted;
    assert lo + 8 * len == top * 0x1_0000_0000 + (lo + shifted);
  }

  lemma HighWord(n: nat, q: nat, lo: nat, sum: nat)
    requires n == q * 0x1_0000_0000_0000_0000 + sum * 0x1_0000_0000 + lo
    requires lo < 0x1_0000_0000
    ensures (sum % 0x1_0000_0000) * 0x1_0000_0000 + lo == n % 0x1_0000_0000_0000_0000
  {
    var wrap, rest := sum / 0x1_0000_0000, sum % 0x1_0000_0000;
    assert n == (q + wrap) * 0x1_0000_0000_0000_0000 + (rest * 0x1_0000_0000 + lo);
  }

  lemma CountAdd(n: nat, lo: u32, hi: u32, len: u32)
    requires Counts(n, lo, hi)
    ensures Counts(n + len as int, AddLow(lo, len), AddHigh(lo, hi, len))
  {
    hide LowSum, HighSum;
    var l, h, m := lo as int, hi as int, len as int;
    CarryTest(l, h, m);
    HighWord(8 * (n + m), (8 * n) / 0x1_0000_0000_0000_0000, LowSum(l, m), HighSum(l, h, m));
  }

  function Power256(k: nat): (p: nat)
    requires k < 8
    ensures p > 0
  {
    [0x1, 0x100, 0x1_0000, 0x100_0000, 0x1_0000_0000, 0x100_0000_0000, 0x1_0000_0000_0000, 0x100_0000_0000_0000][k]
  }

  /** Base-256 digits of a 64-bit number, read from its two halves. */
  lemma WordDigit(h: nat, l: nat, j: nat)
    requires l < 0x1_0000_0000 && j < 4
    ensures var bits := h * 0x1_0000_0000 + l;
            && bits / Power256(7 - j) == h / Power256(3 - j)
            && (bits / Power256(3 - j)) % 256 == (l / Power256(3 - j)) % 256
  {
    if j == 0 {
      TopDigit(h, l);
    } else if j == 1 {
      SecondDigit(h, l);
    } else if j == 2 {
      ThirdDigit(h, l);
    } else {
      assert h * 0x1_0000_0000 + l == 256 * (h * 0x100_0000) + l;
    }
  }

  lemma TopDigit(h: nat, l: nat)
    requires l < 0x1_0000_0000
    ensures (h * 0x1_0000_0000 + l) / 0x100_0000_0000_0000 == h / 0x100_0000
    ensures ((h * 0x1_0000_0000 + l) / 0x100_0000) % 256 == (l / 0x100_0000) % 256
  {
    assert (h * 0x1_0000_0000 + l) / 0x100_0000 == h * 0x100 + l / 0x100_0000;
  }

  lemma SecondDigit(h: nat, l: nat)
    requires l < 0x1_0000_0000
    ensures (h * 0x1_0000_0000 + l) / 0x1_0000_0000_0000 == h / 0x1_0000
    ensures ((h * 0x1_0000_0000 + l) / 0x1_0000) % 256 == (l / 0x1_0000) % 256
  {
    assert (h * 0x1_0000_0000 + l) / 0x1_0000 == h * 0x1_0000 + l / 0x1_0000;
  }

  lemma ThirdDigit(h: nat, l: nat)
    requires l < 0x1_0000_0000
    ensures (h * 0x1_0000_0000 + l) / 0x100_0000_0000 == h / 0x100
    ensures ((h * 0x1_0000_0000 + l) / 0x100) % 256 == (l / 0x100) % 256
  {
    assert (h * 0x1_0000_0000 + l) / 0x100 == h * 0x100_0000 + l / 0x100;
  }

  /** `n` zero bytes. */
  function Zeros(n: nat): (s: seq<byte>)
    ensures |s| == n
  {
    seq(n, _ => 0)
  }

  /** Zero bytes that take a message of `n` bytes and its 0x80 byte to 56 modulo 64. */
  function ZeroCount(n: nat): (k: nat)
    ensures k < 64 && (n + 1 + k) % 64 == 56
  {
    if n % 64 < 56 then 55 - n % 64 else 119 - n % 64
  }

  /** The padding both standards use: a one bit, zero bits, and the length, in the byte order of each. */
  function Padded(message: seq<byte>, length: seq<byte>): (p: seq<byte>)
    requires |length| == 8
    ensures |p| % 64 == 0
  {
    message + [0x80] + Zeros(ZeroCount(|message|)) + length
  }

  /** Two messages are padded alike only if they are equal. */
  lemma PaddedInjective(a: seq<byte>, b: seq<byte>, la: seq<byte>, lb: seq<byte>)
    requires |la| == |lb| == 8 && Padded(a, la) == Padded(b, lb)
    ensures a == b
  {
    if |a| < |b| {
      MarkerDiffers(a, b, la, lb);
    } else if |b| < |a| {
      MarkerDiffers(b, a, lb, la);
    }
    assert Padded(a, la)[..|a|] == a && Padded(b, lb)[..|b|] == b;
  }

  /** Where the longer message ends, the shorter one has a zero. */
  lemma MarkerDiffers(a: seq<byte>, b: seq<byte>, la: seq<byte>, lb: seq<byte>)
    requires |la| == |lb| == 8 && |a| < |b| && |Padded(a, la)| == |Padded(b, lb)|
    ensures Padded(a, la)[|b|] != Padded(b, lb)[|b|]
  {
    assert Padded(b, lb)[|b|] == 0x80;
    assert Padded(a, la)[|b|] == 0;
  }

  /** Base-256 digits from place `i` on. */
  function Above(bits: nat, i: nat): nat
    requires i <= 8
  {
    if i == 8 then bits / 0x1_0000_0000_0000_0000 else bits / Power256(i)
  }

  lemma NextDigit(bits: nat, i: nat)
    requires i < 8
    ensures Above(bits, i) == Above(bits, i) % 256 + 256 * Above(bits, i + 1)
  {
  }

  /** The message that a list of chunks cuts up. */
  function Flatten(chunks: seq<seq<byte>>): seq<byte> {
    if chunks == [] then [] else Flatten(chunks[..|chunks| - 1]) + chunks[|chunks| - 1]
  }

  lemma NoChunks(chunks: seq<seq<byte>>)
    ensures Flatten(chunks[..0]) == []
  {
  }

  lemma NextChunk(chunks: seq<seq<byte>>, n: nat)
    requires n < |chunks|
    ensures Flatten(chunks[..n + 1]) == Flatten(chunks[..n]) + chunks[n]
  {
    assert chunks[..n + 1][..n] == chunks[..n];
  }

  /** `memcpy` between two distinct arrays. */
  method MemCpy(dst: array<byte>, at: u32, src: array<byte>, from: u32, n: u32)
    requires dst != src
    requires at as int + n as int <= dst.Length && from as int + n as int <= src.Length
    modifies dst
    ensures dst[..] == old(dst[..at]) + src[from as int..from as int + n as int] + old(dst[at as int + n as int..])
  {
    forall k | 0 <= k < n as int {
      dst[at as int + k] := src[from as int + k];
    }
  }
}
