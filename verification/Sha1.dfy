/** The streaming SHA-1 context of sha1.cpp. */
module Sha1 {
  import opened Words
  import opened Streaming
  import opened Sha1Spec
  import opened Sha1Transform

  /** What compressing a run of whole blocks in place leaves in their bytes. */
  ghost function Spent(d: seq<byte>): (r: seq<byte>)
    ensures |r| == |d|
  {
    if |d| < 64 then d else Residue(d[..64]) + Spent(d[64..])
  }

  /** The caller's `len` bytes after an update that started at byte `j` of the current block. */
  ghost function DataAfter(d: seq<byte>, j: nat): (r: seq<byte>)
    requires j < 64
    ensures |r| == |d|
  {
    if j + |d| < 64 then d else d[..64 - j] + Spent(d[64 - j..])
  }

  lemma SpentShort(d: seq<byte>)
    requires |d| < 64
    ensures Spent(d) == d
  {
  }

  lemma SpentBlock(d: seq<byte>, before: seq<byte>, after: seq<byte>, i: nat, len: nat)
    requires i + 64 <= len <= |d| == |before| && before[i..] == d[i..]
    requires after == before[..i] + Residue(before[i..i + 64]) + before[i + 64..]
    ensures before[i..i + 64] == d[i..i + 64]
    ensures after[i + 64..] == d[i + 64..]
    ensures after[..i + 64] + Spent(d[i + 64..len]) == before[..i] + Spent(d[i..len])
  {
    hide Residue;
    assert before[i..i + 64] == before[i..][..64] == d[i..i + 64] && before[i + 64..] == before[i..][64..];
    var run := d[i..len];
    assert run[..64] == d[i..i + 64];
    assert run[64..] == d[i + 64..len];
    var done := before[..i] + Residue(d[i..i + 64]);
    assert |done| == i + 64 && after == done + before[i + 64..];
    assert after[..i + 64] == done;
  }

  lemma SpentDone(d: seq<byte>, now: seq<byte>, start: nat, i: nat, len: nat)
    requires start <= i <= len <= |d| == |now| && len < i + 64 && now[i..] == d[i..]
    requires now[..i] + Spent(d[i..len]) == d[..start] + Spent(d[start..len])
    ensures now == d[..start] + Spent(d[start..len]) + d[len..]
  {
    SpentShort(d[i..len]);
    hide Spent;
    assert now == now[..i] + now[i..];
    assert d[i..] == d[i..len] + d[len..];
  }

  lemma DataAfterSplit(all: seq<byte>, len: nat, j: nat)
    requires len <= |all| && j < 64
    ensures DataAfter(all[..len], j) + all[len..]
         == if j + len < 64 then all else all[..64 - j] + Spent(all[64 - j..len]) + all[len..]
  {
    hide Spent;
    var d := all[..len];
    assert all == d + all[len..];
    if j + len >= 64 {
      assert d[..64 - j] == all[..64 - j] && d[64 - j..] == all[64 - j..len];
    }
  }

  class Context {
    const state: array<word>
    var countLow: u32
    var countHigh: u32
    const buffer: array<byte>

    /** The chaining value the context started from, and everything absorbed since. */
    ghost var iv: Regs
    ghost var message: seq<byte>

    ghost predicate Valid()
      reads this, state, buffer
    {
      && state.Length == 5 && buffer.Length == 64
      && Absorbed(Compress, iv, message, RegsOf(state), buffer[..])
      && Counts(|message|, countLow, countHigh)
    }

    constructor ()
      ensures Valid() && iv == INITIAL && message == []
      ensures fresh(state) && fresh(buffer)
    {
      state := new word[5];
      buffer := new byte[64];
      new;
      Reset();
    }

    /** `SHA1_Init` */
    method Reset()
      requires state.Length == 5 && buffer.Length == 64
      modifies this, state
      ensures Valid() && iv == INITIAL && message == []
    {
      hide Compress;
      state[0] := 0x67452301;
      state[1] := 0xEFCDAB89;
      state[2] := 0x98BADCFE;
      state[3] := 0x10325476;
      state[4] := 0xC3D2E1F0;
      countLow, countHigh := 0, 0;
      iv, message := INITIAL, [];
      assert RegsOf(state) == INITIAL && message[..Whole(0)] == [];
    }

    /** The first branch of `SHA1_Update`: complete the buffered block and compress it. */
    method FillBlock(data: array<byte>, j: u32, i: u32)
      requires state.Length == 5 && buffer.Length == 64 && data != buffer
      requires Absorbed(Compress, iv, message, RegsOf(state), buffer[..])
      requires j as int == |message| % 64 && j as int + i as int == 64 && i as int <= data.Length
      modifies state, buffer
      ensures |message + data[..i]| % 64 == 0
      ensures RegsOf(state) == Fold(Compress, iv, message + data[..i])
    {
      hide Compress, Residue, Fold;
      ghost var full := buffer[..j] + data[..i];
      AbsorbHead(Compress, iv, message, RegsOf(state), buffer[..], data[..i], full);
      MemCpy(buffer, j, data, 0, i);
      assert data[0..i] == data[..i];
      assert buffer[0..64] == buffer[..] == full;
      Transform(state, buffer, 0);
    }

    /** The loop of `SHA1_Update`: compress whole blocks where they lie. */
    method CompressBlocks(data: array<byte>, start: u32, len: u32, ghost m: seq<byte>) returns (i: u32)
      requires state.Length == 5 && start <= len && len as int <= data.Length && len < 0x8000_0000
      requires |m| % 64 == 0 && RegsOf(state) == Fold(Compress, iv, m)
      modifies state, data
      ensures start <= i <= len < i + 64 && |m + old(data[start..i])| % 64 == 0
      ensures RegsOf(state) == Fold(Compress, iv, m + old(data[start..i]))
      ensures data[i..] == old(data[i..])
      ensures data[..] == old(data[..start]) + Spent(old(data[start..len])) + old(data[len..])
    {
      hide Compress, Residue, Fold, Spent, RegsOf;
      ghost var d := data[..];
      i := start;
      assert m + d[start..i] == m;
      while i + 63 < len
        invariant start <= i <= len && (|m| + (i - start) as int) % 64 == 0
        invariant RegsOf(state) == Fold(Compress, iv, m + d[start..i])
        invariant data[i..] == d[i..]
        invariant data[..i] + Spent(d[i..len]) == d[..start] + Spent(d[start..len])
      {
        ghost var before := data[..];
        Transform(state, data, i as nat);
        SpentBlock(d, before, data[..], i as nat, len as nat);
        FoldBlock(Compress, iv, m + d[start..i], d[i..i + 64]);
        assert m + d[start..i] + d[i..i + 64] == m + d[start..i + 64];
        i := i + 64;
      }
      SpentDone(d, data[..], start as nat, i as nat, len as nat);
    }

    /** The branch of `SHA1_Update` that completes a block: it ends with less than a block in the buffer. */
    method AbsorbBlocks(data: array<byte>, len: u32, j: u32)
      requires state.Length == 5 && buffer.Length == 64 && data != buffer
      requires Absorbed(Compress, iv, message, RegsOf(state), buffer[..])
      requires j as int == |message| % 64 && len as int <= data.Length && len < 0x8000_0000 && j + len > 63
      modifies state, buffer, data
      ensures Absorbed(Compress, iv, message + old(data[..len]), RegsOf(state), buffer[..])
      ensures data[..] == DataAfter(old(data[..len]), |message| % 64) + old(data[len..])
    {
      hide Compress, Residue, Fold, Absorbed, DataAfter, Spent, RegsOf;
      ghost var all, p := data[..], 64 - j;
      DataAfterSplit(all, len as nat, j as nat);
      FillBlock(data, j, 64 - j);
      var i := CompressBlocks(data, 64 - j, len, message + all[..p]);
      InThreeParts(message, all, p as nat, i as nat, len as nat);
      MemCpy(buffer, 0, data, i, len - i);
      assert data[i..len] == data[i..][..len - i];
      AbsorbRest(Compress, iv, message + all[..p] + all[p..i], RegsOf(state), all[i..len], buffer[..]);
    }

    /** The other branch: everything fits into the buffer. */
    method AbsorbShort(data: array<byte>, len: u32, j: u32)
      requires state.Length == 5 && buffer.Length == 64 && data != buffer
      requires Absorbed(Compress, iv, message, RegsOf(state), buffer[..])
      requires j as int == |message| % 64 && len as int <= data.Length && len < 0x8000_0000 && j + len <= 63
      modifies buffer
      ensures Absorbed(Compress, iv, message + data[..len], RegsOf(state), buffer[..])
      ensures data[..] == DataAfter(data[..len], |message| % 64) + data[len..]
    {
      hide Compress, Residue, Fold, Absorbed, DataAfter, Spent, RegsOf;
      DataAfterSplit(data[..], len as nat, j as nat);
      assert data[0..len] == data[..len] == data[..][..len] && data[len..] == data[..][len..];
      MemCpy(buffer, j, data, 0, len);
      AbsorbTail(Compress, iv, message, RegsOf(state), old(buffer[..]), data[..len], buffer[..]);
    }

    /** `SHA1_Update`: absorbs the bytes, and overwrites every block it compresses straight from `data`. */
    method Update(data: array<byte>, len: u32)
      requires Valid() && data != buffer
      requires len as int <= data.Length && len < 0x8000_0000
      modifies this`message, this`countLow, this`countHigh, state, buffer, data
      ensures Valid() && message == old(message + data[..len])
      ensures data[..] == DataAfter(old(data[..len]), old(|message|) % 64) + old(data[len..])
    {
      hide Compress, Residue, AddLow, AddHigh, Fold, Absorbed, Counts, DataAfter, Spent, RegsOf;
      ghost var added := data[..len];
      var j: u32 := (countLow / 8) % 64;
      CountIndex(|message|, countLow, countHigh);
      CountAdd(|message|, countLow, countHigh, len);
      countLow, countHigh := AddLow(countLow, len), AddHigh(countLow, countHigh, len);
      if j + len > 63 {
        AbsorbBlocks(data, len, j);
      } else {
        AbsorbShort(data, len, j);
      }
      message := message + added;
    }

    /** `SHA1_Final`: pads, emits the digest, and leaves an all-zero context behind. */
    method Value(digest: array<byte>)
      requires Valid() && digest != buffer && digest.Length == 20
      modifies this, state, buffer, digest
      ensures digest[..] == DigestFrom(old(iv), old(message))
      ensures Valid() && iv == Regs(0, 0, 0, 0, 0) && message == []
    {
      hide Compress, DigestBytes, Absorbed, DataAfter, Fold, LengthBytes, Counts, RegsOf;
      ghost var m := message;
      var finalCount := FinalCount();
      Append([0x80]);
      ghost var k := 0;
      PadIndex(|m|, k, |message|, countLow, countHigh);
      while (countLow / 8) % 64 != 56
        invariant Valid() && iv == old(iv) && k <= ZeroCount(|m|)
        invariant message == m + [0x80] + Zeros(k)
        invariant (countLow as int / 8) % 64 == 56 <==> k == ZeroCount(|m|)
        decreases ZeroCount(|m|) - k
      {
        Append([0]);
        k := k + 1;
        assert message == m + [0x80] + Zeros(k);
        PadIndex(|m|, k, |message|, countLow, countHigh);
      }
      Append(finalCount);
      assert message == Padded(m, LengthBytes(|m|));
      WholeMessage(Compress, iv, message, RegsOf(state), buffer[..]);
      EmitDigest(digest);
      Wipe();
    }

    /** An update from a short temporary, which is only ever copied. */
    method Append(bytes: seq<byte>)
      requires Valid() && |bytes| <= 8
      modifies this`message, this`countLow, this`countHigh, state, buffer
      ensures Valid() && message == old(message) + bytes
    {
      hide Compress, Absorbed, DataAfter, Counts;
      var data := new byte[|bytes|](i requires 0 <= i < |bytes| => bytes[i]);
      assert data[..data.Length as u32] == bytes;
      Update(data, data.Length as u32);
    }

    /** The eight counter bytes, most significant first. */
    method FinalCount() returns (bytes: seq<byte>)
      requires Valid()
      ensures bytes == LengthBytes(|message|)
    {
      hide Absorbed, LengthBytes, Power256, Counts;
      bytes := [];
      for i := 0 to 8
        invariant bytes == LengthBytes(|message|)[..i]
      {
        var word := if i >= 4 then countLow else countHigh;
        CounterByte(|message|, countLow, countHigh, i);
        bytes := bytes + [ByteOf((word as int / Power256(3 - i % 4)) % 256)];
      }
    }

    method EmitDigest(digest: array<byte>)
      requires state.Length == 5 && digest.Length == 20
      modifies digest
      ensures digest[..] == DigestBytes(RegsOf(state))
    {
      hide BigEndianBytes;
      ghost var regs := RegsOf(state);
      for i := 0 to 20
        invariant digest[..i] == DigestBytes(regs)[..i]
        invariant regs == RegsOf(state)
      {
        DigestByte(regs, i);
        digest[i] := BigEndianBytes(state[i / 4])[i % 4];
      }
    }

    method Wipe()
      requires state.Length == 5 && buffer.Length == 64
      modifies this, state, buffer
      ensures Valid() && iv == Regs(0, 0, 0, 0, 0) && message == []
    {
      hide Compress;
      forall i | 0 <= i < 64 { buffer[i] := 0; }
      forall i | 0 <= i < 5 { state[i] := 0; }
      countLow, countHigh := 0, 0;
      iv, message := Regs(0, 0, 0, 0, 0), [];
      assert RegsOf(state) == iv && message[..Whole(0)] == [];
    }
  }

  /**
   * Any way of cutting a message into updates gives the digest of the whole message. Each chunk is a fresh
   * array because `Update` may overwrite it.
   */
  method DigestOfChunks(chunks: seq<seq<byte>>) returns (digest: seq<byte>)
    requires forall c | c in chunks :: |c| < 0x8000_0000
    ensures digest == Digest(Flatten(chunks))
  {
    hide DigestFrom, Absorbed, Counts, DataAfter, Flatten, Compress;
    var context := new Context();
    NoChunks(chunks);
    for n := 0 to |chunks|
      invariant context.Valid() && context.iv == INITIAL && context.message == Flatten(chunks[..n])
      invariant fresh(context) && fresh(context.state) && fresh(context.buffer)
    {
      var chunk := chunks[n];
      assert chunk in chunks;
      var data := new byte[|chunk|](i requires 0 <= i < |chunk| => chunk[i]);
      assert data[..] == data[..data.Length as u32] == chunk;
      context.Update(data, data.Length as u32);
      NextChunk(chunks, n);
    }
    assert chunks[..|chunks|] == chunks;
    var out := new byte[20];
    context.Value(out);
    digest := out[..];
  }

  /** An update that reaches no second block leaves the caller's bytes alone. */
  lemma ShortUpdateKeepsInput(d: seq<byte>, j: nat)
    requires j < 64 && j + |d| < 128
    ensures DataAfter(d, j) == d
  {
  }

  function Ones(n: nat): (s: seq<byte>)
    ensures |s| == n
  {
    seq(n, _ => 0xFF)
  }

  /** Of a block of one bits every schedule word is all ones or all zeros: which one word `t` is. */
  function IsOnes(t: nat): bool {
    t < 16 || (((IsOnes(t - 3) != IsOnes(t - 8)) != IsOnes(t - 14)) != IsOnes(t - 16))
  }

  lemma ExpandOnes(a: bool, b: bool, c: bool, d: bool)
    ensures Expand(if a then 0xFFFF_FFFF else 0, if b then 0xFFFF_FFFF else 0, if c then 0xFFFF_FFFF else 0,
                   if d then 0xFFFF_FFFF else 0) == if ((a != b) != c) != d then 0xFFFF_FFFF else 0
  {
  }

  lemma OnesWords(k: nat)
    requires k < 16
    ensures BlockWords(Ones(64))[k] == 0xFFFF_FFFF
  {
  }

  lemma {:induction false} ScheduleOfOnes(t: nat)
    requires t < 80
    ensures W(BlockWords(Ones(64)), t) == if IsOnes(t) then 0xFFFF_FFFF else 0
  {
    hide Expand, BlockWords;
    if t < 16 {
      OnesWords(t);
    } else {
      ScheduleOfOnes(t - 3);
      ScheduleOfOnes(t - 8);
      ScheduleOfOnes(t - 14);
      ScheduleOfOnes(t - 16);
      ExpandOnes(IsOnes(t - 3), IsOnes(t - 8), IsOnes(t - 14), IsOnes(t - 16));
    }
  }

  lemma FirstOfLastIsZero()
    ensures !IsOnes(64)
  {
    assert !IsOnes(16) && !IsOnes(17) && !IsOnes(18) && IsOnes(19) && IsOnes(20) && IsOnes(21);
    assert !IsOnes(22) && !IsOnes(23) && IsOnes(24) && !IsOnes(25) && !IsOnes(26) && !IsOnes(27);
    assert IsOnes(28) && IsOnes(29) && IsOnes(30) && !IsOnes(31) && !IsOnes(32) && !IsOnes(33);
    assert IsOnes(34) && !IsOnes(35) && !IsOnes(36) && IsOnes(37) && !IsOnes(38) && !IsOnes(39);
    assert !IsOnes(40) && !IsOnes(41) && !IsOnes(42) && IsOnes(43) && !IsOnes(44) && !IsOnes(45);
    assert !IsOnes(46) && !IsOnes(47) && IsOnes(48) && !IsOnes(49) && IsOnes(50) && IsOnes(51);
    assert !IsOnes(52) && !IsOnes(53) && IsOnes(54) && !IsOnes(55) && IsOnes(56) && !IsOnes(57);
    assert IsOnes(58) && IsOnes(59) && !IsOnes(60) && IsOnes(61) && IsOnes(62) && !IsOnes(63);
    assert !IsOnes(64);
  }

  lemma FirstResidue(block: Block)
    ensures Residue(block)[0] == Low(W(BlockWords(block), 64))
  {
    hide W, BlockWords, Low;
  }

  lemma LowOfZero()
    ensures Low(0) == 0
  {
  }

  /** The first byte left of a block of one bits is zero. */
  lemma ResidueOfOnes()
    ensures Residue(Ones(64))[0] == 0
  {
    hide W, BlockWords, IsOnes, Residue, Low, Ones;
    FirstResidue(Ones(64));
    ScheduleOfOnes(64);
    FirstOfLastIsZero();
    LowOfZero();
  }

  /** An update reaching the end of a second block can damage what it is given: one bits become zeros. */
  lemma LongUpdateDamagesOnes(n: nat, j: nat)
    requires j < 64 && j + n >= 128
    ensures DataAfter(Ones(n), j) != Ones(n)
  {
    hide Residue;
    var d := Ones(n);
    var at := 64 - j;
    assert d[at..][..64] == Ones(64);
    ResidueOfOnes();
    assert DataAfter(d, j)[at] == Spent(d[at..])[0] == 0;
    assert d[at] == 0xFF;
  }

  /** An update leaves every input of its length alone exactly when it does not reach the end of a second block. */
  lemma KeepsInputIff(n: nat, j: nat)
    requires j < 64
    ensures (forall d: seq<byte> | |d| == n :: DataAfter(d, j) == d) <==> j + n < 128
  {
    if j + n < 128 {
      forall d: seq<byte> | |d| == n
        ensures DataAfter(d, j) == d
      {
        ShortUpdateKeepsInput(d, j);
      }
    } else {
      LongUpdateDamagesOnes(n, j);
      assert |Ones(n)| == n;
    }
  }

  /** The zero-padding loop stops exactly when `ZeroCount` zeros have gone in. */
  lemma PadIndex(n: nat, k: nat, total: nat, lo: u32, hi: u32)
    requires k <= ZeroCount(n) && total == n + 1 + k && Counts(total, lo, hi)
    ensures (lo as int / 8) % 64 == 56 <==> k == ZeroCount(n)
  {
    CountIndex(total, lo, hi);
  }

  lemma DigitOfHalves(h: nat, l: nat, i: nat)
    requires i < 8 && l < 0x1_0000_0000
    ensures BigEndianDigit(h * 0x1_0000_0000 + l, i) == ByteOf(((if i >= 4 then l else h) / Power256(3 - i % 4)) % 256)
  {
    hide Power256;
    WordDigit(h, l, i % 4);
    if i < 4 {
      assert i % 4 == i;
    } else {
      assert i % 4 == i - 4 && 3 - (i - 4) == 7 - i;
    }
  }

  lemma CounterByte(n: nat, lo: u32, hi: u32, i: nat)
    requires i < 8 && Counts(n, lo, hi)
    ensures LengthBytes(n)[i] == ByteOf(((if i >= 4 then lo else hi) as int / Power256(3 - i % 4)) % 256)
  {
    hide Power256, BigEndianDigit;
    DigitOfHalves(hi as int, lo as int, i);
  }

  lemma DigestByte(h: Regs, i: nat)
    requires i < 20
    ensures DigestBytes(h)[i] == BigEndianBytes([h.a, h.b, h.c, h.d, h.e][i / 4])[i % 4]
  {
    hide BigEndianBytes;
  }
}
