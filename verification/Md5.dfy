/** The streaming MD5 context of md5.cpp. */
module Md5 {
  import opened Words
  import opened Streaming
  import opened Md5Spec
  import opened Md5Transform

  /** The 64 bytes of PADDING. */
  function Padding(): (s: seq<byte>)
    ensures |s| == 64
  {
    [0x80] + Zeros(63)
  }

  class Context {
    const state: array<word>
    const buffer: array<byte>
    var countLow: u32
    var countHigh: u32

    /** The chaining value the context started from, and everything absorbed since. */
    ghost var iv: Regs
    ghost var message: seq<byte>

    ghost predicate Valid()
      reads this, state, buffer
    {
      && state.Length == 4 && buffer.Length == 64
      && Absorbed(Compress, iv, message, RegsOf(state), buffer[..])
      && Counts(|message|, countLow, countHigh)
    }

    constructor ()
      ensures Valid() && iv == INITIAL && message == []
      ensures fresh(state) && fresh(buffer)
    {
      state := new word[4];
      buffer := new byte[64];
      new;
      Reset();
    }

    /** `MD5Init` */
    method Reset()
      requires state.Length == 4 && buffer.Length == 64
      modifies this, state
      ensures Valid() && iv == INITIAL && message == []
    {
      hide Compress;
      countLow, countHigh := 0, 0;
      state[0] := 0x67452301;
      state[1] := 0xefcdab89;
      state[2] := 0x98badcfe;
      state[3] := 0x10325476;
      iv, message := INITIAL, [];
      assert RegsOf(state) == INITIAL && message[..Whole(0)] == [];
    }

    /** The first branch of `MD5Update`: complete the buffered block and compress it. */
    method FillBlock(input: array<byte>, index: u32, partLen: u32)
      requires state.Length == 4 && buffer.Length == 64 && input != buffer
      requires Absorbed(Compress, iv, message, RegsOf(state), buffer[..])
      requires index as int == |message| % 64 && index as int + partLen as int == 64 && partLen as int <= input.Length
      modifies state, buffer
      ensures |message + input[..partLen]| % 64 == 0
      ensures RegsOf(state) == Fold(Compress, iv, message + input[..partLen])
    {
      hide Compress, Fold;
      ghost var full := buffer[..index] + input[..partLen];
      AbsorbHead(Compress, iv, message, RegsOf(state), buffer[..], input[..partLen], full);
      MemCpy(buffer, index, input, 0, partLen);
      assert input[0..partLen] == input[..partLen];
      assert buffer[0..64] == buffer[..] == full;
      Transform(state, buffer, 0);
    }

    /** The loop of `MD5Update`: compress whole blocks where they lie. */
    method CompressBlocks(input: array<byte>, start: u32, len: u32, ghost m: seq<byte>) returns (i: u32)
      requires state.Length == 4 && start <= len && len as int <= input.Length && len < 0x8000_0000
      requires |m| % 64 == 0 && RegsOf(state) == Fold(Compress, iv, m)
      modifies state
      ensures start <= i <= len < i + 64 && |m + input[start..i]| % 64 == 0
      ensures RegsOf(state) == Fold(Compress, iv, m + input[start..i])
      ensures input[..] == old(input[..])
    {
      hide Compress, Fold, RegsOf;
      ghost var d := input[..];
      i := start;
      assert m + d[start..i] == m;
      while i + 63 < len
        invariant start <= i <= len && (|m| + (i - start) as int) % 64 == 0
        invariant RegsOf(state) == Fold(Compress, iv, m + d[start..i])
        invariant input[..] == d
      {
        assert input[i..i + 64] == d[i..i + 64];
        FoldBlock(Compress, iv, m + d[start..i], d[i..i + 64]);
        assert m + d[start..i] + d[i..i + 64] == m + d[start..i + 64];
        Transform(state, input, i as nat);
        i := i + 64;
      }
      assert input[start..i] == d[start..i];
    }

    /** `MD5Update`: the message grows by the input, whatever the cut; the input is only read. */
    method Update(input: array<byte>, len: u32)
      requires Valid() && input != buffer
      requires len as int <= input.Length && len < 0x8000_0000
      modifies this`message, this`countLow, this`countHigh, state, buffer
      ensures Valid() && message == old(message) + input[..len]
      ensures input[..] == old(input[..])
    {
      hide Compress, AddLow, AddHigh, Fold, Absorbed, Counts, RegsOf;
      ghost var all, n := input[..], |message|;
      var i: u32, index: u32 := 0, (countLow / 8) % 64;
      CountIndex(n, countLow, countHigh);
      CountAdd(n, countLow, countHigh, len);
      countLow, countHigh := AddLow(countLow, len), AddHigh(countLow, countHigh, len);
      var partLen := 64 - index;
      if len >= partLen {
        FillBlock(input, index, partLen);
        i := CompressBlocks(input, partLen, len, message + all[..partLen]);
        InThreeParts(message, all, partLen as nat, i as nat, len as nat);
        index := 0;
        MemCpy(buffer, index, input, i, len - i);
        AbsorbRest(Compress, iv, message + all[..partLen] + all[partLen..i], RegsOf(state), all[i..len], buffer[..]);
      } else {
        MemCpy(buffer, index, input, i, len - i);
        assert input[0..len] == all[..len];
        AbsorbTail(Compress, iv, message, RegsOf(state), old(buffer[..]), all[..len], buffer[..]);
      }
      message := message + all[..len];
    }

    /** `MD5Final`: pads, emits the digest, and leaves an all-zero context behind. */
    method Value(digest: array<byte>)
      requires Valid() && digest != buffer && digest.Length == 16
      modifies this, state, buffer, digest
      ensures digest[..] == DigestFrom(old(iv), old(message))
      ensures Valid() && iv == Regs(0, 0, 0, 0) && message == []
    {
      hide Compress, Absorbed, Fold, LengthBytes, Counts, EncodeWords;
      ghost var m := message;
      var bits := Bits();
      CountIndex(|m|, countLow, countHigh);
      var index := (countLow / 8) % 64;
      var padLen := if index < 56 then 56 - index else 120 - index;
      Append(Padding()[..padLen]);
      assert Padding()[..padLen] == [0x80] + Zeros(ZeroCount(|m|));
      Append(bits);
      assert message == Padded(m, LengthBytes(|m|));
      WholeMessage(Compress, iv, message, RegsOf(state), buffer[..]);
      Encode(digest, state[..], 16);
      assert state[..] == [state[0], state[1], state[2], state[3]];
      Wipe();
    }

    /** An update from a constant or a local array. */
    method Append(bytes: seq<byte>)
      requires Valid() && |bytes| <= 64
      modifies this`message, this`countLow, this`countHigh, state, buffer
      ensures Valid() && message == old(message) + bytes
    {
      hide Compress, Absorbed, Counts;
      var input := new byte[|bytes|](i requires 0 <= i < |bytes| => bytes[i]);
      assert input[..input.Length as u32] == bytes;
      Update(input, input.Length as u32);
    }

    /** `Encode` of the two counter words, which this model keeps as numbers. */
    method Bits() returns (bytes: seq<byte>)
      requires Valid()
      ensures bytes == LengthBytes(|message|)
    {
      hide Absorbed, LengthBytes, Power256, Counts;
      bytes := [];
      for i := 0 to 8
        invariant bytes == LengthBytes(|message|)[..i]
      {
        var word := if i < 4 then countLow else countHigh;
        CounterByte(|message|, countLow, countHigh, i);
        bytes := bytes + [ByteOf((word as int / Power256(i % 4)) % 256)];
      }
    }

    method Wipe()
      requires state.Length == 4 && buffer.Length == 64
      modifies this, state, buffer
      ensures Valid() && iv == Regs(0, 0, 0, 0) && message == []
    {
      hide Compress;
      forall i | 0 <= i < 64 { buffer[i] := 0; }
      forall i | 0 <= i < 4 { state[i] := 0; }
      countLow, countHigh := 0, 0;
      iv, message := Regs(0, 0, 0, 0), [];
      assert RegsOf(state) == iv && message[..Whole(0)] == [];
    }
  }

  /** Any way of cutting a message into updates gives the digest of the whole message. */
  method DigestOfChunks(chunks: seq<seq<byte>>) returns (digest: seq<byte>)
    requires forall c | c in chunks :: |c| < 0x8000_0000
    ensures digest == Digest(Flatten(chunks))
  {
    hide DigestFrom, Absorbed, Counts, Flatten, Compress;
    var context := new Context();
    NoChunks(chunks);
    for n := 0 to |chunks|
      invariant context.Valid() && context.iv == INITIAL && context.message == Flatten(chunks[..n])
      invariant fresh(context) && fresh(context.state) && fresh(context.buffer)
    {
      var chunk := chunks[n];
      assert chunk in chunks;
      var input := new byte[|chunk|](i requires 0 <= i < |chunk| => chunk[i]);
      assert input[..input.Length as u32] == chunk;
      context.Update(input, input.Length as u32);
      NextChunk(chunks, n);
    }
    assert chunks[..|chunks|] == chunks;
    var out := new byte[16];
    context.Value(out);
    digest := out[..];
  }

  lemma CounterByte(n: nat, lo: u32, hi: u32, i: nat)
    requires i < 8 && Counts(n, lo, hi)
    ensures LengthBytes(n)[i] == ByteOf(((if i < 4 then lo else hi) as int / Power256(i % 4)) % 256)
  {
    var l, h := lo as int, hi as int;
    hide Power256;
    WordDigit(h, l, 3 - i % 4);
    if i < 4 {
      assert 3 - (3 - i % 4) == i;
    } else {
      assert 7 - (3 - i % 4) == i;
    }
  }
}
