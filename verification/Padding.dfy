/** PKCS padding of a memory block: crypto/padding.cpp and section 6.3 of RFC 5652. */
module Padding {
  import opened BufferBase
  import opened MemoryBlock
  import opened Words

  /** The values of a 64-bit `size_t`. */
  const SIZES := 0x1_0000_0000_0000_0000

  /** The number of padding bytes, which is also the value of each. */
  function PadLength(datasz: nat, align: nat): nat
    requires 0 < align < 256
  {
    align - datasz % align
  }

  /** The padded text of section 6.3 of RFC 5652. */
  function Padded(data: seq<byte>, align: nat): seq<byte>
    requires 0 < align < 256
  {
    data + Repeat(ByteOf(PadLength(|data|, align)), PadLength(|data|, align))
  }

  lemma PadLengthRange(datasz: nat, align: nat)
    requires 0 < align < 256
    ensures 1 <= PadLength(datasz, align) <= align
  {
  }

  /** `pkcs5( mb , datasz , align )` */
  method Pkcs5Sized(mb: MemoryBlock, datasz: nat, align: nat, ghost reg: Registry)
    requires mb.Live(reg) && 0 < align < 256 && mb.writePos + align <= MAX
    modifies mb, mb.base, mb.base.storage, mb.base.Array(), reg
    ensures mb.Live(reg) && reg.handles == old(reg.handles)
    ensures mb.View() == old(mb.View()).Push(Repeat(ByteOf(PadLength(datasz, align)), PadLength(datasz, align)))
    ensures mb.Settled(old(mb.writePos) + PadLength(datasz, align))
    ensures forall o | o in old(reg.handles) && o != mb.base :: o.Bytes() == old(o.Bytes())
  {
    hide Registry.Valid, PadLength, ByteOf;
    PadLengthRange(datasz, align);
    var alignedSize := AlignedSize(datasz, align);
    var padding := ByteOf(alignedSize - datasz);
    mb.Fill(padding, padding as int, reg);
  }

  function AlignedSize(datasz: nat, align: nat): (r: nat)
    requires 0 < align < 256
    ensures r == datasz + PadLength(datasz, align)
  {
    datasz + (align - datasz % align)
  }

  /** `pkcs5( mb , align )` pads what has not been read. */
  method Pkcs5(mb: MemoryBlock, align: nat, ghost reg: Registry)
    requires mb.Live(reg) && 0 < align < 256 && mb.writePos + align <= MAX
    modifies mb, mb.base, mb.base.storage, mb.base.Array(), reg
    ensures mb.Live(reg) && reg.handles == old(reg.handles)
    ensures mb.Settled(old(mb.writePos) + PadLength(old(mb.Length()), align))
    ensures mb.View().read == old(mb.View()).read && mb.View().Unread() == Padded(old(mb.View()).Unread(), align)
    ensures forall o | o in old(reg.handles) && o != mb.base :: o.Bytes() == old(o.Bytes())
  {
    hide Registry.Valid, PadLength, ByteOf;
    Pkcs5Sized(mb, mb.Length(), align, reg);
  }

  /** `pkcs5_data_size`: the last byte says how much to take off, and is not checked. */
  function DataSize(data: seq<byte>): nat
    requires |data| > 0
  {
    (|data| - data[|data| - 1] as int) % SIZES
  }

  /** The padded length is the next multiple of the alignment. */
  lemma PaddedIsAligned(data: seq<byte>, align: nat)
    requires 0 < align < 256
    ensures |Padded(data, align)| % align == 0
    ensures |data| < |Padded(data, align)| <= |data| + align
  {
    Filled(|data|, align);
    PadLengthRange(|data|, align);
  }

  /** Every byte added is the number of bytes added. */
  lemma PadBytes(data: seq<byte>, align: nat, k: nat)
    requires 0 < align < 256 && |data| <= k < |Padded(data, align)|
    ensures Padded(data, align)[k] as int == |Padded(data, align)| - |data|
  {
  }

  lemma RoundTrip(data: seq<byte>, align: nat)
    requires 0 < align < 256 && |data| < SIZES
    ensures |Padded(data, align)| > 0 && DataSize(Padded(data, align)) == |data|
    ensures Padded(data, align)[..|data|] == data
  {
    hide PadLength, ByteOf;
    PadLengthRange(|data|, align);
    var padded := Padded(data, align);
    assert padded[|padded| - 1] == ByteOf(PadLength(|data|, align));
  }

  /** So two texts are padded alike only if they are equal. */
  lemma PaddedInjective(a: seq<byte>, b: seq<byte>, align: nat)
    requires 0 < align < 256 && |a| < SIZES && |b| < SIZES
    ensures Padded(a, align) == Padded(b, align) ==> a == b
  {
    hide Padded, DataSize;
    RoundTrip(a, align);
    RoundTrip(b, align);
  }

  /** On bytes that nobody padded the result is a length of the data exactly when the last byte is small enough. */
  lemma DataSizeInRange(data: seq<byte>)
    requires 0 < |data| < SIZES - 255
    ensures DataSize(data) <= |data| <==> data[|data| - 1] as int <= |data|
  {
    var last := data[|data| - 1] as int;
    assert 0 <= last < 256;
    if last > |data| {
      assert (|data| - last) % SIZES == |data| - last + SIZES;
    }
  }
}
