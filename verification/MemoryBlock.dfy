/** A block of bytes with a read and a write position: buffer/memory_block.cpp. */
module MemoryBlock {
  import opened BufferBase
  import opened Words

  /** The largest `int32_t`; the source casts lengths to it. */
  const MAX := 0x7fff_ffff

  /** A byte queue that remembers what has been read: all that was written, and how much of it was read. */
  datatype Fifo = Fifo(written: seq<byte>, read: nat) {
    ghost predicate Valid() {
      read <= |written|
    }

    function Unread(): seq<byte>
      requires Valid()
    {
      written[read..]
    }

    function Push(data: seq<byte>): Fifo {
      Fifo(written + data, read)
    }

    /** What a read of `n` bytes gives. */
    function Front(n: nat): seq<byte>
      requires Valid()
    {
      written[read..read + Min(|written| - read, n)]
    }

    function Pop(n: nat): Fifo
      requires Valid()
    {
      Fifo(written, read + |Front(n)|)
    }

    /** Forgets what has been read. */
    function Compact(): Fifo
      requires Valid()
    {
      Fifo(Unread(), 0)
    }

    /** Keeps the first `n` bytes. */
    function Cut(n: nat): Fifo {
      if n < |written| then Fifo(written[..n], Min(n, read)) else this
    }
  }

  /** A saved pair of positions. */
  datatype Marker = Marker(read: nat, write: nat)

  /** If the first `n` bytes agree, the first `k` of the first `w` do. */
  lemma FewerAgree(s: seq<byte>, t: seq<byte>, n: nat, w: nat, k: nat)
    requires AgreeOn(s, t, n) && k <= w <= |t| && k <= n
    ensures s[..k] == t[..w][..k]
  {
    assert s[..k] == s[..n][..k];
    assert t[..w][..k] == t[..n][..k];
  }

  lemma AtFront(s: seq<byte>, t: seq<byte>, all: seq<byte>)
    requires all == [] + s + t
    ensures all[..|s|] == s
  {
  }

  class MemoryBlock {
    const base: BufferBase
    var readPos: nat
    var writePos: nat

    /** The order of the positions that memory_block.hpp promises, within 32 bits. */
    ghost predicate Ordered()
      reads this, base
    {
      base.Shaped() && readPos <= writePos <= base.size <= MAX
    }

    ghost predicate Live(reg: Registry)
      reads reg, reg.handles, reg.stores, this, base
    {
      reg.Valid() && base in reg.handles && Ordered()
    }

    ghost function View(): Fifo
      requires Ordered()
      reads this, base, base.Array()
    {
      Fifo(base.Bytes()[..writePos], readPos)
    }

    twostate predicate Unmoved()
      reads this, base
    {
      base.storage == old(base.storage) && base.memory == old(base.memory) && base.size == old(base.size)
    }

    /** `reserve( sz )` has been done: the block is where it was, or alone on new storage of that size. */
    twostate predicate Settled(sz: nat)
      reads this, base
    {
      if old(base.Stays(sz)) then Unmoved()
      else base.storage != null && fresh(base.storage) && fresh(base.storage.data) && base.size == sz
    }

    /** `memory_block( size )`; the default constructor is this one with no bytes. */
    constructor Sized(n: nat, ghost reg: Registry)
      requires reg.Valid() && n <= MAX
      modifies reg
      ensures Live(reg) && fresh(base) && base.size == n && View() == Fifo([], 0)
      ensures reg.handles == old(reg.handles) + {base} && base.storage != null && fresh(base.storage)
      ensures fresh(base.storage.data)
    {
      hide Registry.Valid;
      base := new BufferBase.Owned(n, reg);
      readPos, writePos := 0, 0;
    }

    /** `memory_block( p , buf_size , data_size )` over the caller's memory. */
    constructor Over(m: array<byte>, dataSize: nat, ghost reg: Registry)
      requires reg.Valid() && dataSize <= m.Length <= MAX
      requires forall b | b in reg.handles :: b.memory != m
      requires forall s | s in reg.stores :: s.data != m
      modifies reg
      ensures Live(reg) && fresh(base) && base.memory == m && base.size == m.Length
      ensures View() == Fifo(m[..dataSize], 0)
      ensures reg.handles == old(reg.handles) + {base}
    {
      hide Registry.Valid;
      base := new BufferBase.External(m, reg);
      readPos, writePos := 0, dataSize;
    }

    constructor Around(b: BufferBase, r: nat, w: nat)
      ensures base == b && readPos == r && writePos == w
    {
      base, readPos, writePos := b, r, w;
    }

    /** The copy constructor: null when the handle cannot be copied. */
    static method Copy(rhs: MemoryBlock, ghost reg: Registry) returns (copy: MemoryBlock?)
      requires rhs.Live(reg)
      modifies rhs.base.storage, reg
      ensures copy == null <==> rhs.base.storage == null
      ensures rhs.Live(reg) && rhs.View() == old(rhs.View())
      ensures copy == null ==> reg.handles == old(reg.handles)
      ensures copy != null ==>
        && fresh(copy) && fresh(copy.base) && reg.handles == old(reg.handles) + {copy.base}
        && copy.Live(reg) && copy.View() == rhs.View() && copy.base.storage == rhs.base.storage
    {
      hide Registry.Valid;
      var b := BufferBase.Copy(rhs.base, reg);
      if b == null {
        return null;
      }
      copy := new MemoryBlock.Around(b, rhs.readPos, rhs.writePos);
    }

    function Space(): int
      reads this, base
    {
      base.size - writePos
    }

    function Length(): int
      reads this
    {
      writePos - readPos
    }

    /** `wr_ptr( move )` */
    method MoveWrite(move: int) returns (moved: int)
      requires Ordered() && -MAX <= move <= MAX
      modifies this`writePos
      ensures Ordered() && writePos == old(writePos) + moved
      ensures moved == if move >= 0 then Min(move, old(Space())) else -Min(-move, old(Length()))
    {
      if move >= 0 {
        moved := Min(move, Space());
      } else {
        moved := -Min(-move, Length());
      }
      writePos := writePos + moved;
    }

    /** `rd_ptr( move )` */
    method MoveRead(move: int) returns (moved: int)
      requires Ordered() && -MAX <= move <= MAX
      modifies this`readPos
      ensures Ordered() && readPos == old(readPos) + moved
      ensures moved == if move >= 0 then Min(move, old(Length())) else -Min(-move, old(readPos))
    {
      if move >= 0 {
        moved := Min(move, Length());
      } else {
        moved := -Min(-move, readPos);
      }
      readPos := readPos + moved;
    }

    /** `reserve` */
    method Reserve(sz: nat, ghost reg: Registry)
      requires Live(reg) && sz <= MAX
      modifies this, base, base.storage, reg
      ensures Live(reg) && reg.handles == old(reg.handles) && base.Sole()
      ensures base.size == if old(base.Stays(sz)) then old(base.size) else sz
      ensures View() == old(View()).Cut(base.size)
      ensures readPos == Min(old(readPos), base.size) && writePos == Min(old(writePos), base.size)
      ensures Settled(sz)
    {
      hide Registry.Valid;
      base.Reserve(sz, reg);
      readPos := Min(base.size, readPos);
      writePos := Min(base.size, writePos);
      FewerAgree(base.Bytes(), old(base.Bytes()), Min(old(base.size), base.size), old(writePos), writePos);
    }

    /**
     * `write`: every byte is appended. The bytes may be the block's own, if they can be appended without new storage
     * or if the old storage has another handle.
     */
    method Write(buf: array?<byte>, from: nat, n: nat, ghost reg: Registry) returns (r: int)
      requires Live(reg) && writePos + n <= MAX
      requires if buf == null then n == 0 else from + n <= buf.Length
      requires buf != null && buf == base.Array() && base.Sole() ==> writePos + n <= base.size && from + n <= writePos
      modifies this, base, base.storage, base.Array(), reg
      ensures Live(reg) && reg.handles == old(reg.handles) && base.Sole() && r == n
      ensures View() == old(View()).Push(old(if buf == null then [] else buf[from..from + n]))
      ensures Settled(old(writePos) + n)
      ensures forall o | o in old(reg.handles) && o != base :: o.Bytes() == old(o.Bytes())
    {
      hide Registry.Valid;
      Reserve(writePos + n, reg);
      Apart(reg, base);
      r := Put(buf, from, Min(Space(), n));
    }

    /** The `memcpy` of `write`, and the new position. */
    method Put(buf: array?<byte>, from: nat, n: nat) returns (r: int)
      requires Ordered() && writePos + n <= base.size
      requires if buf == null then n == 0 else from + n <= buf.Length
      requires buf != null && buf == base.Array() ==> from + n <= writePos
      modifies this`writePos, base.Array()
      ensures Ordered() && r == n
      ensures View() == old(View()).Push(old(if buf == null then [] else buf[from..from + n]))
    {
      if base.Array() != null && buf != null {
        MemMove(base.Array(), writePos, buf, from, n);
      }
      r := MoveWrite(n);
    }

    lemma UnreadBytes()
      requires Ordered()
      ensures View().Valid() && View().Unread() == if base.Array() == null then [] else base.Array()[readPos..writePos]
      ensures 0 <= Length() && readPos + Length() == writePos
      ensures if base.Array() == null then Length() == 0 else writePos <= base.Array().Length
    {
    }

    /** The same of a registered block. */
    lemma UnreadOf(reg: Registry)
      requires Live(reg)
      ensures View().Valid() && View().Unread() == if base.Array() == null then [] else base.Array()[readPos..writePos]
      ensures 0 <= Length() && readPos + Length() == writePos
      ensures if base.Array() == null then Length() == 0 else writePos <= base.Array().Length
    {
      hide Registry.Valid;
      UnreadBytes();
    }

    lemma FrontBytes(n: nat)
      requires Ordered()
      ensures View().Front(n) == if base.Array() == null then [] else base.Array()[readPos..readPos + Min(Length(), n)]
    {
    }

    /** `buffer << data` */
    method Append(data: MemoryBlock, ghost reg: Registry)
      requires Live(reg) && data.Live(reg) && writePos + data.Length() <= MAX
      requires data.base.Array() != null && data.base.Array() == base.Array() && base.Sole() ==>
        writePos + data.Length() <= base.size && data.writePos <= writePos
      modifies this, base, base.storage, base.Array(), reg
      ensures Live(reg) && reg.handles == old(reg.handles) && base.Sole()
      ensures View() == old(View()).Push(old(data.View()).Unread())
      ensures Settled(old(writePos + data.Length()))
      ensures forall o | o in old(reg.handles) && o != base :: o.Bytes() == old(o.Bytes())
    {
      hide *;
      data.UnreadOf(reg);
      var _ := Write(data.base.Array(), data.readPos, data.Length(), reg);
    }

    /** `peek` into the caller's buffer. */
    method Peek(buf: array<byte>, n: nat) returns (r: nat)
      requires Ordered() && n <= buf.Length && buf != base.Array()
      modifies buf
      ensures View() == old(View())
      ensures r == |old(View()).Front(n)| == Min(n, old(Length()))
      ensures buf[..] == old(View()).Front(n) + old(buf[r..])
    {
      r := Min(Length(), n);
      FrontBytes(n);
      if base.Array() != null {
        MemMove(buf, 0, base.Array(), readPos, r);
        assert old(buf[..0]) == [];
      }
    }

    /** `read` */
    method Read(buf: array<byte>, n: nat) returns (r: int)
      requires Ordered() && n <= buf.Length && buf != base.Array()
      modifies this`readPos, buf
      ensures Ordered() && View() == old(View()).Pop(n)
      ensures r == |old(View()).Front(n)| == Min(n, old(Length()))
      ensures buf[..] == old(View()).Front(n) + old(buf[r..])
    {
      var k := Peek(buf, n);
      r := MoveRead(k);
    }

    /** `align`: the unread bytes move to the front of storage of the block's own. */
    method Align(ghost reg: Registry)
      requires Live(reg)
      modifies this, base, base.storage, base.Array(), reg
      ensures Live(reg) && reg.handles == old(reg.handles) && base.Sole() && base.size == old(base.size)
      ensures View() == old(View()).Compact()
      ensures Settled(old(base.size))
      ensures forall o | o in old(reg.handles) && o != base :: o.Bytes() == old(o.Bytes())
    {
      hide Registry.Valid;
      Reserve(base.size, reg);
      if writePos != readPos {
        Apart(reg, base);
        Slide();
      } else {
        Clear(reg);
      }
    }

    /** The `memmove` of `align`, and the new positions. */
    method Slide()
      requires Ordered() && readPos < writePos
      modifies this, base.Array()
      ensures Ordered() && View() == old(View()).Compact()
    {
      UnreadBytes();
      ghost var rest := base.Array()[Length()..];
      MemMove(base.Array(), 0, base.Array(), readPos, Length());
      AtFront(old(View()).Unread(), rest, base.Array()[..]);
      writePos := Length();
      readPos := 0;
    }

    /** `clear` */
    method Clear(ghost reg: Registry)
      requires Live(reg)
      modifies this, base, base.storage, reg
      ensures Live(reg) && reg.handles == old(reg.handles) && base.Sole() && base.size == old(base.size)
      ensures View() == Fifo([], 0)
      ensures Settled(old(base.size))
    {
      hide Registry.Valid;
      base.Reserve(base.size, reg);
      writePos := 0;
      readPos := 0;
    }

    /** `mark` */
    function Mark(): Marker
      reads this
    {
      Marker(readPos, writePos)
    }

    /** `move( marker )`: refused when the saved write position is the capacity or beyond. */
    method MoveTo(m: Marker) returns (ok: bool)
      requires Ordered() && m.read <= m.write
      modifies this
      ensures Ordered() && ok == (m.write < base.size)
      ensures !ok ==> View() == old(View())
      ensures ok ==> View().read == m.read && |View().written| == m.write
      ensures ok && m.write <= old(writePos) ==> View() == Fifo(old(View()).written[..m.write], m.read)
    {
      ok := m.write < base.size;
      if ok {
        readPos := m.read;
        writePos := m.write;
      }
    }

    /** `swap` */
    method Swap(rhs: MemoryBlock, ghost reg: Registry)
      requires Live(reg) && rhs.Live(reg) && base != rhs.base
      modifies this, rhs, base, rhs.base, base.storage, rhs.base.storage
      ensures Live(reg) && rhs.Live(reg)
      ensures View() == old(rhs.View()) && rhs.View() == old(View())
      ensures base.storage == old(rhs.base.storage) && rhs.base.storage == old(base.storage)
      ensures base.memory == old(rhs.base.memory) && rhs.base.memory == old(base.memory)
      ensures base.size == old(rhs.base.size) && rhs.base.size == old(base.size)
    {
      hide Registry.Valid;
      base.Swap(rhs.base, reg);
      readPos, rhs.readPos := rhs.readPos, readPos;
      writePos, rhs.writePos := rhs.writePos, writePos;
    }

    /** The move constructor: `rhs` is left empty, on nothing, and can be used again. */
    static method Move(rhs: MemoryBlock, ghost reg: Registry) returns (b: MemoryBlock)
      requires rhs.Live(reg)
      modifies rhs, rhs.base, rhs.base.storage, reg
      ensures fresh(b) && fresh(b.base) && reg.handles == old(reg.handles) + {b.base}
      ensures b.Live(reg) && b.View() == old(rhs.View()) && b.base.storage == old(rhs.base.storage)
      ensures b.base.memory == old(rhs.base.memory) && b.base.size == old(rhs.base.size)
      ensures rhs.Live(reg) && rhs.View() == Fifo([], 0) && rhs.base.Array() == null
    {
      hide Registry.Valid;
      var base := new BufferBase.Move(rhs.base, reg);
      b := new MemoryBlock.Around(base, rhs.readPos, rhs.writePos);
      rhs.readPos, rhs.writePos := 0, 0;
    }

    /** Move assignment keeps the positions of `rhs`, which is then unusable unless nothing was written. */
    method MoveAssign(rhs: MemoryBlock, ghost reg: Registry)
      requires Live(reg) && rhs.Live(reg) && base != rhs.base
      modifies this, base, base.storage, rhs.base, rhs.base.storage, reg
      ensures Live(reg) && reg.handles == old(reg.handles) && View() == old(rhs.View())
      ensures base.storage == old(rhs.base.storage) && base.memory == old(rhs.base.memory)
      ensures base.size == old(rhs.base.size)
      ensures rhs.base.Array() == null && rhs.base.size == 0
      ensures rhs.Live(reg) <==> old(rhs.writePos) == 0
    {
      hide Registry.Valid;
      base.MoveAssign(rhs.base, reg);
      readPos := rhs.readPos;
      writePos := rhs.writePos;
    }

    /** Copy assignment; false stands for the exception. */
    method CopyAssign(rhs: MemoryBlock, ghost reg: Registry) returns (ok: bool)
      requires Live(reg) && rhs.Live(reg) && (this == rhs || base != rhs.base)
      modifies this, base, base.storage, rhs.base.storage, reg
      ensures Live(reg) && rhs.Live(reg) && reg.handles == old(reg.handles)
      ensures ok <==> old(rhs.base.storage) != null
      ensures View() == old(if ok then rhs.View() else View()) && rhs.View() == old(rhs.View())
      ensures ok ==> base.storage == old(rhs.base.storage) && base.size == old(rhs.base.size)
      ensures !ok ==> Unmoved()
    {
      hide Registry.Valid;
      var temp := Copy(rhs, reg);
      if temp == null {
        return false;
      }
      Swap(temp, reg);
      temp.base.Release(reg);
      ok := true;
    }

    /** `*this << val` for one byte. */
    method WriteByte(val: byte, ghost reg: Registry)
      requires Live(reg) && writePos + 1 <= MAX
      modifies this, base, base.storage, base.Array(), reg
      ensures Live(reg) && reg.handles == old(reg.handles) && base.Sole()
      ensures View() == old(View()).Push([val])
      ensures Settled(old(writePos) + 1)
      ensures forall o | o in old(reg.handles) && o != base :: o.Bytes() == old(o.Bytes())
    {
      hide Registry.Valid;
      var buf := new byte[1];
      buf[0] := val;
      var _ := Write(buf, 0, 1, reg);
    }

    /** `padding`: fills up to a multiple of `align`. */
    method Padding(align: nat, val: byte, ghost reg: Registry) returns (r: nat)
      requires Live(reg) && 0 < align && writePos + align <= MAX
      modifies this, base, base.storage, base.Array(), reg
      ensures Live(reg) && reg.handles == old(reg.handles)
      ensures r == Missing(old(Length()), align) && Length() % align == 0
      ensures View() == old(View()).Push(Repeat(val, r))
      ensures if r == 0 then Unmoved() else Settled(old(writePos) + r)
      ensures forall o | o in old(reg.handles) && o != base :: o.Bytes() == old(o.Bytes())
    {
      hide Registry.Valid;
      var mod := Length() % align;
      if mod == 0 {
        RepeatMore(View(), val, 0);
        return 0;
      }
      r := align - mod;
      Fill(val, r, reg);
      Filled(old(Length()), align);
    }

    /** The loop of `padding`. */
    method Fill(val: byte, n: nat, ghost reg: Registry)
      requires Live(reg) && writePos + n <= MAX
      modifies this, base, base.storage, base.Array(), reg
      ensures Live(reg) && reg.handles == old(reg.handles)
      ensures View() == old(View()).Push(Repeat(val, n)) && Length() == old(Length()) + n
      ensures if n == 0 then Unmoved() else Settled(old(writePos) + n)
      ensures forall o | o in old(reg.handles) && o != base :: o.Bytes() == old(o.Bytes())
    {
      hide Registry.Valid;
      RepeatMore(View(), val, 0);
      var append := n;
      while append > 0
        invariant 0 <= append <= n && Live(reg) && reg.handles == old(reg.handles)
        invariant View() == old(View()).Push(Repeat(val, n - append))
        invariant Length() == old(Length()) + n - append
        invariant writePos == old(writePos) + n - append
        invariant append == n ==> Unmoved() && base.Sole() == old(base.Sole())
        invariant append < n ==> base.Sole() && Settled(old(writePos) + n - append)
        invariant forall o | o in old(reg.handles) && o != base :: o.Bytes() == old(o.Bytes())
      {
        RepeatMore(old(View()), val, n - append);
        WriteByte(val, reg);
        append := append - 1;
      }
    }
  }

  function Repeat(x: byte, n: nat): (s: seq<byte>)
    ensures |s| == n
  {
    seq(n, _ => x)
  }

  /** What is missing to a multiple of `align`. */
  function Missing(n: nat, align: nat): nat
    requires 0 < align
  {
    if n % align == 0 then 0 else align - n % align
  }

  lemma AtLeast(k: int, a: nat)
    ensures k >= 1 ==> k * a >= a
    ensures k <= -1 ==> k * a + a <= 0
  {
  }

  lemma Multiple(q: nat, a: nat)
    requires 0 < a
    ensures q * a % a == 0
  {
    var n := q * a;
    var p := n / a;
    assert n == p * a + n % a;
    assert (q - p) * a == n % a;
    AtLeast(q - p, a);
  }

  /** Adding what is missing from the last unit fills it. */
  lemma Filled(n: nat, align: nat)
    requires 0 < align
    ensures (n + (align - n % align)) % align == 0
  {
    var q := n / align;
    assert n + (align - n % align) == (q + 1) * align;
    Multiple(q + 1, align);
  }

  lemma RepeatMore(f: Fifo, x: byte, n: nat)
    ensures f.Push(Repeat(x, n)).Push([x]) == f.Push(Repeat(x, n + 1))
    ensures f.Push(Repeat(x, 0)) == f
  {
    assert Repeat(x, n) + [x] == Repeat(x, n + 1);
  }
}
