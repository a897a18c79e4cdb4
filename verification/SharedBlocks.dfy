/**
 * The methods of buffer/memory_block.cpp on any number of blocks, however these share storage, against the queues of
 * BlockWorld.
 */
module SharedBlocks {
  import opened BlockWorld
  import opened BufferBase
  import opened MemoryBlock
  import opened Words

  ghost function Bases(blocks: seq<MemoryBlock>): set<BufferBase> {
    set b: MemoryBlock | b in blocks :: b.base
  }

  /** Different blocks, the only ones there are, each as its cell says, and sharing storage as the cells say. */
  ghost predicate Represents(blocks: seq<MemoryBlock>, w: World, reg: Registry)
    reads reg, reg.handles, reg.stores, blocks, Bases(blocks), Footprint(blocks)
  {
    && reg.Valid() && |blocks| == |w| && reg.handles == Bases(blocks)
    && (forall j, k | 0 <= j < k < |blocks| :: blocks[j] != blocks[k] && blocks[j].base != blocks[k].base)
    && (forall k | 0 <= k < |blocks| :: Holds(blocks[k], w[k]))
    && (forall j, k | 0 <= j < |blocks| && 0 <= k < |blocks| :: ShareAsSaid(blocks[j], w[j], blocks[k], w[k]))
  }

  ghost predicate Holds(b: MemoryBlock, c: Cell)
    reads b, b.base, b.base.Array()
  {
    b.Ordered() && b.View() == c.fifo && b.base.size == c.size && (c.place.Counted? <==> b.base.storage != null)
  }

  ghost predicate ShareAsSaid(b: MemoryBlock, c: Cell, o: MemoryBlock, d: Cell)
    reads b.base, o.base
  {
    c.place.Counted? && d.place.Counted? ==> (c.place == d.place <==> b.base.storage == o.base.storage)
  }

  /** The blocks, their handles, and the storage behind them. */
  ghost function Footprint(blocks: seq<MemoryBlock>): set<object>
    reads Bases(blocks)
  {
    (set b: MemoryBlock | b in blocks :: b) + Bases(blocks)
    + (set b: MemoryBlock | b in blocks && b.base.storage != null :: b.base.storage)
    + (set b: MemoryBlock | b in blocks && b.base.Array() != null :: b.base.Array())
  }

  /** A block, its handle, and the storage behind it. */
  ghost function Parts(b: MemoryBlock): set<object>
    reads b.base
  {
    {b, b.base} + (if b.base.storage == null then {} else {b.base.storage})
    + (if b.base.Array() == null then {} else {b.base.Array()})
  }

  lemma InFootprint(blocks: seq<MemoryBlock>, b: MemoryBlock)
    requires b in blocks
    ensures Parts(b) <= Footprint(blocks) && b.base in Bases(blocks)
  {
  }

  lemma PartOf(blocks: seq<MemoryBlock>, o: object) returns (k: nat)
    requires o in Footprint(blocks)
    ensures k < |blocks| && o in Parts(blocks[k])
  {
    k :| k < |blocks| && o in Parts(blocks[k]);
  }

  twostate lemma WasInFootprint(blocks: seq<MemoryBlock>, new k: nat)
    requires k < |blocks|
    ensures old(Parts(blocks[k])) <= old(Footprint(blocks))
  {
    assert blocks[k] in blocks;
  }

  /** Only the parts of blocks `i` and `j` are others now, and those are parts of before or new. */
  twostate lemma OnlyParts(blocks: seq<MemoryBlock>, new i: nat, new j: nat)
    requires i < |blocks| && j < |blocks|
    requires forall o | o in Parts(blocks[i]) + Parts(blocks[j]) :: o in old(Footprint(blocks)) || fresh(o)
    requires forall k | 0 <= k < |blocks| && k != i && k != j ::
      blocks[k].base.storage == old(blocks[k].base.storage) && blocks[k].base.memory == old(blocks[k].base.memory)
    ensures forall o | o in Footprint(blocks) :: o in old(Footprint(blocks)) || fresh(o)
  {
    hide Footprint;
    forall o | o in Footprint(blocks)
      ensures o in old(Footprint(blocks)) || fresh(o)
    {
      var k := PartOf(blocks, o);
      if k != i && k != j {
        assert Parts(blocks[k]) == old(Parts(blocks[k]));
        WasInFootprint(blocks, k);
      }
    }
  }

  // ----- one block changed

  /** A block is the only one on its storage exactly when its cell is alone. */
  twostate lemma WasSole(blocks: seq<MemoryBlock>, new w: World, new i: nat, new reg: Registry)
    requires old(allocated(reg)) && old(Represents(blocks, w, reg)) && i < |w|
    ensures old(blocks[i].base.Sole()) <==> Alone(w, i)
  {
    hide Footprint, Registry.Unaliased, Registry.Counted, MemoryBlock.View;
    var s := old(blocks[i].base.storage);
    if s != null {
      assert blocks[i] in blocks && blocks[i].base in old(reg.handles);
      if Alone(w, i) {
        forall h | h in old(s.handles)
          ensures h == blocks[i].base
        {
          assert h in Bases(blocks) && old(h.storage) == s;
          var k :| 0 <= k < |blocks| && blocks[k].base == h;
          assert old(ShareAsSaid(blocks[k], w[k], blocks[i], w[i]));
        }
        assert old(s.handles) == {blocks[i].base};
      } else {
        var k :| 0 <= k < |w| && k != i && w[k].place == w[i].place;
        assert old(ShareAsSaid(blocks[k], w[k], blocks[i], w[i]));
        assert blocks[k] in blocks && blocks[k].base in old(reg.handles);
        assert blocks[k].base in old(s.handles);
      }
    }
  }

  /** The blocks other than `i` and `j`, and what they show, are as they were. */
  twostate predicate OthersKept(blocks: seq<MemoryBlock>, new i: nat, new j: nat)
    reads blocks, Bases(blocks), Footprint(blocks)
  {
    forall k {:trigger blocks[k]} | 0 <= k < |blocks| && k != i && k != j ::
      && blocks[k].readPos == old(blocks[k].readPos) && blocks[k].writePos == old(blocks[k].writePos)
      && blocks[k].base.storage == old(blocks[k].base.storage) && blocks[k].base.memory == old(blocks[k].base.memory)
      && blocks[k].base.size == old(blocks[k].base.size) && blocks[k].base.Bytes() == old(blocks[k].base.Bytes())
  }

  /** What has not changed holds what it held, and shares as it shared. */
  twostate lemma KeptHolds(blocks: seq<MemoryBlock>, new w: World, new i: nat, new j: nat, new k: nat)
    requires k < |blocks| == |w| && k != i && k != j && OthersKept(blocks, i, j)
    requires old(Holds(blocks[k], w[k]))
    ensures Holds(blocks[k], w[k])
  {
    hide Footprint;
  }

  twostate lemma KeptShares(blocks: seq<MemoryBlock>, new w: World, new i: nat, new j: nat, new k: nat, new l: nat)
    requires k < |blocks| == |w| && k != i && k != j && OthersKept(blocks, i, j)
    requires l < |blocks| && l != i && l != j
    requires old(ShareAsSaid(blocks[k], w[k], blocks[l], w[l]))
    ensures ShareAsSaid(blocks[k], w[k], blocks[l], w[l])
  {
    hide Footprint;
  }

  /** Block `i` is as cell `c` says. */
  twostate lemma OneChanged(blocks: seq<MemoryBlock>, new w: World, new i: nat, new c: Cell, new reg: Registry)
    requires i < |blocks| && old(allocated(reg)) && old(Represents(blocks, w, reg))
    requires reg.Valid() && reg.handles == old(reg.handles) && Holds(blocks[i], c)
    requires forall o | o in Parts(blocks[i]) :: o in old(Footprint(blocks)) || fresh(o)
    requires OthersKept(blocks, i, i)
    requires forall k | 0 <= k < |blocks| && k != i :: ShareAsSaid(blocks[i], c, blocks[k], w[k])
    ensures Represents(blocks, w[i := c], reg)
    ensures forall o | o in Footprint(blocks) :: o in old(Footprint(blocks)) || fresh(o)
  {
    hide Registry.Valid, Footprint, Holds;
    assert forall o | o in Parts(blocks[i]) + Parts(blocks[i]) :: o in Parts(blocks[i]);
    OnlyParts(blocks, i, i);
    hide OthersKept;
    var v := w[i := c];
    forall k | 0 <= k < |blocks|
      ensures Holds(blocks[k], v[k])
    {
      if k != i {
        KeptHolds(blocks, w, i, i, k);
      }
    }
    forall j, k | 0 <= j < |blocks| && 0 <= k < |blocks|
      ensures ShareAsSaid(blocks[j], v[j], blocks[k], v[k])
    {
      if j != i && k != i {
        KeptShares(blocks, w, i, i, j, k);
      }
    }
  }

  /** The block has been reserved, and its contents are now `f`. */
  twostate lemma ReservedThen(blocks: seq<MemoryBlock>, new w: World, new i: nat, new sz: nat, new f: Fifo,
                              new reg: Registry)
    requires i < |blocks| && old(allocated(reg)) && old(Represents(blocks, w, reg))
    requires reg.Valid() && reg.handles == old(reg.handles) && OthersKept(blocks, i, i)
    requires blocks[i].Settled(sz) && blocks[i].Ordered() && blocks[i].View() == f
    ensures Represents(blocks, w[i := Reserved(w, i, sz).(fifo := f)], reg)
    ensures forall o | o in Footprint(blocks) :: o in old(Footprint(blocks)) || fresh(o)
  {
    hide Registry.Valid, Footprint, Unused, Alone;
    WasSole(blocks, w, i, reg);
    WasInFootprint(blocks, i);
    var c := Reserved(w, i, sz).(fifo := f);
    forall k | 0 <= k < |blocks| && k != i
      ensures ShareAsSaid(blocks[i], c, blocks[k], w[k])
    {
      assert old(ShareAsSaid(blocks[i], w[i], blocks[k], w[k]));
    }
    OneChanged(blocks, w, i, c, reg);
  }

  lemma PutReserved(w: World, i: nat, sz: nat, data: seq<byte>)
    requires i < |w| && |w[i].fifo.written| <= sz
    ensures Put(Reserved(w, i, sz), data) == Reserved(w, i, sz).(fifo := w[i].fifo.Push(data))
  {
    hide Unused, Alone;
  }

  /** The block has been reserved with room for its contents, and `data` has been appended. */
  twostate lemma ReservedPut(blocks: seq<MemoryBlock>, new w: World, new i: nat, new sz: nat, new data: seq<byte>,
                             new reg: Registry)
    requires i < |blocks| && old(allocated(reg)) && old(Represents(blocks, w, reg)) && |blocks| == |w|
    requires reg.Valid() && reg.handles == old(reg.handles) && OthersKept(blocks, i, i)
    requires |w[i].fifo.written| <= sz
    requires blocks[i].Settled(sz) && blocks[i].Ordered() && blocks[i].View() == w[i].fifo.Push(data)
    ensures Represents(blocks, w[i := Put(Reserved(w, i, sz), data)], reg)
    ensures forall o | o in Footprint(blocks) :: o in old(Footprint(blocks)) || fresh(o)
  {
    hide Represents, OthersKept, Footprint, Reserved, Put, MemoryBlock.Settled, MemoryBlock.Ordered, MemoryBlock.View;
    PutReserved(w, i, sz, data);
    ReservedThen(blocks, w, i, sz, w[i].fifo.Push(data), reg);
  }

  /** The block is where it was, and its contents are now `f`. */
  twostate lemma InPlace(blocks: seq<MemoryBlock>, new w: World, new i: nat, new f: Fifo, new reg: Registry)
    requires i < |blocks| && old(allocated(reg)) && old(Represents(blocks, w, reg))
    requires reg.Valid() && reg.handles == old(reg.handles) && OthersKept(blocks, i, i)
    requires blocks[i].Unmoved() && blocks[i].Ordered() && blocks[i].View() == f
    ensures Represents(blocks, w[i := w[i].(fifo := f)], reg)
    ensures forall o | o in Footprint(blocks) :: o in old(Footprint(blocks)) || fresh(o)
  {
    hide Registry.Valid, Footprint;
    WasInFootprint(blocks, i);
    forall k | 0 <= k < |blocks| && k != i
      ensures ShareAsSaid(blocks[i], w[i].(fifo := f), blocks[k], w[k])
    {
      assert old(ShareAsSaid(blocks[i], w[i], blocks[k], w[k]));
    }
    OneChanged(blocks, w, i, w[i].(fifo := f), reg);
  }

  // ----- the operations

  method Buffer(data: seq<byte>) returns (buf: array<byte>)
    ensures fresh(buf) && buf.Length == |data| && buf[0..|data|] == data
  {
    buf := new byte[|data|];
    forall k | 0 <= k < |data| {
      buf[k] := data[k];
    }
  }

  /** `Write` on block `i`, before the cells are looked at. */
  method DoWrite(blocks: seq<MemoryBlock>, ghost w: World, i: nat, data: seq<byte>, ghost reg: Registry) returns
    (n: int)
    requires Represents(blocks, w, reg) && i < |w| && |w[i].fifo.written| + |data| <= MAX
    modifies Footprint(blocks), reg
    ensures reg.Valid() && reg.handles == old(reg.handles) && |blocks| == |w| && OthersKept(blocks, i, i)
    ensures blocks[i].Settled(|w[i].fifo.written| + |data|)
    ensures blocks[i].Ordered() && blocks[i].View() == w[i].fifo.Push(data) && n == |data|
  {
    hide Registry.Valid, Footprint, ShareAsSaid;
    assert Holds(blocks[i], w[i]);
    InFootprint(blocks, blocks[i]);
    var buf := Buffer(data);
    n := blocks[i].Write(buf, 0, |data|, reg);
  }

  method StepWrite(blocks: seq<MemoryBlock>, ghost w: World, i: nat, data: seq<byte>, ghost reg: Registry) returns
    (n: int)
    requires Represents(blocks, w, reg) && i < |w| && |w[i].fifo.written| + |data| <= MAX
    modifies Footprint(blocks), reg
    ensures Represents(blocks, w[i := Put(Reserved(w, i, |w[i].fifo.written| + |data|), data)], reg) && n == |data|
    ensures forall o | o in Footprint(blocks) :: o in old(Footprint(blocks)) || fresh(o)
  {
    hide Registry.Valid, Footprint, Represents, OthersKept, Reserved, Put, MemoryBlock.Settled, MemoryBlock.Ordered,
      MemoryBlock.View;
    n := DoWrite(blocks, w, i, data, reg);
    ReservedPut(blocks, w, i, |w[i].fifo.written| + |data|, data, reg);
  }

  method StepRead(blocks: seq<MemoryBlock>, ghost w: World, i: nat, n: nat, ghost reg: Registry) returns
    (out: seq<byte>)
    requires Represents(blocks, w, reg) && i < |w|
    modifies Footprint(blocks), reg
    ensures Represents(blocks, w[i := w[i].(fifo := w[i].fifo.Pop(n))], reg) && out == w[i].fifo.Front(n)
    ensures forall o | o in Footprint(blocks) :: o in old(Footprint(blocks)) || fresh(o)
  {
    hide Registry.Valid, Footprint, ShareAsSaid, Unused, Alone, Reserved, Put;
    assert Holds(blocks[i], w[i]);
    InFootprint(blocks, blocks[i]);
    var buf := new byte[n];
    var r := blocks[i].Read(buf, n);
    out := buf[..r];
    InPlace(blocks, w, i, w[i].fifo.Pop(n), reg);
  }

  method StepPeek(blocks: seq<MemoryBlock>, ghost w: World, i: nat, n: nat, ghost reg: Registry) returns
    (out: seq<byte>)
    requires Represents(blocks, w, reg) && i < |w|
    ensures Represents(blocks, w, reg) && out == w[i].fifo.Front(n) && Footprint(blocks) == old(Footprint(blocks))
  {
    hide Registry.Valid, Footprint, ShareAsSaid;
    assert Holds(blocks[i], w[i]);
    var buf := new byte[n];
    var r := blocks[i].Peek(buf, n);
    out := buf[..r];
  }

  method StepSeek(blocks: seq<MemoryBlock>, ghost w: World, i: nat, move: int, ghost reg: Registry) returns (n: int)
    requires Represents(blocks, w, reg) && i < |w| && w[i].Valid() && -MAX <= move <= MAX
    modifies Footprint(blocks), reg
    ensures Represents(blocks, w[i := w[i].(fifo := Sought(w[i].fifo, move))], reg) && n == Seeked(w[i].fifo, move)
    ensures forall o | o in Footprint(blocks) :: o in old(Footprint(blocks)) || fresh(o)
  {
    hide Registry.Valid, Footprint, ShareAsSaid, Unused, Alone, Reserved, Put;
    assert Holds(blocks[i], w[i]);
    InFootprint(blocks, blocks[i]);
    n := blocks[i].MoveRead(move);
    InPlace(blocks, w, i, Sought(w[i].fifo, move), reg);
  }

  method StepUnwrite(blocks: seq<MemoryBlock>, ghost w: World, i: nat, n: nat, ghost reg: Registry) returns (moved: int)
    requires Represents(blocks, w, reg) && i < |w| && w[i].Valid() && n <= MAX
    modifies Footprint(blocks), reg
    ensures Represents(blocks, w[i := w[i].(fifo := Shortened(w[i].fifo, n))], reg) && moved == -Unwritten(w[i].fifo, n)
    ensures forall o | o in Footprint(blocks) :: o in old(Footprint(blocks)) || fresh(o)
  {
    hide Registry.Valid, Footprint, ShareAsSaid, Unused, Alone, Reserved, Put;
    assert Holds(blocks[i], w[i]);
    InFootprint(blocks, blocks[i]);
    ghost var f := w[i].fifo;
    moved := blocks[i].MoveWrite(0 - n);
    InPlace(blocks, w, i, Shortened(f, n), reg);
  }

  method StepAlign(blocks: seq<MemoryBlock>, ghost w: World, i: nat, ghost reg: Registry)
    requires Represents(blocks, w, reg) && i < |w|
    modifies Footprint(blocks), reg
    ensures Represents(blocks, w[i := Reserved(w, i, w[i].size).(fifo := w[i].fifo.Compact())], reg)
    ensures forall o | o in Footprint(blocks) :: o in old(Footprint(blocks)) || fresh(o)
  {
    hide Registry.Valid, Footprint, ShareAsSaid, Unused, Alone, Reserved, Put;
    assert Holds(blocks[i], w[i]);
    InFootprint(blocks, blocks[i]);
    blocks[i].Align(reg);
    ReservedThen(blocks, w, i, w[i].size, w[i].fifo.Compact(), reg);
  }

  method StepClear(blocks: seq<MemoryBlock>, ghost w: World, i: nat, ghost reg: Registry)
    requires Represents(blocks, w, reg) && i < |w|
    modifies Footprint(blocks), reg
    ensures Represents(blocks, w[i := Reserved(w, i, w[i].size).(fifo := Fifo([], 0))], reg)
    ensures forall o | o in Footprint(blocks) :: o in old(Footprint(blocks)) || fresh(o)
  {
    hide Registry.Valid, Footprint, ShareAsSaid, Unused, Alone, Reserved, Put;
    assert Holds(blocks[i], w[i]);
    InFootprint(blocks, blocks[i]);
    blocks[i].Clear(reg);
    ReservedThen(blocks, w, i, w[i].size, Fifo([], 0), reg);
  }

  lemma ReservedIs(w: World, i: nat, sz: nat)
    requires i < |w| && w[i].Valid()
    ensures Reserved(w, i, sz).fifo == if Alone(w, i) && w[i].size >= sz then w[i].fifo else w[i].fifo.Cut(sz)
    ensures w[i].fifo.Cut(w[i].size) == w[i].fifo
    ensures Reserved(w, i, sz).(fifo := Reserved(w, i, sz).fifo) == Reserved(w, i, sz)
  {
    hide Unused, Alone;
  }

  method StepReserve(blocks: seq<MemoryBlock>, ghost w: World, i: nat, sz: nat, ghost reg: Registry)
    requires Represents(blocks, w, reg) && i < |w| && sz <= MAX
    modifies Footprint(blocks), reg
    ensures Represents(blocks, w[i := Reserved(w, i, sz)], reg)
    ensures forall o | o in Footprint(blocks) :: o in old(Footprint(blocks)) || fresh(o)
  {
    hide Registry.Valid, Footprint, ShareAsSaid, Unused, Alone, Reserved, Put;
    assert Holds(blocks[i], w[i]);
    InFootprint(blocks, blocks[i]);
    WasSole(blocks, w, i, reg);
    blocks[i].Reserve(sz, reg);
    ReservedIs(w, i, sz);
    ReservedThen(blocks, w, i, sz, Reserved(w, i, sz).fifo, reg);
  }

  ghost function PaddedCell(w: World, i: nat, align: nat, val: byte): World
    requires i < |w| && 0 < align && w[i].Valid()
  {
    var r := Missing(|w[i].fifo.Unread()|, align);
    if r == 0 then w else w[i := Put(Reserved(w, i, |w[i].fifo.written| + r), Repeat(val, r))]
  }

  /** `Pad` on block `i`, before the cells are looked at. */
  method DoPad(blocks: seq<MemoryBlock>, ghost w: World, i: nat, align: nat, val: byte,
    ghost reg: Registry) returns (r: nat)
    requires Represents(blocks, w, reg) && i < |w| && 0 < align && |w[i].fifo.written| + align <= MAX && w[i].Valid()
    modifies Footprint(blocks), reg
    ensures reg.Valid() && reg.handles == old(reg.handles) && |blocks| == |w| && OthersKept(blocks, i, i)
    ensures if r == 0 then blocks[i].Unmoved() else blocks[i].Settled(|w[i].fifo.written| + r)
    ensures blocks[i].Ordered() && blocks[i].View() == w[i].fifo.Push(Repeat(val, r)) &&
      r == Missing(|w[i].fifo.Unread()|, align)
  {
    hide Registry.Valid, Footprint, ShareAsSaid;
    assert Holds(blocks[i], w[i]);
    InFootprint(blocks, blocks[i]);
    r := blocks[i].Padding(align, val, reg);
  }

  method StepPad(blocks: seq<MemoryBlock>, ghost w: World, i: nat, align: nat, val: byte,
    ghost reg: Registry) returns (r: nat)
    requires Represents(blocks, w, reg) && i < |w| && 0 < align && |w[i].fifo.written| + align <= MAX && w[i].Valid()
    modifies Footprint(blocks), reg
    ensures Represents(blocks, PaddedCell(w, i, align, val), reg) && r == Missing(|w[i].fifo.Unread()|, align)
    ensures forall o | o in Footprint(blocks) :: o in old(Footprint(blocks)) || fresh(o)
  {
    hide Registry.Valid, Footprint, Represents, OthersKept, Reserved, Put, MemoryBlock.Settled, MemoryBlock.Ordered,
      MemoryBlock.View;
    r := DoPad(blocks, w, i, align, val, reg);
    if r == 0 {
      RepeatMore(w[i].fifo, val, 0);
      InPlace(blocks, w, i, w[i].fifo, reg);
      assert w[i := w[i].(fifo := w[i].fifo)] == w;
    } else {
      ReservedPut(blocks, w, i, |w[i].fifo.written| + r, Repeat(val, r), reg);
    }
  }

  /** `Append` on block `i`, before the cells are looked at. */
  method DoAppend(blocks: seq<MemoryBlock>, ghost w: World, i: nat, from: nat, ghost reg: Registry)
    requires Represents(blocks, w, reg) && i < |w| && from < |w| && i != from
    requires w[from].Valid() && |w[i].fifo.written| + |w[from].fifo.Unread()| <= MAX
    modifies Footprint(blocks), reg
    ensures reg.Valid() && reg.handles == old(reg.handles) && |blocks| == |w| && OthersKept(blocks, i, i)
    ensures blocks[i].Settled(|w[i].fifo.written| + |w[from].fifo.Unread()|)
    ensures blocks[i].Ordered() && blocks[i].View() == w[i].fifo.Push(w[from].fifo.Unread())
  {
    hide Registry.Valid, Footprint, ShareAsSaid;
    assert Holds(blocks[i], w[i]);
    InFootprint(blocks, blocks[i]);
    InFootprint(blocks, blocks[from]);
    assert Holds(blocks[from], w[from]);
    Apart(reg, blocks[i].base);
    blocks[i].Append(blocks[from], reg);
  }

  method StepAppend(blocks: seq<MemoryBlock>, ghost w: World, i: nat, from: nat, ghost reg: Registry)
    requires Represents(blocks, w, reg) && i < |w| && from < |w| && i != from
    requires w[from].Valid() && |w[i].fifo.written| + |w[from].fifo.Unread()| <= MAX
    modifies Footprint(blocks), reg
    ensures Represents(blocks, w[i := Put(Reserved(w, i, |w[i].fifo.written| + |w[from].fifo.Unread()|),
      w[from].fifo.Unread())], reg)
    ensures forall o | o in Footprint(blocks) :: o in old(Footprint(blocks)) || fresh(o)
  {
    hide Registry.Valid, Footprint, Represents, OthersKept, Reserved, Put, MemoryBlock.Settled, MemoryBlock.Ordered,
      MemoryBlock.View;
    DoAppend(blocks, w, i, from, reg);
    ReservedPut(blocks, w, i, |w[i].fifo.written| + |w[from].fifo.Unread()|, w[from].fifo.Unread(), reg);
  }

  method StepRestore(blocks: seq<MemoryBlock>, ghost w: World, i: nat, m: Marker, ghost reg: Registry) returns
    (ok: bool)
    requires Represents(blocks, w, reg) && i < |w| && m.read <= m.write <= |w[i].fifo.written|
    modifies Footprint(blocks), reg
    ensures Represents(blocks, if ok then
      w[i := w[i].(fifo := Fifo(w[i].fifo.written[..m.write], m.read))] else w, reg) && ok == (m.write < w[i].size)
    ensures forall o | o in Footprint(blocks) :: o in old(Footprint(blocks)) || fresh(o)
  {
    hide Registry.Valid, Footprint, ShareAsSaid, Unused, Alone, Reserved, Put;
    assert Holds(blocks[i], w[i]);
    InFootprint(blocks, blocks[i]);
    ok := blocks[i].MoveTo(m);
    InPlace(blocks, w, i, if ok then Fifo(w[i].fifo.written[..m.write], m.read) else w[i].fifo, reg);
    assert w[i := w[i].(fifo := w[i].fifo)] == w;
  }

  twostate lemma Assigned(blocks: seq<MemoryBlock>, new w: World, new i: nat, new from: nat, new ok: bool,
    new reg: Registry)
    requires i < |blocks| && from < |blocks| && old(allocated(reg)) && old(Represents(blocks, w, reg))
    requires OthersKept(blocks, i, i)
    requires blocks[i].base.storage == old(blocks[if ok then from else i].base.storage)
    ensures forall k | 0 <= k < |blocks| && k != i :: ShareAsSaid(blocks[i], w[if ok then from else i], blocks[k], w[k])
  {
    hide Registry.Valid, Footprint, Holds;
    var f := if ok then from else i;
    forall k | 0 <= k < |blocks| && k != i
      ensures ShareAsSaid(blocks[i], w[f], blocks[k], w[k])
    {
      assert old(ShareAsSaid(blocks[f], w[f], blocks[k], w[k]));
    }
  }

  method StepAssign(blocks: seq<MemoryBlock>, ghost w: World, i: nat, from: nat, ghost reg: Registry) returns (ok: bool)
    requires Represents(blocks, w, reg) && i < |w| && from < |w|
    modifies Footprint(blocks), reg
    ensures Represents(blocks, if ok then w[i := w[from]] else w, reg) && ok == w[from].place.Counted?
    ensures forall o | o in Footprint(blocks) :: o in old(Footprint(blocks)) || fresh(o)
  {
    hide Registry.Valid, Footprint, ShareAsSaid, Unused, Alone, Reserved, Put;
    assert Holds(blocks[i], w[i]);
    InFootprint(blocks, blocks[i]);
    InFootprint(blocks, blocks[from]);
    assert Holds(blocks[from], w[from]);
    ok := blocks[i].CopyAssign(blocks[from], reg);
    WasInFootprint(blocks, i);
    WasInFootprint(blocks, from);
    ghost var c := if ok then w[from] else w[i];
    Assigned(blocks, w, i, from, ok, reg);
    OneChanged(blocks, w, i, c, reg);
    assert w[i := w[i]] == w;
  }

  /** Blocks `i` and `j` hold what the other held. */
  twostate lemma Exchanged(blocks: seq<MemoryBlock>, new w: World, new i: nat, new j: nat, new reg: Registry)
    requires i < |blocks| && j < |blocks| && i != j && old(allocated(reg)) && old(Represents(blocks, w, reg))
    requires reg.Valid() && reg.handles == old(reg.handles)
    requires Holds(blocks[i], w[j]) && Holds(blocks[j], w[i])
    requires blocks[i].base.storage == old(blocks[j].base.storage) &&
      blocks[i].base.memory == old(blocks[j].base.memory)
    requires blocks[j].base.storage == old(blocks[i].base.storage) &&
      blocks[j].base.memory == old(blocks[i].base.memory)
    requires OthersKept(blocks, i, j)
    ensures Represents(blocks, w[i := w[j]][j := w[i]], reg)
    ensures forall o | o in Footprint(blocks) :: o in old(Footprint(blocks)) || fresh(o)
  {
    hide Registry.Valid, Footprint, Holds, OthersKept;
    var v := w[i := w[j]][j := w[i]];
    WasInFootprint(blocks, i);
    WasInFootprint(blocks, j);
    assert OthersKept(blocks, i, j);
    SwappedParts(blocks, i, j);
    forall k | 0 <= k < |blocks|
      ensures Holds(blocks[k], v[k])
    {
      if k != i && k != j {
        KeptHolds(blocks, w, i, j, k);
      }
    }
    forall k, l | 0 <= k < |blocks| && 0 <= l < |blocks|
      ensures ShareAsSaid(blocks[k], v[k], blocks[l], v[l])
    {
      SwappedShares(blocks, w, i, j, k, l);
    }
  }

  twostate lemma SwappedParts(blocks: seq<MemoryBlock>, new i: nat, new j: nat)
    requires i < |blocks| && j < |blocks| && OthersKept(blocks, i, j)
    requires blocks[i].base.storage == old(blocks[j].base.storage) &&
      blocks[i].base.memory == old(blocks[j].base.memory)
    requires blocks[j].base.storage == old(blocks[i].base.storage) &&
      blocks[j].base.memory == old(blocks[i].base.memory)
    ensures forall o | o in Footprint(blocks) :: o in old(Footprint(blocks)) || fresh(o)
  {
    hide Footprint;
    WasInFootprint(blocks, i);
    WasInFootprint(blocks, j);
    OnlyParts(blocks, i, j);
  }

  /** Where a block's contents were before the exchange. */
  function Partner(i: nat, j: nat, k: nat): nat {
    if k == i then j else if k == j then i else k
  }

  twostate lemma SwappedShares(blocks: seq<MemoryBlock>, new w: World, new i: nat, new j: nat, new k: nat, new l: nat)
    requires i < |blocks| == |w| && j < |blocks| && i != j && k < |blocks| && l < |blocks|
    requires blocks[i].base.storage == old(blocks[j].base.storage) &&
      blocks[j].base.storage == old(blocks[i].base.storage)
    requires OthersKept(blocks, i, j)
    requires old(ShareAsSaid(blocks[Partner(i, j, k)], w[Partner(i, j, k)], blocks[Partner(i, j, l)], w[Partner(i,
      j, l)]))
    ensures var v := w[i := w[j]][j := w[i]]; ShareAsSaid(blocks[k], v[k], blocks[l], v[l])
  {
    hide Footprint;
  }

  method StepSwap(blocks: seq<MemoryBlock>, ghost w: World, i: nat, j: nat, ghost reg: Registry)
    requires Represents(blocks, w, reg) && i < |w| && j < |w| && i != j
    modifies Footprint(blocks), reg
    ensures Represents(blocks, w[i := w[j]][j := w[i]], reg)
    ensures forall o | o in Footprint(blocks) :: o in old(Footprint(blocks)) || fresh(o)
  {
    hide Registry.Valid, Footprint, ShareAsSaid;
    assert Holds(blocks[i], w[i]) && Holds(blocks[j], w[j]);
    InFootprint(blocks, blocks[i]);
    InFootprint(blocks, blocks[j]);
    blocks[i].Swap(blocks[j], reg);
    Exchanged(blocks, w, i, j, reg);
  }

  lemma MarkIs(blocks: seq<MemoryBlock>, w: World, i: nat, reg: Registry)
    requires Represents(blocks, w, reg) && i < |w|
    ensures i < |blocks| && blocks[i].Mark() == Marker(w[i].fifo.read, |w[i].fifo.written|)
  {
    hide Registry.Valid, Footprint, ShareAsSaid;
    assert Holds(blocks[i], w[i]);
  }

  /** The operations that begin with `reserve`. */
  predicate Reserving(op: Op) {
    op.Write? || op.Align? || op.Clear? || op.Reserve? || op.Pad? || op.Append?
  }

  method StepReserving(blocks: seq<MemoryBlock>, ghost w: World, op: Op, ghost reg: Registry) returns (answer: Result)
    requires Represents(blocks, w, reg) && Enabled(w, op) && Reserving(op)
    modifies Footprint(blocks), reg
    ensures Represents(blocks, Next(w, op), reg) && answer == Answer(w, op)
    ensures forall o | o in Footprint(blocks) :: o in old(Footprint(blocks)) || fresh(o)
  {
    hide Registry.Valid, Footprint, Represents, Fifo.Valid, Reserved, Put;
    answer := Done;
    match op {
      case Write(i, data) => {
        var n := StepWrite(blocks, w, i, data, reg);
        answer := Number(n);
      }
      case Align(i) => {
        StepAlign(blocks, w, i, reg);
      }
      case Clear(i) => {
        StepClear(blocks, w, i, reg);
      }
      case Reserve(i, sz) => {
        StepReserve(blocks, w, i, sz, reg);
      }
      case Pad(i, align, val) => {
        var r := StepPad(blocks, w, i, align, val, reg);
        answer := Number(r);
      }
      case Append(i, from) => {
        StepAppend(blocks, w, i, from, reg);
      }
    }
  }

  method StepOther(blocks: seq<MemoryBlock>, ghost w: World, op: Op, ghost reg: Registry) returns (answer: Result)
    requires Represents(blocks, w, reg) && Enabled(w, op) && !Reserving(op)
    modifies Footprint(blocks), reg
    ensures Represents(blocks, Next(w, op), reg) && answer == Answer(w, op)
    ensures forall o | o in Footprint(blocks) :: o in old(Footprint(blocks)) || fresh(o)
  {
    hide Registry.Valid, Footprint, Represents, Fifo.Valid, Reserved, Put;
    answer := Done;
    match op {
      case Read(i, n) => {
        var out := StepRead(blocks, w, i, n, reg);
        answer := Bytes(out);
      }
      case Peek(i, n) => {
        var out := StepPeek(blocks, w, i, n, reg);
        answer := Bytes(out);
      }
      case Seek(i, move) => {
        var n := StepSeek(blocks, w, i, move, reg);
        answer := Number(n);
      }
      case Unwrite(i, n) => {
        var moved := StepUnwrite(blocks, w, i, n, reg);
        answer := Number(moved);
      }
      case Assign(i, from) => {
        var ok := StepAssign(blocks, w, i, from, reg);
        answer := Flag(ok);
      }
      case Swap(i, j) => {
        StepSwap(blocks, w, i, j, reg);
      }
      case Mark(i) => {
        MarkIs(blocks, w, i, reg);
        answer := Marked(blocks[i].Mark());
      }
      case Restore(i, m) => {
        var ok := StepRestore(blocks, w, i, m, reg);
        answer := Flag(ok);
      }
    }
  }

  /** One operation on the real blocks does to each what it does to the cells, and answers as they do. */
  method Step(blocks: seq<MemoryBlock>, ghost w: World, op: Op, ghost reg: Registry) returns (answer: Result)
    requires Represents(blocks, w, reg) && Enabled(w, op)
    modifies Footprint(blocks), reg
    ensures Represents(blocks, Next(w, op), reg) && answer == Answer(w, op)
    ensures forall o | o in Footprint(blocks) :: o in old(Footprint(blocks)) || fresh(o)
  {
    hide Registry.Valid, Footprint, Represents, Enabled, Next, Answer;
    if Reserving(op) {
      answer := StepReserving(blocks, w, op, reg);
    } else {
      answer := StepOther(blocks, w, op, reg);
    }
  }

  /**
   * Whatever storage the blocks share, a run over them answers, and leaves them, as the cells say; a block that no
   * operation of the run changes shows the same bytes and positions as before.
   */
  method Run(blocks: seq<MemoryBlock>, ghost w: World, ops: seq<Op>, ghost reg: Registry) returns (answers: seq<Result>)
    requires Represents(blocks, w, reg) && Runs(w, ops)
    modifies Footprint(blocks), reg
    ensures Represents(blocks, Final(w, ops), reg) && answers == Answers(w, ops)
    ensures forall k | 0 <= k < |blocks| && Spares(ops, k) :: Shows(blocks[k], w[k].fifo)
    ensures forall o | o in Footprint(blocks) :: o in old(Footprint(blocks)) || fresh(o)
    decreases |ops|
  {
    hide Registry.Valid, Footprint, Represents, Enabled, Next, Answer, Spares, Shows;
    Sizes(blocks, w, reg);
    if ops == [] {
      answers := [];
    } else {
      var answer := Step(blocks, w, ops[0], reg);
      ghost var between := Footprint(blocks);
      var rest := Run(blocks, Next(w, ops[0]), ops[1..], reg);
      answers := [answer] + rest;
      assert forall o | o in between :: o in old(Footprint(blocks)) || fresh(o);
      assert forall o | o in Footprint(blocks) :: o in between || fresh(o);
    }
    Unspoilt(blocks, w, ops, reg);
  }

  predicate Spares(ops: seq<Op>, k: nat) {
    forall op | op in ops :: !Touches(op, k)
  }

  ghost predicate Shows(b: MemoryBlock, f: Fifo)
    reads b, b.base, b.base.Array()
  {
    b.Ordered() && b.View() == f
  }

  lemma Sizes(blocks: seq<MemoryBlock>, w: World, reg: Registry)
    requires Represents(blocks, w, reg)
    ensures |blocks| == |w| && forall k | 0 <= k < |blocks| :: Shows(blocks[k], w[k].fifo)
  {
    hide Registry.Valid, Footprint;
  }

  lemma Unspoilt(blocks: seq<MemoryBlock>, w: World, ops: seq<Op>, reg: Registry)
    requires Runs(w, ops) && Represents(blocks, Final(w, ops), reg) && |blocks| == |w|
    ensures forall k | 0 <= k < |blocks| && Spares(ops, k) :: Shows(blocks[k], w[k].fifo)
  {
    hide Represents, Shows;
    Sizes(blocks, Final(w, ops), reg);
    forall k | 0 <= k < |blocks| && Spares(ops, k)
      ensures Shows(blocks[k], w[k].fifo)
    {
      OthersUntouched(w, ops, k);
    }
  }

  // ----- blocks come and go

  /** Block `b` is new, as cell `c` says; the others are as they were. */
  twostate lemma Joins(blocks: seq<MemoryBlock>, new w: World, new b: MemoryBlock, new c: Cell, new reg: Registry)
    requires old(allocated(reg)) && old(Represents(blocks, w, reg)) && b !in blocks && b.base !in old(reg.handles)
    requires reg.Valid() && reg.handles == old(reg.handles) + {b.base} && Holds(b, c)
    requires OthersKept(blocks, |blocks|, |blocks|)
    requires forall k | 0 <= k < |blocks| :: ShareAsSaid(b, c, blocks[k], w[k])
    ensures Represents(blocks + [b], w + [c], reg)
  {
    hide Registry.Valid, Footprint, Holds;
    var bs, v, n := blocks + [b], w + [c], |blocks|;
    assert Bases(bs) == Bases(blocks) + {b.base};
    forall k | 0 <= k < n
      ensures bs[k] in blocks && bs[k].base in Bases(blocks) && Holds(bs[k], v[k])
    {
      KeptHolds(blocks, w, n, n, k);
    }
    hide OthersKept;
    forall j, k | 0 <= j < |bs| && 0 <= k < |bs|
      ensures ShareAsSaid(bs[j], v[j], bs[k], v[k])
    {
      if j < n && k < n {
        KeptShares(blocks, w, n, n, j, k);
      } else if j < n {
        assert ShareAsSaid(b, c, blocks[j], w[j]);
      } else if k < n {
        assert ShareAsSaid(b, c, blocks[k], w[k]);
      }
    }
  }

  /** The parts of the blocks that were there, and those of the new one, are parts of before or of `more`, or new. */
  twostate lemma JoinsParts(blocks: seq<MemoryBlock>, new b: MemoryBlock, new more: set<object>)
    requires OthersKept(blocks, |blocks|, |blocks|)
    requires forall o | o in Parts(b) :: o in old(Footprint(blocks)) || o in more || fresh(o)
    ensures forall o | o in Footprint(blocks + [b]) :: o in old(Footprint(blocks)) || o in more || fresh(o)
  {
    hide Footprint;
    forall o | o in Footprint(blocks + [b])
      ensures o in old(Footprint(blocks)) || o in more || fresh(o)
    {
      var k := PartOf(blocks + [b], o);
      if k < |blocks| {
        assert Parts(blocks[k]) == old(Parts(blocks[k]));
        WasInFootprint(blocks, k);
      }
    }
  }

  /** `memory_block( n )`: a block that shares nothing. */
  method Create(blocks: seq<MemoryBlock>, ghost w: World, n: nat, ghost reg: Registry) returns (b: MemoryBlock)
    requires Represents(blocks, w, reg) && n <= MAX
    modifies reg
    ensures Represents(blocks + [b], w + [Cell(Fifo([], 0), n, Counted(Unused(w)))], reg)
    ensures forall o | o in Footprint(blocks + [b]) :: o in old(Footprint(blocks)) || fresh(o)
  {
    hide Registry.Valid, Footprint;
    b := new MemoryBlock.Sized(n, reg);
    JoinsParts(blocks, b, {});
    Joins(blocks, w, b, Cell(Fifo([], 0), n, Counted(Unused(w))), reg);
  }

  /** `memory_block( p , buf_size , data_size )` over memory that no block uses. */
  method Lend(blocks: seq<MemoryBlock>, ghost w: World, m: array<byte>, dataSize: nat, ghost reg: Registry)
    returns (b: MemoryBlock)
    requires Represents(blocks, w, reg) && dataSize <= m.Length <= MAX
    requires (forall h | h in reg.handles :: h.memory != m) && (forall s | s in reg.stores :: s.data != m)
    modifies reg
    ensures Represents(blocks + [b], w + [Cell(Fifo(m[..dataSize], 0), m.Length, Uncounted)], reg)
    ensures forall o | o in Footprint(blocks + [b]) :: o in old(Footprint(blocks)) || o == m || fresh(o)
  {
    hide Registry.Valid, Footprint;
    b := new MemoryBlock.Over(m, dataSize, reg);
    JoinsParts(blocks, b, {m});
    Joins(blocks, w, b, Cell(Fifo(m[..dataSize], 0), m.Length, Uncounted), reg);
  }

  /** The copy constructor: a block with the same contents on the same storage, when that is counted. */
  method Share(blocks: seq<MemoryBlock>, ghost w: World, i: nat, ghost reg: Registry) returns (b: MemoryBlock?)
    requires Represents(blocks, w, reg) && i < |w|
    modifies Footprint(blocks), reg
    ensures b != null <==> w[i].place.Counted?
    ensures if b != null then Represents(blocks + [b], w + [w[i]], reg) else Represents(blocks, w, reg)
    ensures b != null ==> forall o | o in Footprint(blocks + [b]) :: o in old(Footprint(blocks)) || fresh(o)
    ensures b == null ==> Footprint(blocks) == old(Footprint(blocks))
  {
    hide Registry.Valid, Footprint;
    assert Holds(blocks[i], w[i]);
    InFootprint(blocks, blocks[i]);
    b := MemoryBlock.Copy(blocks[i], reg);
    if b != null {
      forall k | 0 <= k < |blocks|
        ensures ShareAsSaid(b, w[i], blocks[k], w[k])
      {
        assert old(ShareAsSaid(blocks[i], w[i], blocks[k], w[k]));
      }
      WasInFootprint(blocks, i);
      JoinsParts(blocks, b, {});
      Joins(blocks, w, b, w[i], reg);
    }
  }

  function Without<T>(s: seq<T>, i: nat): (r: seq<T>)
    requires i < |s|
    ensures |r| == |s| - 1
    ensures forall k | 0 <= k < |r| :: r[k] == s[if k < i then k else k + 1]
  {
    s[..i] + s[i + 1..]
  }

  /** Block `i` is gone; the others are as they were. */
  twostate lemma Leaves(blocks: seq<MemoryBlock>, new w: World, new i: nat, new reg: Registry)
    requires old(allocated(reg)) && old(Represents(blocks, w, reg)) && i < |blocks|
    requires reg.Valid() && reg.handles == old(reg.handles) - {blocks[i].base} && OthersKept(blocks, i, i)
    ensures Represents(Without(blocks, i), Without(w, i), reg)
  {
    hide Registry.Valid, Footprint, Holds;
    var bs, v := Without(blocks, i), Without(w, i);
    forall k | 0 <= k < |bs|
      ensures bs[k] in blocks && bs[k] != blocks[i] && bs[k].base != blocks[i].base && Holds(bs[k], v[k])
    {
      KeptHolds(blocks, w, i, i, if k < i then k else k + 1);
    }
    BasesWithout(blocks, i);
    hide OthersKept;
    forall j, k | 0 <= j < |bs| && 0 <= k < |bs|
      ensures ShareAsSaid(bs[j], v[j], bs[k], v[k])
    {
      KeptShares(blocks, w, i, i, if j < i then j else j + 1, if k < i then k else k + 1);
    }
  }

  lemma BasesWithout(blocks: seq<MemoryBlock>, i: nat)
    requires i < |blocks|
    requires forall j, k | 0 <= j < k < |blocks| :: blocks[j].base != blocks[k].base
    ensures Bases(Without(blocks, i)) == Bases(blocks) - {blocks[i].base}
  {
    forall b | b in blocks && b.base != blocks[i].base
      ensures b in Without(blocks, i)
    {
      var k :| 0 <= k < |blocks| && blocks[k] == b;
      assert Without(blocks, i)[if k < i then k else k - 1] == b;
    }
  }

  twostate lemma LeavesParts(blocks: seq<MemoryBlock>, new i: nat)
    requires i < |blocks| && OthersKept(blocks, i, i)
    ensures Footprint(Without(blocks, i)) <= old(Footprint(blocks))
  {
    hide Footprint;
    forall o | o in Footprint(Without(blocks, i))
      ensures o in old(Footprint(blocks))
    {
      var k := PartOf(Without(blocks, i), o);
      var j := if k < i then k else k + 1;
      assert Parts(blocks[j]) == old(Parts(blocks[j]));
      WasInFootprint(blocks, j);
    }
  }

  /** The destructor: storage is freed exactly when no other block shares it. */
  method Destroy(blocks: seq<MemoryBlock>, ghost w: World, i: nat, ghost reg: Registry)
    requires Represents(blocks, w, reg) && i < |w|
    modifies Footprint(blocks), reg
    ensures Represents(Without(blocks, i), Without(w, i), reg)
    ensures Footprint(Without(blocks, i)) <= old(Footprint(blocks))
    ensures var s := old(blocks[i].base.storage); s != null ==> s.freed == Alone(w, i)
  {
    hide Registry.Valid, Footprint;
    assert Holds(blocks[i], w[i]);
    InFootprint(blocks, blocks[i]);
    WasSole(blocks, w, i, reg);
    blocks[i].base.Release(reg);
    LeavesParts(blocks, i);
    Leaves(blocks, w, i, reg);
  }

  /** No block yet. */
  method Begin() returns (reg: Registry)
    ensures fresh(reg) && Represents([], [], reg)
  {
    reg := new Registry();
  }

  /**
   * From nothing: a block, a copy of it on the same storage, and any run over the two. The answers are those of two
   * queues that know nothing of each other.
   */
  method CopiesAreIndependent(n: nat, ops: seq<Op>) returns (answers: seq<Result>)
    requires n <= MAX && Runs(TwoCopies(n), ops)
    ensures answers == Answers(TwoCopies(n), ops)
  {
    hide Represents, Footprint, Registry.Valid, Runs, Answers;
    var reg := Begin();
    NoParts();
    var a := Create([], [], n, reg);
    assert [] + [a] == [a];
    ghost var w: World := [Cell(Fifo([], 0), n, Counted(Unused([])))];
    assert [] + w == w;
    var b := Share([a], w, 0, reg);
    assert [a] + [b] == [a, b] && w + [w[0]] == TwoCopies(n);
    answers := Run([a, b], TwoCopies(n), ops, reg);
  }

  /** Two empty blocks of one size on one storage. */
  function TwoCopies(n: nat): World {
    var c := Cell(Fifo([], 0), n, Counted(Unused([])));
    [c, c]
  }

  lemma NoParts()
    ensures Footprint([]) == {}
  {
  }
}
