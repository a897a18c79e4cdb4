/** Reference-counted byte storage, copied on write: buffer/buffer_base.cpp. */
module BufferBase {
  import opened Words

  /** An allocation: the counter in its header, and the bytes behind it. */
  class Storage {
    var count: int
    var freed: bool
    const data: array<byte>

    /** The live handles on this allocation. */
    ghost var handles: set<BufferBase>

    constructor (size: nat)
      ensures count == 0 && !freed && handles == {} && fresh(data) && data.Length == size
    {
      count, freed, handles := 0, false, {};
      data := new byte[size];
    }
  }

  /** The handles that have not been destroyed, and the allocations that have not been freed. */
  class Registry {
    ghost var handles: set<BufferBase>
    ghost var stores: set<Storage>

    constructor ()
      ensures Valid() && handles == {} && stores == {}
    {
      handles, stores := {}, {};
    }

    ghost predicate Valid()
      reads this, handles, stores
    {
      Attached() && Counted() && Listed() && Unaliased()
    }

    /** A live handle is on the list of its allocation, which is not freed. */
    ghost predicate Attached()
      reads this, handles, stores
    {
      forall b | b in handles :: b.Shaped() && (b.storage != null ==> b.storage in stores && b in b.storage.handles)
    }

    /** The counter of an allocation is the number of its handles, and there is at least one. */
    ghost predicate Counted()
      reads this, stores
    {
      forall s | s in stores :: !s.freed && s.count == |s.handles| && s.handles != {}
    }

    /** A handle on the list of an allocation is live, and points at it. */
    ghost predicate Listed()
      reads this, handles, stores
    {
      forall s, h | s in stores && h in s.handles :: h in handles && h.storage == s
    }

    /** Allocations and memory of the callers' do not overlap. */
    ghost predicate Unaliased()
      reads this, handles
    {
      && (forall s, t | s in stores && t in stores && s.data == t.data :: s == t)
      && (forall s, b | s in stores && b in handles :: b.memory != s.data)
      && (forall b, c | b in handles && c in handles && b.memory != null && b.memory == c.memory :: b == c)
    }
  }

  /** A handle on shared storage, or on memory of the caller's, or, once moved from, on nothing. */
  class BufferBase {
    var storage: Storage?
    var memory: array?<byte>
    var size: nat

    ghost predicate Shaped()
      reads this
    {
      && (storage != null ==> memory == null && size == storage.data.Length)
      && (storage == null ==> size == if memory == null then 0 else memory.Length)
    }

    /** `data_ptr` */
    function Array(): array?<byte>
      reads this
    {
      if storage != null then storage.data else memory
    }

    /** The bytes seen through the handle. */
    ghost function Bytes(): seq<byte>
      reads this, Array()
    {
      if Array() == null then [] else Array()[..]
    }

    /** No other handle shares the storage. */
    ghost predicate Sole()
      reads this, storage
    {
      storage == null || storage.handles == {this}
    }

    /** `buffer_base( size )` */
    constructor Owned(n: nat, ghost reg: Registry)
      requires reg.Valid()
      modifies reg
      ensures reg.Valid() && reg.handles == old(reg.handles) + {this} && reg.stores == old(reg.stores) + {storage}
      ensures size == n && storage != null && storage.data.Length == n && memory == null
      ensures fresh(storage) && fresh(storage.data) && storage.handles == {this}
    {
      hide *;
      var s := new Storage(n);
      storage, memory, size := s, null, n;
      new;
      AddRef(reg);
      Joined(reg, this, storage);
    }

    /** `buffer_base( base , size )`: the caller lends memory that nothing else uses. */
    constructor External(m: array<byte>, ghost reg: Registry)
      requires reg.Valid()
      requires forall b | b in reg.handles :: b.memory != m
      requires forall s | s in reg.stores :: s.data != m
      modifies reg
      ensures reg.Valid() && reg.handles == old(reg.handles) + {this} && reg.stores == old(reg.stores)
      ensures storage == null && memory == m && size == m.Length
    {
      storage, memory, size := null, m, m.Length;
      new;
      reg.handles := reg.handles + {this};
    }

    /** The copy constructor, past its check. */
    constructor Sharing(rhs: BufferBase, ghost reg: Registry)
      requires reg.Valid() && rhs in reg.handles && rhs.storage != null
      modifies rhs.storage, reg
      ensures reg.Valid() && reg.handles == old(reg.handles) + {this} && reg.stores == old(reg.stores)
      ensures storage == rhs.storage && memory == null && size == rhs.size
      ensures storage.handles == old(rhs.storage.handles) + {this}
    {
      hide *;
      storage, memory, size := rhs.storage, null, rhs.size;
      new;
      assert size == storage.data.Length && !storage.freed && storage in reg.stores && this !in storage.handles &&
        storage.count == |storage.handles| by { Looked(reg, rhs); }
      AddRef(reg);
      Joined(reg, this, storage);
      assert reg.stores == old(reg.stores);
    }

    /** The copy constructor: null stands for the exception thrown for a handle without counted storage. */
    static method Copy(rhs: BufferBase, ghost reg: Registry) returns (copy: BufferBase?)
      requires reg.Valid() && rhs in reg.handles
      modifies rhs.storage, reg
      ensures reg.Valid() && reg.stores == old(reg.stores)
      ensures copy == null <==> rhs.storage == null
      ensures copy == null ==> reg.handles == old(reg.handles)
      ensures copy != null ==> fresh(copy) && reg.handles == old(reg.handles) + {copy}
      ensures copy != null ==> copy.storage == rhs.storage && copy.memory == null && copy.size == rhs.size
      ensures copy != null ==> rhs.storage.handles == old(rhs.storage.handles) + {copy}
    {
      hide *;
      if rhs.storage == null {
        return null;
      }
      copy := new BufferBase.Sharing(rhs, reg);
    }

    /** `add_ref` */
    method AddRef(ghost reg: Registry)
      requires storage != null && storage.count == |storage.handles| && this !in storage.handles
      modifies storage, reg
      ensures storage.freed == old(storage.freed)
      ensures storage.handles == old(storage.handles) + {this} && storage.count == |storage.handles|
      ensures reg.handles == old(reg.handles) + {this} && reg.stores == old(reg.stores) + {storage}
    {
      storage.count := storage.count + 1;
      storage.handles := storage.handles + {this};
      reg.handles := reg.handles + {this};
      reg.stores := reg.stores + {storage};
    }

    method RefCount() returns (n: int)
      ensures n == if storage != null then storage.count else 1
    {
      n := if storage != null then storage.count else 1;
    }

    /** `dec_ref` as the destructor calls it: the handle is gone, and the last one frees the storage. */
    method Release(ghost reg: Registry)
      requires reg.Valid() && this in reg.handles
      modifies this, storage, reg
      ensures reg.Valid() && reg.handles == old(reg.handles) - {this}
      ensures old(storage) == null ==> reg.stores == old(reg.stores)
      ensures old(storage) != null ==> old(storage).handles == old(storage.handles) - {this}
      ensures old(storage) != null ==> old(storage).freed == (old(storage.handles) == {this})
      ensures old(storage) != null ==>
        reg.stores == old(reg.stores) - (if old(storage).freed then {old(storage)} else {})
    {
      hide *;
      Looked(reg, this);
      DecRef(reg);
      Left(reg, this, old(storage));
    }

    /** `dec_ref` */
    method DecRef(ghost reg: Registry)
      requires storage != null ==> storage.count == |storage.handles| && this in storage.handles && !storage.freed
      modifies this, storage, reg
      ensures reg.handles == old(reg.handles) - {this}
      ensures old(storage) == null ==> reg.stores == old(reg.stores)
      ensures old(storage) != null ==>
        old(storage).handles == old(storage.handles) - {this} && old(storage).count == |old(storage).handles|
      ensures old(storage) != null ==> old(storage).freed == (old(storage).handles == {})
      ensures old(storage) != null && old(storage).freed ==> reg.stores == old(reg.stores) - {old(storage)}
      ensures old(storage) != null && !old(storage).freed ==> reg.stores == old(reg.stores)
    {
      reg.handles := reg.handles - {this};
      if storage != null {
        storage.count := storage.count - 1;
        storage.handles := storage.handles - {this};
        if storage.count == 0 {
          storage.freed := true;
          reg.stores := reg.stores - {storage};
          storage := null;
        }
      }
    }

    /** `swap` */
    method Swap(rhs: BufferBase, ghost reg: Registry)
      requires reg.Valid() && this in reg.handles && rhs in reg.handles && this != rhs
      modifies this, rhs, storage, rhs.storage
      ensures reg.Valid()
      ensures storage == old(rhs.storage) && memory == old(rhs.memory) && size == old(rhs.size)
      ensures rhs.storage == old(storage) && rhs.memory == old(memory) && rhs.size == old(size)
      ensures forall s | s in reg.stores ::
        s.handles == SwappedHandles(old(s.handles), this, rhs) && s.count == old(s.count)
    {
      hide *;
      storage, rhs.storage := rhs.storage, storage;
      memory, rhs.memory := rhs.memory, memory;
      size, rhs.size := rhs.size, size;
      if storage != null {
        storage.handles := SwappedHandles(storage.handles, this, rhs);
      }
      if rhs.storage != null && rhs.storage != storage {
        rhs.storage.handles := SwappedHandles(rhs.storage.handles, this, rhs);
      }
      Swapped(reg, this, rhs);
    }

    /** The move constructor. */
    constructor Move(rhs: BufferBase, ghost reg: Registry)
      requires reg.Valid() && rhs in reg.handles
      modifies rhs, rhs.storage, reg`handles
      ensures reg.Valid() && reg.handles == old(reg.handles) + {this}
      ensures storage == old(rhs.storage) && memory == old(rhs.memory) && size == old(rhs.size)
      ensures storage != null ==>
        storage.handles == old(rhs.storage.handles) - {rhs} + {this} && storage.freed == old(rhs.storage.freed)
      ensures rhs.storage == null && rhs.memory == null && rhs.size == 0
    {
      hide *;
      storage, memory, size := null, null, 0;
      new;
      Take(rhs, reg);
    }

    /** Takes the place of `rhs`, which is left on nothing. */
    method Take(rhs: BufferBase, ghost reg: Registry)
      requires reg.Valid() && rhs in reg.handles && this !in reg.handles
      modifies this, rhs, rhs.storage, reg`handles
      ensures reg.Valid() && reg.handles == old(reg.handles) + {this}
      ensures storage == old(rhs.storage) && memory == old(rhs.memory) && size == old(rhs.size)
      ensures storage != null ==>
        storage.handles == old(rhs.storage.handles) - {rhs} + {this} && storage.freed == old(rhs.storage.freed)
      ensures rhs.storage == null && rhs.memory == null && rhs.size == 0
    {
      hide *;
      storage, memory, size := rhs.storage, rhs.memory, rhs.size;
      rhs.storage, rhs.memory, rhs.size := null, null, 0;
      reg.handles := reg.handles + {this};
      if storage != null {
        storage.handles := storage.handles - {rhs} + {this};
      }
      Moved(reg, this, rhs);
    }

    /** Copy assignment; false stands for the exception, which leaves everything as it was. */
    method CopyAssign(rhs: BufferBase, ghost reg: Registry) returns (ok: bool)
      requires reg.Valid() && this in reg.handles && rhs in reg.handles
      modifies this, storage, rhs.storage, reg
      ensures reg.Valid() && reg.handles == old(reg.handles)
      ensures ok == old(rhs.storage != null)
      ensures ok ==> storage == old(rhs.storage) && memory == null && size == old(rhs.size)
      ensures !ok ==> storage == old(storage) && memory == old(memory) && size == old(size)
      ensures ok && old(storage) != null && old(storage) != storage ==>
        old(storage).freed == (old(storage.handles) == {this})
    {
      hide *;
      Looked(reg, this);
      Looked(reg, rhs);
      ghost var left := if storage == null then {} else storage.handles;
      var copy := Copy(rhs, reg);
      if copy == null {
        return false;
      }
      Swap(copy, reg);
      SwappedCount(left, this, copy);
      copy.Release(reg);
      ok := true;
    }

    /** Move assignment. */
    method MoveAssign(rhs: BufferBase, ghost reg: Registry)
      requires reg.Valid() && this in reg.handles && rhs in reg.handles && this != rhs
      modifies this, storage, rhs, rhs.storage, reg
      ensures reg.Valid() && reg.handles == old(reg.handles)
      ensures storage == old(rhs.storage) && memory == old(rhs.memory) && size == old(rhs.size)
      ensures rhs.storage == null && rhs.memory == null && rhs.size == 0
      ensures old(storage) != null ==> old(storage).freed == (old(storage.handles) == {this})
    {
      hide *;
      Looked(reg, this);
      Looked(reg, rhs);
      Release(reg);
      Take(rhs, reg);
    }

    /**
     * `reserve`: nothing to do for the only handle on enough bytes; any other handle moves to storage of its own
     * with a copy of the bytes that fit, and the storage it leaves is freed when it was the last.
     */
    method Reserve(sz: nat, ghost reg: Registry)
      requires reg.Valid() && this in reg.handles
      modifies this, storage, reg
      ensures reg.Valid() && reg.handles == old(reg.handles) && Sole() && Shaped()
      ensures old(Stays(sz)) ==>
        storage == old(storage) && memory == old(memory) && size == old(size) && reg.stores == old(reg.stores)
      ensures !old(Stays(sz)) ==> storage != null && size == sz && fresh(storage) && fresh(storage.data)
      ensures |Bytes()| == size && AgreeOn(Bytes(), old(Bytes()), Min(old(size), size))
      ensures old(storage) != null && storage != old(storage) ==> old(storage).freed == (old(storage.handles) == {this})
    {
      hide Registry.Valid, SwappedHandles;
      Looked(reg, this);
      ghost var left := if storage == null then {} else storage.handles;
      OneHandle(left, this);
      var n := RefCount();
      if n == 1 && size >= sz {
        return;
      }
      var copy := Duplicate(sz, reg);
      Swap(copy, reg);
      size := sz;
      SwappedCount(left, this, copy);
      SwappedCount({copy}, this, copy);
      copy.Release(reg);
    }

    /** The new buffer of `reserve`, with as many of the bytes as fit. */
    method Duplicate(sz: nat, ghost reg: Registry) returns (copy: BufferBase)
      requires reg.Valid() && this in reg.handles
      modifies reg
      ensures reg.Valid() && reg.handles == old(reg.handles) + {copy} && reg.stores == old(reg.stores) + {copy.storage}
      ensures fresh(copy) && copy.storage != null && copy.storage.handles == {copy} && copy.Shaped()
      ensures copy.size == sz && fresh(copy.storage) && fresh(copy.storage.data)
      ensures |Bytes()| == size && AgreeOn(copy.Bytes(), Bytes(), Min(size, sz))
    {
      hide Registry.Valid;
      Looked(reg, this);
      copy := new BufferBase.Owned(sz, reg);
      if Array() != null {
        MemMove(copy.storage.data, 0, Array(), 0, Min(size, sz));
      }
    }

    /** The test at the head of `reserve`. */
    ghost predicate Stays(sz: nat)
      reads this, storage
    {
      Sole() && size >= sz
    }
  }

  /** Both sequences have at least `n` bytes, and the first `n` are the same. */
  ghost predicate AgreeOn(s: seq<byte>, t: seq<byte>, n: int) {
    0 <= n <= |s| && n <= |t| && s[..n] == t[..n]
  }

  function Min(a: int, b: int): int {
    if a < b then a else b
  }

  /** The list of an allocation, once the two handles have changed places. */
  ghost function SwappedHandles(s: set<BufferBase>, a: BufferBase, b: BufferBase): set<BufferBase> {
    if a in s && b !in s then s - {a} + {b} else if b in s && a !in s then s - {b} + {a} else s
  }

  lemma Looked(reg: Registry, b: BufferBase)
    requires reg.Valid() && b in reg.handles
    ensures b.Shaped() && (b.storage != null ==> b.memory == null && b.size == b.storage.data.Length)
    ensures b.storage != null ==> b.storage in reg.stores && b in b.storage.handles
    ensures b.storage != null ==>
      !b.storage.freed && b.storage.count == |b.storage.handles| && b.storage.handles <= reg.handles
  {
  }

  /** The counter of an allocation is the number of live handles that share it. */
  lemma CountsSharers(reg: Registry, s: Storage)
    requires reg.Valid() && s in reg.stores
    ensures s.count == |set h | h in reg.handles && h.storage == s|
  {
    assert s.handles == set h | h in reg.handles && h.storage == s;
  }

  /** The bytes of the only handle on its storage are no other handle's. */
  lemma Apart(reg: Registry, b: BufferBase)
    requires reg.Valid() && b in reg.handles
    ensures b.Sole() && b.Array() != null ==> forall o | o in reg.handles && o != b :: o.Array() != b.Array()
  {
  }

  /** `b` is a new handle on `at`, an allocation of the registry or a new one. */
  twostate lemma Joined(reg: Registry, new b: BufferBase, new at: Storage)
    requires old(reg.Valid()) && b !in old(reg.handles) && b.storage == at && b.memory == null &&
      b.size == at.data.Length
    requires reg.handles == old(reg.handles) + {b} && reg.stores == old(reg.stores) + {at}
    requires forall h | h in old(reg.handles) ::
      h.storage == old(h.storage) && h.memory == old(h.memory) && h.size == old(h.size)
    requires forall s | s in old(reg.stores) && s != at ::
      s.count == old(s.count) && s.freed == old(s.freed) && s.handles == old(s.handles)
    requires at.handles == (if at in old(reg.stores) then old(at.handles) else {}) + {b}
    requires at !in old(reg.stores) ==> fresh(at.data)
    requires !at.freed && at.count == |at.handles|
    ensures reg.Valid()
  {
    assert reg.Unaliased();
    assert reg.Counted();
    assert reg.Listed() by {
      forall s, h | s in reg.stores && h in s.handles
        ensures h in reg.handles && h.storage == s
      {
        assert h == b || h in old(s.handles);
      }
    }
    assert reg.Attached();
  }

  /** `b` was on `at`, and is gone. */
  twostate lemma Left(reg: Registry, new b: BufferBase, new at: Storage?)
    requires old(reg.Valid()) && b in old(reg.handles) && at == old(b.storage)
    requires reg.handles == old(reg.handles) - {b}
    requires forall h | h in reg.handles ::
      h.storage == old(h.storage) && h.memory == old(h.memory) && h.size == old(h.size)
    requires forall s | s in old(reg.stores) && s != at ::
      s.count == old(s.count) && s.freed == old(s.freed) && s.handles == old(s.handles)
    requires at == null ==> reg.stores == old(reg.stores)
    requires at != null ==> at.handles == old(at.handles) - {b} && at.count == |at.handles|
    requires at != null ==> at.freed == (at.handles == {})
    requires at != null && at.freed ==> reg.stores == old(reg.stores) - {at}
    requires at != null && !at.freed ==> reg.stores == old(reg.stores)
    ensures reg.Valid()
  {
  }

  lemma {:induction false} OneHandle(s: set<BufferBase>, a: BufferBase)
    requires s != {} ==> a in s
    ensures |s| == 1 <==> s == {a}
  {
    if |s| == 1 {
      assert |s - {a}| == 0;
    }
  }

  lemma {:induction false} SwappedCount(s: set<BufferBase>, a: BufferBase, b: BufferBase)
    ensures |SwappedHandles(s, a, b)| == |s|
    ensures a in s && b !in s ==> (SwappedHandles(s, a, b) == {b} <==> s == {a})
    ensures b in s && a !in s ==> (SwappedHandles(s, a, b) == {a} <==> s == {b})
  {
    if a in s && b !in s {
      assert |s - {a}| == |s| - 1;
    } else if b in s && a !in s {
      assert |s - {b}| == |s| - 1;
    }
  }

  /** `a` and `b` have changed places, on the lists too. */
  twostate predicate Exchanged(reg: Registry, new a: BufferBase, new b: BufferBase)
    reads reg, reg.handles, reg.stores, a, b
  {
    && a in old(reg.handles) && b in old(reg.handles) && a != b
    && reg.handles == old(reg.handles) && reg.stores == old(reg.stores)
    && (forall h | h in reg.handles && h != a && h != b ::
      h.storage == old(h.storage) && h.memory == old(h.memory) && h.size == old(h.size))
    && a.storage == old(b.storage) && a.memory == old(b.memory) && a.size == old(b.size)
    && b.storage == old(a.storage) && b.memory == old(a.memory) && b.size == old(a.size)
    && (forall s | s in reg.stores :: s.count == old(s.count) && s.freed == old(s.freed))
    && (forall s | s in reg.stores :: s.handles == SwappedHandles(old(s.handles), a, b))
  }

  twostate lemma SwappedCounted(reg: Registry, new a: BufferBase, new b: BufferBase)
    requires old(reg.Counted()) && Exchanged(reg, a, b)
    ensures reg.Counted()
  {
    forall s | s in reg.stores
      ensures s.count == |s.handles| && !s.freed && s.handles != {}
    {
      SwappedCount(old(s.handles), a, b);
    }
  }

  twostate lemma SwappedListed(reg: Registry, new a: BufferBase, new b: BufferBase)
    requires old(reg.Listed()) && old(reg.Attached()) && Exchanged(reg, a, b)
    ensures reg.Listed()
  {
    forall s, h | s in reg.stores && h in s.handles
      ensures h in reg.handles && h.storage == s
    {
      assert h == a || h == b || h in old(s.handles);
    }
  }

  twostate lemma SwappedAttached(reg: Registry, new a: BufferBase, new b: BufferBase)
    requires old(reg.Listed()) && old(reg.Attached()) && Exchanged(reg, a, b)
    ensures reg.Attached()
  {
  }

  twostate lemma SwappedUnaliased(reg: Registry, new a: BufferBase, new b: BufferBase)
    requires old(reg.Unaliased()) && Exchanged(reg, a, b)
    ensures reg.Unaliased()
  {
  }

  twostate lemma SwappedLists(reg: Registry, new a: BufferBase, new b: BufferBase, new s: Storage)
    requires old(reg.Listed()) && old(reg.Attached()) && a in old(reg.handles) && b in old(reg.handles) &&
      s in old(reg.stores)
    ensures old(a.storage) != s && old(b.storage) != s ==> SwappedHandles(old(s.handles), a, b) == old(s.handles)
  {
  }

  twostate lemma Swapped(reg: Registry, new a: BufferBase, new b: BufferBase)
    requires old(reg.Valid()) && a in old(reg.handles) && b in old(reg.handles) && a != b
    requires reg.handles == old(reg.handles) && reg.stores == old(reg.stores)
    requires forall h | h in reg.handles && h != a && h != b ::
      h.storage == old(h.storage) && h.memory == old(h.memory) && h.size == old(h.size)
    requires a.storage == old(b.storage) && a.memory == old(b.memory) && a.size == old(b.size)
    requires b.storage == old(a.storage) && b.memory == old(a.memory) && b.size == old(a.size)
    requires forall s | s in reg.stores :: s.count == old(s.count) && s.freed == old(s.freed)
    requires a.storage != null ==> a.storage.handles == SwappedHandles(old(b.storage.handles), a, b)
    requires b.storage != null ==> b.storage.handles == SwappedHandles(old(a.storage.handles), a, b)
    requires forall s | s in reg.stores && s != a.storage && s != b.storage :: s.handles == old(s.handles)
    ensures reg.Valid()
    ensures forall s | s in reg.stores :: s.handles == SwappedHandles(old(s.handles), a, b)
  {
    hide Registry.Attached, Registry.Listed, Registry.Counted, Registry.Unaliased, SwappedHandles;
    forall s | s in reg.stores
      ensures s.handles == SwappedHandles(old(s.handles), a, b)
    {
      SwappedLists(reg, a, b, s);
    }
    assert Exchanged(reg, a, b);
    SwappedCounted(reg, a, b);
    SwappedListed(reg, a, b);
    SwappedAttached(reg, a, b);
    SwappedUnaliased(reg, a, b);
  }

  /** The new handle `a` has taken the place of `b`, which is left on nothing. */
  twostate lemma Moved(reg: Registry, new a: BufferBase, new b: BufferBase)
    requires old(reg.Valid()) && a !in old(reg.handles) && b in old(reg.handles)
    requires reg.handles == old(reg.handles) + {a} && reg.stores == old(reg.stores)
    requires forall h | h in old(reg.handles) && h != b ::
      h.storage == old(h.storage) && h.memory == old(h.memory) && h.size == old(h.size)
    requires a.storage == old(b.storage) && a.memory == old(b.memory) && a.size == old(b.size)
    requires b.storage == null && b.memory == null && b.size == 0
    requires forall s | s in reg.stores :: s.count == old(s.count) && s.freed == old(s.freed)
    requires a.storage != null ==> a.storage.handles == old(b.storage.handles) - {b} + {a}
    requires forall s | s in reg.stores && s != a.storage :: s.handles == old(s.handles)
    ensures reg.Valid()
  {
    assert reg.Unaliased();
    assert reg.Counted() by {
      forall s | s in reg.stores
        ensures |s.handles| == old(|s.handles|) && s.handles != {}
      {
        if s == a.storage {
          assert |old(s.handles) - {b}| == |old(s.handles)| - 1;
        }
      }
    }
    assert reg.Listed() by {
      forall s, h | s in reg.stores && h in s.handles
        ensures h in reg.handles && h.storage == s
      {
        assert h == a || h in old(s.handles);
      }
    }
    assert reg.Attached();
  }

  /** `memcpy`, and `memmove` when the two ranges are of one array. */
  method MemMove(dst: array<byte>, at: nat, src: array<byte>, from: nat, n: nat)
    requires at + n <= dst.Length && from + n <= src.Length
    modifies dst
    ensures dst[..] == old(dst[..at]) + old(src[from..from + n]) + old(dst[at + n..])
  {
    forall k | 0 <= k < n {
      dst[at + k] := src[from + k];
    }
  }
}
