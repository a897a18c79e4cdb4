/**
 * What any number of memory blocks are, seen from outside: a queue of bytes each, with a capacity, and which of them
 * share storage. Operations on them, and what holds over any run.
 */
module BlockWorld {
  import opened BufferBase
  import opened MemoryBlock
  import opened Words

  /** Blocks with the same number share storage; a block on the caller's memory, or on nothing, shares none. */
  datatype Place = Counted(id: nat) | Uncounted

  datatype Cell = Cell(fifo: Fifo, size: nat, place: Place) {
    ghost predicate Valid() {
      fifo.Valid() && |fifo.written| <= size <= MAX
    }
  }

  type World = seq<Cell>

  datatype Op =
    | Write(i: nat, data: seq<byte>)
    | Read(i: nat, n: nat)
    | Peek(i: nat, n: nat)
    | Seek(i: nat, move: int)           // rd_ptr( move )
    | Unwrite(i: nat, n: nat)           // wr_ptr( -n )
    | Align(i: nat)
    | Clear(i: nat)
    | Reserve(i: nat, sz: nat)
    | Pad(i: nat, align: nat, val: byte)
    | Append(i: nat, from: nat)
    | Assign(i: nat, from: nat)
    | Swap(i: nat, j: nat)
    | Mark(i: nat)
    | Restore(i: nat, mark: Marker)

  /** What the caller gets. */
  datatype Result = Done | Bytes(bytes: seq<byte>) | Number(n: int) | Marked(mark: Marker) | Flag(ok: bool)

  predicate Alone(w: World, i: nat)
    requires i < |w|
  {
    w[i].place.Uncounted? || forall k | 0 <= k < |w| && k != i :: w[k].place != w[i].place
  }

  /** A number that no storage has. */
  function Unused(w: World): (id: nat)
    ensures forall k | 0 <= k < |w| :: w[k].place.Counted? ==> w[k].place.id < id
  {
    if w == [] then 0 else
      var rest, last := Unused(w[..|w| - 1]), w[|w| - 1].place;
      if last.Counted? && last.id >= rest then last.id + 1 else rest
  }

  /** Block `i` after `reserve( sz )`. */
  function Reserved(w: World, i: nat, sz: nat): Cell
    requires i < |w|
  {
    if Alone(w, i) && w[i].size >= sz then w[i]
    else Cell(w[i].fifo.Cut(sz), sz, Counted(Unused(w)))
  }

  function Put(c: Cell, data: seq<byte>): Cell {
    c.(fifo := c.fifo.Push(data))
  }

  ghost predicate Enabled(w: World, op: Op) {
    && op.i < |w|
    && (forall k | 0 <= k < |w| :: w[k].Valid())
    && match op {
      case Write(i, data) => |w[i].fifo.written| + |data| <= MAX
      case Seek(_, move) => -MAX <= move <= MAX
      case Unwrite(_, n) => n <= MAX
      case Reserve(_, sz) => sz <= MAX
      case Pad(i, align, _) => 0 < align && |w[i].fifo.written| + align <= MAX
      case Append(i, from) =>
        from < |w| && from != i && |w[i].fifo.written| + |w[from].fifo.Unread()| <= MAX
      case Assign(_, from) => from < |w|
      case Swap(i, j) => j < |w| && i != j
      case Restore(i, m) => m.read <= m.write <= |w[i].fifo.written|
      case _ => true
    }
  }

  /** How far `rd_ptr( move )` moves. */
  function Seeked(f: Fifo, move: int): int {
    if move >= 0 then Min(move, |f.written| - f.read) else -Min(-move, f.read)
  }

  function Sought(f: Fifo, move: int): Fifo
    requires f.Valid()
  {
    Fifo(f.written, f.read + Seeked(f, move))
  }

  /** How far `wr_ptr( -n )` goes back. */
  function Unwritten(f: Fifo, n: nat): int {
    Min(n, |f.written| - f.read)
  }

  function Shortened(f: Fifo, n: nat): Fifo
    requires f.Valid()
  {
    Fifo(f.written[..|f.written| - Unwritten(f, n)], f.read)
  }

  ghost function Next(w: World, op: Op): World
    requires Enabled(w, op)
  {
    var c := w[op.i];
    match op
    case Write(i, data) => w[i := Put(Reserved(w, i, |c.fifo.written| + |data|), data)]
    case Read(i, n) => w[i := c.(fifo := c.fifo.Pop(n))]
    case Peek(_, _) => w
    case Seek(i, move) => w[i := c.(fifo := Sought(c.fifo, move))]
    case Unwrite(i, n) => w[i := c.(fifo := Shortened(c.fifo, n))]
    case Align(i) => w[i := Reserved(w, i, c.size).(fifo := c.fifo.Compact())]
    case Clear(i) => w[i := Reserved(w, i, c.size).(fifo := Fifo([], 0))]
    case Reserve(i, sz) => w[i := Reserved(w, i, sz)]
    case Pad(i, align, val) =>
      var r := Missing(|c.fifo.Unread()|, align);
      if r == 0 then w else w[i := Put(Reserved(w, i, |c.fifo.written| + r), Repeat(val, r))]
    case Append(i, from) =>
      var data := w[from].fifo.Unread();
      w[i := Put(Reserved(w, i, |c.fifo.written| + |data|), data)]
    case Assign(i, from) => if w[from].place.Counted? then w[i := w[from]] else w
    case Swap(i, j) => w[i := w[j]][j := w[i]]
    case Mark(_) => w
    case Restore(i, m) =>
      if m.write < c.size then w[i := c.(fifo := Fifo(c.fifo.written[..m.write], m.read))] else w
  }

  ghost function Answer(w: World, op: Op): Result
    requires Enabled(w, op)
  {
    var c := w[op.i];
    match op
    case Write(_, data) => Number(|data|)
    case Read(_, n) => Bytes(c.fifo.Front(n))
    case Peek(_, n) => Bytes(c.fifo.Front(n))
    case Seek(_, move) => Number(Seeked(c.fifo, move))
    case Unwrite(_, n) => Number(-Unwritten(c.fifo, n))
    case Pad(_, align, _) => Number(Missing(|c.fifo.Unread()|, align))
    case Assign(_, from) => Flag(w[from].place.Counted?)
    case Mark(_) => Marked(Marker(c.fifo.read, |c.fifo.written|))
    case Restore(_, m) => Flag(m.write < c.size)
    case _ => Done
  }

  // ----- runs

  /** Every operation of the run is enabled when it comes. */
  ghost predicate Runs(w: World, ops: seq<Op>)
    decreases |ops|
  {
    ops == [] || (Enabled(w, ops[0]) && Runs(Next(w, ops[0]), ops[1..]))
  }

  ghost function Final(w: World, ops: seq<Op>): World
    requires Runs(w, ops)
    decreases |ops|
  {
    if ops == [] then w else Final(Next(w, ops[0]), ops[1..])
  }

  ghost function Answers(w: World, ops: seq<Op>): seq<Result>
    requires Runs(w, ops)
    decreases |ops|
  {
    if ops == [] then [] else [Answer(w, ops[0])] + Answers(Next(w, ops[0]), ops[1..])
  }

  /** The operation may change block `k`. */
  predicate Touches(op: Op, k: nat) {
    op.i == k || (op.Swap? && op.j == k)
  }

  lemma NextElsewhere(w: World, op: Op, k: nat)
    requires Enabled(w, op) && k < |w|
    ensures |Next(w, op)| == |w| && (!Touches(op, k) ==> Next(w, op)[k] == w[k])
  {
    hide Unused, Reserved, Missing, Put;
  }

  /** A block that no operation of the run changes is left alone, its capacity and its storage included. */
  lemma {:induction false} OthersUntouched(w: World, ops: seq<Op>, k: nat)
    requires Runs(w, ops) && k < |w|
    ensures |Final(w, ops)| == |w|
    ensures (forall op | op in ops :: !Touches(op, k)) ==> Final(w, ops)[k] == w[k]
    decreases |ops|
  {
    hide Enabled, Next, Touches;
    if ops != [] {
      NextElsewhere(w, ops[0], k);
      OthersUntouched(Next(w, ops[0]), ops[1..], k);
    }
  }

  /** What the operation does to its block and answers, in numbers and bytes. */
  ghost predicate Means(w: World, op: Op)
    requires Enabled(w, op) && |Next(w, op)| == |w|
  {
    var c, v, a := w[op.i], Next(w, op)[op.i], Answer(w, op);
    match op
    case Write(_, data) =>
      v.fifo == Fifo(c.fifo.written + data, c.fifo.read) && a == Number(|data|)
    case Read(_, n) =>
      var k := Min(n, |c.fifo.written| - c.fifo.read);
      v.fifo == Fifo(c.fifo.written, c.fifo.read + k)
      && a == Bytes(c.fifo.written[c.fifo.read..c.fifo.read + k])
    case Peek(_, n) =>
      var k := Min(n, |c.fifo.written| - c.fifo.read);
      v == c && a == Bytes(c.fifo.written[c.fifo.read..c.fifo.read + k])
    case Seek(_, move) =>
      v.fifo.written == c.fifo.written && a == Number(v.fifo.read - c.fifo.read)
      && v.fifo.read == Min(if c.fifo.read + move < 0 then 0 else c.fifo.read + move, |c.fifo.written|)
    case Unwrite(_, n) =>
      v.fifo.written <= c.fifo.written && v.fifo.read == c.fifo.read
      && a == Number(|v.fifo.written| - |c.fifo.written|)
      && |v.fifo.written| == if |c.fifo.written| - n < c.fifo.read then c.fifo.read else |c.fifo.written| - n
    case Align(_) => v.fifo == Fifo(c.fifo.written[c.fifo.read..], 0) && v.size == c.size
    case Clear(_) => v.fifo == Fifo([], 0) && v.size == c.size
    case Reserve(_, sz) =>
      v.size >= sz && v.fifo.read == Min(c.fifo.read, v.size)
      && v.fifo.written == c.fifo.written[..Min(|c.fifo.written|, v.size)]
    case Pad(_, align, val) =>
      exists n: nat :: n < align && v.fifo == Fifo(c.fifo.written + Repeat(val, n), c.fifo.read)
        && a == Number(n) && (|c.fifo.written| - c.fifo.read + n) % align == 0
    case Append(_, from) =>
      v.fifo == Fifo(c.fifo.written + w[from].fifo.written[w[from].fifo.read..], c.fifo.read)
    case Assign(_, from) => a == Flag(w[from].place.Counted?) && v == if a.ok then w[from] else c
    case Swap(_, j) => v == w[j] && Next(w, op)[j] == c
    case Mark(_) => v == c && a == Marked(Marker(c.fifo.read, |c.fifo.written|))
    case Restore(_, m) =>
      a == Flag(m.write < c.size) && if a.ok then v.fifo == Fifo(c.fifo.written[..m.write], m.read) else v == c
  }

  lemma OperationsMean(w: World, op: Op)
    requires Enabled(w, op)
    ensures |Next(w, op)| == |w| && Means(w, op)
  {
    NextElsewhere(w, op, op.i);
    hide Enabled, Next, Means;
    if op.Write? || op.Append? {
      PushesMean(w, op);
    } else if op.Pad? {
      PaddingMeans(w, op);
    } else if op.Align? || op.Clear? || op.Reserve? {
      MovesMean(w, op);
    } else if op.Read? || op.Peek? {
      TakingMeans(w, op);
    } else if op.Seek? || op.Unwrite? {
      CursorsMean(w, op);
    } else {
      CellsMean(w, op);
    }
  }

  lemma TakingMeans(w: World, op: Op)
    requires Enabled(w, op) && |Next(w, op)| == |w| && (op.Read? || op.Peek?)
    ensures Means(w, op)
  {
    hide Unused, Alone, Reserved, Missing, Put;
  }

  lemma CursorsMean(w: World, op: Op)
    requires Enabled(w, op) && |Next(w, op)| == |w| && (op.Seek? || op.Unwrite?)
    ensures Means(w, op)
  {
    hide Unused, Alone, Reserved, Missing, Put;
    var f := w[op.i].fifo;
    if op.Seek? {
      SeekMeans(f, op.move);
    } else {
      UnwriteMeans(f, op.n);
    }
    hide Sought, Seeked, Shortened, Unwritten;
  }

  lemma SeekMeans(f: Fifo, move: int)
    requires f.Valid()
    ensures Sought(f, move) == Fifo(f.written, f.read + Seeked(f, move))
    ensures f.read + Seeked(f, move) == Min(if f.read + move < 0 then 0 else f.read + move, |f.written|)
  {
  }

  lemma UnwriteMeans(f: Fifo, n: nat)
    requires f.Valid()
    ensures Shortened(f, n).written <= f.written && Shortened(f, n).read == f.read
    ensures |f.written| - Unwritten(f, n) == |Shortened(f, n).written|
    ensures |Shortened(f, n).written| == if |f.written| - n < f.read then f.read else |f.written| - n
  {
  }

  lemma CellsMean(w: World, op: Op)
    requires Enabled(w, op) && |Next(w, op)| == |w| && (op.Assign? || op.Swap? || op.Mark? || op.Restore?)
    ensures Means(w, op)
  {
    hide Unused, Alone, Reserved, Missing, Put;
  }

  lemma PushesMean(w: World, op: Op)
    requires Enabled(w, op) && |Next(w, op)| == |w| && (op.Write? || op.Append?)
    ensures Means(w, op)
  {
    hide Unused, Alone, Reserved, Missing;
    var n := |w[op.i].fifo.written|;
    if op.Write? {
      ReservedKeeps(w, op.i, n + |op.data|);
    } else {
      ReservedKeeps(w, op.i, n + |w[op.from].fifo.Unread()|);
    }
  }

  lemma PaddingMeans(w: World, op: Op)
    requires Enabled(w, op) && |Next(w, op)| == |w| && op.Pad?
    ensures Means(w, op)
  {
    var c := w[op.i];
    var n, r := |c.fifo.Unread()|, Missing(|c.fifo.Unread()|, op.align);
    MissingFills(n, op.align);
    ReservedKeeps(w, op.i, |c.fifo.written| + r);
    hide Unused, Alone, Reserved, Missing;
    if r == 0 {
      assert c.fifo.written + Repeat(op.val, 0) == c.fifo.written;
    }
    assert Next(w, op)[op.i].fifo == Fifo(c.fifo.written + Repeat(op.val, r), c.fifo.read);
  }

  lemma MissingFills(n: nat, align: nat)
    requires 0 < align
    ensures Missing(n, align) < align && (n + Missing(n, align)) % align == 0
  {
    Filled(n, align);
  }

  lemma MovesMean(w: World, op: Op)
    requires Enabled(w, op) && |Next(w, op)| == |w| && (op.Align? || op.Clear? || op.Reserve?)
    ensures Means(w, op)
  {
    hide Unused, Missing, Alone;
  }

  /** Copy on write: an operation that writes or reserves leaves its block on storage that no other block shares. */
  lemma WritersAreAlone(w: World, op: Op)
    requires Enabled(w, op) && (op.Write? || op.Append? || op.Align? || op.Clear? || op.Reserve?)
    ensures |Next(w, op)| == |w| && Alone(Next(w, op), op.i)
  {
    hide Missing;
  }

  // ----- first in, first out

  /** A `reserve` that does not cut into the contents. */
  predicate Grows(w: World, op: Op)
    requires op.i < |w|
  {
    op.Reserve? ==> op.sz >= |w[op.i].fifo.written|
  }

  /** On block `k`, only writes, reads, marks and moves of the storage. */
  predicate Queueing(w: World, op: Op, k: nat)
    requires op.i < |w|
  {
    Touches(op, k) ==>
      Grows(w, op)
      && (op.Write? || op.Read? || op.Peek? || op.Align? || op.Reserve? || op.Pad? || op.Append? || op.Mark?)
  }

  ghost predicate QueueingRun(w: World, ops: seq<Op>, k: nat)
    requires Runs(w, ops)
    decreases |ops|
  {
    ops == [] || (Queueing(w, ops[0], k) && QueueingRun(Next(w, ops[0]), ops[1..], k))
  }

  ghost function TakenBy(w: World, op: Op, k: nat): seq<byte>
    requires Enabled(w, op)
  {
    if op.Read? && op.i == k then Answer(w, op).bytes else []
  }

  /** What the run takes out of block `k`. */
  ghost function Taken(w: World, ops: seq<Op>, k: nat): seq<byte>
    requires Runs(w, ops)
    decreases |ops|
  {
    if ops == [] then [] else TakenBy(w, ops[0], k) + Taken(Next(w, ops[0]), ops[1..], k)
  }

  ghost function GivenBy(w: World, op: Op, k: nat): seq<byte>
    requires Enabled(w, op)
  {
    if op.i != k then [] else
      match op
      case Write(_, data) => data
      case Pad(i, align, val) => Repeat(val, Missing(|w[i].fifo.Unread()|, align))
      case Append(_, from) => w[from].fifo.Unread()
      case _ => []
  }

  /** What the run puts into block `k`. */
  ghost function Given(w: World, ops: seq<Op>, k: nat): seq<byte>
    requires Runs(w, ops)
    decreases |ops|
  {
    if ops == [] then [] else GivenBy(w, ops[0], k) + Given(Next(w, ops[0]), ops[1..], k)
  }

  lemma StepKeepsOrder(w: World, op: Op, k: nat)
    requires Enabled(w, op) && k < |w| && Queueing(w, op, k)
    ensures |Next(w, op)| == |w| && Next(w, op)[k].fifo.Valid()
    ensures TakenBy(w, op, k) + Next(w, op)[k].fifo.Unread() == w[k].fifo.Unread() + GivenBy(w, op, k)
  {
    hide Fifo.Unread, Fifo.Valid;
    if Touches(op, k) {
      if op.Write? || op.Append? {
        PushKeepsOrder(w, op, k);
      } else if op.Pad? {
        PadKeepsOrder(w, op, k);
      } else {
        TakeKeepsOrder(w, op, k);
      }
    } else {
      NextElsewhere(w, op, k);
      hide Next;
      assert TakenBy(w, op, k) == [] && GivenBy(w, op, k) == [];
    }
  }

  /** `reserve` with room for the contents leaves them alone. */
  lemma ReservedKeeps(w: World, i: nat, sz: nat)
    requires i < |w| && |w[i].fifo.written| <= sz
    ensures Reserved(w, i, sz).fifo == w[i].fifo
  {
    hide Unused, Alone;
  }

  lemma PushUnread(f: Fifo, data: seq<byte>)
    requires f.Valid()
    ensures f.Push(data).Valid() && f.Push(data).Unread() == f.Unread() + data
  {
  }

  lemma PopUnread(f: Fifo, n: nat)
    requires f.Valid()
    ensures f.Pop(n).Valid() && f.Front(n) + f.Pop(n).Unread() == f.Unread()
  {
  }

  lemma CompactUnread(f: Fifo)
    requires f.Valid()
    ensures f.Compact().Valid() && f.Compact().Unread() == f.Unread()
  {
  }

  lemma PushKeepsOrder(w: World, op: Op, k: nat)
    requires Enabled(w, op) && k < |w| && Queueing(w, op, k) && Touches(op, k)
    requires op.Write? || op.Append?
    ensures |Next(w, op)| == |w| && Next(w, op)[k].fifo.Valid()
    ensures TakenBy(w, op, k) + Next(w, op)[k].fifo.Unread() == w[k].fifo.Unread() + GivenBy(w, op, k)
  {
    var c := w[k];
    assert c.Valid();
    hide Unused, Alone, Missing, Reserved, Fifo.Push, Fifo.Pop, Fifo.Front, Fifo.Compact, Fifo.Unread, Fifo.Valid;
    if op.Write? {
      ReservedKeeps(w, k, |c.fifo.written| + |op.data|);
      PushUnread(c.fifo, op.data);
    } else {
      ReservedKeeps(w, k, |c.fifo.written| + |w[op.from].fifo.Unread()|);
      PushUnread(c.fifo, w[op.from].fifo.Unread());
    }
    assert [] + Next(w, op)[k].fifo.Unread() == Next(w, op)[k].fifo.Unread();
  }

  lemma PadKeepsOrder(w: World, op: Op, k: nat)
    requires Enabled(w, op) && k < |w| && Queueing(w, op, k) && Touches(op, k)
    requires op.Pad?
    ensures |Next(w, op)| == |w| && Next(w, op)[k].fifo.Valid()
    ensures TakenBy(w, op, k) + Next(w, op)[k].fifo.Unread() == w[k].fifo.Unread() + GivenBy(w, op, k)
  {
    var c := w[k];
    assert c.Valid();
    hide Unused, Alone, Missing, Reserved, Fifo.Push, Fifo.Pop, Fifo.Front, Fifo.Compact, Fifo.Unread, Fifo.Valid;
    var r := Missing(|c.fifo.Unread()|, op.align);
    ReservedKeeps(w, k, |c.fifo.written| + r);
    PushUnread(c.fifo, Repeat(op.val, r));
    assert r == 0 ==> Repeat(op.val, r) == [] && c.fifo.Unread() + [] == c.fifo.Unread();
    assert [] + Next(w, op)[k].fifo.Unread() == Next(w, op)[k].fifo.Unread();
  }

  lemma TakeKeepsOrder(w: World, op: Op, k: nat)
    requires Enabled(w, op) && k < |w| && Queueing(w, op, k) && Touches(op, k)
    requires !op.Write? && !op.Append? && !op.Pad?
    ensures |Next(w, op)| == |w| && Next(w, op)[k].fifo.Valid()
    ensures TakenBy(w, op, k) + Next(w, op)[k].fifo.Unread() == w[k].fifo.Unread() + GivenBy(w, op, k)
  {
    var c := w[k];
    assert c.Valid();
    hide Unused, Alone, Missing, Reserved, Fifo.Push, Fifo.Pop, Fifo.Front, Fifo.Compact, Fifo.Unread, Fifo.Valid;
    assert [] + c.fifo.Unread() == c.fifo.Unread() + [] == c.fifo.Unread();
    match op
    case Reserve(_, sz) => ReservedKeeps(w, k, sz);
    case Read(_, n) => PopUnread(c.fifo, n);
    case Align(_) => CompactUnread(c.fifo);
    case _ =>
  }

  /** First in, first out: the bytes taken and the bytes left are the bytes there were and the bytes given, in order. */
  lemma {:induction false} FirstInFirstOut(w: World, ops: seq<Op>, k: nat)
    requires Runs(w, ops) && k < |w| && w[k].fifo.Valid() && QueueingRun(w, ops, k)
    ensures |Final(w, ops)| == |w| && Final(w, ops)[k].fifo.Valid()
    ensures Taken(w, ops, k) + Final(w, ops)[k].fifo.Unread() == w[k].fifo.Unread() + Given(w, ops, k)
    decreases |ops|
  {
    hide Enabled, Next, TakenBy, GivenBy, Queueing;
    if ops == [] {
      assert w[k].fifo.Unread() + [] == w[k].fifo.Unread();
    } else {
      var v := Next(w, ops[0]);
      StepKeepsOrder(w, ops[0], k);
      FirstInFirstOut(v, ops[1..], k);
      Regroup(TakenBy(w, ops[0], k), Taken(v, ops[1..], k), Final(w, ops)[k].fifo.Unread(),
              v[k].fifo.Unread(), Given(v, ops[1..], k), w[k].fifo.Unread(), GivenBy(w, ops[0], k));
    }
  }

  lemma Regroup(r: seq<byte>, t: seq<byte>, f: seq<byte>, v: seq<byte>, g: seq<byte>, u: seq<byte>, h: seq<byte>)
    requires r + v == u + h && t + f == v + g
    ensures (r + t) + f == u + (h + g)
  {
    assert (r + t) + f == r + (t + f) == (r + v) + g;
    assert (u + h) + g == u + (h + g);
  }

  // ----- marks

  /** On block `k`, nothing that takes one of the first `n` written bytes away or moves it. */
  predicate KeepsMark(w: World, op: Op, k: nat, n: nat)
    requires op.i < |w|
  {
    Touches(op, k) ==>
      match op {
        case Swap(_, _) => false
        case Assign(_, _) => false
        case Align(_) => false
        case Clear(_) => false
        case Reserve(_, sz) => sz >= n
        case Unwrite(_, back) => |w[k].fifo.written| - Unwritten(w[k].fifo, back) >= n
        case Restore(_, m) => m.write >= n
        case _ => true
      }
  }

  ghost predicate KeepsMarkRun(w: World, ops: seq<Op>, k: nat, n: nat)
    requires Runs(w, ops)
    decreases |ops|
  {
    ops == [] || (KeepsMark(w, ops[0], k, n) && KeepsMarkRun(Next(w, ops[0]), ops[1..], k, n))
  }

  /** The first `n` bytes written to the block are these. */
  predicate Holds(c: Cell, marked: seq<byte>) {
    marked <= c.fifo.written
  }

  lemma StepKeepsMarked(w: World, op: Op, k: nat, marked: seq<byte>)
    requires Enabled(w, op) && k < |w| && KeepsMark(w, op, k, |marked|) && Holds(w[k], marked)
    ensures |Next(w, op)| == |w| && Holds(Next(w, op)[k], marked)
  {
    if Touches(op, k) {
      hide Unused, Alone, Reserved, Missing;
      var c := w[k];
      match op
      case Write(_, data) => ReservedKeeps(w, k, |c.fifo.written| + |data|);
      case Pad(_, align, _) => ReservedKeeps(w, k, |c.fifo.written| + Missing(|c.fifo.Unread()|, align));
      case Append(_, from) => ReservedKeeps(w, k, |c.fifo.written| + |w[from].fifo.Unread()|);
      case Reserve(_, sz) => ReservedHolds(w, k, sz, marked);
      case _ =>
    } else {
      NextElsewhere(w, op, k);
      hide Next;
    }
  }

  lemma ReservedHolds(w: World, i: nat, sz: nat, marked: seq<byte>)
    requires i < |w| && Holds(w[i], marked) && |marked| <= sz
    ensures Holds(Reserved(w, i, sz), marked)
  {
    hide Unused, Alone;
  }

  lemma ReservedValid(w: World, i: nat, sz: nat)
    requires i < |w| && w[i].Valid() && sz <= MAX
    ensures Reserved(w, i, sz).Valid() && Reserved(w, i, sz).size >= sz
  {
    hide Unused, Alone;
  }

  lemma OpValid(w: World, op: Op)
    requires Enabled(w, op)
    ensures |Next(w, op)| == |w| && Next(w, op)[op.i].Valid()
  {
    hide Unused, Alone, Reserved, Missing;
    var i, c := op.i, w[op.i];
    match op
    case Write(_, data) =>
      ReservedValid(w, i, |c.fifo.written| + |data|);
      ReservedKeeps(w, i, |c.fifo.written| + |data|);
    case Pad(_, align, _) =>
      var r := Missing(|c.fifo.Unread()|, align);
      MissingFills(|c.fifo.Unread()|, align);
      ReservedValid(w, i, |c.fifo.written| + r);
      ReservedKeeps(w, i, |c.fifo.written| + r);
    case Append(_, from) =>
      ReservedValid(w, i, |c.fifo.written| + |w[from].fifo.Unread()|);
      ReservedKeeps(w, i, |c.fifo.written| + |w[from].fifo.Unread()|);
    case Reserve(_, sz) => ReservedValid(w, i, sz);
    case Align(_) => ReservedValid(w, i, c.size);
    case Clear(_) => ReservedValid(w, i, c.size);
    case _ =>
  }

  /** The order of the positions, 0 <= read <= write <= capacity, is never lost. */
  lemma NextValid(w: World, op: Op, k: nat)
    requires Enabled(w, op) && k < |w|
    ensures |Next(w, op)| == |w| && Next(w, op)[k].Valid()
  {
    if op.Swap? {
      hide Unused, Alone, Reserved, Missing;
    } else if op.i == k {
      OpValid(w, op);
    } else {
      NextElsewhere(w, op, k);
      hide Next;
    }
  }

  lemma {:induction false} RunValid(w: World, ops: seq<Op>, k: nat)
    requires Runs(w, ops) && k < |w| && w[k].Valid()
    ensures |Final(w, ops)| == |w| && Final(w, ops)[k].Valid()
    decreases |ops|
  {
    hide Enabled, Next;
    if ops != [] {
      NextValid(w, ops[0], k);
      RunValid(Next(w, ops[0]), ops[1..], k);
    }
  }

  lemma {:induction false} RunKeepsMarked(w: World, ops: seq<Op>, k: nat, marked: seq<byte>)
    requires Runs(w, ops) && k < |w| && KeepsMarkRun(w, ops, k, |marked|) && Holds(w[k], marked)
    ensures |Final(w, ops)| == |w| && Holds(Final(w, ops)[k], marked)
    decreases |ops|
  {
    hide Enabled, Next, KeepsMark, Holds;
    if ops != [] {
      StepKeepsMarked(w, ops[0], k, marked);
      RunKeepsMarked(Next(w, ops[0]), ops[1..], k, marked);
    }
  }

  /**
   * A mark brings the queue back: after any writes, reads, seeks, paddings and appends, and after reserves, moves back
   * and restores of other marks that stay at or above its write position, restoring it gives exactly the queue there
   * was when it was taken. It is refused, and nothing changes, exactly when the capacity is then that position.
   */
  lemma MarkRestores(w: World, ops: seq<Op>, k: nat)
    requires Runs(w, ops) && k < |w| && (forall j | 0 <= j < |w| :: w[j].Valid())
    requires KeepsMarkRun(w, ops, k, Answer(w, Mark(k)).mark.write)
    ensures var v, restore := Final(w, ops), Restore(k, Answer(w, Mark(k)).mark);
            && Enabled(v, restore) && |Next(v, restore)| == |w|
            && (Answer(v, restore) == Flag(true) <==> v[k].size != |w[k].fifo.written|)
            && (Answer(v, restore) == Flag(true) ==> Next(v, restore)[k].fifo == w[k].fifo)
            && (Answer(v, restore) != Flag(true) ==> Next(v, restore) == v)
  {
    hide KeepsMarkRun, Runs;
    OthersUntouched(w, ops, k);
    forall j | 0 <= j < |w|
      ensures Final(w, ops)[j].Valid()
    {
      RunValid(w, ops, j);
    }
    RunKeepsMarked(w, ops, k, w[k].fifo.written);
    var c := Final(w, ops)[k];
    assert c.fifo.written[..|w[k].fifo.written|] == w[k].fifo.written;
  }
}
