/**
 * One storage whose handles live in different threads: the atomic counter in its header, with every load, add,
 * subtract and byte that buffer/buffer_base.cpp does to it, in any order.
 */
module SharedCount {
  import opened BufferBase
  import opened Words

  /** A handle is used by one thread at a time; while it stays as it is, any number of threads may copy it. */
  type Handle = nat

  datatype Phase =
    | Joining(from: Handle)              // the fields are copied, the counter is not yet raised
    | Holding
    | Alone                              // `reserve` has returned early
    | Leaving(n: nat, copy: seq<byte>)   // `reserve` is copying `n` bytes to new storage
    | Last                               // the counter was 1 when this handle lowered it

  datatype State = State(users: map<Handle, Phase>, count: int, frees: nat, bytes: seq<byte>)

  datatype Step =
    | Join(h: Handle, from: Handle)
    | FetchAdd(h: Handle)
    | Load(h: Handle, sz: nat)
    | WriteByte(h: Handle, at: nat, val: byte)
    | Resume(h: Handle)
    | CopyByte(h: Handle)
    | FetchSub(h: Handle)
    | Free(h: Handle)

  /** The most handles that an `int` can count. */
  const MOST := 0x7fff_ffff

  /** No thread is copying the handle. */
  predicate Unlent(users: map<Handle, Phase>, h: Handle) {
    forall g | g in users :: users[g] != Joining(h)
  }

  predicate Enabled(s: State, step: Step) {
    if step.Join? then
      step.h !in s.users && step.from in s.users && s.users[step.from].Holding? && |s.users| < MOST
    else
      step.h in s.users && var p := s.users[step.h];
      match step
      case FetchAdd(_) => p.Joining?
      case Load(h, _) => p.Holding? && Unlent(s.users, h)
      case WriteByte(_, at, _) => p.Alone? && at < |s.bytes|
      case Resume(_) => p.Alone?
      case CopyByte(_) => p.Leaving? && |p.copy| < p.n <= |s.bytes|
      case FetchSub(h) => (p.Holding? || (p.Leaving? && |p.copy| == p.n)) && Unlent(s.users, h)
      case Free(_) => p.Last?
  }

  function Next(s: State, step: Step): State
    requires Enabled(s, step)
  {
    match step
    case Join(h, from) => s.(users := s.users[h := Joining(from)])
    case FetchAdd(h) => s.(users := s.users[h := Holding], count := s.count + 1)
    case Load(h, sz) =>
      if s.count == 1 && |s.bytes| >= sz then s.(users := s.users[h := Alone])
      else s.(users := s.users[h := Leaving(Min(|s.bytes|, sz), [])])
    case WriteByte(_, at, val) => s.(bytes := s.bytes[at := val])
    case Resume(h) => s.(users := s.users[h := Holding])
    case CopyByte(h) =>
      var p := s.users[h];
      s.(users := s.users[h := p.(copy := p.copy + [s.bytes[|p.copy|]])])
    case FetchSub(h) =>
      s.(count := s.count - 1, users := if s.count == 1 then s.users[h := Last] else s.users - {h})
    case Free(h) => s.(users := s.users - {h}, frees := s.frees + 1)
  }

  /** The constructor that allocates: one handle. */
  function Fresh(h: Handle, bytes: seq<byte>): State {
    State(map[h := Holding], 1, 0, bytes)
  }

  ghost predicate Runs(s: State, steps: seq<Step>)
    decreases |steps|
  {
    steps == [] || (Enabled(s, steps[0]) && Runs(Next(s, steps[0]), steps[1..]))
  }

  ghost function Final(s: State, steps: seq<Step>): State
    requires Runs(s, steps)
    decreases |steps|
  {
    if steps == [] then s else Final(Next(s, steps[0]), steps[1..])
  }

  // ----- what every step keeps

  /** The handles that the counter counts. */
  function Holders(users: map<Handle, Phase>): set<Handle> {
    set h | h in users && !users[h].Joining? && !users[h].Last?
  }

  ghost predicate PhaseHolds(s: State, h: Handle)
    requires h in s.users
  {
    match s.users[h]
    case Joining(from) => from in s.users && s.users[from].Holding?
    case Holding => true
    case Alone => s.users.Keys == {h}
    case Leaving(n, copy) => copy <= s.bytes && |copy| <= n <= |s.bytes|
    case Last => s.users.Keys == {h}
  }

  ghost predicate Inv(s: State) {
    && (forall h | h in s.users :: PhaseHolds(s, h))
    && s.count == |Holders(s.users)| <= |s.users| <= MOST
    && s.frees == if s.users == map[] then 1 else 0
  }

  lemma FreshInv(h: Handle, bytes: seq<byte>)
    ensures Inv(Fresh(h, bytes))
  {
    assert Holders(Fresh(h, bytes).users) == {h};
  }

  /** A user is a holder, or is being copied from one, or is alone. */
  lemma SomeHolder(s: State, g: Handle)
    requires Inv(s) && g in s.users
    ensures
      || g in Holders(s.users)
      || (s.users[g].Joining? && s.users[g].from in Holders(s.users))
      || s.users.Keys == {g}
  {
    assert PhaseHolds(s, g);
  }

  /** If the only holder is `h`, and nobody is copying it, there is no other user. */
  lemma OnlyUser(s: State, h: Handle)
    requires Inv(s) && h in Holders(s.users) && s.count == 1 && Unlent(s.users, h)
    ensures s.users.Keys == {h}
  {
    assert |Holders(s.users) - {h}| == 0;
    assert Holders(s.users) == {h};
    forall g | g in s.users
      ensures g == h
    {
      SomeHolder(s, g);
    }
  }

  lemma StepCounts(s: State, step: Step)
    requires Inv(s) && Enabled(s, step)
    ensures Next(s, step).count == |Holders(Next(s, step).users)|
  {
    hide PhaseHolds, Unlent;
    var v, h := Next(s, step), step.h;
    if step.FetchAdd? {
      assert Holders(v.users) == Holders(s.users) + {h};
    } else if step.FetchSub? {
      assert Holders(v.users) == Holders(s.users) - {h};
    } else {
      assert Holders(v.users) == Holders(s.users);
    }
  }

  lemma NoMoreThanUsers(users: map<Handle, Phase>)
    ensures |Holders(users)| <= |users|
  {
    assert Holders(users) + (users.Keys - Holders(users)) == users.Keys;
  }

  lemma StepKeepsPhases(s: State, step: Step, g: Handle)
    requires Inv(s) && Enabled(s, step) && g in Next(s, step).users
    ensures PhaseHolds(Next(s, step), g)
  {
    var h := step.h;
    if (step.Load? || step.FetchSub?) && s.count == 1 {
      OnlyUser(s, h);
    }
    if g in s.users {
      assert PhaseHolds(s, g);
    }
    if h in s.users {
      assert PhaseHolds(s, h);
    }
  }

  lemma StepKeepsInv(s: State, step: Step)
    requires Inv(s) && Enabled(s, step)
    ensures Inv(Next(s, step))
  {
    var v := Next(s, step);
    forall g | g in v.users
      ensures PhaseHolds(v, g)
    {
      StepKeepsPhases(s, step, g);
    }
    StepCounts(s, step);
    NoMoreThanUsers(v.users);
    StepFrees(s, step);
  }

  lemma StepFrees(s: State, step: Step)
    requires Inv(s) && Enabled(s, step)
    ensures var v := Next(s, step); v.frees == if v.users == map[] then 1 else 0
    ensures |Next(s, step).users| <= MOST
  {
    hide PhaseHolds, Unlent;
    var v, h := Next(s, step), step.h;
    if step.Free? {
      LastIsAlone(s, h);
      assert v.users.Keys == {};
    } else if step.FetchSub? && s.count != 1 {
      assert v.users.Keys == s.users.Keys - {h};
      assert |Holders(s.users) - {h}| == s.count - 1;
      var g :| g in Holders(s.users) - {h};
      assert g in v.users;
    } else {
      assert h in v.users;
      assert step.h in s.users ==> v.users.Keys == s.users.Keys;
    }
  }

  lemma LastIsAlone(s: State, h: Handle)
    requires Inv(s) && h in s.users && s.users[h].Last?
    ensures s.users.Keys == {h} && s.frees == 0
  {
    assert PhaseHolds(s, h);
  }

  lemma {:induction false} RunKeepsInv(s: State, steps: seq<Step>)
    requires Inv(s) && Runs(s, steps)
    ensures Inv(Final(s, steps))
    decreases |steps|
  {
    hide Inv, Next, Enabled;
    if steps != [] {
      StepKeepsInv(s, steps[0]);
      RunKeepsInv(Next(s, steps[0]), steps[1..]);
    }
  }

  // ----- what a run shows

  /**
   * The storage is freed once, by the last handle to go, and never left allocated without one. Whatever any thread can
   * still do, it does to storage that is not freed, and the counter stays within an `int`.
   */
  lemma FreedOnceByTheLast(s: State, steps: seq<Step>)
    requires Inv(s) && Runs(s, steps)
    ensures var v := Final(s, steps);
            && v.frees <= 1 && (v.frees == 1 <==> v.users == map[])
            && 0 <= v.count <= MOST
            && forall step | Enabled(v, step) :: v.frees == 0
  {
    RunKeepsInv(s, steps);
    NoMoreThanUsers(Final(s, steps).users);
  }

  /** `ref_count() == 1`, once seen, stays true: until the handle goes on, no other thread has anything to do. */
  lemma LoadOfOneIsStable(s: State, h: Handle, step: Step)
    requires Inv(s) && h in s.users && s.users[h].Alone? && Enabled(s, step)
    ensures step.h == h && s.count == 1
  {
    assert PhaseHolds(s, h);
    assert Holders(s.users) == {h};
  }

  /** The bytes as handle `k` alone writes them. */
  function Written(bytes: seq<byte>, steps: seq<Step>, k: Handle): seq<byte>
    decreases |steps|
  {
    if steps == [] then bytes
    else
      var step := steps[0];
      Written(if step.WriteByte? && step.h == k && step.at < |bytes| then bytes[step.at := step.val] else bytes,
              steps[1..], k)
  }

  predicate Counted(s: State, k: Handle) {
    k in Holders(s.users)
  }

  lemma StepOfOthers(s: State, step: Step, k: Handle)
    requires Inv(s) && Counted(s, k) && Enabled(s, step) && step.h != k
    ensures Next(s, step).bytes == s.bytes
    ensures Counted(Next(s, step), k) && Next(s, step).users[k] == s.users[k]
  {
    if step.h in s.users {
      assert PhaseHolds(s, step.h);
    }
    if step.FetchSub? && s.count == 1 {
      OnlyUser(s, step.h);
    }
  }

  /** Sharing is not seen: until it lowers the counter, a handle finds the bytes as its own writes alone leave them. */
  lemma {:induction false} AsIfUnshared(s: State, steps: seq<Step>, k: Handle)
    requires Inv(s) && Counted(s, k) && Runs(s, steps) && FetchSub(k) !in steps
    ensures Counted(Final(s, steps), k) && Final(s, steps).bytes == Written(s.bytes, steps, k)
    decreases |steps|
  {
    hide Inv, Next, Enabled, Counted;
    if steps != [] {
      StepAsIfUnshared(s, steps[0], k);
      StepKeepsInv(s, steps[0]);
      AsIfUnshared(Next(s, steps[0]), steps[1..], k);
    }
  }

  lemma StepAsIfUnshared(s: State, step: Step, k: Handle)
    requires Inv(s) && Counted(s, k) && Enabled(s, step) && step != FetchSub(k)
    ensures Counted(Next(s, step), k) && Next(s, step).bytes == Written(s.bytes, [step], k)
    ensures step.WriteByte? && step.h == k ==> step.at < |s.bytes|
  {
    if step.h != k {
      StepOfOthers(s, step, k);
    }
  }

  /** The copy that `reserve` makes byte by byte is of the bytes there were, whatever other threads do meanwhile. */
  lemma ReserveCopies(s: State, steps: seq<Step>, k: Handle, sz: nat)
    requires Inv(s) && Counted(s, k) && Runs(s, [Load(k, sz)] + steps)
    requires s.count != 1 || |s.bytes| < sz
    requires forall step | step in steps && step.h == k :: step.CopyByte?
    ensures var v := Final(s, [Load(k, sz)] + steps);
            && Counted(v, k) && v.bytes == s.bytes
            && v.users[k].Leaving? && v.users[k].n == Min(|s.bytes|, sz)
            && v.users[k].copy <= s.bytes
  {
    hide Inv;
    assert ([Load(k, sz)] + steps)[1..] == steps;
    StepKeepsInv(s, Load(k, sz));
    CopyGoesOn(Next(s, Load(k, sz)), steps, k);
  }

  lemma {:induction false} CopyGoesOn(s: State, steps: seq<Step>, k: Handle)
    requires Inv(s) && Counted(s, k) && Runs(s, steps) && s.users[k].Leaving?
    requires forall step | step in steps && step.h == k :: step.CopyByte?
    ensures var v := Final(s, steps);
            && Counted(v, k) && v.bytes == s.bytes
            && v.users[k].Leaving? && v.users[k].n == s.users[k].n && v.users[k].copy <= v.bytes
    decreases |steps|
  {
    hide Inv;
    if steps == [] {
      CopySoFar(s, k);
    } else {
      StepOfCopy(s, steps[0], k);
      StepKeepsInv(s, steps[0]);
      hide Next, Enabled, Counted;
      CopyGoesOn(Next(s, steps[0]), steps[1..], k);
    }
  }

  lemma CopySoFar(s: State, k: Handle)
    requires Inv(s) && Counted(s, k) && s.users[k].Leaving?
    ensures s.users[k].copy <= s.bytes
  {
    assert PhaseHolds(s, k);
  }

  lemma StepOfCopy(s: State, step: Step, k: Handle)
    requires Inv(s) && Counted(s, k) && s.users[k].Leaving? && Enabled(s, step) && (step.h == k ==> step.CopyByte?)
    ensures var v := Next(s, step);
            && Counted(v, k) && v.bytes == s.bytes && v.users[k].Leaving? && v.users[k].n == s.users[k].n
  {
    if step.h != k {
      StepOfOthers(s, step, k);
    }
  }
}
