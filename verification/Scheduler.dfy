/** The timer scheduler of event_loop/scheduler.cpp, with callbacks that insert and cancel as they fire. */
module Scheduler {
  import opened TimerList

  /** What a callback does to the scheduler that fires it. */
  datatype Action = Insertion(timer: Timer) | Cancellation(timer: Timer)

  /** One turn of the drain loop: the clock it reads, and what the callback does if the head is due. */
  datatype Turn = Turn(now: nat, actions: seq<Action>)

  /** The list and the history of what entered and left it. */
  datatype Books = Books(timers: seq<Timer>, inserted: seq<Timer>, cancelled: seq<Timer>, fired: seq<Timer>)

  function Act(b: Books, action: Action): Books {
    match action
    case Insertion(t) => b.(timers := Insert(b.timers, t), inserted := b.inserted + [t])
    case Cancellation(t) =>
      if t in b.timers then b.(timers := Remove(b.timers, t), cancelled := b.cancelled + [t]) else b
  }

  function ActAll(b: Books, actions: seq<Action>): Books
    decreases |actions|
  {
    if actions == [] then b else ActAll(Act(b, actions[0]), actions[1..])
  }

  predicate HeadDue(b: Books, now: nat) {
    b.timers != [] && b.timers[0].expiry <= now
  }

  function FireHead(b: Books, actions: seq<Action>): Books
    requires b.timers != []
  {
    ActAll(b.(timers := b.timers[1..], fired := b.fired + [b.timers[0]]), actions)
  }

  /** The drain loop over as many turns as are given; it may stop before them. */
  function DrainBooks(b: Books, turns: seq<Turn>): Books
    decreases |turns|
  {
    if turns == [] || !HeadDue(b, turns[0].now) then b
    else DrainBooks(FireHead(b, turns[0].actions), turns[1..])
  }

  // ----- the class

  class Scheduler {
    var timers: seq<Timer>
    ghost var books: Books

    ghost predicate Valid()
      reads this
    {
      books.timers == timers && Balanced(books) && AllInOrder(books)
    }

    constructor ()
      ensures Valid() && books == Books([], [], [], [])
    {
      timers := [];
      books := Books([], [], [], []);
      assert forall e: nat :: Line(Books([], [], [], []), e) == [];
    }

    /** `std::upper_bound` by halving, as the library does it. */
    method FindUpperBound(expiry: nat) returns (k: nat)
      requires Valid()
      ensures k == UpperBound(timers, expiry)
    {
      hide AllInOrder;
      var first: nat, length: nat := 0, |timers|;
      while length > 0
        invariant first + length <= |timers|
        invariant forall i | 0 <= i < first :: timers[i].expiry <= expiry
        invariant forall i | first + length <= i < |timers| :: expiry < timers[i].expiry
      {
        var half := length / 2;
        if expiry < timers[first + half].expiry {
          length := half;
        } else {
          first, length := first + half + 1, length - half - 1;
        }
      }
      k := first;
      UpperBoundUnique(timers, expiry, k);
    }

    method Schedule(t: Timer)
      requires Valid()
      modifies this
      ensures Valid() && books == Act(old(books), Insertion(t))
      ensures timers == Insert(old(timers), t)
    {
      var k := FindUpperBound(t.expiry);
      timers := timers[..k] + [t] + timers[k..];
      ActKeeps(books, Insertion(t));
      ActKeepsOrder(books, Insertion(t));
      books := Act(books, Insertion(t));
    }

    /** `std::find` and `erase`. */
    method Cancel(t: Timer) returns (found: bool)
      requires Valid()
      modifies this
      ensures Valid() && books == Act(old(books), Cancellation(t))
      ensures found <==> t in old(timers)
      ensures timers == Remove(old(timers), t)
    {
      var i := 0;
      while i < |timers| && timers[i] != t
        invariant 0 <= i <= |timers| && t !in timers[..i]
      {
        i := i + 1;
      }
      found := i < |timers|;
      ActKeeps(books, Cancellation(t));
      ActKeepsOrder(books, Cancellation(t));
      books := Act(books, Cancellation(t));
      if found {
        RemoveAt(timers, t, i);
        timers := timers[..i] + timers[i + 1..];
      } else {
        assert timers[..i] == timers;
      }
    }

    /** A callback: any sequence of calls back into the scheduler. */
    method Callback(actions: seq<Action>)
      requires Valid()
      modifies this
      ensures Valid() && books == ActAll(old(books), actions)
    {
      hide Act, Balanced, AllInOrder;
      var i := 0;
      while i < |actions|
        invariant 0 <= i <= |actions| && Valid()
        invariant ActAll(books, actions[i..]) == ActAll(old(books), actions)
        decreases |actions| - i
      {
        assert actions[i..][1..] == actions[i + 1..];
        match actions[i] {
          case Insertion(t) => Schedule(t);
          case Cancellation(t) => var _ := Cancel(t);
        }
        i := i + 1;
      }
    }

    /**
     * `int schedule()`. The real loop ends only when the head is not due; `turns` lists what its first
     * iterations meet, so `done` tells whether it ended within them.
     */
    method Drain(turns: seq<Turn>) returns (count: nat, done: bool)
      requires Valid()
      modifies this
      ensures Valid() && books == DrainBooks(old(books), turns)
      ensures count == |books.fired| - |old(books).fired| && count <= |turns|
      ensures done ==> timers == [] || (count < |turns| && turns[count].now < timers[0].expiry)
      ensures !done ==> count == |turns|
    {
      hide Balanced, AllInOrder;
      count := 0;
      while timers != [] && count < |turns|
        invariant Valid() && count <= |turns| && count == |books.fired| - |old(books).fired|
        invariant DrainBooks(books, turns[count..]) == DrainBooks(old(books), turns)
        decreases |turns| - count
      {
        var t := timers[0];
        if t.expiry <= turns[count].now {
          FireKeeps(books);
          FireKeepsOrder(books);
          timers := timers[1..];
          books := books.(timers := timers, fired := books.fired + [t]);
          ActsKeepFired(books, turns[count].actions);
          Callback(turns[count].actions);
          assert turns[count..][1..] == turns[count + 1..];
          count := count + 1;
        } else {
          return count, true;
        }
      }
      done := timers == [];
    }

    /** `schedule_after`, in milliseconds; the source's clock has no negative spans here. */
    method ScheduleAfter(now: nat) returns (span: nat)
      requires Valid()
      ensures timers != [] ==> forall t | t in timers :: now + span <= t.expiry || span == 0
      ensures timers != [] && now <= timers[0].expiry ==> now + span == timers[0].expiry
      ensures timers == [] ==> span == 100_000
    {
      if timers == [] {
        return 100_000;
      }
      if now > timers[0].expiry {
        return 0;
      }
      span := timers[0].expiry - now;
    }
  }

  // ----- conservation and order, over any drain

  /** In order, and every insertion accounted for once. */
  ghost predicate Balanced(b: Books) {
    Sorted(b.timers) && multiset(b.inserted) == multiset(b.fired) + multiset(b.cancelled) + multiset(b.timers)
  }

  lemma ActKeeps(b: Books, action: Action)
    requires Balanced(b)
    ensures Balanced(Act(b, action))
  {
    hide Insert, Remove, Sorted;
    match action
    case Insertion(t) =>
      InsertSorted(b.timers, t);
      InsertContents(b.timers, t);
    case Cancellation(t) =>
      RemoveSorted(b.timers, t);
      RemoveContents(b.timers, t);
  }

  lemma {:induction false} ActsKeep(b: Books, actions: seq<Action>)
    requires Balanced(b)
    ensures Balanced(ActAll(b, actions))
    decreases |actions|
  {
    if actions != [] {
      ActKeeps(b, actions[0]);
      ActsKeep(Act(b, actions[0]), actions[1..]);
    }
  }

  lemma {:induction false} ActsKeepFired(b: Books, actions: seq<Action>)
    ensures ActAll(b, actions).fired == b.fired
    decreases |actions|
  {
    if actions != [] {
      ActsKeepFired(Act(b, actions[0]), actions[1..]);
    }
  }

  lemma FireKeeps(b: Books)
    requires Balanced(b) && b.timers != []
    ensures Balanced(b.(timers := b.timers[1..], fired := b.fired + [b.timers[0]]))
  {
    assert b.timers == [b.timers[0]] + b.timers[1..];
  }

  /**
   * A drain with any callbacks keeps the list sorted and the books balanced: each entry leaves once, by firing
   * or by being cancelled.
   */
  lemma {:induction false} DrainBalances(b: Books, turns: seq<Turn>)
    requires Balanced(b)
    ensures Balanced(DrainBooks(b, turns))
    decreases |turns|
  {
    if turns != [] && HeadDue(b, turns[0].now) {
      FireKeeps(b);
      ActsKeep(b.(timers := b.timers[1..], fired := b.fired + [b.timers[0]]), turns[0].actions);
      DrainBalances(FireHead(b, turns[0].actions), turns[1..]);
    }
  }

  /** Nothing fires before its expiry, by the clock read in the same turn. */
  lemma {:induction false} NeverEarly(b: Books, turns: seq<Turn>, k: nat)
    requires |b.fired| <= k < |DrainBooks(b, turns).fired|
    ensures k - |b.fired| < |turns|
    ensures DrainBooks(b, turns).fired[k].expiry <= turns[k - |b.fired|].now
    ensures DrainBooks(b, turns).fired[..|b.fired|] == b.fired
    decreases |turns|
  {
    assert turns != [] && HeadDue(b, turns[0].now);
    var next := FireHead(b, turns[0].actions);
    ActsKeepFired(b.(timers := b.timers[1..], fired := b.fired + [b.timers[0]]), turns[0].actions);
    DrainExtends(next, turns[1..]);
    if k > |b.fired| {
      NeverEarly(next, turns[1..], k);
    }
  }

  lemma {:induction false} DrainExtends(b: Books, turns: seq<Turn>)
    ensures b.fired <= DrainBooks(b, turns).fired
    decreases |turns|
  {
    if turns != [] && HeadDue(b, turns[0].now) {
      ActsKeepFired(b.(timers := b.timers[1..], fired := b.fired + [b.timers[0]]), turns[0].actions);
      DrainExtends(FireHead(b, turns[0].actions), turns[1..]);
    }
  }

  /** Callbacks act one after the other. */
  lemma {:induction false} ActsSnoc(b: Books, actions: seq<Action>, action: Action)
    ensures ActAll(b, []) == b && ActAll(b, actions + [action]) == Act(ActAll(b, actions), action)
    decreases |actions|
  {
    hide Act;
    if actions == [] {
      assert [action][1..] == [] && actions + [action] == [action];
    } else {
      assert (actions + [action])[1..] == actions[1..] + [action];
      ActsSnoc(Act(b, actions[0]), actions[1..], action);
    }
  }

  /** One timer at a time: it leaves the list, then its callback's calls take effect, and the loop goes on. */
  lemma TimersInTurn(b: Books, turn: Turn, turns: seq<Turn>)
    ensures DrainBooks(b, [turn] + turns) ==
              if HeadDue(b, turn.now) then
                DrainBooks(ActAll(b.(timers := b.timers[1..], fired := b.fired + [b.timers[0]]), turn.actions), turns)
              else b
  {
    assert ([turn] + turns)[1..] == turns;
  }

  /** `n` turns at one time whose callbacks do nothing. */
  function Quiet(now: nat, n: nat): (turns: seq<Turn>)
    ensures |turns| == n
  {
    seq(n, _ => Turn(now, []))
  }

  lemma QuietTail(now: nat, n: nat)
    requires n > 0
    ensures Quiet(now, n)[1..] == Quiet(now, n - 1) && Quiet(now, n)[0] == Turn(now, [])
  {
  }

  /** One quiet turn. */
  lemma QuietTurn(b: Books, now: nat, n: nat)
    ensures DrainBooks(b, Quiet(now, n)) ==
              if n > 0 && HeadDue(b, now) then
                DrainBooks(b.(timers := b.timers[1..], fired := b.fired + [b.timers[0]]), Quiet(now, n - 1))
              else b
  {
    if n > 0 {
      QuietTail(now, n);
    }
  }

  /** A drain whose callbacks do nothing fires what is due, in list order, and leaves the rest. */
  lemma {:induction false} QuietDrain(b: Books, now: nat, n: nat)
    requires n >= |b.timers|
    ensures var due := UpperBound(b.timers, now);
            DrainBooks(b, Quiet(now, n)) == b.(timers := b.timers[due..], fired := b.fired + b.timers[..due])
    decreases n
  {
    hide Quiet, DrainBooks;
    QuietTurn(b, now, n);
    if n > 0 && HeadDue(b, now) {
      QuietDrain(b.(timers := b.timers[1..], fired := b.fired + [b.timers[0]]), now, n - 1);
      FrontSteps(b.fired, b.timers, UpperBound(b.timers, now));
    } else {
      assert b.timers[0..] == b.timers && b.fired + b.timers[..0] == b.fired;
    }
  }

  /** No turn of the drain cancels a timer of this expiry. */
  predicate NoneCancelled(turns: seq<Turn>, expiry: nat) {
    forall turn, action | turn in turns && action in turn.actions ::
      action.Cancellation? ==> action.timer.expiry != expiry
  }

  /** The timers of one expiry that have fired, then those still pending: their insertion order. */
  function Line(b: Books, expiry: nat): seq<Timer> {
    Among(b.fired, expiry) + Among(b.timers, expiry)
  }

  lemma ActLine(b: Books, action: Action, expiry: nat)
    requires Sorted(b.timers)
    requires action.Cancellation? ==> action.timer.expiry != expiry
    requires Line(b, expiry) == Among(b.inserted, expiry)
    ensures Line(Act(b, action), expiry) == Among(Act(b, action).inserted, expiry)
  {
    hide Insert, Remove, Among;
    match action
    case Insertion(t) =>
      InsertAmong(b.timers, t, expiry);
      AmongSnoc(b.inserted, t, expiry);
      assert Among(b.fired, expiry) + (Among(b.timers, expiry) + [t]) == Line(b, expiry) + [t];
    case Cancellation(t) =>
      RemoveAmong(b.timers, t, expiry);
  }

  lemma AmongSnoc(s: seq<Timer>, t: Timer, expiry: nat)
    ensures Among(s + [t], expiry) == if t.expiry == expiry then Among(s, expiry) + [t] else Among(s, expiry)
  {
    AmongAppend(s, [t], expiry);
    assert Among(s, expiry) + [] == Among(s, expiry);
  }

  lemma {:induction false} ActsLine(b: Books, actions: seq<Action>, expiry: nat)
    requires Balanced(b) && Line(b, expiry) == Among(b.inserted, expiry)
    requires forall action | action in actions :: action.Cancellation? ==> action.timer.expiry != expiry
    ensures var b' := ActAll(b, actions); Line(b', expiry) == Among(b'.inserted, expiry)
    decreases |actions|
  {
    hide Line, Balanced, Among;
    if actions != [] {
      BalancedSorted(b);
      ActKeeps(b, actions[0]);
      ActLine(b, actions[0], expiry);
      ActsLine(Act(b, actions[0]), actions[1..], expiry);
    }
  }

  lemma BalancedSorted(b: Books)
    requires Balanced(b)
    ensures Sorted(b.timers)
  {
  }

  lemma FireLine(b: Books, expiry: nat)
    requires b.timers != []
    ensures Line(b.(timers := b.timers[1..], fired := b.fired + [b.timers[0]]), expiry) == Line(b, expiry)
  {
    var t := b.timers[0];
    AmongSnoc(b.fired, t, expiry);
    assert b.timers == [t] + b.timers[1..];
    AmongAppend([t], b.timers[1..], expiry);
    if t.expiry == expiry {
      assert Among(b.fired, expiry) + [t] + Among(b.timers[1..], expiry)
          == Among(b.fired, expiry) + ([t] + Among(b.timers[1..], expiry));
    }
  }

  /** When none of an expiry is cancelled, its line is just what was inserted. */
  lemma {:induction false} NoneCancelledLine(b: Books, turns: seq<Turn>, expiry: nat)
    requires Balanced(b) && Line(b, expiry) == Among(b.inserted, expiry) && NoneCancelled(turns, expiry)
    ensures var b' := DrainBooks(b, turns); Line(b', expiry) == Among(b'.inserted, expiry)
    decreases |turns|
  {
    hide Line, Balanced;
    if turns != [] && HeadDue(b, turns[0].now) {
      var popped := b.(timers := b.timers[1..], fired := b.fired + [b.timers[0]]);
      FireKeeps(b);
      FireLine(b, expiry);
      ActsLine(popped, turns[0].actions, expiry);
      ActsKeep(popped, turns[0].actions);
      NoneCancelledLine(FireHead(b, turns[0].actions), turns[1..], expiry);
    }
  }

  // ----- first in, first out, cancellations or not

  /** `a` is `b` with some elements left out. */
  predicate Sub(a: seq<Timer>, b: seq<Timer>)
    decreases |b|
  {
    || a == []
    || (b != []
        && (Sub(a, b[..|b| - 1]) || (a[|a| - 1] == b[|b| - 1] && Sub(a[..|a| - 1], b[..|b| - 1]))))
  }

  lemma SubSnoc(a: seq<Timer>, b: seq<Timer>, t: Timer)
    requires Sub(a, b)
    ensures Sub(a, b + [t]) && Sub(a + [t], b + [t])
  {
    assert (b + [t])[..|b|] == b && (a + [t])[..|a|] == a;
  }

  /** Leaving out one more. */
  lemma {:induction false} SubDrop(a: seq<Timer>, b: seq<Timer>, i: nat)
    requires Sub(a, b) && i < |a|
    ensures Sub(a[..i] + a[i + 1..], b)
    decreases |b|
  {
    var n, b' := |a| - 1, b[..|b| - 1];
    var rest := a[..i] + a[i + 1..];
    if Sub(a, b') {
      SubDrop(a, b', i);
    } else if i == n {
      assert rest == a[..n];
    } else {
      SubDrop(a[..n], b', i);
      assert rest[..|rest| - 1] == a[..n][..i] + a[..n][i + 1..];
    }
  }

  /** Cancelling takes one out of the part of the line that has not fired. */
  lemma {:induction false} SubRemove(fired: seq<Timer>, pending: seq<Timer>, b: seq<Timer>, t: Timer)
    requires Sub(fired + pending, b)
    ensures Sub(fired + Remove(pending, t), b)
    decreases |pending|
  {
    if pending != [] {
      var x, rest := pending[0], pending[1..];
      if x == t {
        SubDrop(fired + pending, b, |fired|);
        assert (fired + pending)[..|fired|] + (fired + pending)[|fired| + 1..] == fired + rest;
      } else {
        assert fired + pending == (fired + [x]) + rest;
        SubRemove(fired + [x], rest, b, t);
        assert fired + ([x] + Remove(rest, t)) == (fired + [x]) + Remove(rest, t);
      }
    }
  }

  /** The timers of the expiry have fired, and are queued to fire, in the order they were inserted. */
  ghost predicate InOrder(b: Books, expiry: nat) {
    Sub(Line(b, expiry), Among(b.inserted, expiry))
  }

  ghost predicate AllInOrder(b: Books) {
    forall e: nat :: InOrder(b, e)
  }

  lemma ActInOrder(b: Books, action: Action, expiry: nat)
    requires Sorted(b.timers) && InOrder(b, expiry)
    ensures InOrder(Act(b, action), expiry)
  {
    hide Insert, Remove, Among, Sub;
    match action
    case Insertion(t) =>
      InsertAmong(b.timers, t, expiry);
      AmongSnoc(b.inserted, t, expiry);
      SubSnoc(Line(b, expiry), Among(b.inserted, expiry), t);
      assert Among(b.fired, expiry) + (Among(b.timers, expiry) + [t]) == Line(b, expiry) + [t];
    case Cancellation(t) =>
      RemoveAmong(b.timers, t, expiry);
      SubRemove(Among(b.fired, expiry), Among(b.timers, expiry), Among(b.inserted, expiry), t);
  }

  lemma ActKeepsOrder(b: Books, action: Action)
    requires Balanced(b) && AllInOrder(b)
    ensures AllInOrder(Act(b, action))
  {
    hide InOrder;
    forall e: nat
      ensures InOrder(Act(b, action), e)
    {
      BalancedSorted(b);
      ActInOrder(b, action, e);
    }
  }

  lemma FireKeepsOrder(b: Books)
    requires b.timers != [] && AllInOrder(b)
    ensures AllInOrder(b.(timers := b.timers[1..], fired := b.fired + [b.timers[0]]))
  {
    hide Line, Among, Sub;
    forall e: nat
      ensures InOrder(b.(timers := b.timers[1..], fired := b.fired + [b.timers[0]]), e)
    {
      assert InOrder(b, e);
      FireLine(b, e);
    }
  }

  lemma {:induction false} ActsInOrder(b: Books, actions: seq<Action>, expiry: nat)
    requires Balanced(b) && InOrder(b, expiry)
    ensures InOrder(ActAll(b, actions), expiry)
    decreases |actions|
  {
    hide Balanced, InOrder;
    if actions != [] {
      BalancedSorted(b);
      ActKeeps(b, actions[0]);
      ActInOrder(b, actions[0], expiry);
      ActsInOrder(Act(b, actions[0]), actions[1..], expiry);
    }
  }

  /**
   * First in, first out among equal expiries, whatever callbacks insert and cancel: the timers of an expiry that
   * are not cancelled have fired, and will fire, in the order they were inserted.
   */
  lemma {:induction false} FirstInFirstOut(b: Books, turns: seq<Turn>, expiry: nat)
    requires Balanced(b) && InOrder(b, expiry)
    ensures InOrder(DrainBooks(b, turns), expiry)
    decreases |turns|
  {
    hide Line, Balanced, Among, Sub;
    if turns != [] && HeadDue(b, turns[0].now) {
      var popped := b.(timers := b.timers[1..], fired := b.fired + [b.timers[0]]);
      FireKeeps(b);
      FireLine(b, expiry);
      ActsInOrder(popped, turns[0].actions, expiry);
      ActsKeep(popped, turns[0].actions);
      FirstInFirstOut(FireHead(b, turns[0].actions), turns[1..], expiry);
    }
  }

  /** What is missing from the line of an expiry is what was cancelled. */
  lemma LineAccounts(b: Books, expiry: nat)
    requires Balanced(b)
    ensures multiset(Among(b.inserted, expiry)) == multiset(Line(b, expiry)) + multiset(Among(b.cancelled, expiry))
  {
    hide Among, Sorted;
    forall t: Timer
      ensures multiset(Among(b.inserted, expiry))[t]
           == (multiset(Line(b, expiry)) + multiset(Among(b.cancelled, expiry)))[t]
    {
      AmongCount(b.inserted, expiry, t);
      AmongCount(b.fired, expiry, t);
      AmongCount(b.timers, expiry, t);
      AmongCount(b.cancelled, expiry, t);
    }
  }

  lemma {:induction false} AmongCount(s: seq<Timer>, expiry: nat, t: Timer)
    ensures multiset(Among(s, expiry))[t] == if t.expiry == expiry then multiset(s)[t] else 0
  {
    if s != [] {
      assert s == [s[0]] + s[1..];
      AmongCount(s[1..], expiry, t);
    }
  }

  /** Insertions alone build the stable sort of what was inserted, whatever the order of arrival. */
  lemma {:induction false} InsertionsSortStably(ts: seq<Timer>, b: Books)
    requires Balanced(b) && forall e: nat :: Line(b, e) == Among(b.inserted, e)
    ensures var b' := ActAll(b, InsertAll(ts));
            Balanced(b') && b'.inserted == b.inserted + ts && forall e: nat :: Line(b', e) == Among(b'.inserted, e)
    decreases |ts|
  {
    hide Line, Balanced, Among, Insert;
    if ts == [] {
      assert b.inserted + ts == b.inserted;
    } else {
      var b' := Act(b, Insertion(ts[0]));
      ActKeeps(b, Insertion(ts[0]));
      BalancedSorted(b);
      forall e: nat
        ensures Line(b', e) == Among(b'.inserted, e)
      {
        ActLine(b, Insertion(ts[0]), e);
      }
      InsertionsSortStably(ts[1..], b');
      assert b.inserted + [ts[0]] + ts[1..] == b.inserted + ts;
    }
  }

  function InsertAll(ts: seq<Timer>): (actions: seq<Action>) {
    if ts == [] then [] else [Insertion(ts[0])] + InsertAll(ts[1..])
  }
}
