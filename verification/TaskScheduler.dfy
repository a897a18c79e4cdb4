/**
 * The cancellable scheduler of tdk.task/task/scheduler.cpp. Its lock is recursive and held across callbacks, so
 * only the callbacks themselves can re-enter it while it drains.
 */
module TaskScheduler {
  import opened TimerList
  import S = Scheduler

  datatype Action = Scheduling(timer: Timer) | Cancelling(timer: Timer)

  /** The two lists, the scheduler's share of the loop's references, and the history of both. */
  datatype Ledger = Ledger(
    timers: seq<Timer>,
    cancelled: seq<Timer>,
    refs: int,               // the loop's reference count
    running: nat,            // entries taken out of a list whose reference is not yet returned
    scheduled: seq<Timer>,   // every entry scheduled
    withdrawn: seq<Timer>,   // every entry moved by cancel
    aborted: seq<Timer>,     // every entry completed with "aborted"
    succeeded: seq<Timer>    // every entry completed with success
  )

  function Act(l: Ledger, action: Action): Ledger {
    match action
    case Scheduling(t) =>
      l.(timers := Insert(l.timers, t), refs := l.refs + 1, scheduled := l.scheduled + [t])
    case Cancelling(t) =>
      if t in l.timers then
        l.(timers := Remove(l.timers, t), cancelled := l.cancelled + [t], withdrawn := l.withdrawn + [t])
      else l
  }

  function ActAll(l: Ledger, actions: seq<Action>): Ledger
    decreases |actions|
  {
    if actions == [] then l else ActAll(Act(l, actions[0]), actions[1..])
  }

  /** Callbacks act one after the other. */
  lemma {:induction false} ActsSnoc(l: Ledger, actions: seq<Action>, action: Action)
    ensures ActAll(l, []) == l && ActAll(l, actions + [action]) == Act(ActAll(l, actions), action)
    decreases |actions|
  {
    hide Act;
    if actions == [] {
      assert [action][1..] == [] && actions + [action] == [action];
    } else {
      assert (actions + [action])[1..] == actions[1..] + [action];
      ActsSnoc(Act(l, actions[0]), actions[1..], action);
    }
  }

  /** A callback has returned and its entry's reference is given back. */
  function Release(l: Ledger): Ledger
    requires l.running > 0
  {
    l.(refs := l.refs - 1, running := l.running - 1)
  }

  function TakeCancelled(l: Ledger): Ledger
    requires l.cancelled != []
  {
    l.(cancelled := l.cancelled[1..], aborted := l.aborted + [l.cancelled[0]], running := l.running + 1)
  }

  function TakeDue(l: Ledger): Ledger
    requires l.timers != []
  {
    l.(timers := l.timers[1..], succeeded := l.succeeded + [l.timers[0]], running := l.running + 1)
  }

  /** Callbacks neither take entries nor return references. */
  lemma {:induction false} ActsKeepTaken(l: Ledger, actions: seq<Action>)
    ensures var l' := ActAll(l, actions);
            l'.running == l.running && l'.aborted == l.aborted && l'.succeeded == l.succeeded
    decreases |actions|
  {
    if actions != [] {
      ActsKeepTaken(Act(l, actions[0]), actions[1..]);
    }
  }

  function AbortHead(l: Ledger, actions: seq<Action>): Ledger
    requires l.cancelled != []
  {
    ActsKeepTaken(TakeCancelled(l), actions);
    Release(ActAll(TakeCancelled(l), actions))
  }

  function FireHead(l: Ledger, actions: seq<Action>): Ledger
    requires l.timers != []
  {
    ActsKeepTaken(TakeDue(l), actions);
    Release(ActAll(TakeDue(l), actions))
  }

  /** First loop of `drain`; `script` lists what the callbacks do, one list a callback. */
  function DrainCancelled(l: Ledger, script: seq<seq<Action>>): (r: (Ledger, seq<seq<Action>>))
    ensures |r.1| <= |script|
    decreases |script|
  {
    if l.cancelled == [] || script == [] then (l, script)
    else DrainCancelled(AbortHead(l, script[0]), script[1..])
  }

  /** Second loop of `drain`, against the one clock sample. */
  function DrainDue(l: Ledger, local: nat, script: seq<seq<Action>>): (r: (Ledger, seq<seq<Action>>))
    ensures |r.1| <= |script|
    decreases |script|
  {
    if l.timers == [] || local < l.timers[0].expiry || script == [] then (l, script)
    else DrainDue(FireHead(l, script[0]), local, script[1..])
  }

  /** The drain as far as the script goes: the second loop starts once nothing cancelled is left. */
  function Drained(l: Ledger, local: nat, script: seq<seq<Action>>): Ledger {
    var (l', rest) := DrainCancelled(l, script);
    if l'.cancelled == [] then DrainDue(l', local, rest).0 else l'
  }

  // ----- conservation

  /**
   * The references held for timers are those of active, cancelled and running entries; entries are aborted in
   * the order they were cancelled; every scheduled entry is active, withdrawn or succeeded, once; and those of one
   * expiry that were not withdrawn succeed in the order they were scheduled.
   */
  ghost predicate Balanced(l: Ledger, others: int) {
    && Sorted(l.timers)
    && l.refs == others + |l.timers| + |l.cancelled| + l.running
    && l.withdrawn == l.aborted + l.cancelled
    && multiset(l.scheduled) == multiset(l.succeeded) + multiset(l.withdrawn) + multiset(l.timers)
    && S.AllInOrder(BooksOf(l))
  }

  /** The ledger as the books of the other scheduler, which knows no aborted entries. */
  function BooksOf(l: Ledger): S.Books {
    S.Books(l.timers, l.scheduled, l.withdrawn, l.succeeded)
  }

  function ActionOf(action: Action): S.Action {
    match action
    case Scheduling(t) => S.Insertion(t)
    case Cancelling(t) => S.Cancellation(t)
  }

  lemma SameAct(l: Ledger, action: Action)
    ensures BooksOf(Act(l, action)) == S.Act(BooksOf(l), ActionOf(action))
  {
    hide Insert, Remove;
  }

  lemma ActKeeps(l: Ledger, action: Action, others: int)
    requires Balanced(l, others)
    ensures Balanced(Act(l, action), others)
  {
    ActCounts(l, action, others);
    hide Act, S.Act, Sorted, Insert, Remove, S.AllInOrder, ActionOf;
    var b := BooksOf(l);
    S.ActKeeps(b, ActionOf(action));
    S.ActKeepsOrder(b, ActionOf(action));
    SameAct(l, action);
  }

  lemma ActCounts(l: Ledger, action: Action, others: int)
    requires Balanced(l, others)
    ensures var l' := Act(l, action);
            && l'.refs == others + |l'.timers| + |l'.cancelled| + l'.running
            && l'.withdrawn == l'.aborted + l'.cancelled
  {
    hide Insert, Remove, Sorted, S.AllInOrder;
    match action
    case Scheduling(_) =>
    case Cancelling(t) =>
      assert l.aborted + (l.cancelled + [t]) == l.aborted + l.cancelled + [t];
  }

  lemma {:induction false} ActsKeep(l: Ledger, actions: seq<Action>, others: int)
    requires Balanced(l, others)
    ensures Balanced(ActAll(l, actions), others)
    decreases |actions|
  {
    hide Balanced;
    if actions != [] {
      ActKeeps(l, actions[0], others);
      ActsKeep(Act(l, actions[0]), actions[1..], others);
    }
  }

  lemma TakeCancelledKeeps(l: Ledger, others: int)
    requires Balanced(l, others) && l.cancelled != []
    ensures Balanced(TakeCancelled(l), others)
  {
    hide Sorted, S.AllInOrder;
    assert l.aborted + [l.cancelled[0]] + l.cancelled[1..] == l.aborted + l.cancelled;
    assert BooksOf(TakeCancelled(l)) == BooksOf(l);
  }

  lemma TakeDueKeeps(l: Ledger, others: int)
    requires Balanced(l, others) && l.timers != []
    ensures Balanced(TakeDue(l), others)
  {
    hide S.AllInOrder;
    S.FireKeepsOrder(BooksOf(l));
    assert l.timers == [l.timers[0]] + l.timers[1..];
  }

  /** So does returning a reference. */
  lemma ReleaseKeeps(l: Ledger, others: int)
    requires Balanced(l, others) && l.running > 0
    ensures Balanced(Release(l), others)
  {
    hide S.AllInOrder, Sorted;
    assert BooksOf(Release(l)) == BooksOf(l);
  }

  lemma {:induction false} DrainCancelledKeeps(l: Ledger, script: seq<seq<Action>>, others: int)
    requires Balanced(l, others)
    ensures Balanced(DrainCancelled(l, script).0, others)
    decreases |script|
  {
    hide Balanced;
    if l.cancelled != [] && script != [] {
      TakeCancelledKeeps(l, others);
      ActsKeepTaken(TakeCancelled(l), script[0]);
      ActsKeep(TakeCancelled(l), script[0], others);
      ReleaseKeeps(ActAll(TakeCancelled(l), script[0]), others);
      DrainCancelledKeeps(AbortHead(l, script[0]), script[1..], others);
    }
  }

  lemma {:induction false} DrainDueKeeps(l: Ledger, local: nat, script: seq<seq<Action>>, others: int)
    requires Balanced(l, others)
    ensures Balanced(DrainDue(l, local, script).0, others)
    decreases |script|
  {
    hide Balanced;
    if l.timers != [] && l.timers[0].expiry <= local && script != [] {
      TakeDueKeeps(l, others);
      ActsKeepTaken(TakeDue(l), script[0]);
      ActsKeep(TakeDue(l), script[0], others);
      ReleaseKeeps(ActAll(TakeDue(l), script[0]), others);
      DrainDueKeeps(FireHead(l, script[0]), local, script[1..], others);
    }
  }

  /** A drain with any callbacks conserves references and entries. */
  lemma DrainConserves(l: Ledger, local: nat, script: seq<seq<Action>>, others: int)
    requires Balanced(l, others)
    ensures Balanced(Drained(l, local, script), others)
  {
    DrainCancelledKeeps(l, script, others);
    var (l', rest) := DrainCancelled(l, script);
    DrainDueKeeps(l', local, rest, others);
  }

  /** What a drain completes with success was due at its clock sample. */
  lemma {:induction false} SucceededWereDue(l: Ledger, local: nat, script: seq<seq<Action>>)
    ensures var l' := DrainDue(l, local, script).0;
            && l.succeeded <= l'.succeeded
            && l'.aborted == l.aborted
            && forall k | |l.succeeded| <= k < |l'.succeeded| :: l'.succeeded[k].expiry <= local
    decreases |script|
  {
    if l.timers != [] && l.timers[0].expiry <= local && script != [] {
      ActsKeepTaken(TakeDue(l), script[0]);
      SucceededWereDue(FireHead(l, script[0]), local, script[1..]);
    }
  }

  /** What callbacks schedule, in order. */
  function ScheduledBy(actions: seq<Action>): seq<Timer> {
    if actions == [] then []
    else (if actions[0].Scheduling? then [actions[0].timer] else []) + ScheduledBy(actions[1..])
  }

  function ScheduledByAll(script: seq<seq<Action>>): seq<Timer> {
    if script == [] then [] else ScheduledBy(script[0]) + ScheduledByAll(script[1..])
  }

  lemma {:induction false} ActsSchedule(l: Ledger, actions: seq<Action>)
    ensures ActAll(l, actions).scheduled == l.scheduled + ScheduledBy(actions)
    decreases |actions|
  {
    hide Insert, Remove;
    if actions != [] {
      ActsSchedule(Act(l, actions[0]), actions[1..]);
    }
  }

  /** The callbacks of aborted entries act: the part of the script that is used is scheduled in full. */
  lemma {:induction false} AbortedSchedule(l: Ledger, script: seq<seq<Action>>)
    ensures var (l', rest) := DrainCancelled(l, script);
            l'.scheduled + ScheduledByAll(rest) == l.scheduled + ScheduledByAll(script)
    decreases |script|
  {
    hide ActAll;
    if l.cancelled != [] && script != [] {
      ActsKeepTaken(TakeCancelled(l), script[0]);
      ActsSchedule(TakeCancelled(l), script[0]);
      AbortedSchedule(AbortHead(l, script[0]), script[1..]);
    }
  }

  lemma {:induction false} DueSchedule(l: Ledger, local: nat, script: seq<seq<Action>>)
    ensures var (l', rest) := DrainDue(l, local, script);
            l'.scheduled + ScheduledByAll(rest) == l.scheduled + ScheduledByAll(script)
    decreases |script|
  {
    hide ActAll;
    if l.timers != [] && l.timers[0].expiry <= local && script != [] {
      ActsKeepTaken(TakeDue(l), script[0]);
      ActsSchedule(TakeDue(l), script[0]);
      DueSchedule(FireHead(l, script[0]), local, script[1..]);
    }
  }

  /** One entry at a time: it leaves its list, its callback's calls take effect in order, its reference goes back. */
  lemma EntriesInTurn(l: Ledger, local: nat, actions: seq<Action>, script: seq<seq<Action>>)
    ensures l.cancelled != [] ==>
              var taken := l.(cancelled := l.cancelled[1..], aborted := l.aborted + [l.cancelled[0]]);
              DrainCancelled(l, [actions] + script) ==
                DrainCancelled(ActAll(taken, actions).(refs := ActAll(taken, actions).refs - 1), script)
    ensures l.timers != [] && l.timers[0].expiry <= local ==>
              var taken := l.(timers := l.timers[1..], succeeded := l.succeeded + [l.timers[0]]);
              DrainDue(l, local, [actions] + script) ==
                DrainDue(ActAll(taken, actions).(refs := ActAll(taken, actions).refs - 1), local, script)
  {
    hide AbortHead, FireHead, ActAll;
    assert ([actions] + script)[1..] == script;
    if l.cancelled != [] {
      AbortIs(l, actions);
    }
    if l.timers != [] {
      FireIs(l, actions);
    }
  }

  lemma AbortIs(l: Ledger, actions: seq<Action>)
    requires l.cancelled != []
    ensures var taken := l.(cancelled := l.cancelled[1..], aborted := l.aborted + [l.cancelled[0]]);
            AbortHead(l, actions) == ActAll(taken, actions).(refs := ActAll(taken, actions).refs - 1)
  {
    hide ActAll;
    RunningAside(l.(cancelled := l.cancelled[1..], aborted := l.aborted + [l.cancelled[0]]), actions);
  }

  lemma FireIs(l: Ledger, actions: seq<Action>)
    requires l.timers != []
    ensures var taken := l.(timers := l.timers[1..], succeeded := l.succeeded + [l.timers[0]]);
            FireHead(l, actions) == ActAll(taken, actions).(refs := ActAll(taken, actions).refs - 1)
  {
    hide ActAll;
    RunningAside(l.(timers := l.timers[1..], succeeded := l.succeeded + [l.timers[0]]), actions);
  }

  /** What callbacks do does not depend on the number of entries being completed. */
  lemma {:induction false} RunningAside(l: Ledger, actions: seq<Action>)
    ensures ActAll(l.(running := l.running + 1), actions) == ActAll(l, actions).(running := l.running + 1)
    ensures ActAll(l, actions).running == l.running
    decreases |actions|
  {
    hide Insert, Remove;
    if actions != [] {
      RunningAside(Act(l, actions[0]), actions[1..]);
    }
  }

  /** Callbacks only add to what has been cancelled. */
  lemma {:induction false} ActsExtendCancelled(l: Ledger, actions: seq<Action>)
    ensures l.cancelled <= ActAll(l, actions).cancelled
    decreases |actions|
  {
    if actions != [] {
      ActsExtendCancelled(Act(l, actions[0]), actions[1..]);
    }
  }

  lemma {:induction false} CancelledGoFirst(l: Ledger, script: seq<seq<Action>>)
    ensures var (l', rest) := DrainCancelled(l, script);
            && l'.succeeded == l.succeeded
            && |l'.aborted| + |rest| == |l.aborted| + |script|
            && l.aborted + l.cancelled <= l'.aborted + l'.cancelled && l.aborted <= l'.aborted
    decreases |script|
  {
    if l.cancelled != [] && script != [] {
      ActsKeepTaken(TakeCancelled(l), script[0]);
      ActsExtendCancelled(TakeCancelled(l), script[0]);
      var next := AbortHead(l, script[0]);
      CancelledGoFirst(next, script[1..]);
      assert l.aborted + l.cancelled == (l.aborted + [l.cancelled[0]]) + l.cancelled[1..];
    }
  }

  lemma {:induction false} DueCount(l: Ledger, local: nat, script: seq<seq<Action>>)
    ensures var (l', rest) := DrainDue(l, local, script);
            |l'.succeeded| + |rest| == |l.succeeded| + |script|
    decreases |script|
  {
    if l.timers != [] && l.timers[0].expiry <= local && script != [] {
      ActsKeepTaken(TakeDue(l), script[0]);
      DueCount(FireHead(l, script[0]), local, script[1..]);
    }
  }

  /**
   * A drain aborts what was cancelled before it, in the order of cancellation, before anything succeeds; and it
   * completes an entry for every callback it runs.
   */
  lemma AbortsBeforeAnythingSucceeds(l: Ledger, local: nat, script: seq<seq<Action>>)
    ensures var l' := Drained(l, local, script);
            && l.aborted <= l'.aborted && l.succeeded <= l'.succeeded
            && (l'.aborted <= l.aborted + l.cancelled || l.aborted + l.cancelled <= l'.aborted)
            && (l'.succeeded != l.succeeded ==> l.aborted + l.cancelled <= l'.aborted)
            && |l'.aborted| + |l'.succeeded| <= |l.aborted| + |l.succeeded| + |script|
  {
    CancelledGoFirst(l, script);
    var (m, rest) := DrainCancelled(l, script);
    SucceededWereDue(m, local, rest);
    DueCount(m, local, rest);
    assert m.cancelled == [] ==> m.aborted + m.cancelled == m.aborted;
    Prefixes(m.aborted, l.aborted + l.cancelled, m.aborted + m.cancelled);
  }

  /** Of two prefixes of one sequence, one is a prefix of the other. */
  lemma Prefixes(a: seq<Timer>, b: seq<Timer>, s: seq<Timer>)
    requires a <= s && b <= s
    ensures a <= b || b <= a
  {
  }

  // ----- a drain whose callbacks do nothing

  function Quiet(n: nat): (script: seq<seq<Action>>)
    ensures |script| == n
  {
    seq(n, _ => [])
  }

  lemma QuietSteps(l: Ledger)
    ensures l.cancelled != [] ==>
              AbortHead(l, []) ==
                l.(cancelled := l.cancelled[1..], aborted := l.aborted + [l.cancelled[0]], refs := l.refs - 1)
    ensures l.timers != [] ==>
              FireHead(l, []) ==
                l.(timers := l.timers[1..], succeeded := l.succeeded + [l.timers[0]], refs := l.refs - 1)
  {
  }

  lemma QuietTail(n: nat)
    requires n > 0
    ensures Quiet(n)[1..] == Quiet(n - 1) && Quiet(n)[0] == []
  {
  }

  lemma {:induction false} QuietCancelled(l: Ledger, n: nat)
    ensures var k := if n < |l.cancelled| then n else |l.cancelled|;
            DrainCancelled(l, Quiet(n)) == (l.(cancelled := l.cancelled[k..], aborted := l.aborted + l.cancelled[..k],
                                               refs := l.refs - k), Quiet(n - k))
    decreases n
  {
    hide AbortHead, FireHead, Quiet;
    if n > 0 && l.cancelled != [] {
      QuietTail(n);
      QuietSteps(l);
      QuietCancelled(AbortHead(l, []), n - 1);
      FrontSteps(l.aborted, l.cancelled, if n < |l.cancelled| then n else |l.cancelled|);
    } else {
      assert l.cancelled[0..] == l.cancelled && l.aborted + l.cancelled[..0] == l.aborted;
    }
  }

  lemma {:induction false} QuietDue(l: Ledger, local: nat, n: nat)
    ensures var due := UpperBound(l.timers, local);
            var k := if n < due then n else due;
            DrainDue(l, local, Quiet(n)) == (l.(timers := l.timers[k..], succeeded := l.succeeded + l.timers[..k],
                                               refs := l.refs - k), Quiet(n - k))
    decreases n
  {
    hide AbortHead, FireHead, Quiet;
    var due := UpperBound(l.timers, local);
    if n > 0 && l.timers != [] && l.timers[0].expiry <= local {
      QuietTail(n);
      QuietSteps(l);
      QuietDue(FireHead(l, []), local, n - 1);
      FrontSteps(l.succeeded, l.timers, if n < due then n else due);
    } else {
      assert l.timers[0..] == l.timers && l.succeeded + l.timers[..0] == l.succeeded;
    }
  }

  /** Every entry cancelled is aborted, every entry due succeeds, in list order, and each returns its reference. */
  lemma QuietDrain(l: Ledger, local: nat, n: nat)
    requires n >= |l.cancelled| + |l.timers|
    ensures var due := UpperBound(l.timers, local);
            Drained(l, local, Quiet(n)) ==
              l.(timers := l.timers[due..], cancelled := [], aborted := l.aborted + l.cancelled,
                 succeeded := l.succeeded + l.timers[..due], refs := l.refs - |l.cancelled| - due)
  {
    QuietCancelled(l, n);
    QuietDue(DrainCancelled(l, Quiet(n)).0, local, n - |l.cancelled|);
    assert l.cancelled[|l.cancelled|..] == [] && l.cancelled[..|l.cancelled|] == l.cancelled;
  }

  // ----- the class

  class Scheduler {
    var timers: seq<Timer>
    var cancelled: seq<Timer>
    var refs: int
    ghost const others: int
    ghost var ledger: Ledger

    ghost predicate Valid()
      reads this
    {
      && ledger.timers == timers && ledger.cancelled == cancelled && ledger.refs == refs
      && Balanced(ledger, others)
    }

    /** The scheduler of a loop that already holds `held` references. */
    constructor (held: int)
      ensures Valid() && ledger == Ledger([], [], held, 0, [], [], [], []) && others == held
    {
      timers, cancelled, refs := [], [], held;
      others := held;
      ledger := Ledger([], [], held, 0, [], [], [], []);
    }

    method Schedule(t: Timer)
      requires Valid()
      modifies this
      ensures Valid() && ledger == Act(old(ledger), Scheduling(t))
      ensures timers == Insert(old(timers), t) && cancelled == old(cancelled) && refs == old(refs) + 1
    {
      var k := 0;
      while k < |timers| && timers[k].expiry <= t.expiry
        invariant 0 <= k <= |timers| && forall i | 0 <= i < k :: timers[i].expiry <= t.expiry
      {
        k := k + 1;
      }
      UpperBoundUnique(timers, t.expiry, k);
      ActKeeps(ledger, Scheduling(t), others);
      ledger := Act(ledger, Scheduling(t));
      timers := timers[..k] + [t] + timers[k..];
      refs := refs + 1;
    }

    method Cancel(t: Timer) returns (found: bool)
      requires Valid()
      modifies this
      ensures Valid() && ledger == Act(old(ledger), Cancelling(t))
      ensures found <==> t in old(timers)
      ensures timers == Remove(old(timers), t) && cancelled == old(cancelled) + (if found then [t] else [])
      ensures refs == old(refs)
    {
      hide Balanced, Remove;
      var i := 0;
      while i < |timers| && timers[i] != t
        invariant 0 <= i <= |timers| && t !in timers[..i]
      {
        i := i + 1;
      }
      found := i < |timers|;
      ActKeeps(ledger, Cancelling(t), others);
      ledger := Act(ledger, Cancelling(t));
      if found {
        RemoveAt(timers, t, i);
        cancelled := cancelled + [timers[i]];
        timers := timers[..i] + timers[i + 1..];
      } else {
        assert timers[..i] == timers;
      }
    }

    method Callback(actions: seq<Action>)
      requires Valid()
      modifies this
      ensures Valid() && ledger == ActAll(old(ledger), actions)
    {
      hide Act, Balanced;
      var i := 0;
      while i < |actions|
        invariant 0 <= i <= |actions| && Valid()
        invariant ActAll(ledger, actions[i..]) == ActAll(old(ledger), actions)
        decreases |actions| - i
      {
        assert actions[i..][1..] == actions[i + 1..];
        match actions[i] {
          case Scheduling(t) => Schedule(t);
          case Cancelling(t) => var _ := Cancel(t);
        }
        i := i + 1;
      }
    }

    /** `decrement_ref` after a callback. */
    method DecrementRef()
      requires Valid() && ledger.running > 0
      modifies this
      ensures Valid() && ledger == Release(old(ledger))
    {
      refs := refs - 1;
      ledger := Release(ledger);
    }

    /** The loop over `_cancelled`. */
    method DrainCancelledList(script: seq<seq<Action>>) returns (k: nat)
      requires Valid()
      modifies this
      ensures Valid() && k <= |script|
      ensures DrainCancelled(old(ledger), script) == (ledger, script[k..])
      ensures cancelled == [] || k == |script|
      ensures |ledger.aborted| == |old(ledger).aborted| + k && ledger.succeeded == old(ledger).succeeded
    {
      hide Balanced;
      k := 0;
      while cancelled != [] && k < |script|
        invariant Valid() && k <= |script|
        invariant |ledger.aborted| == |old(ledger).aborted| + k && ledger.succeeded == old(ledger).succeeded
        invariant DrainCancelled(ledger, script[k..]) == DrainCancelled(old(ledger), script)
        decreases |script| - k
      {
        ghost var next := AbortHead(ledger, script[k]);
        TakeCancelledKeeps(ledger, others);
        ledger := TakeCancelled(ledger);
        cancelled := cancelled[1..];
        ActsKeepTaken(ledger, script[k]);
        Callback(script[k]);
        DecrementRef();
        assert ledger == next && script[k..][1..] == script[k + 1..];
        k := k + 1;
      }
    }

    /** The loop over `_timers`. */
    method DrainDueTimers(local: nat, script: seq<seq<Action>>) returns (k: nat)
      requires Valid()
      modifies this
      ensures Valid() && k <= |script|
      ensures DrainDue(old(ledger), local, script) == (ledger, script[k..])
      ensures timers == [] || local < timers[0].expiry || k == |script|
      ensures |ledger.succeeded| == |old(ledger).succeeded| + k && ledger.aborted == old(ledger).aborted
    {
      hide Balanced;
      k := 0;
      while timers != [] && timers[0].expiry <= local && k < |script|
        invariant Valid() && k <= |script|
        invariant |ledger.succeeded| == |old(ledger).succeeded| + k && ledger.aborted == old(ledger).aborted
        invariant DrainDue(ledger, local, script[k..]) == DrainDue(old(ledger), local, script)
        decreases |script| - k
      {
        ghost var next := FireHead(ledger, script[k]);
        TakeDueKeeps(ledger, others);
        ledger := TakeDue(ledger);
        timers := timers[1..];
        ActsKeepTaken(ledger, script[k]);
        Callback(script[k]);
        DecrementRef();
        assert ledger == next && script[k..][1..] == script[k + 1..];
        k := k + 1;
      }
    }

    /**
     * `drain`, as far as `script` goes: it ends when the script is used up or when it is `done`. Then it leaves no
     * timer that was due at its clock sample, and nothing that was cancelled before it; entries cancelled by its own
     * callbacks may be left for the next one.
     */
    method Drain(local: nat, script: seq<seq<Action>>) returns (done: bool)
      requires Valid()
      modifies this
      ensures Valid() && ledger == Drained(old(ledger), local, script)
      ensures done ==> forall t | t in timers :: local < t.expiry
      ensures done ==> old(ledger).aborted + old(ledger).cancelled <= ledger.aborted
      ensures !done ==>
        |ledger.aborted| + |ledger.succeeded| == |old(ledger).aborted| + |old(ledger).succeeded| + |script|
    {
      CancelledGoFirst(ledger, script);
      var k := DrainCancelledList(script);
      done := cancelled == [];
      if done {
        var j := DrainDueTimers(local, script[k..]);
        done := timers == [] || local < timers[0].expiry;
      }
    }

    /** `next_schedule`, in milliseconds. */
    method NextSchedule(local: nat) returns (span: nat)
      requires Valid()
      ensures cancelled != [] ==> span == 0
      ensures cancelled == [] && timers != [] ==>
                if timers[0].expiry <= local then span == 100 else local + span == timers[0].expiry
      ensures cancelled == [] && timers != [] && local < timers[0].expiry ==>
                forall t | t in timers :: local + span <= t.expiry
      ensures cancelled == [] && timers == [] ==> span == 100
    {
      if cancelled != [] {
        return 0;
      }
      if timers == [] || timers[0].expiry <= local {
        return 100;
      }
      span := timers[0].expiry - local;
    }
  }
}
