/**
 * When leaving `run` is clean: what a thread inside `execute` has to hold for the loop not to be gone before it is
 * through, and what happens otherwise.
 */
module EventLoopExit {
  import opened EventLoop
  import opened TimerList

  /** In `wake_up`, or about to call it. */
  predicate InWakeUp(call: Call) {
    call.Queued? || call.Marked?
  }

  // ----- continuations

  /** The steps can be taken, one after the other. */
  ghost predicate Can(s: State, path: seq<Step>)
    decreases |path|
  {
    path == [] || (Enabled(s, path[0]) && Can(Next(s, path[0]), path[1..]))
  }

  ghost function After(s: State, path: seq<Step>): State
    requires Can(s, path)
    decreases |path|
  {
    if path == [] then s else After(Next(s, path[0]), path[1..])
  }

  /** The run, continued. */
  lemma {:induction false} Continue(states: seq<State>, steps: seq<Step>, threads: set<nat>, path: seq<Step>)
    returns (states': seq<State>)
    requires IsRun(states, steps, threads) && Can(states[|steps|], path)
    ensures IsRun(states', steps + path, threads) && states <= states'
    ensures states'[|steps + path|] == After(states[|steps|], path)
    decreases |path|
  {
    hide Next, Enabled;
    if path == [] {
      assert steps + path == steps;
      states' := states;
    } else {
      var s' := Next(states[|steps|], path[0]);
      states' := Continue(states + [s'], steps + [path[0]], threads, path[1..]);
      assert steps + [path[0]] + path[1..] == steps + path;
    }
  }

  /** Thread `tid` takes no step, and no handle is added or removed. */
  predicate Aside(step: Step, tid: nat) {
    !By(step, tid) && !step.AddHandle? && !step.RemoveHandle?
  }

  /** The steps lead to `run` returning. */
  ghost predicate LeavesRun(s: State, path: seq<Step>)
    requires Can(s, path)
  {
    path != [] && path[|path| - 1].Test? && After(s, path).phase.Outside?
  }

  /** `run` can return while thread `tid` stays where it is. */
  ghost predicate CanLeaveBehind(s: State, tid: nat) {
    exists path: seq<Step> :: Can(s, path) && (forall step | step in path :: Aside(step, tid)) && LeavesRun(s, path)
  }

  lemma StepAside(s: State, step: Step, tid: nat)
    requires Enabled(s, step) && Aside(step, tid) && tid in s.calls
    ensures tid in Next(s, step).calls && Next(s, step).calls[tid] == s.calls[tid] && Next(s, step).handles == s.handles
  {
    hide Insert, Remove, ScheduleAfter, HeadDue, TodoOf;
  }

  /** No path leaves `run` while a handle stays. */
  lemma {:induction false} HeldStays(s: State, path: seq<Step>, tid: nat)
    requires Inv(s) && Can(s, path) && tid in s.calls && forall step | step in path :: Aside(step, tid)
    requires s.handles > 0
    ensures path != [] && path[|path| - 1].Test? ==> !After(s, path).phase.Outside?
    decreases |path|
  {
    hide Inv, Next, Enabled;
    if path != [] {
      StepKeepsInv(s, path[0]);
      StepAside(s, path[0], tid);
      if |path| == 1 {
        if path[0].Test? && Next(s, path[0]).phase.Outside? {
          ExitingTest(s);
          NoneLeft(s);
        }
      } else {
        HeldStays(Next(s, path[0]), path[1..], tid);
      }
    }
  }

  // ----- driving the loop to its exit

  /** Thread `tid` is in `wake_up`, and nobody holds a handle. */
  ghost predicate Unheld(s: State, tid: nat) {
    Inv(s) && LOOP in s.calls && tid != LOOP && tid in s.calls && InWakeUp(s.calls[tid]) && s.handles == 0
  }

  /** Work not yet done: a submission weighs more than the task it becomes, and a task more than its timer. */
  function Work(s: State): nat
    requires LOOP in s.calls
  {
    4 * |Counting(s.calls)| + 3 * (|s.tasks| + |Batch(s.phase)|) + TodoWork(s.phase) + |s.timers|
  }

  function TodoWork(phase: Phase): nat {
    if !phase.InTask? || phase.todo.Nothing? then 0 else if phase.todo.DoSchedule? then 2 else 1
  }

  /** Steps left in the loop thread's own call. */
  function CallRank(call: Call): nat {
    match call
    case Idle => 0
    case Queued => 2
    case _ => 1
  }

  /** Steps left until work gets done, or, when there is none, until the test. */
  function PhaseRank(s: State): nat
    requires LOOP in s.calls
  {
    var idle := Work(s) == 0;
    match s.phase
    case Testing => if idle then 0 else 10
    case Outside => 11
    case Waiting(_) => 9
    case Resetting => 8
    case Handling => 8
    case Firing(_) => 7
    case InTimer(_) => 16
    case Splicing(_) => if idle || s.tasks != [] then 6 else 14
    case Draining(batch, _) => if idle || batch != [] then 5 else 13
    case InTask(_, _, _) => 15
    case Subtracting(_) => if idle then 4 else 12
  }

  /** Time until the wait is over and every timer is due. */
  function Remaining(s: State): nat {
    var last := LastExpiry(s.timers);
    var until := if s.phase.Waiting? && s.phase.until > last then s.phase.until else last;
    if until > s.now then until - s.now else 0
  }

  function LastExpiry(timers: seq<Timer>): nat {
    if timers == [] then 0 else timers[|timers| - 1].expiry
  }

  /** The step makes progress towards the test. */
  ghost predicate Advances(s: State, step: Step, tid: nat)
    requires Unheld(s, tid)
  {
    && Enabled(s, step) && Aside(step, tid)
    && var s' := Next(s, step);
       && LOOP in s'.calls
       && (Work(s') < Work(s)
           || (Work(s') == Work(s) && CallRank(s'.calls[LOOP]) < CallRank(s.calls[LOOP]))
           || (Work(s') == Work(s) && CallRank(s'.calls[LOOP]) == CallRank(s.calls[LOOP]) &&
             PhaseRank(s') < PhaseRank(s))
           || (Work(s') == Work(s) && CallRank(s'.calls[LOOP]) == CallRank(s.calls[LOOP]) &&
             PhaseRank(s') == PhaseRank(s)
               && Remaining(s') < Remaining(s)))
  }

  /** A thread that has counted its task queues it. */
  lemma AdvanceCounted(s: State, tid: nat, other: nat)
    requires Unheld(s, tid) && other in s.calls && s.calls[other].Counted?
    ensures Advances(s, Enqueue(other), tid)
  {
    hide Counting, Insert, Remove, CountAccounted, FirstInFirstOut, TimersConserved, ForwardsArrive, DeadlineKept,
      FlagBacked, NoLostTask;
    CountingAfter(s.calls, other, Queued);
  }

  /** The loop thread's own call goes on. */
  lemma AdvanceCall(s: State, tid: nat) returns (step: Step)
    requires Unheld(s, tid) && !s.calls[LOOP].Idle? && !s.calls[LOOP].Counted?
    ensures Advances(s, step, tid)
  {
    hide Counting, Insert, Remove, CountAccounted, FirstInFirstOut, TimersConserved, ForwardsArrive, DeadlineKept,
      FlagBacked, NoLostTask;
    step := match s.calls[LOOP]
      case Queued => Mark(LOOP)
      case Marked => Post(LOOP)
      case Inserted => CountTimer
      case _ => UncountTimer;
    CountingAfter(s.calls, LOOP, Idle);
    CountingAfter(s.calls, LOOP, Marked);
  }

  /** Time passes. */
  lemma AdvanceClock(s: State, tid: nat)
    requires Unheld(s, tid) && Remaining(s) > 0
    ensures Advances(s, Tick, tid)
  {
    hide Insert, Remove, CountAccounted, FirstInFirstOut, TimersConserved, ForwardsArrive, DeadlineKept,
      FlagBacked, NoLostTask;
    assert s.(now := s.now + 1).calls == s.calls;
    hide Counting, TodoWork;
  }

  /** Every thread has queued its task, the loop thread is in no call of its own, and all timers are due. */
  ghost predicate Settled(s: State, tid: nat) {
    Unheld(s, tid) && |Counting(s.calls)| == 0 && s.calls[LOOP].Idle? && Remaining(s) == 0
  }

  lemma ActiveMeansWork(s: State, tid: nat)
    requires Settled(s, tid) && s.phase.Testing? && s.active != 0
    ensures Work(s) > 0
  {
    hide ThreadsInOrder, FirstInFirstOut, TimersConserved, ForwardsArrive, DeadlineKept, FlagBacked, NoLostTask;
  }

  /** The test of a loop with work. */
  lemma AdvanceTest(s: State, tid: nat)
    requires Settled(s, tid) && s.phase.Testing? && s.active != 0
    ensures Advances(s, Test, tid)
  {
    ActiveMeansWork(s, tid);
    hide Inv, Counting, ScheduleAfter, Remaining, InWakeUp;
  }

  /** Around the wait. */
  lemma AdvanceWait(s: State, tid: nat) returns (step: Step)
    requires Settled(s, tid)
    requires s.phase.Outside? || s.phase.Waiting? || s.phase.Resetting? || s.phase.Handling? || s.phase.Subtracting?
    ensures Advances(s, step, tid)
  {
    hide Inv, Counting, ScheduleAfter, InWakeUp;
    if s.phase.Waiting? {
      step := TimeOut;
    } else {
      hide Remaining;
      if s.phase.Resetting? {
        step := Reset;
      } else if s.phase.Outside? {
        step := BeginRun;
      } else if s.phase.Handling? {
        step := HandlerReturns;
      } else {
        step := Subtract;
      }
    }
  }

  lemma FirstIsDue(s: State)
    requires Inv(s) && Remaining(s) == 0 && s.timers != []
    ensures HeadDue(s)
  {
    hide Insert, Remove, CountAccounted, ThreadsInOrder, FirstInFirstOut, ForwardsArrive, DeadlineKept, FlagBacked,
      NoLostTask;
  }

  /** Among the timers: when one is left, the first one is due. */
  lemma AdvanceTimers(s: State, tid: nat) returns (step: Step)
    requires Settled(s, tid) && (s.phase.Firing? || s.phase.InTimer?)
    ensures Advances(s, step, tid)
  {
    hide Counting, Insert, Remove, ScheduleAfter, CountAccounted, FirstInFirstOut, TimersConserved, ForwardsArrive,
      DeadlineKept, FlagBacked, NoLostTask;
    if s.phase.InTimer? {
      step := TimerReturns;
    } else if s.timers != [] {
      FirstIsDue(s);
      step := Fire;
    } else {
      step := NoneDue;
    }
  }

  /** Among the tasks. */
  lemma AdvanceTasks(s: State, tid: nat) returns (step: Step)
    requires Settled(s, tid) && (s.phase.Splicing? || s.phase.Draining?)
    ensures Advances(s, step, tid)
  {
    hide Counting, ScheduleAfter, Insert, Remove, CountAccounted, FirstInFirstOut, TimersConserved, ForwardsArrive,
      DeadlineKept, FlagBacked, NoLostTask;
    if s.phase.Splicing? {
      step := Splice;
    } else if s.phase.batch != [] {
      step := StartTask;
    } else {
      step := BatchDone;
    }
  }

  /** In a task: a one-shot task has its timer to schedule or to cancel first. */
  lemma AdvanceInTask(s: State, tid: nat) returns (step: Step)
    requires Settled(s, tid) && s.phase.InTask?
    ensures Advances(s, step, tid)
  {
    hide Counting, ScheduleAfter, Insert, Remove, HeadDue, CountAccounted, FirstInFirstOut, TimersConserved,
      ForwardsArrive, DeadlineKept, FlagBacked, NoLostTask;
    match s.phase.todo {
      case DoSchedule(t) =>
        CountingAfter(s.calls, LOOP, Inserted);
        step := InsertTimer(t);
      case DoCancel(t) =>
        CountingAfter(s.calls, LOOP, Removed);
        step := RemoveTimer(t);
      case Nothing =>
        step := TaskReturns;
    }
  }

  /** Until the test of an idle loop there is always a step forward that leaves `tid` alone. */
  lemma Advance(s: State, tid: nat) returns (step: Step)
    requires Unheld(s, tid) && !(s.phase.Testing? && s.active == 0 && s.calls[LOOP].Idle?)
    ensures Advances(s, step, tid)
  {
    hide Advances, Remaining, FirstInFirstOut, TimersConserved, ForwardsArrive, DeadlineKept, FlagBacked, NoLostTask;
    if other :| other in s.calls && s.calls[other].Counted? {
      AdvanceCounted(s, tid, other);
      step := Enqueue(other);
    } else if !s.calls[LOOP].Idle? {
      step := AdvanceCall(s, tid);
    } else if Remaining(s) > 0 {
      AdvanceClock(s, tid);
      step := Tick;
    } else {
      assert Counting(s.calls) == {};
      hide Inv;
      match s.phase {
        case Firing(_) => step := AdvanceTimers(s, tid);
        case InTimer(_) => step := AdvanceTimers(s, tid);
        case Splicing(_) => step := AdvanceTasks(s, tid);
        case Draining(_, _) => step := AdvanceTasks(s, tid);
        case InTask(_, _, _) => step := AdvanceInTask(s, tid);
        case Testing =>
          AdvanceTest(s, tid);
          step := Test;
        case _ => step := AdvanceWait(s, tid);
      }
    }
  }

  lemma LoopIsThere(s: State)
    requires Inv(s)
    ensures LOOP in s.calls
  {
  }

  /** The loop can be brought to its exit. */
  lemma {:induction false} Leave(s: State, tid: nat) returns (path: seq<Step>)
    requires Unheld(s, tid)
    ensures Can(s, path) && (forall step | step in path :: Aside(step, tid)) && LeavesRun(s, path)
    decreases Work(s), CallRank(s.calls[LOOP]), PhaseRank(s), Remaining(s)
  {
    hide Inv, Next, Enabled, Work, CallRank, PhaseRank, Remaining;
    if s.phase.Testing? && s.active == 0 && s.calls[LOOP].Idle? {
      path := [Test];
      TestLeaves(s);
      assert path[1..] == [];
    } else {
      var step := Advance(s, tid);
      StepKeepsInv(s, step);
      StepAside(s, step, tid);
      var rest := Leave(Next(s, step), tid);
      path := [step] + rest;
      assert path[1..] == rest;
    }
  }

  lemma TestLeaves(s: State)
    requires LOOP in s.calls && s.phase.Testing? && s.active == 0
    ensures Enabled(s, Test) && Next(s, Test).phase.Outside?
  {
  }

  /**
   * With a thread on its way through `wake_up`, and handles left as they are, `run` can return before that thread
   * is through exactly when no handle is held.
   */
  lemma LeftBehindIffUnheld(states: seq<State>, steps: seq<Step>, threads: set<nat>, tid: nat)
    requires IsRun(states, steps, threads)
    requires var s := states[|steps|]; tid != LOOP && tid in s.calls && InWakeUp(s.calls[tid])
    ensures CanLeaveBehind(states[|steps|], tid) <==> states[|steps|].handles == 0
  {
    hide Inv, Next, Enabled, Forwarded;
    var s := states[|steps|];
    RunKeepsInv(states, steps, threads, |steps|);
    LoopIsThere(s);
    if s.handles == 0 {
      var path := Leave(s, tid);
    } else {
      forall path: seq<Step> | Can(s, path) && forall step | step in path :: Aside(step, tid)
        ensures !LeavesRun(s, path)
      {
        HeldStays(s, path, tid);
      }
    }
  }

  /** A thread has queued its task, and has yet to call `wake_up`. */
  lemma OneTaskQueued()
    ensures var s, queue := Initial({1, 2}), [Count(1, Plain(1)), Enqueue(1)];
            && Can(s, queue) && LOOP in After(s, queue).calls && 1 in After(s, queue).calls
            && After(s, queue).calls[1].Queued? && After(s, queue).handles == 0
  {
    hide Insert, Remove, ScheduleAfter;
    var s, queue := Initial({1, 2}), [Count(1, Plain(1)), Enqueue(1)];
    var counted := Next(s, queue[0]);
    var queued := Next(counted, Enqueue(1));
    assert queue[1..] == [Enqueue(1)] && queue[1..][1..] == [];
    assert Can(queued, []) && After(queued, []) == queued;
    assert Can(counted, [Enqueue(1)]) && After(counted, [Enqueue(1)]) == queued;
  }

  /**
   * Leaving `run` does not wait for `wake_up`: the loop can finish every task, and return, while the thread
   * that queued one of them has not yet touched the completion port.
   */
  lemma ExitMayPrecedeWakeUp() returns (states: seq<State>, steps: seq<Step>)
    ensures IsRun(states, steps, {1, 2}) && |states| == |steps| + 1 && |steps| > 0
    ensures steps[|steps| - 1].Test? && states[|steps|].phase.Outside?
    ensures 1 in states[|steps|].calls && states[|steps|].calls[1].Queued?
  {
    states, steps := [Initial({1, 2})], [];
    var queue := [Count(1, Plain(1)), Enqueue(1)];
    OneTaskQueued();
    hide Next, Enabled, Inv;
    states := Continue(states, steps, {1, 2}, queue);
    steps := steps + queue;
    RunKeepsInv(states, steps, {1, 2}, |steps|);
    var path := Leave(states[|steps|], 1);
    PathAside(states[|steps|], path, 1);
    states := Continue(states, steps, {1, 2}, path);
    steps := steps + path;
  }

  lemma {:induction false} PathAside(s: State, path: seq<Step>, tid: nat)
    requires Can(s, path) && tid in s.calls && forall step | step in path :: Aside(step, tid)
    ensures tid in After(s, path).calls && After(s, path).calls[tid] == s.calls[tid]
    decreases |path|
  {
    hide Next, Enabled;
    if path != [] {
      StepAside(s, path[0], tid);
      PathAside(Next(s, path[0]), path[1..], tid);
    }
  }
}
