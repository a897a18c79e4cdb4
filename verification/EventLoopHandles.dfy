/**
 * Handles seen from the threads that hold them: what a thread can do, on its own, for `run` not to return before it
 * is through `execute`, and that nothing less will do.
 */
module EventLoopHandles {
  import opened EventLoop
  import opened EventLoopExit
  import opened TimerList

  /** `add_active` adds one to what the thread holds, `remove_active` takes one off. */
  function Change(step: Step, tid: nat): int {
    match step
    case AddHandle(t) => if t == tid then 1 else 0
    case RemoveHandle(t) => if t == tid then -1 else 0
    case _ => 0
  }

  /** What the thread has added and not removed. */
  function Held(steps: seq<Step>, tid: nat): int {
    if steps == [] then 0 else Held(steps[..|steps| - 1], tid) + Change(steps[|steps| - 1], tid)
  }

  /** No thread removes a handle that it has not added. */
  ghost predicate NoOverdraw(steps: seq<Step>) {
    forall k | 0 <= k < |steps| && steps[k].RemoveHandle? :: Held(steps[..k], steps[k].tid) > 0
  }

  /** Nor calls `execute`, `schedule` or `cancel` from outside the loop without holding one. */
  ghost predicate Careful(steps: seq<Step>) {
    && NoOverdraw(steps)
    && forall k | 0 <= k < |steps| && steps[k].Count? && steps[k].tid != LOOP :: Held(steps[..k], steps[k].tid) > 0
  }

  lemma HeldSnoc(steps: seq<Step>, step: Step, tid: nat)
    ensures Held(steps + [step], tid) == Held(steps, tid) + Change(step, tid)
  {
    assert (steps + [step])[..|steps|] == steps;
  }

  lemma {:induction false} HeldIsNat(steps: seq<Step>, i: nat, tid: nat)
    requires NoOverdraw(steps) && i <= |steps|
    ensures Held(steps[..i], tid) >= 0
    decreases i
  {
    if i > 0 {
      HeldIsNat(steps, i - 1, tid);
      assert steps[..i] == steps[..i - 1] + [steps[i - 1]];
      HeldSnoc(steps[..i - 1], steps[i - 1], tid);
    }
  }

  // ----- the loop's count of handles is the sum of what the threads hold

  function SumTo(steps: seq<Step>, n: nat): int {
    if n == 0 then 0 else SumTo(steps, n - 1) + Held(steps, n - 1)
  }

  lemma {:induction false} SumOfNone(n: nat)
    ensures SumTo([], n) == 0
  {
    if n > 0 {
      SumOfNone(n - 1);
    }
  }

  /** What a step does to the number of handles. */
  function Total(step: Step): int {
    if step.AddHandle? then 1 else if step.RemoveHandle? then -1 else 0
  }

  predicate HandleStep(step: Step) {
    step.AddHandle? || step.RemoveHandle?
  }

  lemma {:induction false} SumSnoc(steps: seq<Step>, step: Step, n: nat)
    ensures SumTo(steps + [step], n)
         == SumTo(steps, n) + if HandleStep(step) && step.tid < n then Total(step) else 0
    decreases n
  {
    if n > 0 {
      SumSnoc(steps, step, n - 1);
      HeldSnoc(steps, step, n - 1);
    }
  }

  lemma {:induction false} HeldWithinSum(steps: seq<Step>, n: nat, tid: nat)
    requires tid < n && forall t: nat :: Held(steps, t) >= 0
    ensures 0 <= Held(steps, tid) <= SumTo(steps, n)
    decreases n
  {
    SumIsNat(steps, n - 1);
    if tid < n - 1 {
      HeldWithinSum(steps, n - 1, tid);
    }
  }

  lemma {:induction false} SumIsNat(steps: seq<Step>, n: nat)
    requires forall t: nat :: Held(steps, t) >= 0
    ensures SumTo(steps, n) >= 0
  {
    if n > 0 {
      SumIsNat(steps, n - 1);
    }
  }

  /** A number above every thread that adds or removes a handle. */
  function Above(steps: seq<Step>): (n: nat)
    ensures forall step | step in steps && HandleStep(step) :: step.tid < n
  {
    if steps == [] then 0 else
      var n, last := Above(steps[..|steps| - 1]), steps[|steps| - 1];
      if HandleStep(last) && last.tid >= n then last.tid + 1 else n
  }

  lemma StepOnHandles(s: State, step: Step)
    requires Enabled(s, step)
    ensures Next(s, step).handles == s.handles + Total(step)
  {
    hide Insert, Remove, ScheduleAfter, HeadDue, TodoOf;
  }

  lemma {:induction false} HandlesAreHeld(states: seq<State>, steps: seq<Step>, threads: set<nat>, i: nat, n: nat)
    requires IsRun(states, steps, threads) && i <= |steps| && n >= Above(steps)
    ensures states[i].handles == SumTo(steps[..i], n)
    decreases i
  {
    hide Next, Enabled, SumTo;
    if i == 0 {
      SumOfNone(n);
    } else {
      HandlesAreHeld(states, steps, threads, i - 1, n);
      StepOnHandles(states[i - 1], steps[i - 1]);
      assert steps[..i] == steps[..i - 1] + [steps[i - 1]] && steps[i - 1] in steps;
      SumSnoc(steps[..i - 1], steps[i - 1], n);
    }
  }

  // ----- what a thread's own handle does

  /** A thread that holds a handle keeps `run` from returning, whatever the others do with theirs. */
  lemma OwnHandleKeepsRunning(states: seq<State>, steps: seq<Step>, threads: set<nat>, i: nat, tid: nat)
    requires IsRun(states, steps, threads) && i < |steps| && NoOverdraw(steps) && Held(steps[..i], tid) > 0
    ensures !(steps[i].Test? && states[i + 1].phase.Outside?)
  {
    hide Next, Enabled, Inv, Forwarded;
    var n := Above(steps) + tid + 1;
    HandlesAreHeld(states, steps, threads, i, n);
    forall t: nat
      ensures Held(steps[..i], t) >= 0
    {
      HeldIsNat(steps, i, t);
    }
    HeldWithinSum(steps[..i], n, tid);
    if steps[i].Test? && states[i + 1].phase.Outside? {
      ExitMeansDone(states, steps, threads, i);
    }
  }

  /** One step: a thread inside a call still holds what it held when it entered. */
  lemma StepHolds(s: State, step: Step, tid: nat)
    requires Enabled(s, step) && tid != LOOP && tid in Next(s, step).calls && !Next(s, step).calls[tid].Idle?
    ensures tid in s.calls && Change(step, tid) == 0 && (s.calls[tid].Idle? ==> step.Count? && step.tid == tid)
  {
    hide Insert, Remove, ScheduleAfter, HeadDue, TodoOf;
  }

  lemma {:induction false} InsideHolds(states: seq<State>, steps: seq<Step>, threads: set<nat>, i: nat, tid: nat)
    requires IsRun(states, steps, threads) && i <= |steps| && Careful(steps)
    requires tid != LOOP && tid in states[i].calls && !states[i].calls[tid].Idle?
    ensures Held(steps[..i], tid) > 0
    decreases i
  {
    hide Next, Enabled, Held, Change;
    if i > 0 {
      StepHolds(states[i - 1], steps[i - 1], tid);
      assert steps[..i] == steps[..i - 1] + [steps[i - 1]];
      HeldSnoc(steps[..i - 1], steps[i - 1], tid);
      if !states[i - 1].calls[tid].Idle? {
        InsideHolds(states, steps, threads, i - 1, tid);
      }
    }
  }

  ghost predicate AllOut(s: State) {
    forall tid | tid in s.calls :: s.calls[tid].Idle?
  }

  /**
   * When every thread holds a handle of its own while it calls the loop, and none removes another's, every thread is
   * out of the loop's methods each time `run` returns.
   */
  lemma ExitIsClean(states: seq<State>, steps: seq<Step>, threads: set<nat>, i: nat)
    requires IsRun(states, steps, threads) && i < |steps| && Careful(steps)
    requires steps[i].Test? && states[i + 1].phase.Outside?
    ensures AllOut(states[i + 1])
  {
    hide Next, Enabled, Forwarded, CountAccounted, FirstInFirstOut, TimersConserved, ForwardsArrive, DeadlineKept,
      FlagBacked, NoLostTask, Held;
    RunKeepsInv(states, steps, threads, i);
    ExitingTest(states[i]);
    forall tid | tid in states[i].calls
      ensures states[i].calls[tid].Idle?
    {
      if tid != LOOP && !states[i].calls[tid].Idle? {
        InsideHolds(states, steps, threads, i, tid);
        OwnHandleKeepsRunning(states, steps, threads, i, tid);
      }
    }
  }

  // ----- and that nothing less does

  /** `run` can return while thread `tid` takes no step, each other thread removing only what it has added. */
  ghost predicate CanBeLeft(s: State, steps: seq<Step>, tid: nat) {
    exists path: seq<Step> :: Can(s, path) && (forall step | step in path :: !By(step, tid))
      && NoOverdraw(steps + path) && LeavesRun(s, path)
  }

  lemma {:induction false} CanAppend(s: State, a: seq<Step>, b: seq<Step>)
    requires Can(s, a) && Can(After(s, a), b)
    ensures Can(s, a + b) && After(s, a + b) == After(After(s, a), b)
    decreases |a|
  {
    hide Next, Enabled;
    if a == [] {
      assert a + b == b;
    } else {
      assert (a + b)[1..] == a[1..] + b;
      CanAppend(Next(s, a[0]), a[1..], b);
    }
  }

  /** Steps of others leave what a thread holds alone. */
  lemma {:induction false} HeldOver(steps: seq<Step>, path: seq<Step>, tid: nat)
    requires forall step | step in path :: !By(step, tid) || !HandleStep(step)
    ensures Held(steps + path, tid) == Held(steps, tid)
    decreases |path|
  {
    if path == [] {
      assert steps + path == steps;
    } else {
      var n := |path| - 1;
      assert steps + path == (steps + path[..n]) + [path[n]] && path[n] in path;
      HeldOver(steps, path[..n], tid);
      HeldSnoc(steps + path[..n], path[n], tid);
    }
  }

  /** Steps that touch no handle overdraw none. */
  lemma NoOverdrawOver(steps: seq<Step>, path: seq<Step>)
    requires NoOverdraw(steps) && forall step | step in path :: !HandleStep(step)
    ensures NoOverdraw(steps + path)
  {
    hide Held;
    var all := steps + path;
    assert forall k | |steps| <= k < |all| :: all[k] in path;
    forall k | 0 <= k < |all| && all[k].RemoveHandle?
      ensures Held(all[..k], all[k].tid) > 0
    {
      if k < |steps| {
        assert all[..k] == steps[..k];
      }
    }
  }

  lemma NoOverdrawSnoc(steps: seq<Step>, tid: nat)
    requires NoOverdraw(steps) && Held(steps, tid) > 0
    ensures NoOverdraw(steps + [RemoveHandle(tid)])
  {
    hide Held;
    var all := steps + [RemoveHandle(tid)];
    forall k | 0 <= k < |all| && all[k].RemoveHandle?
      ensures Held(all[..k], all[k].tid) > 0
    {
      assert all[..k] == steps[..k];
      assert k == |steps| ==> steps[..k] == steps;
    }
  }

  /** If there is a handle, some thread holds it. */
  lemma {:induction false} Holder(steps: seq<Step>, n: nat) returns (tid: nat)
    requires SumTo(steps, n) > 0
    ensures Held(steps, tid) > 0
    decreases n
  {
    tid := n - 1;
    if Held(steps, tid) <= 0 {
      tid := Holder(steps, n - 1);
    }
  }

  lemma StepOfThread(s: State, step: Step, tid: nat)
    requires Enabled(s, step)
    ensures Next(s, step).calls.Keys == s.calls.Keys
    ensures Change(step, tid) != 0 ==> tid in s.calls
  {
    hide Insert, Remove, ScheduleAfter, HeadDue, TodoOf;
  }

  lemma {:induction false} HolderIsThread(states: seq<State>, steps: seq<Step>, threads: set<nat>, i: nat, tid: nat)
    requires IsRun(states, steps, threads) && i <= |steps| && Held(steps[..i], tid) != 0
    ensures tid in states[i].calls
    decreases i
  {
    hide Next, Enabled, Change;
    if i > 0 {
      assert steps[..i] == steps[..i - 1] + [steps[i - 1]];
      HeldSnoc(steps[..i - 1], steps[i - 1], tid);
      StepOfThread(states[i - 1], steps[i - 1], tid);
      if Held(steps[..i - 1], tid) != 0 {
        HolderIsThread(states, steps, threads, i - 1, tid);
      }
    }
  }

  function Rank(call: Call): nat {
    match call
    case Idle => 0
    case Counted(_) => 3
    case Queued => 2
    case _ => 1
  }

  /** The next step of a thread inside a call. */
  function Onward(call: Call, tid: nat): Step
    requires !call.Idle?
  {
    match call
    case Counted(_) => Enqueue(tid)
    case Queued => Mark(tid)
    case Marked => Post(tid)
    case Inserted => CountTimer
    case _ => UncountTimer
  }

  lemma OnwardGoes(s: State, t: nat)
    requires LOOP in s.calls && t in s.calls && !s.calls[t].Idle?
    requires t != LOOP ==> !s.calls[t].Inserted? && !s.calls[t].Removed?
    ensures var step := Onward(s.calls[t], t);
            && Enabled(s, step) && (forall tid: nat | tid != t :: Aside(step, tid))
            && t in Next(s, step).calls && Rank(Next(s, step).calls[t]) < Rank(s.calls[t])
            && Next(s, step).phase == s.phase && Next(s, step).ios == s.ios
  {
    hide Insert, Remove, ScheduleAfter;
  }

  /** A thread other than the loop's finishes its call. */
  lemma {:induction false} Finish(s: State, t: nat, tid: nat) returns (path: seq<Step>)
    requires Inv(s) && t in s.calls && t != LOOP && t != tid
    ensures Can(s, path) && (forall step | step in path :: Aside(step, tid))
    ensures t in After(s, path).calls && After(s, path).calls[t].Idle?
    decreases Rank(s.calls[t])
  {
    InOrder(s);
    hide Inv, Next, Enabled, Rank;
    if s.calls[t].Idle? {
      path := [];
    } else {
      OnwardGoes(s, t);
      var step := Onward(s.calls[t], t);
      StepKeepsInv(s, step);
      var rest := Finish(Next(s, step), t, tid);
      path := [step] + rest;
      assert path[1..] == rest;
    }
  }

  lemma InOrder(s: State)
    requires Inv(s)
    ensures ThreadsInOrder(s) && LOOP in s.calls
  {
  }

  /** How far the loop thread is from user code. */
  function Distance(s: State): nat {
    match s.phase
    case InTask(todo, _, _) => if todo.Nothing? then 0 else 1
    case Waiting(_) => if s.ios > 0 then 1 else 2
    case Testing => 3
    case Subtracting(_) => 4
    case Draining(_, _) => 5
    case Splicing(_) => 6
    case Firing(_) => 7
    case Resetting => 8
    case _ => 0
  }

  /** The loop thread's next step, with I/O when it waits. */
  function Towards(s: State): Step
    requires !UserCode(s)
  {
    match s.phase
    case InTask(DoSchedule(t), _, _) => InsertTimer(t)
    case InTask(DoCancel(t), _, _) => RemoveTimer(t)
    case InTask(Nothing, _, _) => Tick
    case Waiting(_) => if s.ios > 0 then DequeueIo else IoArrives
    case Testing => Test
    case Subtracting(_) => Subtract
    case Draining(batch, _) => if batch != [] then StartTask else BatchDone
    case Splicing(_) => Splice
    case Firing(_) => if HeadDue(s) then Fire else NoneDue
    case _ => Reset
  }

  lemma HeldIsActive(s: State)
    requires Inv(s) && s.handles > 0 && s.calls[LOOP].Idle? && s.phase.Testing?
    ensures s.active != 0
  {
  }

  lemma TowardsGoes(s: State, tid: nat)
    requires LOOP in s.calls && s.calls[LOOP].Idle? && !UserCode(s) && tid != LOOP
    requires s.phase.Testing? ==> s.active != 0
    ensures Enabled(s, Towards(s)) && Aside(Towards(s), tid)
  {
    hide Insert, Remove, ScheduleAfter, TodoOf;
    if s.phase.InTask? || s.phase.Draining? {
      hide HeadDue;
    }
  }

  lemma TowardsCloser(s: State)
    requires !UserCode(s) && Enabled(s, Towards(s)) && (s.phase.Testing? ==> s.active != 0)
    ensures Distance(Next(s, Towards(s))) < Distance(s)
  {
    hide Insert, Remove, ScheduleAfter, TodoOf, Enabled;
    var step := Towards(s);
    var s' := Next(s, step);
    match s.phase
    case InTask(DoSchedule(_), _, _) => assert s'.phase.InTask? && s'.phase.todo.Nothing?;
    case InTask(DoCancel(_), _, _) => assert s'.phase.InTask? && s'.phase.todo.Nothing?;
    case Waiting(_) => assert if s.ios > 0 then s'.phase.Handling? else s'.phase == s.phase && s'.ios > 0;
    case Testing => assert s'.phase.Waiting?;
    case Subtracting(_) => assert s'.phase.Testing?;
    case Draining(_, _) => assert s'.phase.InTask? || s'.phase.Subtracting?;
    case Splicing(_) => assert s'.phase.Draining?;
    case Firing(_) => assert s'.phase.InTimer? || s'.phase.Splicing?;
    case Resetting => assert s'.phase.Firing?;
  }

  /** While a handle is held, the loop thread can be brought to user code. */
  lemma {:induction false} ToUserCode(s: State, tid: nat) returns (path: seq<Step>)
    requires Inv(s) && LOOP in s.calls && s.handles > 0 && tid != LOOP && tid in s.calls
    ensures Can(s, path) && (forall step | step in path :: Aside(step, tid))
    ensures MayCall(After(s, path), LOOP)
    decreases Distance(s), Rank(s.calls[LOOP])
  {
    InOrder(s);
    if s.calls[LOOP].Idle? && s.phase.Testing? {
      HeldIsActive(s);
    }
    hide Inv, Next, Enabled, Rank, HeadDue;
    if s.calls[LOOP].Idle? && UserCode(s) {
      path := [];
    } else {
      var step;
      if s.calls[LOOP].Idle? {
        TowardsGoes(s, tid);
        TowardsCloser(s);
        step := Towards(s);
      } else {
        OnwardGoes(s, LOOP);
        step := Onward(s.calls[LOOP], LOOP);
        hide Towards;
        assert Distance(Next(s, step)) == Distance(s);
      }
      StepKeepsInv(s, step);
      StepAside(s, step, tid);
      LoopIsThere(Next(s, step));
      var rest := ToUserCode(Next(s, step), tid);
      path := [step] + rest;
      assert path[1..] == rest;
    }
  }

  /** Thread `t`, other than `tid`, can be brought to where it may call the loop. */
  lemma Ready(s: State, t: nat, tid: nat) returns (path: seq<Step>)
    requires Inv(s) && s.handles > 0 && t in s.calls && tid in s.calls && tid != LOOP && t != tid
    ensures Can(s, path) && (forall step | step in path :: Aside(step, tid)) && MayCall(After(s, path), t)
  {
    InOrder(s);
    hide Inv, Next, Enabled;
    if t == LOOP {
      path := ToUserCode(s, tid);
    } else {
      path := Finish(s, t, tid);
    }
  }

  lemma {:induction false} PathHandles(s: State, path: seq<Step>, tid: nat)
    requires Can(s, path) && tid in s.calls && forall step | step in path :: Aside(step, tid)
    ensures After(s, path).handles == s.handles
    decreases |path|
  {
    hide Next, Enabled;
    if path != [] {
      StepAside(s, path[0], tid);
      PathHandles(Next(s, path[0]), path[1..], tid);
    }
  }

  lemma RemoveGoes(s: State, t: nat)
    requires LOOP in s.calls && MayCall(s, t) && s.handles > 0
    ensures Enabled(s, RemoveHandle(t)) && Next(s, RemoveHandle(t)).handles == s.handles - 1
    ensures Next(s, RemoveHandle(t)).calls == s.calls
  {
  }

  lemma OneStep(s: State, step: Step)
    requires Enabled(s, step)
    ensures Can(s, [step]) && After(s, [step]) == Next(s, step)
  {
    hide Next, Enabled;
    assert [step][1..] == [];
    assert Can(Next(s, step), []) && After(Next(s, step), []) == Next(s, step);
  }

  /** One handle less, without a step of `tid`. */
  lemma DropOne(states: seq<State>, steps: seq<Step>, threads: set<nat>, tid: nat) returns (path: seq<Step>)
    requires IsRun(states, steps, threads) && NoOverdraw(steps) && Held(steps, tid) == 0
    requires var s := states[|steps|]; tid != LOOP && tid in s.calls && s.handles > 0
    ensures Can(states[|steps|], path) && forall step | step in path :: !By(step, tid)
    ensures NoOverdraw(steps + path) && Held(steps + path, tid) == 0
    ensures var s, s' := states[|steps|], After(states[|steps|], path);
            s'.handles == s.handles - 1 && tid in s'.calls && s'.calls[tid] == s.calls[tid]
  {
    hide Next, Enabled, Inv, Held, SumTo, Forwarded, NoOverdraw;
    var s := states[|steps|];
    assert steps[..|steps|] == steps;
    RunKeepsInv(states, steps, threads, |steps|);
    HandlesAreHeld(states, steps, threads, |steps|, Above(steps));
    var t := Holder(steps, Above(steps));
    HolderIsThread(states, steps, threads, |steps|, t);
    var a := Ready(s, t, tid);
    PathHandles(s, a, tid);
    PathAside(s, a, tid);
    HeldOver(steps, a, t);
    NoOverdrawOver(steps, a);
    NoOverdrawSnoc(steps + a, t);
    var states' := Continue(states, steps, threads, a);
    RunKeepsInv(states', steps + a, threads, |steps + a|);
    LoopIsThere(After(s, a));
    RemoveGoes(After(s, a), t);
    OneStep(After(s, a), RemoveHandle(t));
    CanAppend(s, a, [RemoveHandle(t)]);
    path := a + [RemoveHandle(t)];
    assert steps + path == steps + a + [RemoveHandle(t)];
    HeldOver(steps, path, tid);
  }

  /** All handles gone, without a step of `tid`. */
  lemma {:induction false} DropAll(states: seq<State>, steps: seq<Step>, threads: set<nat>, tid: nat)
    returns (path: seq<Step>)
    requires IsRun(states, steps, threads) && NoOverdraw(steps) && Held(steps, tid) == 0
    requires var s := states[|steps|]; tid != LOOP && tid in s.calls
    ensures Can(states[|steps|], path) && forall step | step in path :: !By(step, tid)
    ensures NoOverdraw(steps + path)
    ensures var s, s' := states[|steps|], After(states[|steps|], path);
            s'.handles == 0 && tid in s'.calls && s'.calls[tid] == s.calls[tid]
    decreases states[|steps|].handles
  {
    hide Next, Enabled, Held, NoOverdraw;
    var s := states[|steps|];
    if s.handles == 0 {
      path := [];
      assert steps + path == steps;
    } else {
      var a := DropOne(states, steps, threads, tid);
      var states' := Continue(states, steps, threads, a);
      var b := DropAll(states', steps + a, threads, tid);
      CanAppend(s, a, b);
      path := a + b;
      assert steps + path == steps + a + b;
    }
  }

  lemma LeavesLast(s: State, a: seq<Step>, b: seq<Step>)
    requires Can(s, a) && Can(After(s, a), b) && LeavesRun(After(s, a), b)
    ensures Can(s, a + b) && LeavesRun(s, a + b)
  {
    hide Next, Enabled, Can, After;
    CanAppend(s, a, b);
  }

  /**
   * A thread on its way through `wake_up` can be left behind exactly when it holds no handle of its own, however
   * many the others hold.
   */
  lemma LeftIffNoneOfItsOwn(states: seq<State>, steps: seq<Step>, threads: set<nat>, tid: nat)
    requires IsRun(states, steps, threads) && NoOverdraw(steps)
    requires var s := states[|steps|]; tid != LOOP && tid in s.calls && InWakeUp(s.calls[tid])
    ensures CanBeLeft(states[|steps|], steps, tid) <==> Held(steps, tid) == 0
  {
    hide Next, Enabled, Held, NoOverdraw, Inv, Forwarded;
    var s := states[|steps|];
    assert steps[..|steps|] == steps;
    HeldIsNat(steps, |steps|, tid);
    if Held(steps, tid) == 0 {
      var a := DropAll(states, steps, threads, tid);
      var states' := Continue(states, steps, threads, a);
      RunKeepsInv(states', steps + a, threads, |steps + a|);
      LoopIsThere(After(s, a));
      var b := Leave(After(s, a), tid);
      NoOverdrawOver(steps + a, b);
      assert steps + (a + b) == steps + a + b;
      LeavesLast(s, a, b);
    } else {
      forall path: seq<Step> |
        Can(s, path) && (forall step | step in path :: !By(step, tid)) && NoOverdraw(steps + path)
        ensures !LeavesRun(s, path)
      {
        OwnKeeps(states, steps, threads, path, tid);
      }
    }
  }

  lemma OwnKeeps(states: seq<State>, steps: seq<Step>, threads: set<nat>, path: seq<Step>, tid: nat)
    requires IsRun(states, steps, threads) && Can(states[|steps|], path) && NoOverdraw(steps + path)
    requires Held(steps, tid) > 0 && forall step | step in path :: !By(step, tid)
    ensures !LeavesRun(states[|steps|], path)
  {
    hide Next, Enabled, Held, NoOverdraw;
    if path != [] {
      var states' := Continue(states, steps, threads, path);
      var all, n := steps + path, |path| - 1;
      assert all[..|all| - 1] == steps + path[..n];
      HeldOver(steps, path[..n], tid);
      OwnHandleKeepsRunning(states', all, threads, |all| - 1, tid);
    }
  }
}
