/**
 * The methods of event_loop.cpp and of iocp.cpp, statement by statement. Each leaves behind a run of the step
 * machine of EventLoop; between two atomic accesses any other thread may take any of its own steps.
 */
module EventLoopCode {
  import opened EventLoop
  import opened TimerList

  datatype Trace = Trace(states: seq<State>, steps: seq<Step>) {
    ghost predicate Run(threads: set<nat>) {
      IsRun(states, steps, threads)
    }

    ghost function Last(): State {
      if states == [] then Initial({}) else states[|states| - 1]
    }

    /** The run up to its `n`th step. */
    ghost function Upto(n: nat): Trace
      requires n <= |steps| && |states| == |steps| + 1
    {
      Trace(states[..n + 1], steps[..n])
    }
  }

  ghost predicate Extends(t: Trace, u: Trace) {
    t.states <= u.states && t.steps <= u.steps
  }

  /** The steps of one thread, in order. */
  function Own(steps: seq<Step>, tid: nat): seq<Step> {
    if steps == [] then []
    else Own(steps[..|steps| - 1], tid) + (if By(steps[|steps| - 1], tid) then [steps[|steps| - 1]] else [])
  }

  /** What user code on the loop thread, and everyone else meanwhile, can do. */
  predicate FromUserCode(step: Step) {
    InsideCall(step) || OnTimerList(step) || step.AddHandle? || step.RemoveHandle? || step.IoArrives? || step.Tick?
  }

  ghost predicate OthersRan(t: Trace, u: Trace, self: nat) {
    Extends(t, u) && forall i | |t.steps| <= i < |u.steps| :: !By(u.steps[i], self)
  }

  ghost predicate UserRan(t: Trace, u: Trace) {
    Extends(t, u) && forall i | |t.steps| <= i < |u.steps| :: FromUserCode(u.steps[i])
  }

  lemma {:induction false} OwnExtends(a: seq<Step>, b: seq<Step>, tid: nat)
    requires forall step | step in b :: !By(step, tid)
    ensures Own(a + b, tid) == Own(a, tid)
    decreases |b|
  {
    if b == [] {
      assert a + b == a;
    } else {
      var n := |b| - 1;
      assert (a + b)[..|a + b| - 1] == a + b[..n];
      OwnExtends(a, b[..n], tid);
    }
  }

  /** Nothing has been started, scheduled or fired. */
  ghost predicate SameHistory(s: State, s': State) {
    s'.ran == s.ran && s'.scheduled == s.scheduled && s'.fired == s.fired
  }

  /** The list is as it was, and nothing has been cancelled. */
  ghost predicate SameTimers(s: State, s': State) {
    s'.timers == s.timers && s'.cancelled == s.cancelled
  }

  /** Nothing has been started or fired, but more may have been scheduled. */
  ghost predicate UserHistory(s: State, s': State) {
    s'.ran == s.ran && s.scheduled <= s'.scheduled && s'.fired == s.fired
  }

  /** The first occurrence of the timer has left the list for those cancelled, if there was one. */
  ghost predicate TookOut(s: State, s': State, timer: Timer) {
    && s'.timers == Remove(s.timers, timer)
    && s'.cancelled == s.cancelled + if timer in s.timers then multiset{timer} else multiset{}
  }

  /** Steps of other threads leave this one where it is; those around the loop leave its own state alone. */
  lemma StepOfOther(s: State, step: Step, self: nat)
    requires Enabled(s, step) && self in s.calls && !By(step, self)
    ensures var s' := Next(s, step);
            && self in s'.calls && s'.calls[self] == s.calls[self]
            && s.queued <= s'.queued && s.now <= s'.now
            && (self == LOOP ==> s'.phase == s.phase && SameTimers(s, s') && SameHistory(s, s'))
  {
  }

  lemma {:induction false} OthersKeep(t: Trace, u: Trace, threads: set<nat>, self: nat)
    requires t.Run(threads) && u.Run(threads) && OthersRan(t, u, self)
    requires self in t.Last().calls
    ensures var s, s' := t.Last(), u.Last();
            && self in s'.calls && s'.calls[self] == s.calls[self]
            && s.queued <= s'.queued && s.now <= s'.now
            && (self == LOOP ==> s'.phase == s.phase && SameTimers(s, s') && SameHistory(s, s'))
    decreases |u.steps|
  {
    hide Enabled, Next, By, FromUserCode, UserCode;
    var n := |u.steps| - 1;
    if n + 1 > |t.steps| {
      var v := u.Upto(n);
      assert v.Run(threads);
      OthersKeep(t, v, threads, self);
      StepOfOther(v.Last(), u.steps[n], self);
    } else {
      assert u == t;
    }
  }

  lemma StepOfUser(s: State, step: Step)
    requires Enabled(s, step) && FromUserCode(step) && UserCode(s)
    ensures var s' := Next(s, step);
            && s'.phase == s.phase && s.queued <= s'.queued && s.now <= s'.now
            && s.calls.Keys <= s'.calls.Keys && UserHistory(s, s')
  {
  }

  lemma {:induction false} UserKeeps(t: Trace, u: Trace, threads: set<nat>)
    requires t.Run(threads) && u.Run(threads) && UserRan(t, u) && UserCode(t.Last())
    ensures var s, s' := t.Last(), u.Last();
            && s'.phase == s.phase && s.queued <= s'.queued && s.now <= s'.now && s.calls.Keys <= s'.calls.Keys
            && UserHistory(s, s')
    decreases |u.steps|
  {
    hide Enabled, Next, By, FromUserCode;
    var n := |u.steps| - 1;
    if n + 1 > |t.steps| {
      var v := u.Upto(n);
      assert v.Run(threads);
      UserKeeps(t, v, threads);
      StepOfUser(v.Last(), u.steps[n]);
    } else {
      assert u == t;
    }
  }

  /** The second list goes on from the first, with steps of user code. */
  ghost predicate UserOnly(a: seq<Step>, b: seq<Step>) {
    a <= b && forall i | |a| <= i < |b| :: FromUserCode(b[i])
  }

  /**
   * What `wait` does on the loop thread: a null packet or a timeout resets the flag, an I/O packet runs a handler
   * and leaves the flag alone.
   */
  ghost predicate Waited(a: seq<Step>, b: seq<Step>) {
    || b == a + [DequeueNull, Reset]
    || b == a + [TimeOut, Reset]
    || (|b| > |a| && b[|b| - 1] == HandlerReturns && UserOnly(a + [DequeueIo], b[..|b| - 1]))
  }

  /** What a task does on the loop thread, up to its return: user code, or the one call it was made for. */
  ghost predicate CallMade(a: seq<Step>, b: seq<Step>, t: Task) {
    match t
    case Plain(_) => |b| > |a| && b[|b| - 1] == TaskReturns && UserOnly(a, b[..|b| - 1])
    case ForwardSchedule(timer) => b == a + [InsertTimer(timer), CountTimer, TaskReturns]
    case ForwardCancel(timer) =>
      b == a + [RemoveTimer(timer), TaskReturns] || b == a + [RemoveTimer(timer), UncountTimer, TaskReturns]
  }

  /** The tasks, one after the other and nothing between them. */
  ghost predicate TasksRan(a: seq<Step>, b: seq<Step>, tasks: seq<Task>)
    decreases |tasks|
  {
    if tasks == [] then a == b
    else
      var n := |tasks| - 1;
      exists mid :: TasksRan(a, mid, tasks[..n]) && CallMade(mid + [StartTask], b, tasks[n])
  }

  lemma NoneRan(a: seq<Step>)
    ensures TasksRan(a, a, [])
  {
  }

  lemma OneMoreRan(a: seq<Step>, mid: seq<Step>, b: seq<Step>, tasks: seq<Task>, n: nat)
    requires n < |tasks| && TasksRan(a, mid, tasks[..n]) && CallMade(mid + [StartTask], b, tasks[n])
    ensures TasksRan(a, b, tasks[..n + 1])
  {
    assert tasks[..n + 1][..n] == tasks[..n];
  }

  lemma {:induction false} OwnOfUser(a: seq<Step>, b: seq<Step>, tid: nat)
    requires forall step | step in b :: FromUserCode(step)
    ensures UserOnly(Own(a, tid), Own(a + b, tid))
    decreases |b|
  {
    if b == [] {
      assert a + b == a;
    } else {
      var n := |b| - 1;
      assert (a + b)[..|a + b| - 1] == a + b[..n];
      OwnOfUser(a, b[..n], tid);
    }
  }

  lemma Appended(s: seq<Step>, a: seq<Step>, b: seq<Step>, c: seq<Step>)
    ensures s + a + b + c == s + (a + b + c)
  {
  }

  lemma StaysQueued(before: seq<Task>, between: seq<Task>, after: seq<Task>, task: Task)
    requires between != [] && between[|between| - 1] == task && before <= between[..|between| - 1] && between <= after
    ensures task in after[|before|..]
  {
    var k := |between| - 1;
    assert after[|before|..][k - |before|] == task;
  }

  class Loop {
    var activeHandles: int
    var tasks: seq<Task>
    var timers: seq<Timer>
    var posted: bool
    var nulls: nat
    var ios: nat
    var now: nat

    /** What has happened so far, as a run of the step machine. */
    ghost var trace: Trace
    ghost const threads: set<nat>

    ghost function S(): State
      reads this
    {
      trace.Last()
    }

    ghost predicate Valid()
      reads this
    {
      && trace.Run(threads) && LOOP in S().calls
      && S().active == activeHandles && S().tasks == tasks && S().timers == timers
      && S().posted == posted && S().nulls == nulls && S().ios == ios && S().now == now
    }

    constructor (users: set<nat>)
      ensures Valid() && S() == Initial(users) && threads == users
    {
      activeHandles, tasks, timers, posted, nulls, ios, now := 0, [], [], false, 0, 0, 0;
      threads := users;
      trace := Trace([Initial(users)], []);
    }

    /** Records a step. */
    ghost method Take(step: Step)
      requires trace.Run(threads) && Enabled(S(), step)
      modifies this`trace
      ensures trace.Run(threads) && Extends(old(trace), trace)
      ensures trace.steps == old(trace.steps) + [step] && trace.states == old(trace.states) + [S()]
      ensures S() == Next(old(S()), step)
      ensures forall tid :: Own(trace.steps, tid) == old(Own(trace.steps, tid)) + (if By(step, tid) then [step] else [])
    {
      trace := Trace(trace.states + [Next(S(), step)], trace.steps + [step]);
    }

    /**
     * The other threads run. Nothing in particular happens here, and no caller can tell: the contract allows any
     * stretch of their steps.
     */
    method Interfere(self: nat)
      requires Valid()
      modifies this
      ensures Valid() && OthersRan(old(trace), trace, self)
    {
    }

    /** User code runs on the loop thread, and may call the loop as it likes; so may the other threads. */
    method Callback()
      requires Valid() && MayCall(S(), LOOP)
      modifies this
      ensures Valid() && UserRan(old(trace), trace) && MayCall(S(), LOOP)
    {
    }

    /** Others have run: what that leaves as it was. */
    method Pause(self: nat)
      requires Valid() && self in S().calls
      modifies this
      ensures Valid() && Extends(old(trace), trace) && Own(trace.steps, self) == old(Own(trace.steps, self))
      ensures self in S().calls && S().calls[self] == old(S().calls[self]) && old(S().queued) <= S().queued
      ensures old(S().now) <= S().now
      ensures self == LOOP ==> S().phase == old(S().phase) && SameTimers(old(S()), S()) && SameHistory(old(S()), S())
    {
      Interfere(self);
      OthersKeep(old(trace), trace, threads, self);
      var n := |old(trace.steps)|;
      assert trace.steps == old(trace.steps) + trace.steps[n..];
      OwnExtends(old(trace.steps), trace.steps[n..], self);
    }

    /** `iocp::wake_up` */
    method WakeUp(tid: nat)
      requires Valid() && tid in S().calls && S().calls[tid].Queued?
      modifies this
      ensures Valid() && Extends(old(trace), trace) && tid in S().calls && S().calls[tid].Idle?
      ensures Own(trace.steps, tid) == old(Own(trace.steps, tid)) +
        (if old(posted) then [Mark(tid)] else [Mark(tid), Post(tid)])
      ensures old(S().queued) <= S().queued
      ensures tid == LOOP ==> S().phase == old(S().phase)
    {
      hide Trace.Run, Own, Insert, Remove, ScheduleAfter;
      if !posted {
        posted := true;
        Take(Mark(tid));
        Pause(tid);
        nulls := nulls + 1;
        Take(Post(tid));
      } else {
        Take(Mark(tid));
      }
    }

    /** `add_active`, as `execute` calls it. */
    method CountIn(tid: nat, task: Task)
      requires Valid() && MayCall(S(), tid) && (tid == LOOP ==> task.Plain?)
      modifies this
      ensures Valid() && Extends(old(trace), trace)
      ensures tid in S().calls && S().calls[tid] == Counted(task) && S().queued == old(S().queued) &&
        S().phase == old(S().phase)
      ensures Own(trace.steps, tid) == old(Own(trace.steps, tid)) + [Count(tid, task)]
    {
      hide Trace.Run, Own, Insert, Remove, ScheduleAfter;
      activeHandles := activeHandles + 1;
      Take(Count(tid, task));
    }

    /** The locked section of `execute`. */
    method AddTail(tid: nat, task: Task)
      requires Valid() && tid in S().calls && S().calls[tid] == Counted(task)
      modifies this
      ensures Valid() && Extends(old(trace), trace)
      ensures tid in S().calls && S().calls[tid] == Queued && S().queued == old(S().queued) + [task] &&
        S().phase == old(S().phase)
      ensures Own(trace.steps, tid) == old(Own(trace.steps, tid)) + [Enqueue(tid)]
    {
      hide Trace.Run, Own, Insert, Remove, ScheduleAfter;
      tasks := tasks + [task];
      Take(Enqueue(tid));
    }

    /** `execute` */
    method Execute(tid: nat, task: Task)
      requires Valid() && MayCall(S(), tid) && (tid == LOOP ==> task.Plain?)
      modifies this
      ensures Valid() && Extends(old(trace), trace) && tid in S().calls && S().calls[tid].Idle?
      ensures Own(trace.steps, tid) == old(Own(trace.steps, tid)) + [Count(tid, task), Enqueue(tid), Mark(tid)]
           || Own(trace.steps, tid) == old(Own(trace.steps, tid)) +
             [Count(tid, task), Enqueue(tid), Mark(tid), Post(tid)]
      ensures old(S().queued) <= S().queued && task in S().queued[|old(S().queued)|..]
      ensures tid == LOOP ==> S().phase == old(S().phase)
    {
      hide Trace.Run, Trace.Last, Own, Enabled, Next, Insert, Remove, ScheduleAfter;
      CountIn(tid, task);
      Pause(tid);
      AddTail(tid, task);
      ghost var queued := S().queued;
      Pause(tid);
      WakeUp(tid);
      Appended(old(Own(trace.steps, tid)), [Count(tid, task)], [Enqueue(tid)], [Mark(tid)]);
      Appended(old(Own(trace.steps, tid)), [Count(tid, task)], [Enqueue(tid)], [Mark(tid), Post(tid)]);
      StaysQueued(old(S().queued), queued, S().queued, task);
    }

    /** `schedule` */
    method Schedule(tid: nat, timer: Timer)
      requires Valid() && tid in S().calls && S().calls[tid].Idle?
      requires tid == LOOP ==> UserCode(S()) || (S().phase.InTask? && S().phase.todo == DoSchedule(timer))
      modifies this
      ensures Valid() && Extends(old(trace), trace) && tid in S().calls && S().calls[tid].Idle?
      ensures tid == LOOP ==>
        S().phase == Begun(old(S().phase)) && S().ran == old(S().ran) && S().fired == old(S().fired)
      ensures tid == LOOP ==> S().scheduled == old(S().scheduled) + multiset{timer}
      ensures tid == LOOP ==> timers == Insert(old(timers), timer) && S().cancelled == old(S().cancelled)
      ensures old(S().queued) <= S().queued
      ensures tid == LOOP ==> Own(trace.steps, tid) == old(Own(trace.steps, tid)) + [InsertTimer(timer), CountTimer]
      ensures tid != LOOP ==> ForwardSchedule(timer) in S().queued[|old(S().queued)|..]
    {
      hide Trace.Run, Trace.Last, Own, Enabled, Next;
      if tid == LOOP {
        InsertHere(timer);
        Pause(LOOP);
        CountHere();
      } else {
        Execute(tid, ForwardSchedule(timer));
      }
    }

    /** The timer list's part of `schedule`, on the loop thread. */
    method InsertHere(timer: Timer)
      requires Valid() && S().calls[LOOP].Idle?
      requires UserCode(S()) || (S().phase.InTask? && S().phase.todo == DoSchedule(timer))
      modifies this
      ensures Valid() && Extends(old(trace), trace) && S().calls[LOOP].Inserted?
      ensures S().phase == Begun(old(S().phase)) && S().queued == old(S().queued) && S().ran == old(S().ran)
      ensures S().fired == old(S().fired) && S().scheduled == old(S().scheduled) + multiset{timer}
      ensures timers == Insert(old(timers), timer) && S().cancelled == old(S().cancelled)
      ensures Own(trace.steps, LOOP) == old(Own(trace.steps, LOOP)) + [InsertTimer(timer)]
    {
      hide Trace.Run, Own, Insert, Remove, ScheduleAfter;
      timers := Insert(timers, timer);
      Take(InsertTimer(timer));
    }

    /** `add_active`, as `schedule` calls it on the loop thread. */
    method CountHere()
      requires Valid() && S().calls[LOOP].Inserted?
      modifies this
      ensures Valid() && Extends(old(trace), trace) && S().calls[LOOP].Idle?
      ensures S().phase == old(S().phase) && S().queued == old(S().queued) && SameHistory(old(S()), S())
      ensures SameTimers(old(S()), S())
      ensures Own(trace.steps, LOOP) == old(Own(trace.steps, LOOP)) + [CountTimer]
    {
      hide Trace.Run, Own, Insert, Remove, ScheduleAfter;
      activeHandles := activeHandles + 1;
      Take(CountTimer);
    }

    /** `cancel` */
    method Cancel(tid: nat, timer: Timer)
      requires Valid() && tid in S().calls && S().calls[tid].Idle?
      requires tid == LOOP ==> UserCode(S()) || (S().phase.InTask? && S().phase.todo == DoCancel(timer))
      modifies this
      ensures Valid() && Extends(old(trace), trace) && tid in S().calls && S().calls[tid].Idle?
      ensures tid == LOOP ==> S().phase == Begun(old(S().phase)) && SameHistory(old(S()), S())
      ensures old(S().queued) <= S().queued
      ensures tid == LOOP ==>
        Own(trace.steps, tid) == old(Own(trace.steps, tid)) + [RemoveTimer(timer)] +
          if timer in old(timers) then [UncountTimer] else []
      ensures tid == LOOP ==> TookOut(old(S()), S(), timer)
      ensures tid != LOOP ==> ForwardCancel(timer) in S().queued[|old(S().queued)|..]
    {
      hide Trace.Run, Trace.Last, Own, Enabled, Next;
      if tid == LOOP {
        var found := RemoveHere(timer);
        if found {
          Pause(LOOP);
          UncountHere();
        }
      } else {
        Execute(tid, ForwardCancel(timer));
      }
    }

    /** The timer list's part of `cancel`, on the loop thread. */
    method RemoveHere(timer: Timer) returns (found: bool)
      requires Valid() && S().calls[LOOP].Idle?
      requires UserCode(S()) || (S().phase.InTask? && S().phase.todo == DoCancel(timer))
      modifies this
      ensures Valid() && Extends(old(trace), trace) && found == (timer in old(timers))
      ensures if found then S().calls[LOOP].Removed? else S().calls[LOOP].Idle?
      ensures S().phase == Begun(old(S().phase)) && S().queued == old(S().queued) && SameHistory(old(S()), S())
      ensures TookOut(old(S()), S(), timer)
      ensures Own(trace.steps, LOOP) == old(Own(trace.steps, LOOP)) + [RemoveTimer(timer)]
    {
      hide Trace.Run, Own, Insert, Remove, ScheduleAfter;
      found := timer in timers;
      if found {
        timers := Remove(timers, timer);
      }
      Take(RemoveTimer(timer));
    }

    method UncountHere()
      requires Valid() && S().calls[LOOP].Removed?
      modifies this
      ensures Valid() && Extends(old(trace), trace) && S().calls[LOOP].Idle?
      ensures S().phase == old(S().phase) && S().queued == old(S().queued) && SameHistory(old(S()), S())
      ensures SameTimers(old(S()), S())
      ensures Own(trace.steps, LOOP) == old(Own(trace.steps, LOOP)) + [UncountTimer]
    {
      hide Trace.Run, Own, Insert, Remove, ScheduleAfter;
      activeHandles := activeHandles - 1;
      Take(UncountTimer);
    }

    /** User code has run: what that leaves as it was. */
    method CallUser()
      requires Valid() && MayCall(S(), LOOP)
      modifies this
      ensures Valid() && Extends(old(trace), trace) && MayCall(S(), LOOP)
      ensures S().phase == old(S().phase) && old(S().queued) <= S().queued && UserHistory(old(S()), S())
      ensures UserOnly(old(Own(trace.steps, LOOP)), Own(trace.steps, LOOP))
    {
      Callback();
      UserKeeps(old(trace), trace, threads);
      var n := |old(trace.steps)|;
      assert trace.steps == old(trace.steps) + trace.steps[n..];
      OwnOfUser(old(trace.steps), trace.steps[n..], LOOP);
    }

    /** The loop thread is at this point of `run`, with no call of its own unfinished. */
    ghost predicate At(phase: Phase)
      reads this
    {
      Valid() && S().calls[LOOP].Idle? && S().phase == phase
    }

    /** The condition of the `while` in `run`, with `schedule_after` when it goes on. */
    method Active() returns (more: bool, until: nat)
      requires At(Testing)
      modifies this
      ensures Extends(old(trace), trace)
      ensures more ==> At(Waiting(until)) && until == now + ScheduleAfter(timers, now)
      ensures !more ==> At(Outside) && Done(S())
      ensures more <==> !NothingLeft(old(S()))
    {
      hide Trace.Run, Own, Insert, Remove, ScheduleAfter, Inv, Done, NothingLeft;
      more := activeHandles != 0;
      until := now + ScheduleAfter(timers, now);
      LastInv(trace, threads);
      ActiveIffLeft(S());
      if !more {
        NoneLeft(S());
        TestKeepsDone(S());
      }
      Take(Test);
    }

    /** The kernel's wait. */
    method Sleep(until: nat)
      requires At(Waiting(until))
      modifies this
      ensures Extends(old(trace), trace) && At(Waiting(until)) && SameHistory(old(S()), S())
      ensures Own(trace.steps, LOOP) == old(Own(trace.steps, LOOP))
      ensures nulls > 0 || ios > 0 || now >= until
    {
      hide Trace.Run, Own, Insert, Remove, ScheduleAfter, UserCode;
      while nulls == 0 && ios == 0 && now < until
        invariant At(Waiting(until)) && Extends(old(trace), trace) && SameHistory(old(S()), S())
        invariant Own(trace.steps, LOOP) == old(Own(trace.steps, LOOP))
        decreases until - now
      {
        PassTime(until);
        Pause(LOOP);
      }
    }

    /** The clock moves on. */
    method PassTime(until: nat)
      requires At(Waiting(until))
      modifies this
      ensures Extends(old(trace), trace) && At(Waiting(until)) && SameHistory(old(S()), S())
      ensures Own(trace.steps, LOOP) == old(Own(trace.steps, LOOP)) && now == old(now) + 1
    {
      hide Trace.Run, Own, Insert, Remove, ScheduleAfter, UserCode;
      now := now + 1;
      Take(Tick);
    }

    /** `GetQueuedCompletionStatus`: waits for a packet or for the time to pass; false is an I/O packet. */
    method Dequeue(until: nat) returns (wakeUp: bool)
      requires At(Waiting(until))
      modifies this
      ensures Extends(old(trace), trace) && SameHistory(old(S()), S())
      ensures if wakeUp then At(Resetting) else At(Handling)
      ensures !wakeUp ==> Own(trace.steps, LOOP) == old(Own(trace.steps, LOOP)) + [DequeueIo]
      ensures wakeUp ==> var was := old(Own(trace.steps, LOOP));
              Own(trace.steps, LOOP) == was + [DequeueNull] || Own(trace.steps, LOOP) == was + [TimeOut]
    {
      hide Trace.Run, Own, Insert, Remove, ScheduleAfter, UserCode;
      Sleep(until);
      if {
        case nulls > 0 =>
          nulls := nulls - 1;
          Take(DequeueNull);
          wakeUp := true;
        case ios > 0 =>
          ios := ios - 1;
          Take(DequeueIo);
          wakeUp := false;
        case now >= until =>
          Take(TimeOut);
          wakeUp := true;
      }
    }

    /** `iocp::wait` */
    method Wait(until: nat)
      requires At(Waiting(until))
      modifies this
      ensures Extends(old(trace), trace) && At(Firing(0)) && UserHistory(old(S()), S())
      ensures Waited(old(Own(trace.steps, LOOP)), Own(trace.steps, LOOP))
    {
      hide Trace.Run, Trace.Last, Own, Insert, Remove, ScheduleAfter, Enabled, Next;
      var wakeUp := Dequeue(until);
      Pause(LOOP);
      if wakeUp {
        ClearPosted();
      } else {
        CallUser();
        HandlerDone();
      }
    }

    method ClearPosted()
      requires At(Resetting)
      modifies this
      ensures Extends(old(trace), trace) && At(Firing(0)) && !posted && SameHistory(old(S()), S())
      ensures Own(trace.steps, LOOP) == old(Own(trace.steps, LOOP)) + [Reset]
    {
      hide Trace.Run, Own, Insert, Remove, ScheduleAfter;
      posted := false;
      Take(Reset);
    }

    ghost method HandlerDone()
      requires At(Handling)
      modifies this`trace
      ensures Extends(old(trace), trace) && At(Firing(0)) && SameHistory(old(S()), S())
      ensures Own(trace.steps, LOOP) == old(Own(trace.steps, LOOP)) + [HandlerReturns]
    {
      hide Trace.Run, Own, Insert, Remove, ScheduleAfter;
      Take(HandlerReturns);
    }

    /**
     * `scheduler::schedule`: fires what is due. Callbacks may schedule more for ever, so the calls are limited
     * to `fuel`; `finished` says that the list was left because nothing was due.
     */
    method ScheduleDue(fuel: nat) returns (cnt: nat, finished: bool)
      requires At(Firing(0))
      modifies this
      ensures Extends(old(trace), trace) && S().ran == old(S().ran) && |S().fired| == |old(S().fired)| + cnt
      ensures finished ==> At(Splicing(cnt)) && forall t | t in timers :: now < t.expiry
      ensures !finished ==> At(Firing(cnt)) && cnt == fuel
    {
      hide Trace.Run, Trace.Last, Own, Insert, Remove, ScheduleAfter, Enabled, Next;
      cnt := 0;
      while cnt < fuel
        invariant cnt <= fuel && At(Firing(cnt)) && Extends(old(trace), trace)
        invariant S().ran == old(S().ran) && |S().fired| == |old(S().fired)| + cnt
      {
        Pause(LOOP);
        if timers != [] && timers[0].expiry <= now {
          PopFront(cnt);
          CallUser();
          TimerDone(cnt);
          cnt := cnt + 1;
        } else {
          StopFiring(cnt);
          InOrder();
          return cnt, true;
        }
      }
      finished := false;
    }

    lemma InOrder()
      requires Valid()
      ensures Sorted(timers)
    {
      hide Trace.Run, Inv, Sorted;
      LastInv(trace, threads);
      InvSorted(S());
    }

    method PopFront(ghost cnt: nat)
      requires At(Firing(cnt)) && timers != [] && timers[0].expiry <= now
      modifies this
      ensures Extends(old(trace), trace) && At(InTimer(cnt))
      ensures S().ran == old(S().ran) && S().fired == old(S().fired) + multiset{old(timers)[0]}
    {
      hide Trace.Run, Own, Insert, Remove, ScheduleAfter;
      timers := timers[1..];
      Take(Fire);
    }

    ghost method TimerDone(cnt: nat)
      requires At(InTimer(cnt))
      modifies this`trace
      ensures Extends(old(trace), trace) && At(Firing(cnt + 1)) && SameHistory(old(S()), S())
    {
      hide Trace.Run, Own, Insert, Remove, ScheduleAfter;
      Take(TimerReturns);
    }

    ghost method StopFiring(cnt: nat)
      requires At(Firing(cnt)) && !(timers != [] && timers[0].expiry <= now)
      modifies this`trace
      ensures Extends(old(trace), trace) && At(Splicing(cnt)) && SameHistory(old(S()), S())
    {
      hide Trace.Run, Own, Insert, Remove, ScheduleAfter;
      Take(NoneDue);
    }

    /** `_run_tasks`: the queue as it is now, in order; `cnt` is the number of tasks run. */
    method RunTasks(ghost before: nat) returns (cnt: nat)
      requires At(Splicing(before))
      modifies this
      ensures Extends(old(trace), trace) && At(Subtracting(before + cnt))
      ensures cnt == |old(tasks)| && S().ran == old(S().ran) + old(tasks)
      ensures old(S().scheduled) + Forwarded(old(tasks)) <= S().scheduled
      ensures var own := Own(trace.steps, LOOP);
              && own != [] && own[|own| - 1] == BatchDone
              && TasksRan(old(Own(trace.steps, LOOP)) + [Splice], own[..|own| - 1], old(tasks))
    {
      hide Trace.Run, Trace.Last, Own, Insert, Remove, ScheduleAfter, Enabled, Next, Forwarded, CallMade, TasksRan;
      var queue := SpliceTasks(before);
      ghost var was := Own(trace.steps, LOOP);
      NoneRan(was);
      cnt := 0;
      NoneForwarded(old(S().scheduled), S().scheduled, queue);
      while queue != []
        invariant At(Draining(queue, before + cnt)) && Extends(old(trace), trace)
        invariant cnt <= |old(tasks)| && queue == old(tasks)[cnt..] && S().ran == old(S().ran) + old(tasks)[..cnt]
        invariant old(S().scheduled) + Forwarded(old(tasks)[..cnt]) <= S().scheduled
        invariant TasksRan(was, Own(trace.steps, LOOP), old(tasks)[..cnt])
        decreases |queue|
      {
        ghost var mid := Own(trace.steps, LOOP);
        RunFirst(queue, before + cnt);
        OneMoreRan(was, mid, Own(trace.steps, LOOP), old(tasks), cnt);
        OneForwarded(old(S().scheduled), S().scheduled, old(tasks), cnt);
        queue := queue[1..];
        Pause(LOOP);
        cnt := cnt + 1;
      }
      assert old(tasks)[..cnt] == old(tasks);
      EndBatch(before + cnt);
      Pause(LOOP);
    }

    method SpliceTasks(ghost before: nat) returns (queue: seq<Task>)
      requires At(Splicing(before))
      modifies this
      ensures Extends(old(trace), trace) && At(Draining(queue, before)) && queue == old(tasks) && tasks == []
      ensures SameHistory(old(S()), S()) && Own(trace.steps, LOOP) == old(Own(trace.steps, LOOP)) + [Splice]
    {
      hide Trace.Run, Own, Insert, Remove, ScheduleAfter;
      queue := tasks;
      tasks := [];
      Take(Splice);
    }

    ghost method BeginTask(queue: seq<Task>, cnt: nat)
      requires queue != [] && At(Draining(queue, cnt))
      modifies this`trace
      ensures Extends(old(trace), trace) && At(InTask(TodoOf(queue[0]), queue[1..], cnt))
      ensures S().ran == old(S().ran) + [queue[0]] && S().scheduled == old(S().scheduled)
      ensures Own(trace.steps, LOOP) == old(Own(trace.steps, LOOP)) + [StartTask]
    {
      hide Trace.Run, Own, Insert, Remove, ScheduleAfter;
      Take(StartTask);
    }

    /** One task of the queue. */
    method RunFirst(queue: seq<Task>, ghost cnt: nat)
      requires queue != [] && At(Draining(queue, cnt))
      modifies this
      ensures Extends(old(trace), trace) && At(Draining(queue[1..], cnt + 1))
      ensures S().ran == old(S().ran) + [queue[0]] && old(S().scheduled) + Carried(queue[0]) <= S().scheduled
      ensures CallMade(old(Own(trace.steps, LOOP)) + [StartTask], Own(trace.steps, LOOP), queue[0])
    {
      hide Trace.Run, Trace.Last, Own, Insert, Remove, ScheduleAfter, Enabled, Next, Carried, CallMade;
      BeginTask(queue, cnt);
      RunTask(queue[0], queue[1..], cnt);
    }

    /** `(*t)()`: a one-shot task calls `schedule` or `cancel` again, now on the loop thread. */
    method RunTask(t: Task, ghost queue: seq<Task>, ghost cnt: nat)
      requires At(InTask(TodoOf(t), queue, cnt))
      modifies this
      ensures Extends(old(trace), trace) && At(Draining(queue, cnt + 1))
      ensures S().ran == old(S().ran) && old(S().scheduled) + Carried(t) <= S().scheduled
      ensures CallMade(old(Own(trace.steps, LOOP)), Own(trace.steps, LOOP), t)
      ensures t.ForwardSchedule? ==> timers == Insert(old(timers), t.timer)
      ensures t.ForwardCancel? ==> TookOut(old(S()), S(), t.timer)
    {
      hide Trace.Run, Trace.Last, Own, Insert, Remove, ScheduleAfter, Enabled, Next;
      match t {
        case Plain(_) => {
          CallUser();
        }
        case ForwardSchedule(timer) => {
          Schedule(LOOP, timer);
        }
        case ForwardCancel(timer) => {
          Cancel(LOOP, timer);
        }
      }
      EndTask(queue, cnt);
    }

    ghost method EndTask(queue: seq<Task>, cnt: nat)
      requires At(InTask(Nothing, queue, cnt))
      modifies this`trace
      ensures Extends(old(trace), trace) && At(Draining(queue, cnt + 1)) && SameHistory(old(S()), S())
      ensures SameTimers(old(S()), S()) && Own(trace.steps, LOOP) == old(Own(trace.steps, LOOP)) + [TaskReturns]
    {
      hide Trace.Run, Own, Insert, Remove, ScheduleAfter;
      Take(TaskReturns);
    }

    ghost method EndBatch(cnt: nat)
      requires At(Draining([], cnt))
      modifies this`trace
      ensures Extends(old(trace), trace) && At(Subtracting(cnt)) && SameHistory(old(S()), S())
      ensures Own(trace.steps, LOOP) == old(Own(trace.steps, LOOP)) + [BatchDone]
    {
      hide Trace.Run, Own, Insert, Remove, ScheduleAfter;
      Take(BatchDone);
    }

    method SubtractDone(cnt: nat)
      requires At(Subtracting(cnt))
      modifies this
      ensures Extends(old(trace), trace) && At(Testing)
    {
      hide Trace.Run, Own, Insert, Remove, ScheduleAfter;
      activeHandles := activeHandles - cnt;
      Take(Subtract);
    }

    ghost method EnterRun()
      requires At(Outside)
      modifies this`trace
      ensures Extends(old(trace), trace) && At(Testing)
    {
      hide Trace.Run, Own, Insert, Remove, ScheduleAfter;
      Take(BeginRun);
    }

    /** The body of the loop in `run`, once the wait has been chosen. */
    method Turn(until: nat, fuel: nat) returns (finished: bool)
      requires At(Waiting(until))
      modifies this
      ensures Valid() && Extends(old(trace), trace)
      ensures finished ==> At(Testing)
    {
      hide Trace.Run, Trace.Last, Own, Insert, Remove, ScheduleAfter, Enabled, Next, Forwarded, TasksRan, Waited;
      Wait(until);
      var cnt;
      cnt, finished := ScheduleDue(fuel);
      if finished {
        Pause(LOOP);
        var ran := RunTasks(cnt);
        cnt := cnt + ran;
        SubtractDone(cnt);
      }
    }

    /** `run`, for at most `turns` turns; when it returns by itself, nothing is left to do. */
    method Run(turns: nat, fuel: nat) returns (exited: bool)
      requires At(Outside)
      modifies this
      ensures Valid() && Extends(old(trace), trace)
      ensures exited ==> At(Outside) && Done(S())
    {
      hide Trace.Run, Trace.Last, Own, Insert, Remove, ScheduleAfter, Enabled, Next, Done, NothingLeft;
      EnterRun();
      var turn := 0;
      while turn < turns
        invariant turn <= turns && At(Testing) && Extends(old(trace), trace)
      {
        Pause(LOOP);
        var more, until := Active();
        if !more {
          return true;
        }
        Pause(LOOP);
        var finished := Turn(until, fuel);
        if !finished {
          return false;
        }
        turn := turn + 1;
      }
      exited := false;
    }
  }

  lemma NoneForwarded(before: multiset<Timer>, after: multiset<Timer>, tasks: seq<Task>)
    requires before == after
    ensures before + Forwarded(tasks[..0]) <= after
  {
  }

  lemma OneForwarded(before: multiset<Timer>, after: multiset<Timer>, tasks: seq<Task>, n: nat)
    requires n < |tasks| && before + Forwarded(tasks[..n]) + Carried(tasks[n]) <= after
    ensures before + Forwarded(tasks[..n + 1]) <= after
  {
    assert tasks[..n + 1][..n] == tasks[..n];
  }

  lemma TestKeepsDone(s: State)
    requires Done(s) && Enabled(s, Test) && s.active == 0
    ensures Done(Next(s, Test))
  {
    hide Forwarded, ScheduleAfter;
  }

  lemma LastInv(t: Trace, threads: set<nat>)
    requires t.Run(threads)
    ensures Inv(t.Last())
  {
    RunKeepsInv(t.states, t.steps, threads, |t.steps|);
  }
}
