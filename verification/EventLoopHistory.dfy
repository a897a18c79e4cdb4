/**
 * What the history of a run says of the steps taken: calls forwarded from other threads are made, packets are neither
 * lost nor invented, and wake-ups are coalesced.
 */
module EventLoopHistory {
  import opened EventLoop
  import opened TimerList

  // ----- forwarded calls

  /** The timers that one-shot `cancel` tasks carry. */
  function Recalls(tasks: seq<Task>): multiset<Timer> {
    if tasks == [] then multiset{}
    else Recalls(tasks[..|tasks| - 1]) + Recalled(tasks[|tasks| - 1])
  }

  function Recalled(task: Task): multiset<Timer> {
    if task.ForwardCancel? then multiset{task.timer} else multiset{}
  }

  /** The timer that a one-shot task has yet to cancel. */
  function ToCancel(phase: Phase): multiset<Timer> {
    if phase.InTask? && phase.todo.DoCancel? then multiset{phase.todo.timer} else multiset{}
  }

  /** The step is the call that the one-shot task now running was made for. */
  predicate ByTask(s: State, step: Step) {
    s.phase.InTask? && (step.InsertTimer? || step.RemoveTimer?)
    && s.phase.todo == if step.InsertTimer? then DoSchedule(step.timer) else DoCancel(step.timer)
  }

  function InsertedBy(s: State, step: Step): multiset<Timer> {
    if step.InsertTimer? && ByTask(s, step) then multiset{step.timer} else multiset{}
  }

  function RemovedBy(s: State, step: Step): multiset<Timer> {
    if step.RemoveTimer? && ByTask(s, step) then multiset{step.timer} else multiset{}
  }

  /** The timers that one-shot tasks have taken to the list with steps of their own, in the first `n` steps. */
  ghost function AllInserted(states: seq<State>, steps: seq<Step>, n: nat): multiset<Timer>
    requires n <= |steps| <= |states|
  {
    if n == 0 then multiset{} else AllInserted(states, steps, n - 1) + InsertedBy(states[n - 1], steps[n - 1])
  }

  /** The timers that one-shot tasks have looked for in the list with steps of their own, in the first `n` steps. */
  ghost function AllRemoved(states: seq<State>, steps: seq<Step>, n: nat): multiset<Timer>
    requires n <= |steps| <= |states|
  {
    if n == 0 then multiset{} else AllRemoved(states, steps, n - 1) + RemovedBy(states[n - 1], steps[n - 1])
  }

  lemma TasksSnoc(tasks: seq<Task>, task: Task)
    ensures Recalls(tasks + [task]) == Recalls(tasks) + Recalled(task)
    ensures Forwarded(tasks + [task]) == Forwarded(tasks) + Carried(task)
  {
    assert (tasks + [task])[..|tasks|] == tasks;
  }

  /** A task that starts owes its call. */
  lemma StartOwes(s: State)
    requires Enabled(s, StartTask)
    ensures var s' := Next(s, StartTask);
            && Recalls(s'.ran) == Recalls(s.ran) + ToCancel(s'.phase) && ToCancel(s.phase) == multiset{}
            && Forwarded(s'.ran) == Forwarded(s.ran) + ToSchedule(s'.phase) && ToSchedule(s.phase) == multiset{}
            && RemovedBy(s, StartTask) == InsertedBy(s, StartTask) == multiset{}
  {
    hide Recalls, Forwarded;
    TasksSnoc(s.ran, s.phase.batch[0]);
  }

  /** The call it owes pays for it, and nothing else does. */
  lemma CallPays(s: State, step: Step)
    requires Enabled(s, step) && !step.StartTask?
    ensures var s' := Next(s, step);
            && s'.ran == s.ran
            && ToCancel(s.phase) == ToCancel(s'.phase) + RemovedBy(s, step)
            && ToSchedule(s.phase) == ToSchedule(s'.phase) + InsertedBy(s, step)
  {
    hide Next, Enabled, ToCancel, ToSchedule;
    if step.InsertTimer? {
      InsertionPays(s, step.timer);
    } else if step.RemoveTimer? {
      RemovalPays(s, step.timer);
    } else {
      NothingPaid(s, step);
    }
  }

  lemma InsertionPays(s: State, t: Timer)
    requires Enabled(s, InsertTimer(t))
    ensures var s' := Next(s, InsertTimer(t));
            && s'.ran == s.ran && ToCancel(s.phase) == ToCancel(s'.phase) == RemovedBy(s, InsertTimer(t)) == multiset{}
            && ToSchedule(s'.phase) == multiset{} && ToSchedule(s.phase) == InsertedBy(s, InsertTimer(t))
  {
    hide Insert;
  }

  lemma RemovalPays(s: State, t: Timer)
    requires Enabled(s, RemoveTimer(t))
    ensures var s' := Next(s, RemoveTimer(t));
            && s'.ran == s.ran
            && ToSchedule(s.phase) == ToSchedule(s'.phase) == InsertedBy(s, RemoveTimer(t)) == multiset{}
            && ToCancel(s'.phase) == multiset{} && ToCancel(s.phase) == RemovedBy(s, RemoveTimer(t))
  {
    hide Remove;
  }

  lemma NothingPaid(s: State, step: Step)
    requires Enabled(s, step) && !step.StartTask? && !step.InsertTimer? && !step.RemoveTimer?
    ensures Next(s, step).ran == s.ran
    ensures ToCancel(Next(s, step).phase) == ToCancel(s.phase) && ToSchedule(Next(s, step).phase) == ToSchedule(s.phase)
  {
    hide Next, Enabled, InsideCall, OnTimerList;
    if InsideCall(step) || OnTimerList(step) {
      ForwardsAwaitCalls(s, step);
    } else {
      ForwardsAwaitLoop(s, step);
    }
  }

  lemma Owes(before: multiset<Timer>, done: multiset<Timer>, owed: multiset<Timer>, after: multiset<Timer>,
             paid: multiset<Timer>, owed': multiset<Timer>)
    requires before == done + owed
    requires (after == before + owed' && owed == paid == multiset{}) || (after == before && owed == owed' + paid)
    ensures after == (done + paid) + owed'
  {
  }

  /**
   * Each call that another thread forwarded is made once: among the tasks that have started, apart from the one
   * whose call is still to do, every `schedule` has had its own insertion and every `cancel` its own removal.
   */
  lemma {:induction false} ForwardedCallsAreMade(states: seq<State>, steps: seq<Step>, threads: set<nat>, n: nat)
    requires IsRun(states, steps, threads) && n <= |steps|
    ensures Recalls(states[n].ran) == AllRemoved(states, steps, n) + ToCancel(states[n].phase)
    ensures Forwarded(states[n].ran) == AllInserted(states, steps, n) + ToSchedule(states[n].phase)
    decreases n
  {
    hide Next, Enabled, Recalls, Forwarded, ToCancel, ToSchedule, RemovedBy, InsertedBy;
    if n == 0 {
      NothingOwed(threads);
    } else {
      ForwardedCallsAreMade(states, steps, threads, n - 1);
      var s, step := states[n - 1], steps[n - 1];
      if step.StartTask? {
        StartOwes(s);
      } else {
        CallPays(s, step);
      }
      var s' := states[n];
      Owes(Recalls(s.ran), AllRemoved(states, steps, n - 1), ToCancel(s.phase), Recalls(s'.ran), RemovedBy(s, step),
           ToCancel(s'.phase));
      Owes(Forwarded(s.ran), AllInserted(states, steps, n - 1), ToSchedule(s.phase), Forwarded(s'.ran),
           InsertedBy(s, step), ToSchedule(s'.phase));
    }
  }

  lemma NothingOwed(threads: set<nat>)
    ensures var s := Initial(threads);
            && Recalls(s.ran) == Forwarded(s.ran) == ToCancel(s.phase) == ToSchedule(s.phase) == multiset{}
  {
  }

  /** The removal takes one occurrence of that very timer off the list, or finds none. */
  lemma RemovalTakesThatTimer(s: State, t: Timer)
    requires Inv(s) && Enabled(s, RemoveTimer(t))
    ensures var s' := Next(s, RemoveTimer(t));
            if t in s.timers then
              && s'.cancelled == s.cancelled + multiset{t} && multiset(s'.timers) == multiset(s.timers) - multiset{t}
              && forall e: nat | e != t.expiry :: Among(s'.timers, e) == Among(s.timers, e)
            else s'.cancelled == s.cancelled && s'.timers == s.timers
  {
    hide CountAccounted, ThreadsInOrder, FirstInFirstOut, ForwardsArrive, DeadlineKept, FlagBacked, NoLostTask, Remove,
      Among, Sorted;
    RemoveContents(s.timers, t);
    forall e: nat | e != t.expiry
      ensures t in s.timers ==> Among(Next(s, RemoveTimer(t)).timers, e) == Among(s.timers, e)
    {
      RemoveAmong(s.timers, t, e);
    }
  }

  /** The insertion puts one more into the list, behind those of its own expiry. */
  lemma InsertionAddsThatTimer(s: State, t: Timer)
    requires Inv(s) && Enabled(s, InsertTimer(t))
    ensures var s' := Next(s, InsertTimer(t));
            && s'.scheduled == s.scheduled + multiset{t} && multiset(s'.timers) == multiset(s.timers) + multiset{t}
            && Among(s'.timers, t.expiry) == Among(s.timers, t.expiry) + [t]
  {
    hide CountAccounted, ThreadsInOrder, FirstInFirstOut, ForwardsArrive, DeadlineKept, FlagBacked, NoLostTask, Insert,
      Among, Sorted;
    InsertContents(s.timers, t);
    InsertAmong(s.timers, t, t.expiry);
  }

  // ----- packets

  /** What a step does to the number of null packets, and of I/O packets. */
  function NullChange(step: Step): int {
    if step.Post? then 1 else if step.DequeueNull? then -1 else 0
  }

  function IoChange(step: Step): int {
    if step.IoArrives? then 1 else if step.DequeueIo? then -1 else 0
  }

  function Sum(steps: seq<Step>, f: Step -> int): int {
    if steps == [] then 0 else Sum(steps[..|steps| - 1], f) + f(steps[|steps| - 1])
  }

  lemma SumSnoc(steps: seq<Step>, n: nat, f: Step -> int)
    requires n < |steps|
    ensures Sum(steps[..n + 1], f) == Sum(steps[..n], f) + f(steps[n])
  {
    assert steps[..n + 1][..n] == steps[..n];
  }

  lemma PacketStep(s: State, step: Step)
    requires Enabled(s, step)
    ensures Next(s, step).nulls == s.nulls + NullChange(step)
    ensures Next(s, step).ios == s.ios + IoChange(step)
  {
    hide Insert, Remove, ScheduleAfter, HeadDue, TodoOf;
  }

  /** Every packet dequeued was posted or had arrived, and those that are left are the others. */
  lemma {:induction false} PacketsConserved(states: seq<State>, steps: seq<Step>, threads: set<nat>, n: nat)
    requires IsRun(states, steps, threads) && n <= |steps|
    ensures states[n].nulls == Sum(steps[..n], NullChange) && states[n].ios == Sum(steps[..n], IoChange)
    decreases n
  {
    hide Next, Enabled;
    if n > 0 {
      PacketsConserved(states, steps, threads, n - 1);
      PacketStep(states[n - 1], steps[n - 1]);
      SumSnoc(steps, n - 1, NullChange);
      SumSnoc(steps, n - 1, IoChange);
    }
  }

  // ----- coalescing

  function Posts(step: Step): int {
    if step.Post? then 1 else 0
  }

  function Resets(step: Step): int {
    if step.Reset? then 1 else 0
  }

  /** Threads that have taken the flag and not yet posted. */
  function Marking(calls: map<nat, Call>): set<nat> {
    set tid | tid in calls && calls[tid].Marked?
  }

  lemma MarkingAfter(calls: map<nat, Call>, tid: nat, call: Call)
    requires tid in calls
    ensures |Marking(calls[tid := call])|
         == |Marking(calls)| - (if calls[tid].Marked? then 1 else 0) + (if call.Marked? then 1 else 0)
  {
    var before, after := Marking(calls), Marking(calls[tid := call]);
    assert after - {tid} == before - {tid};
    SameElsewhere(before, after, tid);
  }

  function Taken(s: State): int {
    if s.posted then 1 else 0
  }

  /** The flag is taken once between resets. */
  lemma CoalesceStep(s: State, step: Step)
    requires ThreadsInOrder(s) && Enabled(s, step)
    ensures var s' := Next(s, step);
            |Marking(s'.calls)| + Posts(step) - Taken(s') <= |Marking(s.calls)| + Resets(step) - Taken(s)
  {
    hide Marking;
    if InsideCall(step) {
      CoalesceInCall(s, step);
    } else if OnTimerList(step) {
      CoalesceOnTimerList(s, step);
    } else {
      hide ScheduleAfter, HeadDue, TodoOf;
      assert Next(s, step).calls == s.calls;
    }
  }

  lemma CoalesceInCall(s: State, step: Step)
    requires Enabled(s, step) && InsideCall(step)
    ensures var s' := Next(s, step);
            |Marking(s'.calls)| + Posts(step) - Taken(s') <= |Marking(s.calls)| - Taken(s)
  {
    hide Marking;
    match step
    case Count(tid, task) => MarkingAfter(s.calls, tid, Counted(task));
    case Enqueue(tid) => MarkingAfter(s.calls, tid, Queued);
    case Mark(tid) => MarkingAfter(s.calls, tid, Idle); MarkingAfter(s.calls, tid, Marked);
    case Post(tid) => MarkingAfter(s.calls, tid, Idle);
  }

  lemma CoalesceOnTimerList(s: State, step: Step)
    requires Enabled(s, step) && OnTimerList(step)
    ensures |Marking(Next(s, step).calls)| == |Marking(s.calls)| && Taken(Next(s, step)) == Taken(s)
  {
    hide Marking, Insert, Remove;
    match step
    case InsertTimer(t) => MarkingAfter(s.calls, LOOP, Inserted);
    case RemoveTimer(t) => MarkingAfter(s.calls, LOOP, Removed);
    case _ => MarkingAfter(s.calls, LOOP, Idle);
  }

  /** However many threads call `wake_up`, there is at most one null packet more than the loop has reset the flag. */
  lemma {:induction false} WakeUpsAreCoalesced(states: seq<State>, steps: seq<Step>, threads: set<nat>, n: nat)
    requires IsRun(states, steps, threads) && n <= |steps|
    ensures |Marking(states[n].calls)| + Sum(steps[..n], Posts) <= Sum(steps[..n], Resets) + Taken(states[n])
    decreases n
  {
    hide Next, Enabled, Marking, Taken;
    if n == 0 {
      NoneMarking(threads);
    } else {
      WakeUpsAreCoalesced(states, steps, threads, n - 1);
      SumSnoc(steps, n - 1, Posts);
      SumSnoc(steps, n - 1, Resets);
      RunKeepsInv(states, steps, threads, n - 1);
      CoalesceStep(states[n - 1], steps[n - 1]);
    }
  }

  lemma NoneMarking(threads: set<nat>)
    ensures |Marking(Initial(threads).calls)| == 0 && Taken(Initial(threads)) == 0
  {
    assert Marking(Initial(threads).calls) == {};
  }
}
