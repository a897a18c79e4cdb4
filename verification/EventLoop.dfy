/**
 * The event loop and its completion port as an interleaving of atomic steps: any number of threads inside
 * `execute`, `schedule` or `cancel`, and the loop thread inside `run`. A step is one atomic access, one locked
 * section, or one kernel call.
 */
module EventLoop {
  import opened TimerList

  /** A queued task; a one-shot task made by another thread's `schedule` or `cancel` carries its timer. */
  datatype Task = Plain(id: nat) | ForwardSchedule(timer: Timer) | ForwardCancel(timer: Timer)

  /** Where a thread is inside the loop's public operations. */
  datatype Call =
    | Idle
    | Counted(task: Task)  // in execute: counted, not yet queued
    | Queued               // in execute: queued, before the compare-exchange of wake_up
    | Marked               // in wake_up: the flag is taken, the null packet not yet posted
    | Inserted             // in schedule on the loop thread: in the timer list, not yet counted
    | Removed              // in cancel on the loop thread: out of the timer list, still counted

  /** Where the loop thread is inside `run`; `count` is the local sum of finished work. */
  datatype Phase =
    | Outside
    | Testing
    | Waiting(until: nat)
    | Resetting
    | Handling                                    // in an I/O handler
    | Firing(count: nat)
    | InTimer(count: nat)                         // in a timer's callback
    | Splicing(count: nat)
    | Draining(batch: seq<Task>, count: nat)
    | InTask(todo: Todo, batch: seq<Task>, count: nat)
    | Subtracting(count: nat)

  /** What a running one-shot task still has to do. */
  datatype Todo = Nothing | DoSchedule(timer: Timer) | DoCancel(timer: Timer)

  const LOOP: nat := 0

  datatype State = State(
    active: int,             // _active_handles
    tasks: seq<Task>,        // _tasks
    timers: seq<Timer>,      // _scheduler
    posted: bool,            // _posted
    nulls: nat,              // null packets in the completion port
    ios: nat,                // I/O packets in the completion port
    calls: map<nat, Call>,
    phase: Phase,
    now: nat,
    handles: nat,            // add_active calls not yet matched by remove_active
    queued: seq<Task>,       // history: every task ever queued, in queue order
    ran: seq<Task>,          // history: every task ever started
    scheduled: multiset<Timer>,
    fired: multiset<Timer>,
    cancelled: multiset<Timer>
  )

  datatype Step =
    | AddHandle(tid: nat)
    | RemoveHandle(tid: nat)
    | Count(tid: nat, task: Task)
    | Enqueue(tid: nat)
    | Mark(tid: nat)
    | Post(tid: nat)
    | InsertTimer(timer: Timer)
    | CountTimer
    | RemoveTimer(timer: Timer)
    | UncountTimer
    | IoArrives
    | Tick
    | BeginRun
    | Test
    | DequeueNull
    | DequeueIo
    | TimeOut
    | Reset
    | HandlerReturns
    | Fire
    | TimerReturns
    | NoneDue
    | Splice
    | StartTask
    | TaskReturns
    | BatchDone
    | Subtract

  /** `schedule_after`, with the source's 100 seconds for an empty list, in milliseconds. */
  function ScheduleAfter(timers: seq<Timer>, now: nat): nat {
    if timers == [] then 100_000
    else if now > timers[0].expiry then 0
    else timers[0].expiry - now
  }

  /** User code runs on the loop thread outside `run` and inside callbacks. */
  predicate UserCode(s: State) {
    s.phase.Outside? || s.phase.Handling? || s.phase.InTimer? || (s.phase.InTask? && s.phase.todo.Nothing?)
  }

  predicate MayCall(s: State, tid: nat) {
    tid in s.calls && s.calls[tid].Idle? && (tid == LOOP ==> UserCode(s))
  }

  function TodoOf(task: Task): Todo {
    match task
    case Plain(_) => Nothing
    case ForwardSchedule(t) => DoSchedule(t)
    case ForwardCancel(t) => DoCancel(t)
  }

  predicate HeadDue(s: State) {
    s.timers != [] && s.timers[0].expiry <= s.now
  }

  predicate Enabled(s: State, step: Step) {
    LOOP in s.calls &&
    var loopIdle := s.calls[LOOP].Idle?;
    match step
    case AddHandle(tid) => MayCall(s, tid)
    case RemoveHandle(tid) => MayCall(s, tid) && s.handles > 0
    case Count(tid, task) => MayCall(s, tid) && (tid == LOOP ==> task.Plain?)
    case Enqueue(tid) => tid in s.calls && s.calls[tid].Counted?
    case Mark(tid) => tid in s.calls && s.calls[tid].Queued?
    case Post(tid) => tid in s.calls && s.calls[tid].Marked?
    case InsertTimer(t) => MayCall(s, LOOP) || (loopIdle && s.phase.InTask? && s.phase.todo == DoSchedule(t))
    case CountTimer => s.calls[LOOP].Inserted?
    case RemoveTimer(t) => MayCall(s, LOOP) || (loopIdle && s.phase.InTask? && s.phase.todo == DoCancel(t))
    case UncountTimer => s.calls[LOOP].Removed?
    case IoArrives => true
    case Tick => true
    case BeginRun => s.phase.Outside? && loopIdle
    case Test => s.phase.Testing?
    case DequeueNull => s.phase.Waiting? && s.nulls > 0
    case DequeueIo => s.phase.Waiting? && s.ios > 0
    case TimeOut => s.phase.Waiting? && s.now >= s.phase.until
    case Reset => s.phase.Resetting?
    case HandlerReturns => s.phase.Handling? && loopIdle
    case Fire => s.phase.Firing? && HeadDue(s)
    case TimerReturns => s.phase.InTimer? && loopIdle
    case NoneDue => s.phase.Firing? && !HeadDue(s)
    case Splice => s.phase.Splicing?
    case StartTask => s.phase.Draining? && s.phase.batch != []
    case TaskReturns => s.phase.InTask? && s.phase.todo.Nothing? && loopIdle
    case BatchDone => s.phase.Draining? && s.phase.batch == []
    case Subtract => s.phase.Subtracting?
  }

  /** A one-shot task's single call, once begun, is no longer to do. */
  function Begun(phase: Phase): Phase {
    if phase.InTask? then phase.(todo := Nothing) else phase
  }

  function Next(s: State, step: Step): State
    requires Enabled(s, step)
  {
    match step
    case AddHandle(_) => s.(active := s.active + 1, handles := s.handles + 1)
    case RemoveHandle(_) => s.(active := s.active - 1, handles := s.handles - 1)
    case Count(tid, task) => s.(active := s.active + 1, calls := s.calls[tid := Counted(task)])
    case Enqueue(tid) =>
      var task := s.calls[tid].task;
      s.(tasks := s.tasks + [task], queued := s.queued + [task], calls := s.calls[tid := Queued])
    case Mark(tid) =>
      if s.posted then s.(calls := s.calls[tid := Idle])
      else s.(posted := true, calls := s.calls[tid := Marked])
    case Post(tid) => s.(nulls := s.nulls + 1, calls := s.calls[tid := Idle])
    case InsertTimer(t) =>
      s.(timers := Insert(s.timers, t), scheduled := s.scheduled + multiset{t},
         calls := s.calls[LOOP := Inserted], phase := Begun(s.phase))
    case CountTimer => s.(active := s.active + 1, calls := s.calls[LOOP := Idle])
    case RemoveTimer(t) =>
      if t in s.timers then
        s.(timers := Remove(s.timers, t), cancelled := s.cancelled + multiset{t},
           calls := s.calls[LOOP := Removed], phase := Begun(s.phase))
      else s.(phase := Begun(s.phase))
    case UncountTimer => s.(active := s.active - 1, calls := s.calls[LOOP := Idle])
    case IoArrives => s.(ios := s.ios + 1)
    case Tick => s.(now := s.now + 1)
    case BeginRun => s.(phase := Testing)
    case Test =>
      if s.active == 0 then s.(phase := Outside)
      else s.(phase := Waiting(s.now + ScheduleAfter(s.timers, s.now)))
    case DequeueNull => s.(nulls := s.nulls - 1, phase := Resetting)
    case DequeueIo => s.(ios := s.ios - 1, phase := Handling)
    case TimeOut => s.(phase := Resetting)
    case Reset => s.(posted := false, phase := Firing(0))
    case HandlerReturns => s.(phase := Firing(0))
    case Fire =>
      s.(timers := s.timers[1..], fired := s.fired + multiset{s.timers[0]}, phase := InTimer(s.phase.count))
    case TimerReturns => s.(phase := Firing(s.phase.count + 1))
    case NoneDue => s.(phase := Splicing(s.phase.count))
    case Splice => s.(tasks := [], phase := Draining(s.tasks, s.phase.count))
    case StartTask =>
      var task := s.phase.batch[0];
      s.(ran := s.ran + [task], phase := InTask(TodoOf(task), s.phase.batch[1..], s.phase.count))
    case TaskReturns => s.(phase := Draining(s.phase.batch, s.phase.count + 1))
    case BatchDone => s.(phase := Subtracting(s.phase.count))
    case Subtract => s.(active := s.active - s.phase.count, phase := Testing)
  }

  /** A fresh loop with the threads that will use it. */
  function Initial(threads: set<nat>): State {
    State(0, [], [], false, 0, 0, map tid | tid in threads + {LOOP} :: Idle, Outside, 0, 0,
          [], [], multiset{}, multiset{}, multiset{})
  }

  /** A run of any length and any interleaving. */
  ghost predicate IsRun(states: seq<State>, steps: seq<Step>, threads: set<nat>) {
    && |states| == |steps| + 1
    && states[0] == Initial(threads)
    && forall i | 0 <= i < |steps| :: Enabled(states[i], steps[i]) && states[i + 1] == Next(states[i], steps[i])
  }

  /** The steps that thread `tid` takes; the clock and the arrival of I/O are nobody's. */
  predicate By(step: Step, tid: nat) {
    match step
    case AddHandle(t) => t == tid
    case RemoveHandle(t) => t == tid
    case Count(t, _) => t == tid
    case Enqueue(t) => t == tid
    case Mark(t) => t == tid
    case Post(t) => t == tid
    case IoArrives => false
    case Tick => false
    case _ => tid == LOOP
  }

  // ----- the invariant

  /** Threads that have raised the work count but not yet queued their task. */
  function Counting(calls: map<nat, Call>): set<nat> {
    set tid | tid in calls && calls[tid].Counted?
  }

  /** Work the loop has taken out of its lists but not yet subtracted. */
  function InFlight(phase: Phase): nat {
    match phase
    case Firing(count) => count
    case InTimer(count) => count + 1
    case Splicing(count) => count
    case Draining(batch, count) => |batch| + count
    case InTask(_, batch, count) => |batch| + 1 + count
    case Subtracting(count) => count
    case _ => 0
  }

  /** A timer is inserted before it is counted and removed before it is uncounted. */
  function TimerLag(call: Call): int {
    match call
    case Inserted => -1
    case Removed => 1
    case _ => 0
  }

  function Batch(phase: Phase): seq<Task> {
    match phase
    case Draining(batch, _) => batch
    case InTask(_, batch, _) => batch
    case _ => []
  }

  /** The work count, accounted for. */
  ghost predicate CountAccounted(s: State) {
    && LOOP in s.calls
    && s.active == s.handles + |s.tasks| + |s.timers| + |Counting(s.calls)|
         + InFlight(s.phase) + TimerLag(s.calls[LOOP])
  }

  /** The timer list's own operations happen on the loop thread, and only where user code may run. */
  ghost predicate ThreadsInOrder(s: State) {
    && LOOP in s.calls
    && (forall tid | tid in s.calls && tid != LOOP :: !s.calls[tid].Inserted? && !s.calls[tid].Removed?)
    && (!s.calls[LOOP].Idle? ==> UserCode(s))
  }

  /** Tasks start in queue order, each once, and none is lost. */
  ghost predicate FirstInFirstOut(s: State) {
    s.queued == s.ran + Batch(s.phase) + s.tasks
  }

  /** Every scheduled timer is pending, fired or cancelled, with multiplicity; the list is in order. */
  ghost predicate TimersConserved(s: State) {
    && Sorted(s.timers)
    && s.scheduled == s.fired + s.cancelled + multiset(s.timers)
    && (forall t | t in s.fired :: t.expiry <= s.now)
  }

  /** The loop never waits past its earliest deadline, nor does its time run out before it. */
  ghost predicate DeadlineKept(s: State) {
    s.phase.Waiting? && s.timers != [] ==>
      && s.timers[0].expiry <= s.phase.until
      && (s.phase.until <= s.now || s.phase.until == s.timers[0].expiry)
  }

  ghost predicate SomeCall(calls: map<nat, Call>, call: Call) {
    exists tid :: tid in calls && calls[tid] == call
  }

  /** A taken flag is always backed by a packet, by a thread about to post one, or by the loop about to clear it. */
  ghost predicate FlagBacked(s: State) {
    s.posted ==> s.nulls > 0 || SomeCall(s.calls, Marked) || s.phase.Resetting?
  }

  /** Between leaving the wait and splicing, the loop will see whatever is in the queue. */
  predicate WillSplice(phase: Phase) {
    phase.Resetting? || phase.Handling? || phase.Firing? || phase.InTimer? || phase.Splicing?
  }

  ghost predicate WakeUpComing(s: State) {
    s.nulls > 0 || SomeCall(s.calls, Queued) || SomeCall(s.calls, Marked)
  }

  /** A non-empty queue is about to be spliced, or a wake-up for it is on its way. */
  ghost predicate NoLostTask(s: State) {
    s.tasks != [] ==> WillSplice(s.phase) || WakeUpComing(s)
  }

  /** The timers that one-shot `schedule` tasks carry. */
  function Forwarded(tasks: seq<Task>): multiset<Timer> {
    if tasks == [] then multiset{}
    else Forwarded(tasks[..|tasks| - 1]) + Carried(tasks[|tasks| - 1])
  }

  function Carried(task: Task): multiset<Timer> {
    if task.ForwardSchedule? then multiset{task.timer} else multiset{}
  }

  /** The timer that a one-shot task has yet to schedule. */
  function ToSchedule(phase: Phase): multiset<Timer> {
    if phase.InTask? && phase.todo.DoSchedule? then multiset{phase.todo.timer} else multiset{}
  }

  /** A timer forwarded from another thread is scheduled by the task that carries it. */
  ghost predicate ForwardsArrive(s: State) {
    Forwarded(s.ran) <= s.scheduled + ToSchedule(s.phase)
  }

  ghost predicate Inv(s: State) {
    && CountAccounted(s)
    && ThreadsInOrder(s)
    && FirstInFirstOut(s)
    && TimersConserved(s)
    && ForwardsArrive(s)
    && DeadlineKept(s)
    && FlagBacked(s)
    && NoLostTask(s)
  }

  lemma InitialInv(threads: set<nat>)
    ensures Inv(Initial(threads))
  {
    assert Counting(Initial(threads).calls) == {};
  }

  lemma SameElsewhere(before: set<nat>, after: set<nat>, x: nat)
    requires before - {x} == after - {x}
    ensures |after| == |before| - (if x in before then 1 else 0) + (if x in after then 1 else 0)
  {
    assert |before - {x}| == |before| - if x in before then 1 else 0;
    assert |after - {x}| == |after| - if x in after then 1 else 0;
  }

  /** Changing one thread's call changes the set of counting threads by that thread alone. */
  lemma CountingAfter(calls: map<nat, Call>, tid: nat, call: Call)
    requires tid in calls
    ensures |Counting(calls[tid := call])|
         == |Counting(calls)| - (if calls[tid].Counted? then 1 else 0) + (if call.Counted? then 1 else 0)
  {
    var before, after := Counting(calls), Counting(calls[tid := call]);
    assert after - {tid} == before - {tid};
    SameElsewhere(before, after, tid);
  }

  lemma SomeCallAfter(calls: map<nat, Call>, tid: nat, was: Call, call: Call)
    requires tid in calls && calls[tid] != was
    ensures SomeCall(calls, was) ==> SomeCall(calls[tid := call], was)
  {
    if SomeCall(calls, was) {
      var other :| other in calls && calls[other] == was;
      assert other in calls[tid := call] && calls[tid := call][other] == was;
    }
  }

  predicate InsideCall(step: Step) {
    step.Count? || step.Enqueue? || step.Mark? || step.Post?
  }

  predicate OnTimerList(step: Step) {
    step.InsertTimer? || step.RemoveTimer? || step.CountTimer? || step.UncountTimer?
  }

  lemma CountKeptInCall(s: State, step: Step)
    requires CountAccounted(s) && ThreadsInOrder(s) && Enabled(s, step) && InsideCall(step)
    ensures CountAccounted(Next(s, step))
  {
    hide Counting;
    match step
    case Count(tid, task) => CountingAfter(s.calls, tid, Counted(task));
    case Enqueue(tid) => CountingAfter(s.calls, tid, Queued);
    case Mark(tid) => CountingAfter(s.calls, tid, Idle); CountingAfter(s.calls, tid, Marked);
    case Post(tid) => CountingAfter(s.calls, tid, Idle);
    case _ =>
  }

  lemma CountKeptOnTimerList(s: State, step: Step)
    requires CountAccounted(s) && ThreadsInOrder(s) && Enabled(s, step) && OnTimerList(step)
    ensures CountAccounted(Next(s, step))
  {
    hide Counting, Insert, Remove;
    match step
    case InsertTimer(t) => CountingAfter(s.calls, LOOP, Inserted);
    case RemoveTimer(t) => CountingAfter(s.calls, LOOP, Removed);
    case _ => CountingAfter(s.calls, LOOP, Idle);
  }

  lemma CountKept(s: State, step: Step)
    requires CountAccounted(s) && ThreadsInOrder(s) && Enabled(s, step)
    ensures CountAccounted(Next(s, step))
  {
    if InsideCall(step) {
      CountKeptInCall(s, step);
    } else if OnTimerList(step) {
      CountKeptOnTimerList(s, step);
    } else {
      hide Counting;
    }
  }

  lemma OrderKeptInCall(s: State, step: Step)
    requires ThreadsInOrder(s) && Enabled(s, step) && (InsideCall(step) || OnTimerList(step))
    ensures ThreadsInOrder(Next(s, step))
  {
    hide Insert, Remove;
  }

  lemma OrderKeptInRun(s: State, step: Step)
    requires ThreadsInOrder(s) && Enabled(s, step) && !InsideCall(step) && !OnTimerList(step)
    ensures ThreadsInOrder(Next(s, step))
  {
    hide ScheduleAfter, HeadDue;
    assert Next(s, step).calls == s.calls;
  }

  lemma OrderKept(s: State, step: Step)
    requires ThreadsInOrder(s) && Enabled(s, step)
    ensures ThreadsInOrder(Next(s, step))
  {
    hide ThreadsInOrder, Next, Enabled;
    if InsideCall(step) || OnTimerList(step) {
      OrderKeptInCall(s, step);
    } else {
      OrderKeptInRun(s, step);
    }
  }

  lemma QueueKept(s: State, step: Step)
    requires FirstInFirstOut(s) && Enabled(s, step)
    ensures FirstInFirstOut(Next(s, step))
  {
    hide Insert, Remove;
    if step.StartTask? {
      var batch := s.phase.batch;
      assert s.ran + batch + s.tasks == (s.ran + [batch[0]]) + batch[1..] + s.tasks;
    } else if step.Splice? {
      assert s.ran + [] + s.tasks == s.ran + s.tasks + [];
    } else if step.Enqueue? {
      var task := s.calls[step.tid].task;
      assert s.ran + Batch(s.phase) + s.tasks + [task] == s.ran + Batch(s.phase) + (s.tasks + [task]);
    }
  }

  lemma CancelConserves(scheduled: multiset<Timer>, fired: multiset<Timer>, cancelled: multiset<Timer>,
                        pending: multiset<Timer>, t: Timer)
    requires scheduled == fired + cancelled + pending && t in pending
    ensures scheduled == fired + (cancelled + multiset{t}) + (pending - multiset{t})
  {
  }

  lemma TimersKeptOnList(s: State, step: Step)
    requires TimersConserved(s) && Enabled(s, step) && OnTimerList(step)
    ensures TimersConserved(Next(s, step))
  {
    hide Insert, Remove, Sorted;
    match step
    case InsertTimer(t) =>
      InsertSorted(s.timers, t);
      InsertContents(s.timers, t);
    case RemoveTimer(t) =>
      RemoveSorted(s.timers, t);
      RemoveContents(s.timers, t);
      if t in s.timers {
        CancelConserves(s.scheduled, s.fired, s.cancelled, multiset(s.timers), t);
      }
    case _ =>
  }

  /** Steps around the list and the history of timers leave both alone. */
  lemma TimersUntouched(s: State, step: Step)
    requires Enabled(s, step) && !step.InsertTimer? && !step.RemoveTimer? && !step.Fire?
    ensures var s' := Next(s, step);
            && s'.timers == s.timers && s'.scheduled == s.scheduled && s'.fired == s.fired
            && s'.cancelled == s.cancelled && s.now <= s'.now
  {
    hide ScheduleAfter, HeadDue, TodoOf;
  }

  lemma TimersKeptOnFire(s: State)
    requires TimersConserved(s) && Enabled(s, Fire)
    ensures TimersConserved(Next(s, Fire))
  {
    assert s.timers == [s.timers[0]] + s.timers[1..];
  }

  lemma TimersKept(s: State, step: Step)
    requires TimersConserved(s) && Enabled(s, step)
    ensures TimersConserved(Next(s, step))
  {
    if OnTimerList(step) {
      TimersKeptOnList(s, step);
    } else if step.Fire? {
      TimersKeptOnFire(s);
    } else {
      TimersUntouched(s, step);
      hide Sorted, Next, Enabled;
    }
  }

  lemma ForwardsArriveOnStart(s: State)
    requires ForwardsArrive(s) && Enabled(s, StartTask)
    ensures ForwardsArrive(Next(s, StartTask))
  {
    var task := s.phase.batch[0];
    assert (s.ran + [task])[..|s.ran|] == s.ran;
    assert Forwarded(s.ran + [task]) == Forwarded(s.ran) + Carried(task);
    hide Forwarded;
  }

  lemma ForwardsArriveOnInsert(s: State, t: Timer)
    requires ForwardsArrive(s) && Enabled(s, InsertTimer(t))
    ensures ForwardsArrive(Next(s, InsertTimer(t)))
  {
    hide Insert, Forwarded;
  }

  lemma ForwardsUntouched(s: State, step: Step)
    requires Enabled(s, step) && !step.StartTask? && !step.InsertTimer?
    ensures Next(s, step).ran == s.ran && Next(s, step).scheduled == s.scheduled
    ensures ToSchedule(Next(s, step).phase) == ToSchedule(s.phase)
  {
    hide Next, Enabled, ToSchedule, InsideCall, OnTimerList;
    if step.RemoveTimer? {
      ForwardsAwaitRemoval(s, step.timer);
    } else if InsideCall(step) || OnTimerList(step) {
      ForwardsAwaitCalls(s, step);
    } else {
      ForwardsAwaitLoop(s, step);
    }
  }

  lemma ForwardsAwaitRemoval(s: State, t: Timer)
    requires Enabled(s, RemoveTimer(t))
    ensures var s' := Next(s, RemoveTimer(t));
            s'.ran == s.ran && s'.scheduled == s.scheduled && ToSchedule(s'.phase) == ToSchedule(s.phase)
  {
    hide Remove;
  }

  lemma ForwardsAwaitCalls(s: State, step: Step)
    requires Enabled(s, step) && (InsideCall(step) || OnTimerList(step)) && !step.InsertTimer? && !step.RemoveTimer?
    ensures Next(s, step).ran == s.ran && Next(s, step).scheduled == s.scheduled && Next(s, step).phase == s.phase
  {
    hide Insert, Remove, ScheduleAfter, HeadDue, TodoOf;
  }

  /** What the task running has still to do. */
  function Owed(phase: Phase): Todo {
    if phase.InTask? then phase.todo else Nothing
  }

  lemma ForwardsAwaitLoop(s: State, step: Step)
    requires Enabled(s, step) && !InsideCall(step) && !OnTimerList(step) && !step.StartTask?
    ensures Next(s, step).ran == s.ran && Next(s, step).scheduled == s.scheduled
    ensures Owed(Next(s, step).phase) == Owed(s.phase) && ToSchedule(Next(s, step).phase) == ToSchedule(s.phase)
  {
    hide Insert, Remove, ScheduleAfter, HeadDue, MayCall, UserCode;
  }

  lemma ForwardsStillArrive(s: State, step: Step)
    requires ForwardsArrive(s) && Enabled(s, step)
    ensures ForwardsArrive(Next(s, step))
  {
    hide Next, Enabled, Forwarded, ToSchedule;
    if step.StartTask? {
      ForwardsArriveOnStart(s);
    } else if step.InsertTimer? {
      ForwardsArriveOnInsert(s, step.timer);
    } else {
      ForwardsUntouched(s, step);
    }
  }

  lemma DeadlineStillKept(s: State, step: Step)
    requires DeadlineKept(s) && ThreadsInOrder(s) && Enabled(s, step)
    ensures DeadlineKept(Next(s, step))
  {
    if InsideCall(step) || step.AddHandle? || step.RemoveHandle? {
      hide Insert, Remove, ScheduleAfter;
    } else if OnTimerList(step) {
      DeadlineKeptOnTimerList(s, step);
    } else {
      hide Insert, Remove;
    }
  }

  /** The list changes only while the loop thread is not waiting. */
  lemma DeadlineKeptOnTimerList(s: State, step: Step)
    requires ThreadsInOrder(s) && Enabled(s, step) && OnTimerList(step)
    ensures DeadlineKept(Next(s, step))
  {
    hide Insert, Remove, ScheduleAfter;
    assert UserCode(s) || s.phase.InTask?;
  }

  lemma WakeUpKeptInCall(s: State, step: Step)
    requires FlagBacked(s) && NoLostTask(s) && Enabled(s, step) && InsideCall(step)
    ensures FlagBacked(Next(s, step)) && NoLostTask(Next(s, step))
  {
    var s' := Next(s, step);
    match step
    case Count(tid, task) =>
      SomeCallAfter(s.calls, tid, Marked, Counted(task));
      SomeCallAfter(s.calls, tid, Queued, Counted(task));
    case Enqueue(tid) =>
      SomeCallAfter(s.calls, tid, Marked, Queued);
      assert s'.calls[tid] == Queued;
    case Mark(tid) =>
      SomeCallAfter(s.calls, tid, Marked, Idle);
      assert !s.posted ==> s'.calls[tid] == Marked;
    case _ =>
  }

  lemma WakeUpKeptOnTimerList(s: State, step: Step)
    requires ThreadsInOrder(s) && FlagBacked(s) && NoLostTask(s) && Enabled(s, step) && OnTimerList(step)
    ensures FlagBacked(Next(s, step)) && NoLostTask(Next(s, step))
  {
    hide Insert, Remove;
    var call := if step.InsertTimer? then Inserted else if step.RemoveTimer? then Removed else Idle;
    SomeCallAfter(s.calls, LOOP, Marked, call);
    SomeCallAfter(s.calls, LOOP, Queued, call);
  }

  lemma WakeUpKept(s: State, step: Step)
    requires ThreadsInOrder(s) && FlagBacked(s) && NoLostTask(s) && Enabled(s, step)
    ensures FlagBacked(Next(s, step)) && NoLostTask(Next(s, step))
  {
    if InsideCall(step) {
      WakeUpKeptInCall(s, step);
    } else if OnTimerList(step) {
      WakeUpKeptOnTimerList(s, step);
    } else {
      hide ScheduleAfter, HeadDue, TodoOf, SomeCall;
      assert Next(s, step).calls == s.calls;
    }
  }

  /** Every step keeps the invariant. */
  lemma StepKeepsInv(s: State, step: Step)
    requires Inv(s) && Enabled(s, step)
    ensures Inv(Next(s, step))
  {
    hide CountAccounted, ThreadsInOrder, FirstInFirstOut, TimersConserved, ForwardsArrive, DeadlineKept,
      FlagBacked, NoLostTask, Next;
    CountKept(s, step);
    OrderKept(s, step);
    QueueKept(s, step);
    TimersKept(s, step);
    ForwardsStillArrive(s, step);
    DeadlineStillKept(s, step);
    WakeUpKept(s, step);
  }

  lemma {:induction false} RunKeepsInv(states: seq<State>, steps: seq<Step>, threads: set<nat>, i: nat)
    requires IsRun(states, steps, threads) && i <= |steps|
    ensures Inv(states[i])
    decreases i
  {
    hide Inv, Next, Enabled;
    if i == 0 {
      InitialInv(threads);
    } else {
      RunKeepsInv(states, steps, threads, i - 1);
      StepKeepsInv(states[i - 1], steps[i - 1]);
    }
  }

  // ----- what follows for every run

  /**
   * Nothing is left to do: every task ever queued has run, in queue order, and every timer, those forwarded from
   * other threads among them, has fired or was cancelled.
   */
  ghost predicate Done(s: State) {
    && s.handles == 0 && s.tasks == [] && s.timers == []
    && (forall tid | tid in s.calls :: !s.calls[tid].Counted?)
    && s.ran == s.queued
    && s.scheduled == s.fired + s.cancelled
    && Forwarded(s.queued) <= s.fired + s.cancelled
  }

  lemma NoneLeft(s: State)
    requires Inv(s) && s.phase.Testing? && s.active == 0
    ensures Done(s)
  {
    hide Forwarded;
    assert |Counting(s.calls)| == 0;
    forall tid | tid in s.calls
      ensures !s.calls[tid].Counted?
    {
      assert tid !in Counting(s.calls);
    }
    assert s.queued == s.ran + [] + [] == s.ran;
  }

  /** What the loop still has to do, or to wait for. */
  ghost predicate NothingLeft(s: State) {
    s.handles == 0 && s.tasks == [] && s.timers == [] && forall tid | tid in s.calls :: !s.calls[tid].Counted?
  }

  /** The test ends `run` exactly when nothing is left, and otherwise goes on to wait. */
  lemma ExitsIffNothingLeft(states: seq<State>, steps: seq<Step>, threads: set<nat>, i: nat)
    requires IsRun(states, steps, threads) && i < |steps| && steps[i].Test?
    ensures if NothingLeft(states[i]) then states[i + 1].phase.Outside? else states[i + 1].phase.Waiting?
  {
    RunKeepsInv(states, steps, threads, i);
    hide Inv, ScheduleAfter;
    ActiveIffLeft(states[i]);
  }

  lemma ActiveIffLeft(s: State)
    requires Inv(s) && s.phase.Testing?
    ensures s.active == 0 <==> NothingLeft(s)
  {
    hide FirstInFirstOut, TimersConserved, ForwardsArrive, DeadlineKept, FlagBacked, NoLostTask;
    if NothingLeft(s) {
      assert Counting(s.calls) == {};
    } else if s.active == 0 {
      assert |Counting(s.calls)| == 0;
      forall tid | tid in s.calls
        ensures !s.calls[tid].Counted?
      {
        assert tid !in Counting(s.calls);
      }
    }
  }

  lemma ExitingTest(s: State)
    requires Enabled(s, Test) && Next(s, Test).phase.Outside?
    ensures s.phase.Testing? && s.active == 0 && Next(s, Test) == s.(phase := Outside)
  {
    hide ScheduleAfter;
  }

  /** `run` returns only when no handle, task, timer or half-counted submission remains. */
  lemma ExitMeansDone(states: seq<State>, steps: seq<Step>, threads: set<nat>, i: nat)
    requires IsRun(states, steps, threads) && i < |steps|
    requires steps[i].Test? && states[i + 1].phase.Outside?
    ensures Done(states[i]) && Done(states[i + 1])
  {
    hide Inv, Next, Enabled, Forwarded;
    RunKeepsInv(states, steps, threads, i);
    ExitingTest(states[i]);
    NoneLeft(states[i]);
  }

  /** A loop at its wait with tasks queued has a packet to wake it, or a thread on its way to posting one. */
  lemma NoLostWakeUp(states: seq<State>, steps: seq<Step>, threads: set<nat>, i: nat)
    requires IsRun(states, steps, threads) && i <= |steps|
    requires states[i].phase.Waiting? && states[i].tasks != []
    ensures states[i].nulls > 0 || SomeCall(states[i].calls, Queued) || SomeCall(states[i].calls, Marked)
  {
    hide Next, Enabled, CountAccounted, ThreadsInOrder, FirstInFirstOut, TimersConserved, ForwardsArrive,
      DeadlineKept, FlagBacked;
    RunKeepsInv(states, steps, threads, i);
  }

  /** A taken flag has a packet in the port, a thread about to post one, or the loop about to clear it. */
  lemma FlagIsBacked(states: seq<State>, steps: seq<Step>, threads: set<nat>, i: nat)
    requires IsRun(states, steps, threads) && i <= |steps| && states[i].posted
    ensures states[i].nulls > 0 || SomeCall(states[i].calls, Marked) || states[i].phase.Resetting?
  {
    hide Next, Enabled, CountAccounted, ThreadsInOrder, FirstInFirstOut, TimersConserved, ForwardsArrive,
      DeadlineKept, NoLostTask;
    RunKeepsInv(states, steps, threads, i);
  }

  /** The time of a wait: to the first expiry, none if that has passed, and 100 s without timers. */
  lemma WaitIsChosen(s: State)
    requires Enabled(s, Test) && s.active != 0
    ensures var s' := Next(s, Test);
            && s' == s.(phase := s'.phase) && s'.phase.Waiting?
            && (s.timers == [] ==> s'.phase.until == s.now + 100_000)
            && (s.timers != [] && s.now < s.timers[0].expiry ==> s'.phase.until == s.timers[0].expiry)
            && (s.timers != [] && s.timers[0].expiry <= s.now ==> s'.phase.until == s.now)
  {
  }

  /** A wait whose time has passed, with timers pending, finds the first of them due. */
  lemma TimeOutFindsHeadDue(states: seq<State>, steps: seq<Step>, threads: set<nat>, i: nat)
    requires IsRun(states, steps, threads) && i < |steps| && steps[i].TimeOut? && states[i].timers != []
    ensures states[i].timers[0].expiry <= states[i].now && states[i + 1].timers == states[i].timers
  {
    TimersUntouched(states[i], steps[i]);
    hide Next, CountAccounted, ThreadsInOrder, FirstInFirstOut, TimersConserved, ForwardsArrive, FlagBacked, NoLostTask;
    RunKeepsInv(states, steps, threads, i);
  }

  /** The firing loop takes the earliest timer, which has expired, and ends only when none has. */
  lemma FiresEarliest(states: seq<State>, steps: seq<Step>, threads: set<nat>, i: nat)
    requires IsRun(states, steps, threads) && i < |steps|
    ensures steps[i].Fire? ==>
              var s, s' := states[i], states[i + 1];
              && s.timers != [] && s'.fired == s.fired + multiset{s.timers[0]} && s'.timers == s.timers[1..]
              && s.timers[0].expiry <= s.now && forall t | t in s.timers :: s.timers[0].expiry <= t.expiry
    ensures steps[i].NoneDue? ==> forall t | t in states[i].timers :: states[i].now < t.expiry
  {
    hide Inv, Next, Enabled;
    RunKeepsInv(states, steps, threads, i);
    InvSorted(states[i]);
    if steps[i].Fire? {
      FireTakesHead(states[i]);
    } else if steps[i].NoneDue? {
      NoneDueMeansNone(states[i]);
    }
  }

  lemma InvSorted(s: State)
    requires Inv(s)
    ensures Sorted(s.timers)
  {
    hide Sorted;
  }

  lemma FireTakesHead(s: State)
    requires Enabled(s, Fire) && Sorted(s.timers)
    ensures var s' := Next(s, Fire);
            && s.timers != [] && s'.fired == s.fired + multiset{s.timers[0]} && s'.timers == s.timers[1..]
            && s.timers[0].expiry <= s.now && forall t | t in s.timers :: s.timers[0].expiry <= t.expiry
  {
  }

  lemma NoneDueMeansNone(s: State)
    requires Enabled(s, NoneDue) && Sorted(s.timers)
    ensures forall t | t in s.timers :: s.now < t.expiry
  {
  }

  /** A waiting loop wakes by the expiry of its first timer, or, when that has passed, now. */
  lemma NeverSleepsPastDeadline(states: seq<State>, steps: seq<Step>, threads: set<nat>, i: nat)
    requires IsRun(states, steps, threads) && i <= |steps|
    requires states[i].phase.Waiting? && states[i].timers != []
    ensures states[i].phase.until <= states[i].now || states[i].phase.until <= states[i].timers[0].expiry
    ensures forall t | t in states[i].timers :: states[i].timers[0].expiry <= t.expiry
  {
    hide Next, Enabled, CountAccounted, ThreadsInOrder, FirstInFirstOut, ForwardsArrive, FlagBacked, NoLostTask;
    RunKeepsInv(states, steps, threads, i);
  }

  /**
   * Once every thread has left `wake_up` and every packet has been dequeued, a loop blocked in its wait has an
   * empty queue: no task sleeps until the next timer.
   */
  lemma {:induction false} BlockedMeansEmpty(states: seq<State>, steps: seq<Step>, threads: set<nat>, i: nat)
    requires IsRun(states, steps, threads) && i <= |steps|
    requires states[i].phase.Waiting? && states[i].nulls == 0
    requires forall tid | tid in states[i].calls :: !states[i].calls[tid].Queued? && !states[i].calls[tid].Marked?
    ensures states[i].tasks == [] && states[i].queued == states[i].ran
  {
    hide Next, Enabled, CountAccounted, ThreadsInOrder, TimersConserved, ForwardsArrive, DeadlineKept, FlagBacked;
    RunKeepsInv(states, steps, threads, i);
  }

  /** At every instant the tasks run so far are the first ones queued, in order. */
  lemma RanIsPrefix(states: seq<State>, steps: seq<Step>, threads: set<nat>, i: nat)
    requires IsRun(states, steps, threads) && i <= |steps|
    ensures states[i].ran <= states[i].queued
  {
    hide Next, Enabled, CountAccounted, ThreadsInOrder, TimersConserved, ForwardsArrive, DeadlineKept, FlagBacked,
      NoLostTask;
    RunKeepsInv(states, steps, threads, i);
    var s := states[i];
    assert s.queued == s.ran + (Batch(s.phase) + s.tasks);
  }

  /**
   * No timer fires early, and each one scheduled is pending, fired or cancelled, counted with multiplicity. The
   * timers that other threads forwarded are among those scheduled as soon as their tasks have run.
   */
  lemma TimersFireOnceAndOnTime(states: seq<State>, steps: seq<Step>, threads: set<nat>, i: nat)
    requires IsRun(states, steps, threads) && i <= |steps|
    ensures states[i].scheduled == states[i].fired + states[i].cancelled + multiset(states[i].timers)
    ensures forall t | t in states[i].fired :: t.expiry <= states[i].now
    ensures Forwarded(states[i].ran) <= states[i].scheduled + ToSchedule(states[i].phase)
  {
    hide Next, Enabled, CountAccounted, ThreadsInOrder, FirstInFirstOut, DeadlineKept, FlagBacked, NoLostTask,
      Forwarded;
    RunKeepsInv(states, steps, threads, i);
  }
}
