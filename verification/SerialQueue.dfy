/**
 * The serial executor of task/queue.cpp: whoever finds the queue free runs operations until it is empty, and
 * everyone else, including operations that submit to their own queue, only enqueues.
 */
module SerialQueue {
  datatype Option<T> = None | Some(value: T)

  /** An operation object; the same object may be submitted again once it is out of the queue. */
  type Op = nat

  // ----- the executor as a class: one runner, and whatever is submitted while it runs

  class Queue {
    var running: Option<Op>
    var waiting: seq<Op>
    ghost var submitted: seq<Op>   // in the order the lock was taken
    ghost var started: seq<Op>

    /** The running operation has started; everything else submitted is waiting. */
    ghost predicate Valid()
      reads this
    {
      && submitted == started + waiting
      && (running.None? ==> waiting == [])
    }

    constructor ()
      ensures Valid() && running.None? && submitted == []
    {
      running, waiting, submitted, started := None, [], [], [];
    }

    /** The locked section of `execute`. */
    method Claim(op: Op) returns (runner: bool)
      requires Valid()
      modifies this
      ensures submitted == old(submitted) + [op] && started == old(started)
      ensures runner <==> old(running).None?
      ensures if runner then running == Some(op) && waiting == [] && submitted == started + [op]
              else running == old(running) && waiting == old(waiting) + [op] && Valid()
    {
      submitted := submitted + [op];
      if running.Some? {
        waiting := waiting + [op];
        return false;
      }
      running := Some(op);
      return true;
    }

    /** `fetch`: the next operation, or the queue is free again. */
    method Fetch() returns (more: bool)
      requires Valid() && running.Some?
      modifies this
      ensures submitted == old(submitted) && started == old(started)
      ensures more <==> old(waiting) != []
      ensures if more then running == Some(old(waiting)[0]) && waiting == old(waiting)[1..]
              else running.None? && Valid()
    {
      if waiting != [] {
        running := Some(waiting[0]);
        waiting := waiting[1..];
        return true;
      }
      running := None;
      return false;
    }

    /**
     * `execute` by the thread that finds the queue free. `arrivals[k]` lists what is submitted, from inside the
     * operation or from other threads, while the k-th operation of this call runs.
     */
    method Execute(op: Op, arrivals: seq<seq<Op>>)
      requires Valid()
      modifies this
      ensures Valid() && op in submitted
      ensures old(running).Some? ==> running == old(running) && waiting == old(waiting) + [op] && started == old(started)
      ensures old(running).None? ==> running.None? && started == submitted
      ensures old(running).None? ==> old(submitted) + [op] <= submitted
      ensures old(running).None? ==> |submitted| <= |old(submitted)| + 1 + Total(arrivals)
    {
      var runner := Claim(op);
      if !runner {
        return;
      }
      ghost var all := submitted;
      var k := 0;
      ghost var left := Total(arrivals);
      while true
        invariant running.Some? && 0 <= k
        invariant submitted == started + [running.value] + waiting
        invariant all <= submitted && |submitted| + left <= |all| + Total(arrivals)
        invariant k <= |arrivals| ==> left == Total(arrivals[k..])
        invariant k > |arrivals| ==> left == 0
        decreases left + |waiting|
      {
        ghost var current, now := running.value, submitted;
        started := started + [running.value];
        ghost var was := started;
        assert submitted == started + waiting;
        if k < |arrivals| {
          assert arrivals[k..][0] == arrivals[k] && arrivals[k..][1..] == arrivals[k + 1..];
          for j := 0 to |arrivals[k]|
            invariant Valid() && running == Some(current)
            invariant submitted == now + arrivals[k][..j]
            invariant started == was
          {
            var mine := Claim(arrivals[k][j]);
            assert now + arrivals[k][..j] + [arrivals[k][j]] == now + arrivals[k][..j + 1];
          }
          left := left - |arrivals[k]|;
        }
        k := k + 1;
        var more := Fetch();
        if !more {
          assert submitted[..|all|] == all && all[|all| - 1] == op;
          return;
        }
      }
    }
  }

  ghost function Total(arrivals: seq<seq<Op>>): nat {
    if arrivals == [] then 0 else |arrivals[0]| + Total(arrivals[1..])
  }

  // ----- any number of threads, step by step

  /** Where a thread is inside `execute`. */
  datatype Pc =
    | Idle
    | Ready(op: Op)     // it made `op` the running operation and is about to read `_running` without the lock
    | Inside(op: Op)    // in the operation
    | Fetching          // the operation has returned

  datatype State = State(
    running: Option<Op>,
    waiting: seq<Op>,
    threads: map<nat, Pc>,
    submitted: seq<Op>,
    started: seq<Op>,
    finished: seq<Op>
  )

  datatype Step = Submit(tid: nat, op: Op) | Call(tid: nat) | Return(tid: nat) | Fetch(tid: nat)

  /** Any idle thread may submit, and so may the operation that is running; an object is queued at most once. */
  predicate Enabled(s: State, step: Step) {
    step.tid in s.threads &&
    match step
    case Submit(tid, op) => (s.threads[tid].Idle? || s.threads[tid].Inside?) && op !in s.waiting
    case Call(tid) => s.threads[tid].Ready? && s.running.Some?
    case Return(tid) => s.threads[tid].Inside?
    case Fetch(tid) => s.threads[tid].Fetching?
  }

  function Next(s: State, step: Step): State
    requires Enabled(s, step)
  {
    match step
    case Submit(tid, op) =>
      if s.running.Some? then s.(waiting := s.waiting + [op], submitted := s.submitted + [op])
      else s.(running := Some(op), threads := s.threads[tid := Ready(op)], submitted := s.submitted + [op])
    case Call(tid) =>
      // the operation called is the one `_running` names now
      s.(threads := s.threads[tid := Inside(s.running.value)], started := s.started + [s.running.value])
    case Return(tid) =>
      s.(threads := s.threads[tid := Fetching], finished := s.finished + [s.threads[tid].op])
    case Fetch(tid) =>
      if s.waiting != [] then
        s.(running := Some(s.waiting[0]), waiting := s.waiting[1..], threads := s.threads[tid := Ready(s.waiting[0])])
      else s.(running := None, threads := s.threads[tid := Idle])
  }

  function Initial(threads: set<nat>): State {
    State(None, [], map tid | tid in threads :: Idle, [], [], [])
  }

  ghost predicate IsRun(states: seq<State>, steps: seq<Step>, threads: set<nat>) {
    && |states| == |steps| + 1
    && states[0] == Initial(threads)
    && forall i | 0 <= i < |steps| :: Enabled(states[i], steps[i]) && states[i + 1] == Next(states[i], steps[i])
  }

  /** At most one thread is not idle. */
  ghost predicate OneRunner(s: State) {
    forall a, b | a in s.threads && b in s.threads && !s.threads[a].Idle? && !s.threads[b].Idle? :: a == b
  }

  /** A busy thread accounts for the running operation and for every submission. */
  ghost predicate RunnerAccounts(s: State) {
    forall tid | tid in s.threads && !s.threads[tid].Idle? ::
      && s.running.Some?
      && match s.threads[tid]
         case Ready(op) =>
           s.running == Some(op) && s.submitted == s.started + [op] + s.waiting && s.started == s.finished
         case Inside(op) =>
           s.running == Some(op) && s.submitted == s.started + s.waiting && s.started == s.finished + [op]
         case _ => s.submitted == s.started + s.waiting && s.started == s.finished
  }

  /** With every thread idle the queue is free, empty, and has finished everything. */
  ghost predicate IdleMeansDone(s: State) {
    (forall tid | tid in s.threads :: s.threads[tid].Idle?) ==>
      s.running.None? && s.waiting == [] && s.submitted == s.started == s.finished
  }

  ghost predicate DistinctWaiting(s: State) {
    forall i, j | 0 <= i < j < |s.waiting| :: s.waiting[i] != s.waiting[j]
  }

  ghost predicate Inv(s: State) {
    OneRunner(s) && RunnerAccounts(s) && IdleMeansDone(s) && DistinctWaiting(s)
  }

  lemma StepKeepsInv(s: State, step: Step)
    requires Inv(s) && Enabled(s, step)
    ensures Inv(Next(s, step))
  {
    var s' := Next(s, step);
    match step
    case Submit(tid, op) =>
      if s.running.Some? {
        assert s'.threads == s.threads;
        assert s.started + s.waiting + [op] == s.started + (s.waiting + [op]);
        forall t | t in s.threads && s.threads[t].Ready?
          ensures s.started + [s.threads[t].op] + s.waiting + [op] == s.started + [s.threads[t].op] + (s.waiting + [op])
        {
        }
      } else {
        assert forall t | t in s.threads :: s.threads[t].Idle?;
        assert s'.threads[tid] == Ready(op);
        assert s.started + [op] + [] == s.started + [op];
      }
    case Call(tid) =>
      assert s'.threads[tid].Inside?;
    case Return(tid) =>
      assert s'.threads[tid].Fetching?;
    case Fetch(tid) =>
      if s.waiting != [] {
        assert s'.threads[tid].Ready?;
        assert s.started + s.waiting == s.started + [s.waiting[0]] + s.waiting[1..];
      } else {
        assert s.started + [] == s.started;
      }
  }

  lemma {:induction false} RunKeepsInv(states: seq<State>, steps: seq<Step>, threads: set<nat>, i: nat)
    requires IsRun(states, steps, threads) && i <= |steps|
    ensures Inv(states[i])
    decreases i
  {
    if i > 0 {
      RunKeepsInv(states, steps, threads, i - 1);
      StepKeepsInv(states[i - 1], steps[i - 1]);
    }
  }

  /** In every run at most one thread is inside an operation. */
  lemma MutualExclusion(states: seq<State>, steps: seq<Step>, threads: set<nat>, i: nat, a: nat, b: nat)
    requires IsRun(states, steps, threads) && i <= |steps|
    requires a in states[i].threads && b in states[i].threads
    requires states[i].threads[a].Inside? && states[i].threads[b].Inside?
    ensures a == b
  {
    RunKeepsInv(states, steps, threads, i);
  }

  /** Operations start, and finish, in the order in which submissions took the lock, each once. */
  lemma LockOrder(states: seq<State>, steps: seq<Step>, threads: set<nat>, i: nat)
    requires IsRun(states, steps, threads) && i <= |steps|
    ensures states[i].finished <= states[i].started <= states[i].submitted
    ensures |states[i].started| <= |states[i].finished| + 1
  {
    RunKeepsInv(states, steps, threads, i);
    var s := states[i];
    if tid :| tid in s.threads && !s.threads[tid].Idle? {
      match s.threads[tid]
      case Ready(op) => assert s.submitted == s.started + ([op] + s.waiting);
      case _ =>
    }
  }

  /** A free queue is empty and every submission has finished. */
  lemma FreeMeansDone(states: seq<State>, steps: seq<Step>, threads: set<nat>, i: nat)
    requires IsRun(states, steps, threads) && i <= |steps| && states[i].running.None?
    ensures states[i].waiting == [] && states[i].finished == states[i].submitted
  {
    RunKeepsInv(states, steps, threads, i);
    var s := states[i];
    assert forall tid | tid in s.threads :: s.threads[tid].Idle?;
  }

  /** The unlocked read of `_running` is stable: no step of another thread changes it under a runner. */
  lemma UnlockedReadIsStable(states: seq<State>, steps: seq<Step>, threads: set<nat>, i: nat, runner: nat)
    requires IsRun(states, steps, threads) && i < |steps|
    requires runner in states[i].threads && !states[i].threads[runner].Idle? && steps[i].tid != runner
    ensures states[i + 1].running == states[i].running
    ensures states[i + 1].threads[runner] == states[i].threads[runner]
    ensures states[i].threads[runner].Ready? ==> states[i].running == Some(states[i].threads[runner].op)
  {
    RunKeepsInv(states, steps, threads, i);
  }
}
