/** The thread pool as a state machine: every section under the queue mutex is one
    atomic step, and so is every notification. */
module Pool {
  import opened Bytes

  /** The closure the event loop enqueues: a chunk of data from a connection. */
  datatype Job = Job(fd: nat, data: Str)

  /** Ready: about to take the mutex for the first time in this round of its loop.
      Blocked: waiting on the condition variable. Notified: woken, about to take the
      mutex again. Running: outside the mutex, in a task. */
  datatype Worker = Ready | Blocked | Notified | Running(job: Job) | Exited {
    predicate Awake() {
      Ready? || Notified?
    }
  }

  /** `notifies` counts the `notify_one` calls still to come, `notifyAll` is the one of
      the destructor. The last three fields record the history: every job accepted,
      started and finished, in order. */
  datatype State = State(tasks: seq<Job>, stop: bool, workers: seq<Worker>, notifies: nat, notifyAll: bool,
                         accepted: seq<Job>, started: seq<Job>, done: seq<Job>)

  function Init(threads: nat): State {
    State([], false, seq(threads, _ => Ready), 0, false, [], [], [])
  }

  datatype Step =
    | Enqueue(job: Job)
    | NotifyOne(w: nat)
    | NotifyNobody
    | Wake(w: nat)
    | Enter(w: nat)
    | Finish(w: nat)
    | Stop
    | NotifyAll

  predicate AnyBlocked(s: State) {
    exists w :: 0 <= w < |s.workers| && s.workers[w].Blocked?
  }

  /** `Wake` is a spurious wakeup. A `notify_one` with a waiting worker wakes one of
      them, and without one is lost. */
  predicate Enabled(s: State, step: Step) {
    match step
    case Enqueue(_) => true
    case NotifyOne(w) => s.notifies > 0 && w < |s.workers| && s.workers[w].Blocked?
    case NotifyNobody => s.notifies > 0 && !AnyBlocked(s)
    case Wake(w) => w < |s.workers| && s.workers[w].Blocked?
    case Enter(w) => w < |s.workers| && s.workers[w].Awake()
    case Finish(w) => w < |s.workers| && s.workers[w].Running?
    case Stop => !s.stop
    case NotifyAll => s.notifyAll
  }

  function WakeAll(workers: seq<Worker>): (r: seq<Worker>)
    ensures |r| == |workers|
  {
    seq(|workers|, w requires 0 <= w < |workers| => if workers[w].Blocked? then Notified else workers[w])
  }

  function Apply(s: State, step: Step): State
    requires Enabled(s, step)
  {
    match step
    case Enqueue(job) =>
      if s.stop then s
      else s.(tasks := s.tasks + [job], notifies := s.notifies + 1, accepted := s.accepted + [job])
    case NotifyOne(w) => s.(notifies := s.notifies - 1, workers := s.workers[w := Notified])
    case NotifyNobody => s.(notifies := s.notifies - 1)
    case Wake(w) => s.(workers := s.workers[w := Notified])
    case Enter(w) =>
      if s.tasks != [] then
        s.(tasks := s.tasks[1..], workers := s.workers[w := Running(s.tasks[0])], started := s.started + [s.tasks[0]])
      else if s.stop then s.(workers := s.workers[w := Exited])
      else s.(workers := s.workers[w := Blocked])
    case Finish(w) => s.(workers := s.workers[w := Ready], done := s.done + [s.workers[w].job])
    case Stop => s.(stop := true, notifyAll := true)
    case NotifyAll => s.(workers := WakeAll(s.workers), notifyAll := false)
  }

  // ---- Counting workers ----

  function CountAwake(workers: seq<Worker>): nat {
    if workers == [] then 0
    else CountAwake(workers[..|workers| - 1]) + if workers[|workers| - 1].Awake() then 1 else 0
  }

  predicate Runs(w: Worker, job: Job) {
    w == Running(job)
  }

  /** How many workers are running this very job. */
  function CountRunning(workers: seq<Worker>, job: Job): nat {
    if workers == [] then 0
    else CountRunning(workers[..|workers| - 1], job) + if Runs(workers[|workers| - 1], job) then 1 else 0
  }

  lemma {:induction false} AwakeUpdate(workers: seq<Worker>, w: nat, x: Worker)
    requires w < |workers|
    ensures CountAwake(workers[w := x]) + (if workers[w].Awake() then 1 else 0)
         == CountAwake(workers) + (if x.Awake() then 1 else 0)
  {
    var last := |workers| - 1;
    var updated := workers[w := x];
    if w == last {
      assert updated[..last] == workers[..last];
    } else {
      assert updated[..last] == workers[..last][w := x];
      AwakeUpdate(workers[..last], w, x);
    }
  }

  lemma {:induction false} RunningUpdate(workers: seq<Worker>, w: nat, x: Worker, job: Job)
    requires w < |workers|
    ensures CountRunning(workers[w := x], job) + (if Runs(workers[w], job) then 1 else 0)
         == CountRunning(workers, job) + (if Runs(x, job) then 1 else 0)
  {
    var last := |workers| - 1;
    var updated := workers[w := x];
    if w == last {
      assert updated[..last] == workers[..last];
    } else {
      assert updated[..last] == workers[..last][w := x];
      RunningUpdate(workers[..last], w, x, job);
    }
  }

  lemma {:induction false} WakeAllKeepsRunning(workers: seq<Worker>, job: Job)
    ensures CountRunning(WakeAll(workers), job) == CountRunning(workers, job)
  {
    if workers != [] {
      var last := |workers| - 1;
      WakeAllKeepsRunning(workers[..last], job);
      assert WakeAll(workers)[..last] == WakeAll(workers[..last]);
    }
  }

  // ---- What every step keeps ----

  /** While a worker sleeps, every queued task has its own wakeup under way: a
      notification to come, or a worker on its way to the queue. */
  ghost predicate NoLostWakeup(s: State) {
    AnyBlocked(s) ==> |s.tasks| <= s.notifies + CountAwake(s.workers)
  }

  /** Accepted tasks are started in the order they came, none twice, and each started
      task is running or done. */
  ghost predicate ExactlyOnce(s: State) {
    && s.accepted == s.started + s.tasks
    && forall job :: multiset(s.started)[job] == multiset(s.done)[job] + CountRunning(s.workers, job)
  }

  /** Once stopping, no worker sleeps unless the destructor is still to wake it, and a
      worker has left only if there is nothing more to do. */
  ghost predicate CleanShutdown(s: State) {
    && (s.stop && AnyBlocked(s) ==> s.notifyAll)
    && (s.notifyAll ==> s.stop)
    && (forall w :: 0 <= w < |s.workers| && s.workers[w].Exited? ==> s.stop && s.tasks == [])
  }

  ghost predicate Inv(s: State) {
    NoLostWakeup(s) && ExactlyOnce(s) && CleanShutdown(s)
  }

  lemma InitInv(threads: nat)
    ensures Inv(Init(threads))
  {
    forall job: Job
      ensures CountRunning(Init(threads).workers, job) == 0
    {
      NoneRunning(Init(threads).workers, job);
    }
  }

  /** The worker a step changes, if it is one, and what it changes it to. */
  function Changed(s: State, step: Step): Worker
    requires Enabled(s, step) && (step.NotifyOne? || step.Wake? || step.Enter? || step.Finish?)
  {
    match step
    case NotifyOne(_) => Notified
    case Wake(_) => Notified
    case Finish(_) => Ready
    case Enter(_) => if s.tasks != [] then Running(s.tasks[0]) else if s.stop then Exited else Blocked
  }

  lemma WakeupKept(s: State, step: Step)
    requires NoLostWakeup(s) && Enabled(s, step)
    ensures NoLostWakeup(Apply(s, step))
  {
    hide CountAwake;
    if step.NotifyOne? || step.Wake? || step.Enter? || step.Finish? {
      AwakeUpdate(s.workers, step.w, Changed(s, step));
      assert AnyBlocked(Apply(s, step)) && !Changed(s, step).Blocked? ==> AnyBlocked(s);
    } else {
      assert AnyBlocked(Apply(s, step)) ==> AnyBlocked(s);
    }
  }

  lemma OrderKept(s: State, step: Step)
    requires s.accepted == s.started + s.tasks && Enabled(s, step)
    ensures Apply(s, step).accepted == Apply(s, step).started + Apply(s, step).tasks
  {
    if step.Enqueue? {
      assert s.accepted + [step.job] == s.started + (s.tasks + [step.job]);
    } else if step.Enter? && s.tasks != [] {
      assert s.started + s.tasks == s.started + [s.tasks[0]] + s.tasks[1..];
    }
  }

  lemma CountKept(s: State, step: Step, job: Job)
    requires multiset(s.started)[job] == multiset(s.done)[job] + CountRunning(s.workers, job) && Enabled(s, step)
    ensures var t := Apply(s, step);
            multiset(t.started)[job] == multiset(t.done)[job] + CountRunning(t.workers, job)
  {
    hide CountRunning, WakeAll;
    match step
    case NotifyOne(w) =>
      RunningUpdate(s.workers, w, Notified, job);
    case Wake(w) =>
      RunningUpdate(s.workers, w, Notified, job);
    case Enter(w) =>
      EnterCount(s, w, job);
    case Finish(w) =>
      FinishCount(s, w, job);
    case NotifyAll =>
      WakeAllKeepsRunning(s.workers, job);
    case _ =>
  }

  lemma EnterCount(s: State, w: nat, job: Job)
    requires multiset(s.started)[job] == multiset(s.done)[job] + CountRunning(s.workers, job) && Enabled(s, Enter(w))
    ensures var t := Apply(s, Enter(w));
            multiset(t.started)[job] == multiset(t.done)[job] + CountRunning(t.workers, job)
  {
    hide CountRunning;
    RunningUpdate(s.workers, w, Changed(s, Enter(w)), job);
    if s.tasks != [] {
      CountAppend(s.started, s.tasks[0], job);
    }
  }

  lemma FinishCount(s: State, w: nat, job: Job)
    requires multiset(s.started)[job] == multiset(s.done)[job] + CountRunning(s.workers, job) && Enabled(s, Finish(w))
    ensures var t := Apply(s, Finish(w));
            multiset(t.started)[job] == multiset(t.done)[job] + CountRunning(t.workers, job)
  {
    hide CountRunning;
    RunningUpdate(s.workers, w, Ready, job);
    CountAppend(s.done, s.workers[w].job, job);
  }

  lemma CountAppend(jobs: seq<Job>, last: Job, job: Job)
    ensures multiset(jobs + [last])[job] == multiset(jobs)[job] + if last == job then 1 else 0
  {
  }

  lemma OnceKept(s: State, step: Step)
    requires ExactlyOnce(s) && Enabled(s, step)
    ensures ExactlyOnce(Apply(s, step))
  {
    hide CountRunning, Apply, Enabled;
    OrderKept(s, step);
    forall job
      ensures var t := Apply(s, step);
              multiset(t.started)[job] == multiset(t.done)[job] + CountRunning(t.workers, job)
    {
      CountKept(s, step, job);
    }
  }

  lemma ShutdownKept(s: State, step: Step)
    requires CleanShutdown(s) && Enabled(s, step)
    ensures CleanShutdown(Apply(s, step))
  {
    assert !step.NotifyAll? && AnyBlocked(Apply(s, step)) && s.stop ==> AnyBlocked(s);
  }

  lemma StepKeeps(s: State, step: Step)
    requires Inv(s) && Enabled(s, step)
    ensures Inv(Apply(s, step))
    ensures |Apply(s, step).workers| == |s.workers|
  {
    hide NoLostWakeup, ExactlyOnce, CleanShutdown;
    WakeupKept(s, step);
    OnceKept(s, step);
    ShutdownKept(s, step);
  }

  ghost predicate Steps(s: State, step: Step, t: State) {
    Enabled(s, step) && t == Apply(s, step)
  }

  ghost predicate Run(states: seq<State>, steps: seq<Step>) {
    && |states| == |steps| + 1
    && forall i :: 0 <= i < |steps| ==> Steps(states[i], steps[i], states[i + 1])
  }

  /** Every state of every run of a pool keeps all three properties. */
  lemma {:induction false} RunKeeps(threads: nat, states: seq<State>, steps: seq<Step>, n: nat)
    requires Run(states, steps) && states[0] == Init(threads) && n < |states|
    ensures Inv(states[n]) && |states[n].workers| == threads
  {
    hide Inv;
    if n == 0 {
      InitInv(threads);
    } else {
      RunKeeps(threads, states, steps, n - 1);
      assert Steps(states[n - 1], steps[n - 1], states[n]);
      StepKeeps(states[n - 1], steps[n - 1]);
    }
  }

  lemma {:induction false} NoneAwake(workers: seq<Worker>)
    requires forall w :: 0 <= w < |workers| ==> !workers[w].Awake()
    ensures CountAwake(workers) == 0
  {
    if workers != [] {
      NoneAwake(workers[..|workers| - 1]);
    }
  }

  /** Work conservation: when no notification is to come and no worker is on its way to
      the queue, a task waits only while every worker is running one. */
  lemma WaitsOnlyWhenAllRun(s: State)
    requires Inv(s) && s.tasks != [] && s.notifies == 0
    requires forall w :: 0 <= w < |s.workers| ==> !s.workers[w].Awake()
    ensures forall w :: 0 <= w < |s.workers| ==> s.workers[w].Running?
  {
    NoneAwake(s.workers);
  }

  /** With a task queued, a worker can take it, a notification can be delivered, or a
      running task can finish; no spurious wakeup is needed. */
  lemma QueuedNotStuck(s: State) returns (step: Step)
    requires Inv(s) && s.tasks != [] && s.workers != []
    ensures Enabled(s, step) && (step.Enter? || step.NotifyOne? || step.NotifyNobody? || step.Finish?)
  {
    if w: nat :| w < |s.workers| && s.workers[w].Awake() {
      step := Enter(w);
    } else if s.notifies > 0 {
      if w: nat :| w < |s.workers| && s.workers[w].Blocked? {
        step := NotifyOne(w);
      } else {
        step := NotifyNobody;
      }
    } else {
      WaitsOnlyWhenAllRun(s);
      step := Finish(0);
    }
  }

  // ---- Shutdown ----

  function Weight(w: Worker): nat {
    match w
    case Ready => 1
    case Notified => 1
    case Blocked => 2
    case Running(_) => 2
    case Exited => 0
  }

  function Weights(workers: seq<Worker>): nat {
    if workers == [] then 0 else Weights(workers[..|workers| - 1]) + Weight(workers[|workers| - 1])
  }

  /** A bound on the steps left once the pool is stopping. */
  function Measure(s: State): nat {
    2 * |s.tasks| + Weights(s.workers) + s.notifies + if s.notifyAll then 1 else 0
  }

  lemma {:induction false} WeightsUpdate(workers: seq<Worker>, w: nat, x: Worker)
    requires w < |workers|
    ensures Weights(workers[w := x]) + Weight(workers[w]) == Weights(workers) + Weight(x)
  {
    var last := |workers| - 1;
    var updated := workers[w := x];
    if w == last {
      assert updated[..last] == workers[..last];
    } else {
      assert updated[..last] == workers[..last][w := x];
      WeightsUpdate(workers[..last], w, x);
    }
  }

  lemma {:induction false} WakeAllWeights(workers: seq<Worker>)
    ensures Weights(WakeAll(workers)) <= Weights(workers)
  {
    if workers != [] {
      var last := |workers| - 1;
      WakeAllWeights(workers[..last]);
      assert WakeAll(workers)[..last] == WakeAll(workers[..last]);
    }
  }

  /** After the stop flag is set, `enqueue` changes nothing and every other step uses up
      some of the measure. */
  lemma StoppedStep(s: State, step: Step)
    requires s.stop && Enabled(s, step)
    ensures Apply(s, step).stop && Apply(s, step).accepted == s.accepted
    ensures step.Enqueue? ==> Apply(s, step) == s
    ensures !step.Enqueue? ==> Measure(Apply(s, step)) < Measure(s)
  {
    match step
    case Enqueue(_) =>
    case NotifyOne(w) =>
      WeightsUpdate(s.workers, w, Notified);
    case NotifyNobody =>
    case Wake(w) =>
      WeightsUpdate(s.workers, w, Notified);
    case Enter(w) =>
      WeightsUpdate(s.workers, w, if s.tasks != [] then Running(s.tasks[0]) else Exited);
    case Finish(w) =>
      WeightsUpdate(s.workers, w, Ready);
    case Stop =>
    case NotifyAll =>
      WakeAllWeights(s.workers);
  }

  /** As long as a worker has not left, some step other than `enqueue` can be taken. */
  lemma StoppedProgress(s: State, w: nat) returns (step: Step)
    requires Inv(s) && s.stop && w < |s.workers| && !s.workers[w].Exited?
    ensures !step.Enqueue? && Enabled(s, step)
  {
    step := match s.workers[w]
      case Ready => Enter(w)
      case Notified => Enter(w)
      case Blocked => NotifyAll
      case Running(_) => Finish(w)
      case Exited => Stop;
  }

  lemma {:induction false} NoneRunning(workers: seq<Worker>, job: Job)
    requires forall w :: 0 <= w < |workers| ==> !workers[w].Running?
    ensures CountRunning(workers, job) == 0
  {
    if workers != [] {
      NoneRunning(workers[..|workers| - 1], job);
    }
  }

  /** When all workers have left, every accepted task has been done exactly once and the
      queue is empty. */
  lemma AllExitedAllDone(s: State)
    requires Inv(s) && s.workers != [] && forall w :: 0 <= w < |s.workers| ==> s.workers[w].Exited?
    ensures s.tasks == [] && multiset(s.done) == multiset(s.accepted)
  {
    assert s.workers[0].Exited?;
    assert s.started + [] == s.started;
    forall job
      ensures multiset(s.done)[job] == multiset(s.accepted)[job]
    {
      NoneRunning(s.workers, job);
    }
  }

  /** The steps of a run other than calls of `enqueue`. */
  function Working(steps: seq<Step>): nat {
    if steps == [] then 0
    else Working(steps[..|steps| - 1]) + if steps[|steps| - 1].Enqueue? then 0 else 1
  }

  /** A run from a stopped pool takes no more steps than its measure, `enqueue` calls
      aside, which are all refused; and if it cannot be extended by another step, all
      workers have left, the queue is empty and all accepted tasks are done. */
  lemma ShutdownTerminates(states: seq<State>, steps: seq<Step>)
    requires Run(states, steps) && Inv(states[0]) && states[0].stop && states[0].workers != []
    ensures Working(steps) <= Measure(states[0])
    ensures var last := states[|steps|];
            (forall step: Step :: Enabled(last, step) ==> step.Enqueue?)
            ==> && (forall w :: 0 <= w < |last.workers| ==> last.workers[w].Exited?)
                && last.tasks == [] && multiset(last.done) == multiset(states[0].accepted)
  {
    hide Inv, Measure, Working;
    StoppedRun(states, steps, |steps|);
    assert steps[..|steps|] == steps;
    var last := states[|steps|];
    if forall step: Step :: Enabled(last, step) ==> step.Enqueue? {
      forall w | 0 <= w < |last.workers|
        ensures last.workers[w].Exited?
      {
        if !last.workers[w].Exited? {
          var step := StoppedProgress(last, w);
        }
      }
      AllExitedAllDone(last);
    }
  }

  lemma {:induction false} StoppedRun(states: seq<State>, steps: seq<Step>, n: nat)
    requires Run(states, steps) && Inv(states[0]) && states[0].stop && n < |states|
    ensures Inv(states[n]) && states[n].stop && states[n].accepted == states[0].accepted
    ensures |states[n].workers| == |states[0].workers|
    ensures Working(steps[..n]) + Measure(states[n]) <= Measure(states[0])
  {
    hide Inv, Measure;
    if n != 0 {
      StoppedRun(states, steps, n - 1);
      assert Steps(states[n - 1], steps[n - 1], states[n]);
      assert steps[..n][..n - 1] == steps[..n - 1];
      StepKeeps(states[n - 1], steps[n - 1]);
      StoppedStep(states[n - 1], steps[n - 1]);
    }
  }

  // ---- The class ----

  /** The pool's own fields; each method is one section under the mutex. */
  class ThreadPool {
    var tasks: seq<Job>
    var stop: bool
    ghost var workers: seq<Worker>
    ghost var notifies: nat
    ghost var notifyAll: bool
    ghost var accepted: seq<Job>
    ghost var started: seq<Job>
    ghost var done: seq<Job>

    ghost function Value(): State
      reads this
    {
      State(tasks, stop, workers, notifies, notifyAll, accepted, started, done)
    }

    constructor (threads: nat)
      ensures Value() == Init(threads)
    {
      tasks, stop := [], false;
      workers, notifies, notifyAll := seq(threads, _ => Ready), 0, false;
      accepted, started, done := [], [], [];
    }

    /** The locked part of `enqueue`; true when a `notify_one` follows. */
    method EnqueueLocked(job: Job) returns (notify: bool)
      requires Inv(Value())
      modifies this
      ensures Value() == Apply(old(Value()), Enqueue(job)) && Inv(Value())
      ensures notify <==> !old(stop)
    {
      ghost var s := Value();
      if stop {
        StepKeeps(s, Enqueue(job));
        return false;
      }
      tasks := tasks + [job];
      accepted, notifies := accepted + [job], notifies + 1;
      StepKeeps(s, Enqueue(job));
      return true;
    }

    /** The locked part of the worker loop: the condition of `wait`, the exit test and
        the pop. */
    method EnterLocked(ghost w: nat) returns (run: bool, exit: bool, job: Job)
      requires Inv(Value()) && Enabled(Value(), Enter(w))
      modifies this
      ensures Value() == Apply(old(Value()), Enter(w)) && Inv(Value())
      ensures run ==> old(tasks) != [] && job == old(tasks)[0] && workers[w] == Running(job)
      ensures exit ==> stop && tasks == [] && workers[w] == Exited
      ensures !run && !exit ==> workers[w] == Blocked
    {
      ghost var s := Value();
      StepKeeps(s, Enter(w));
      run, exit, job := false, false, Job(0, []);
      if !(stop || tasks != []) {
        workers := workers[w := Blocked];
        return;
      }
      if stop && tasks == [] {
        workers := workers[w := Exited];
        exit := true;
        return;
      }
      job := tasks[0];
      tasks := tasks[1..];
      workers, started := workers[w := Running(job)], started + [job];
      run := true;
    }

    /** The locked part of the destructor. */
    method StopLocked()
      requires Inv(Value()) && !stop
      modifies this
      ensures Value() == Apply(old(Value()), Stop) && Inv(Value())
    {
      StepKeeps(Value(), Stop);
      stop := true;
      notifyAll := true;
    }
  }
}
