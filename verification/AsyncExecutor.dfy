/** The executor behind the asynchronous calls: a queue of tasks, a fixed set of workers
    and a condition variable, as a transition system whose steps are the critical sections
    of its mutex, the notifications sent after a critical section, and the end of a task. */
module AsyncExecutor {

  type Task = nat
  type WorkerId = nat

  /** Where a worker stands: about to test its wait condition under the mutex, blocked
      without a notification, inside a task, or past the end of its loop. */
  datatype Worker = Testing | Blocked | Running(task: Task) | Returned

  /** `accepted` and `started` record the tasks in the order of their submission and of
      their start, `finished` how often each task has run. `pendingOne` counts the calls of
      notify_one, and `pendingAll` tells of the notify_all, that are still to come from
      threads that have left their critical section. */
  datatype State = State(
    queue: seq<Task>,
    stopping: bool,
    workers: seq<Worker>,
    pendingOne: nat,
    pendingAll: bool,
    accepted: seq<Task>,
    started: seq<Task>,
    finished: multiset<Task>)

  datatype Step =
    | Submit(task: Task)
    | NotifyOne(w: WorkerId)
    | Stop
    | NotifyAll
    | Test(w: WorkerId)
    | Finish(w: WorkerId)
    | SpuriousWake(w: WorkerId)

  predicate Is(s: State, w: WorkerId, x: Worker) { w < |s.workers| && s.workers[w] == x }

  /** A submission while stopping throws and is not a step. A task is an object of its own,
      so the same one is never submitted twice. notify_one wakes some blocked worker, and
      is lost when there is none. */
  predicate Enabled(s: State, step: Step)
  {
    match step
    case Submit(t) => !s.stopping && t !in s.accepted
    case NotifyOne(w) => s.pendingOne > 0 && (Is(s, w, Blocked) || Blocked !in s.workers)
    case Stop => !s.stopping
    case NotifyAll => s.pendingAll
    case Test(w) => Is(s, w, Testing)
    case Finish(w) => w < |s.workers| && s.workers[w].Running?
    case SpuriousWake(w) => Is(s, w, Blocked)
  }

  function Woken(workers: seq<Worker>): (r: seq<Worker>)
    ensures |r| == |workers|
    ensures forall w :: 0 <= w < |r| ==> r[w] == if workers[w] == Blocked then Testing else workers[w]
  {
    seq(|workers|, w requires 0 <= w < |workers| => if workers[w] == Blocked then Testing else workers[w])
  }

  function ApplyTest(s: State, w: WorkerId): State
    requires Is(s, w, Testing)
  {
    if !(s.stopping || s.queue != []) then s.(workers := s.workers[w := Blocked])
    else if s.queue == [] then s.(workers := s.workers[w := Returned])
    else s.(workers := s.workers[w := Running(s.queue[0])],
            queue := s.queue[1..],
            started := s.started + [s.queue[0]])
  }

  function Apply(s: State, step: Step): State
    requires Enabled(s, step)
  {
    match step
    case Submit(t) => s.(queue := s.queue + [t], accepted := s.accepted + [t], pendingOne := s.pendingOne + 1)
    case NotifyOne(w) =>
      s.(pendingOne := s.pendingOne - 1,
         workers := if Is(s, w, Blocked) then s.workers[w := Testing] else s.workers)
    case Stop => s.(stopping := true, pendingAll := true)
    case NotifyAll => s.(pendingAll := false, workers := Woken(s.workers))
    case Test(w) => ApplyTest(s, w)
    case Finish(w) =>
      s.(workers := s.workers[w := Testing], finished := s.finished + multiset{s.workers[w].task})
    case SpuriousWake(w) => s.(workers := s.workers[w := Testing])
  }

  /** A new executor with at least one worker. */
  predicate Init(s: State)
  {
    && 0 < |s.workers| && (forall w :: 0 <= w < |s.workers| ==> s.workers[w] == Testing)
    && s.queue == s.accepted == s.started == [] && s.finished == multiset{}
    && !s.stopping && s.pendingOne == 0 && !s.pendingAll
  }

  // ----- The invariant -----

  function TestingSet(workers: seq<Worker>): set<WorkerId>
  {
    set w | 0 <= w < |workers| && workers[w] == Testing
  }

  ghost predicate NoDuplicates(s: seq<Task>)
  {
    forall i, j :: 0 <= i < j < |s| ==> s[i] != s[j]
  }

  ghost predicate RunsOn(s: State, t: Task)
  {
    exists w :: 0 <= w < |s.workers| && s.workers[w] == Running(t)
  }

  /** Every task is waiting in the queue, running on one worker, or has run once. */
  ghost predicate TasksOk(s: State)
  {
    && s.accepted == s.started + s.queue && NoDuplicates(s.accepted)
    && (forall w :: 0 <= w < |s.workers| && s.workers[w].Running? ==>
          s.workers[w].task in s.started && s.finished[s.workers[w].task] == 0)
    && (forall v, w :: 0 <= v < w < |s.workers| && s.workers[v].Running? ==> s.workers[v] != s.workers[w])
    && (forall t :: t in s.started ==> s.finished[t] == 1 || RunsOn(s, t))
    && (forall t :: s.finished[t] <= 1 && (s.finished[t] == 1 ==> t in s.started))
  }

  /** Nobody sleeps through a task or through the end: while a worker is blocked, there is
      for each queued task a worker about to test or a notification to come. */
  ghost predicate WakeUpsOk(s: State)
  {
    && (Blocked in s.workers ==> |s.queue| <= |TestingSet(s.workers)| + s.pendingOne)
    && (s.stopping && !s.pendingAll ==> Blocked !in s.workers)
    && (Returned in s.workers ==> s.stopping && s.queue == [])
  }

  ghost predicate Inv(s: State)
  {
    0 < |s.workers| && TasksOk(s) && WakeUpsOk(s)
  }

  lemma InitInv(s: State)
    requires Init(s)
    ensures Inv(s)
  {
  }

  lemma TestingAfter(workers: seq<Worker>, w: WorkerId, x: Worker)
    requires w < |workers|
    ensures |TestingSet(workers[w := x])| ==
            |TestingSet(workers)| - (if workers[w] == Testing then 1 else 0) + (if x == Testing then 1 else 0)
  {
    var others := TestingSet(workers) - {w};
    assert TestingSet(workers) == others + (if workers[w] == Testing then {w} else {});
    assert TestingSet(workers[w := x]) == others + (if x == Testing then {w} else {});
  }

  lemma TasksAfterSubmit(s: State, t: Task)
    requires Inv(s) && Enabled(s, Submit(t))
    ensures TasksOk(Apply(s, Submit(t)))
  {
    var s' := Apply(s, Submit(t));
    assert s'.accepted == s'.started + s'.queue;
    forall x | x in s'.started ensures s'.finished[x] == 1 || RunsOn(s', x) {
      assert RunsOn(s, x) ==> RunsOn(s', x);
    }
  }

  /** Waking workers up does nothing to the tasks. */
  lemma TasksAfterWake(s: State, s': State)
    requires Inv(s) && |s'.workers| == |s.workers|
    requires s'.accepted == s.accepted && s'.started == s.started && s'.queue == s.queue && s'.finished == s.finished
    requires forall w :: 0 <= w < |s.workers| ==>
               s'.workers[w] == s.workers[w] || !(s'.workers[w].Running? || s.workers[w].Running?)
    ensures TasksOk(s')
  {
    forall t | t in s'.started ensures s'.finished[t] == 1 || RunsOn(s', t) {
      if s.finished[t] != 1 {
        var w :| 0 <= w < |s.workers| && s.workers[w] == Running(t);
        assert s'.workers[w] == Running(t);
      }
    }
  }

  lemma TasksAfterTest(s: State, w: WorkerId)
    requires Inv(s) && Is(s, w, Testing)
    ensures TasksOk(ApplyTest(s, w))
  {
    var s' := ApplyTest(s, w);
    if s.queue != [] {
      QueuedNotStarted(s, s.queue[0]);
      assert s'.workers[w] == Running(s.queue[0]);
    }
    forall t | t in s'.started ensures s'.finished[t] == 1 || RunsOn(s', t) {
      if t in s.started && s.finished[t] != 1 {
        var v :| 0 <= v < |s.workers| && s.workers[v] == Running(t);
        assert s'.workers[v] == Running(t);
      }
    }
  }

  lemma TasksAfterFinish(s: State, w: WorkerId)
    requires Inv(s) && Enabled(s, Finish(w))
    ensures TasksOk(Apply(s, Finish(w)))
  {
    var s' := Apply(s, Finish(w));
    forall t | t in s'.started ensures s'.finished[t] == 1 || RunsOn(s', t) {
      if s.finished[t] != 1 && t != s.workers[w].task {
        var v :| 0 <= v < |s.workers| && s.workers[v] == Running(t);
        assert s'.workers[v] == Running(t);
      }
    }
  }

  lemma WakeUpsKept(s: State, step: Step)
    requires Inv(s) && Enabled(s, step)
    ensures WakeUpsOk(Apply(s, step))
  {
    var s' := Apply(s, step);
    if step.Test? || step.Finish? || step.SpuriousWake? || (step.NotifyOne? && Is(s, step.w, Blocked)) {
      TestingAfter(s.workers, step.w, s'.workers[step.w]);
    }
  }

  /** Every step keeps the invariant. */
  lemma StepKeeps(s: State, step: Step)
    requires Inv(s) && Enabled(s, step)
    ensures Inv(Apply(s, step))
  {
    WakeUpsKept(s, step);
    match step
    case Test(w) => TasksAfterTest(s, w);
    case Finish(w) => TasksAfterFinish(s, w);
    case Submit(t) => TasksAfterSubmit(s, t);
    case _ => TasksAfterWake(s, Apply(s, step));
  }

  // ----- Runs -----

  predicate Legal(s: State, steps: seq<Step>)
    decreases |steps|
  {
    steps == [] || (Enabled(s, steps[0]) && Legal(Apply(s, steps[0]), steps[1..]))
  }

  function Execute(s: State, steps: seq<Step>): State
    requires Legal(s, steps)
    decreases |steps|
  {
    if steps == [] then s else Execute(Apply(s, steps[0]), steps[1..])
  }

  lemma {:induction false} RunKeeps(s: State, steps: seq<Step>)
    requires Inv(s) && Legal(s, steps)
    ensures Inv(Execute(s, steps))
    decreases |steps|
  {
    if steps != [] {
      StepKeeps(s, steps[0]);
      RunKeeps(Apply(s, steps[0]), steps[1..]);
    }
  }

  /** Drain: in every run, when all workers have returned, every accepted task has run
      exactly once and nothing else has, and the queue is empty. */
  lemma Drain(s: State, steps: seq<Step>, t: Task)
    requires Init(s) && Legal(s, steps)
    requires var e := Execute(s, steps); forall w :: 0 <= w < |e.workers| ==> e.workers[w] == Returned
    ensures var e := Execute(s, steps);
            && e.queue == [] && e.stopping
            && e.finished[t] == if t in e.accepted then 1 else 0
  {
    InitInv(s);
    RunKeeps(s, steps);
    var e := Execute(s, steps);
    assert e.workers[0] in e.workers;
  }

  /** In every run the tasks start in the order of their submission. */
  lemma StartsInOrder(s: State, steps: seq<Step>)
    requires Init(s) && Legal(s, steps)
    ensures Execute(s, steps).started <= Execute(s, steps).accepted
    ensures Execute(s, steps).accepted == Execute(s, steps).started + Execute(s, steps).queue
  {
    InitInv(s);
    RunKeeps(s, steps);
  }

  /** At every moment a task that has been accepted is queued, or running on exactly one
      worker, or has run exactly once, and only one of these. */
  lemma Conservation(s: State, steps: seq<Step>, t: Task)
    requires Init(s) && Legal(s, steps)
    ensures var e := Execute(s, steps);
            && (t in e.accepted <==> t in e.queue || RunsOn(e, t) || e.finished[t] == 1)
            && !(t in e.queue && RunsOn(e, t)) && !(t in e.queue && e.finished[t] > 0)
            && !(RunsOn(e, t) && e.finished[t] > 0) && e.finished[t] <= 1
            && (forall v, w :: 0 <= v < w < |e.workers| ==> !(e.workers[v] == Running(t) && e.workers[w] == Running(t)))
  {
    InitInv(s);
    RunKeeps(s, steps);
    var e := Execute(s, steps);
    if t in e.queue && t in e.started { QueuedNotStarted(e, t); }
    if RunsOn(e, t) { assert t in e.started; }
  }

  lemma QueuedNotStarted(s: State, t: Task)
    requires TasksOk(s) && t in s.queue
    ensures t !in s.started
  {
    var j :| 0 <= j < |s.queue| && s.queue[j] == t;
    assert s.accepted[|s.started| + j] == t;
    forall i | 0 <= i < |s.started| ensures s.started[i] != t {
      assert s.accepted[i] == s.started[i];
    }
  }

  /** Nothing is accepted once the executor is stopping. */
  lemma {:induction false} NothingAcceptedAfterStop(s: State, steps: seq<Step>)
    requires s.stopping && Legal(s, steps)
    ensures Execute(s, steps).stopping && Execute(s, steps).accepted == s.accepted
    decreases |steps|
  {
    if steps != [] { NothingAcceptedAfterStop(Apply(s, steps[0]), steps[1..]); }
  }

  /** The tasks submitted in a run, in order. */
  function Submitted(steps: seq<Step>): seq<Task>
  {
    if steps == [] then []
    else (if steps[0].Submit? then [steps[0].task] else []) + Submitted(steps[1..])
  }

  /** Until the stop every submission of a new task is accepted, and nothing else is: the
      accepted tasks of a run are the submitted ones, in order. */
  lemma {:induction false} AcceptedAreSubmitted(s: State, steps: seq<Step>, t: Task)
    requires Legal(s, steps)
    ensures Execute(s, steps).accepted == s.accepted + Submitted(steps)
    ensures !Execute(s, steps).stopping && t !in s.accepted + Submitted(steps) <==>
            Enabled(Execute(s, steps), Submit(t))
    decreases |steps|
  {
    if steps != [] { AcceptedAreSubmitted(Apply(s, steps[0]), steps[1..], t); }
  }

  // ----- Progress -----

  /** Steps that the executor owes: neither clients nor luck are needed for them. */
  predicate Owed(step: Step)
  {
    step.NotifyOne? || step.NotifyAll? || step.Test? || step.Finish?
  }

  /** No wake-up is lost: while there is something to do - a queued task, or workers to
      bring home after the stop - the executor has a step to take by itself. */
  lemma NeverStuck(s: State)
    requires Inv(s)
    requires s.queue != [] || (s.stopping && exists w :: 0 <= w < |s.workers| && s.workers[w] != Returned)
    ensures exists step :: Owed(step) && Enabled(s, step)
  {
    var w := if s.queue != [] then 0 else var w :| 0 <= w < |s.workers| && s.workers[w] != Returned; w;
    assert s.workers[w] in s.workers;
    if exists v :: 0 <= v < |s.workers| && s.workers[v] == Testing {
      var v :| 0 <= v < |s.workers| && s.workers[v] == Testing;
      assert Enabled(s, Test(v));
    } else if exists v :: 0 <= v < |s.workers| && s.workers[v].Running? {
      var v :| 0 <= v < |s.workers| && s.workers[v].Running?;
      assert Enabled(s, Finish(v));
    } else {
      assert s.workers[w] == Blocked;
      assert TestingSet(s.workers) == {};
      if s.pendingOne > 0 { assert Enabled(s, NotifyOne(w)); } else { assert Enabled(s, NotifyAll); }
    }
  }

  // ----- Measuring work -----

  /** How much work a worker stands for; a blocked one counts `blocked`. */
  function Weight(x: Worker, blocked: nat): nat
  {
    match x
    case Running(_) => 2
    case Blocked => blocked
    case Testing => 1
    case Returned => 0
  }

  function Weights(workers: seq<Worker>, blocked: nat): nat
  {
    if workers == [] then 0 else Weights(workers[..|workers| - 1], blocked) + Weight(workers[|workers| - 1], blocked)
  }

  lemma {:induction false} WeightsAfter(workers: seq<Worker>, w: WorkerId, x: Worker, blocked: nat)
    requires w < |workers|
    ensures Weights(workers[w := x], blocked) ==
            Weights(workers, blocked) - Weight(workers[w], blocked) + Weight(x, blocked)
  {
    var k := |workers| - 1;
    if w == k {
      assert workers[w := x][..k] == workers[..k];
    } else {
      assert workers[w := x][..k] == workers[..k][w := x];
      WeightsAfter(workers[..k], w, x, blocked);
    }
  }

  lemma {:induction false} WeightsWoken(workers: seq<Worker>, blocked: nat)
    ensures Weights(Woken(workers), blocked) <= Weights(workers, blocked) + if blocked > 0 then 0 else |workers|
  {
    if workers != [] {
      var k := |workers| - 1;
      assert Woken(workers)[..k] == Woken(workers[..k]);
      WeightsWoken(workers[..k], blocked);
    }
  }

  // ----- Accepted tasks get done -----

  /** How many steps the executor can owe, if nobody submits anything. */
  function Todo(s: State): nat
  {
    2 * |s.queue| + Weights(s.workers, 0) + 2 * s.pendingOne + if s.pendingAll then |s.workers| + 1 else 0
  }

  lemma OwedStepIsWork(s: State, step: Step)
    requires Enabled(s, step) && Owed(step)
    ensures Todo(Apply(s, step)) < Todo(s)
  {
    if step.NotifyAll? { WeightsWoken(s.workers, 0); }
    if step.Test? || step.Finish? || (step.NotifyOne? && Is(s, step.w, Blocked)) {
      WeightsAfter(s.workers, step.w, Apply(s, step).workers[step.w], 0);
    }
  }

  /** Whether or not the executor is ever stopped: left to itself it takes at most `Todo`
      steps, and when it has none left to take, every accepted task has run exactly once. */
  lemma {:induction false} AcceptedTasksRun(s: State, steps: seq<Step>)
    requires Inv(s) && Legal(s, steps) && forall i :: 0 <= i < |steps| ==> Owed(steps[i])
    ensures |steps| <= Todo(s) && Execute(s, steps).accepted == s.accepted
    ensures var e := Execute(s, steps);
            (forall step :: Owed(step) ==> !Enabled(e, step)) ==>
              e.queue == [] && forall t :: t in s.accepted ==> e.finished[t] == 1
    decreases |steps|
  {
    if steps == [] {
      if forall step :: Owed(step) ==> !Enabled(s, step) {
        if s.queue != [] { NeverStuck(s); }
        forall t | t in s.accepted ensures s.finished[t] == 1 {
          if w :| 0 <= w < |s.workers| && s.workers[w] == Running(t) {
            assert Owed(Finish(w)) && Enabled(s, Finish(w));
          }
        }
      }
    } else {
      StepKeeps(s, steps[0]);
      OwedStepIsWork(s, steps[0]);
      AcceptedTasksRun(Apply(s, steps[0]), steps[1..]);
    }
  }

  // ----- Shutdown -----

  /** What is left to do before the destructor can return. */
  function Remaining(s: State): nat
  {
    2 * |s.queue| + Weights(s.workers, 2) + s.pendingOne + if s.pendingAll then 1 else 0
  }

  lemma StepNearsTheEnd(s: State, step: Step)
    requires s.stopping && Enabled(s, step)
    ensures Apply(s, step).stopping && Remaining(Apply(s, step)) < Remaining(s)
  {
    if step.NotifyAll? { WeightsWoken(s.workers, 2); }
    if step.Test? || step.Finish? || step.SpuriousWake? || (step.NotifyOne? && Is(s, step.w, Blocked)) {
      WeightsAfter(s.workers, step.w, Apply(s, step).workers[step.w], 2);
    }
  }

  /** Shutdown ends: once the executor is stopping, every run is at most `Remaining` steps
      long, and a run that cannot be continued has brought all workers home. */
  lemma {:induction false} ShutdownEnds(s: State, steps: seq<Step>)
    requires Inv(s) && s.stopping && Legal(s, steps)
    ensures |steps| <= Remaining(s)
    ensures (forall step :: !Enabled(Execute(s, steps), step)) ==>
              forall w :: 0 <= w < |Execute(s, steps).workers| ==> Execute(s, steps).workers[w] == Returned
    decreases |steps|
  {
    if steps == [] {
      if exists w :: 0 <= w < |s.workers| && s.workers[w] != Returned { NeverStuck(s); }
    } else {
      StepKeeps(s, steps[0]);
      StepNearsTheEnd(s, steps[0]);
      ShutdownEnds(Apply(s, steps[0]), steps[1..]);
    }
  }
}
