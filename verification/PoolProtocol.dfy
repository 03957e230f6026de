// One queue of moudles/server/dm_threading_pool.c as its threads see it: any number of producers
// running enqueue and any number of workers running execute_task, interleaved at every step that
// another thread can observe. Histories record what was linked in, taken out and executed.
module PoolProtocol {
  import opened PoolTask

  datatype Owner = Free | ByProducer(id: nat) | ByWorker(id: nat)

  // Where a producer stands in enqueue. Signalling: the node is linked into an empty queue and
  // pthread_cond_signal comes next. Leaving: pthread_mutex_unlock comes next.
  datatype ProducerPc = Off | Locking(task: Task) | Linking(task: Task) | Signalling | Leaving

  // Where a worker stands. Ready: about to lock the mutex, in dequeue or after having been woken.
  // Testing: at the while test, holding the mutex. Waiting: inside pthread_cond_wait, signalled or not.
  // Took: task in hand, still holding the mutex. Running: in the body of execute_task's loop.
  datatype WorkerPc = Ready | Testing | Waiting(signalled: bool) | Took(task: Task) | Running(task: Task) | Exited

  datatype State = State(
    queue: seq<Task>,
    owner: Owner,
    producers: seq<ProducerPc>,
    workers: seq<WorkerPc>,
    submitted: seq<Task>,
    taken: seq<Task>,
    executed: seq<Task>)

  // One step of one thread. A signal wakes the worker `target`, if there is one to wake.
  datatype Step =
    | Submit(p: nat, task: Task)
    | Lock(p: nat)
    | LinkIn(p: nat)
    | Signal(p: nat, target: nat)
    | Unlock(p: nat)
    | Acquire(w: nat)
    | Test(w: nat)
    | Release(w: nat)
    | Work(w: nat)
    | Wake(w: nat)

  function Start(producers: nat, workers: nat): State {
    State([], Free, seq(producers, i => Off), seq(workers, i => Ready), [], [], [])
  }

  ghost predicate SomeoneWaits(s: State) {
    exists w :: 0 <= w < |s.workers| && s.workers[w] == Waiting(false)
  }

  // A signal wakes a worker that waits unsignalled; it is lost only if there is none.
  ghost predicate Wakes(s: State, target: nat) {
    if SomeoneWaits(s) then target < |s.workers| && s.workers[target] == Waiting(false) else true
  }

  ghost predicate Enabled(s: State, step: Step) {
    match step
    case Submit(p, _) => p < |s.producers| && s.producers[p] == Off
    case Lock(p) => p < |s.producers| && s.producers[p].Locking? && s.owner == Free
    case LinkIn(p) => p < |s.producers| && s.producers[p].Linking?
    case Signal(p, target) => p < |s.producers| && s.producers[p] == Signalling && Wakes(s, target)
    case Unlock(p) => p < |s.producers| && s.producers[p] == Leaving
    case Acquire(w) => w < |s.workers| && s.workers[w] == Ready && s.owner == Free
    case Test(w) => w < |s.workers| && s.workers[w] == Testing
    case Release(w) => w < |s.workers| && s.workers[w].Took?
    case Work(w) => w < |s.workers| && s.workers[w].Running?
    case Wake(w) => w < |s.workers| && s.workers[w].Waiting?
  }

  ghost function Signalled(s: State, target: nat): seq<WorkerPc>
    requires Wakes(s, target)
  {
    if SomeoneWaits(s) then s.workers[target := Waiting(true)] else s.workers
  }

  ghost function After(s: State, step: Step): State
    requires Enabled(s, step)
  {
    match step
    case Submit(p, task) => s.(producers := s.producers[p := Locking(task)])
    case Lock(p) => s.(owner := ByProducer(p), producers := s.producers[p := Linking(s.producers[p].task)])
    case LinkIn(p) =>
      s.(queue := s.queue + [s.producers[p].task],
         submitted := s.submitted + [s.producers[p].task],
         producers := s.producers[p := if s.queue == [] then Signalling else Leaving])
    case Signal(p, target) => s.(workers := Signalled(s, target), producers := s.producers[p := Leaving])
    case Unlock(p) => s.(owner := Free, producers := s.producers[p := Off])
    case Acquire(w) => s.(owner := ByWorker(w), workers := s.workers[w := Testing])
    case Test(w) =>
      if s.queue == [] then s.(owner := Free, workers := s.workers[w := Waiting(false)])
      else s.(queue := s.queue[1..], taken := s.taken + [s.queue[0]], workers := s.workers[w := Took(s.queue[0])])
    case Release(w) => s.(owner := Free, workers := s.workers[w := Running(s.workers[w].task)])
    case Work(w) =>
      var task := s.workers[w].task;
      if IsPill(task) then s.(workers := s.workers[w := Exited])
      else s.(workers := s.workers[w := Ready], executed := s.executed + [task])
    case Wake(w) => s.(workers := s.workers[w := Ready])
  }

  // s' is reached from s by the steps, each enabled in its turn.
  ghost predicate Leads(s: State, steps: seq<Step>, s': State)
    decreases |steps|
  {
    if steps == [] then s == s'
    else Enabled(s, steps[0]) && Leads(After(s, steps[0]), steps[1..], s')
  }

  // ----- what every step keeps -----

  predicate HoldsP(pc: ProducerPc) {
    pc.Linking? || pc.Signalling? || pc.Leaving?
  }

  predicate HoldsW(pc: WorkerPc) {
    pc.Testing? || pc.Took?
  }

  // The mutex is held by whoever stands in its critical section, and by nobody else.
  ghost predicate Exclusive(s: State) {
    && (forall p :: 0 <= p < |s.producers| ==> (HoldsP(s.producers[p]) <==> s.owner == ByProducer(p)))
    && (forall w :: 0 <= w < |s.workers| ==> (HoldsW(s.workers[w]) <==> s.owner == ByWorker(w)))
    && (s.owner.ByProducer? ==> s.owner.id < |s.producers|)
    && (s.owner.ByWorker? ==> s.owner.id < |s.workers|)
  }

  // Nothing is lost, duplicated or overtaken on its way through the queue.
  ghost predicate Fifo(s: State) {
    s.submitted == s.taken + s.queue
  }

  // Linking into an empty queue is followed by a signal before anyone else can look.
  ghost predicate Alert(s: State) {
    s.queue != [] && SomeoneWaits(s) ==>
      s.owner.ByProducer? && s.owner.id < |s.producers| && s.producers[s.owner.id] == Signalling
  }

  // What the only worker has taken, it has executed, in that order, or has in hand.
  function InHand(pc: WorkerPc): seq<Task> {
    if pc.Took? || pc.Running? then [pc.task] else []
  }

  ghost predicate Orderly(s: State)
    requires |s.workers| == 1
  {
    && (forall i :: 0 <= i < |s.executed| ==> !IsPill(s.executed[i]))
    && if s.workers[0] == Exited then
         |s.taken| == |s.executed| + 1 && s.taken[..|s.executed|] == s.executed && IsPill(s.taken[|s.executed|])
       else s.taken == s.executed + InHand(s.workers[0])
  }

  ghost predicate Inv(s: State) {
    Exclusive(s) && Fifo(s) && (|s.workers| == 1 ==> Alert(s) && Orderly(s))
  }

  lemma StartInv(producers: nat, workers: nat)
    ensures Inv(Start(producers, workers))
  {
  }

  lemma ProducerExclusive(s: State, step: Step)
    requires Exclusive(s) && Enabled(s, step)
    requires step.Submit? || step.Lock? || step.LinkIn? || step.Signal? || step.Unlock?
    ensures Exclusive(After(s, step))
  {
  }

  lemma StepExclusive(s: State, step: Step)
    requires Exclusive(s) && Enabled(s, step)
    ensures Exclusive(After(s, step))
  {
    if step.Submit? || step.Lock? || step.LinkIn? || step.Signal? || step.Unlock? {
      ProducerExclusive(s, step);
    }
  }

  lemma StepFifo(s: State, step: Step)
    requires Fifo(s) && Enabled(s, step)
    ensures Fifo(After(s, step))
  {
    if step.Test? && s.queue != [] {
      assert s.queue == [s.queue[0]] + s.queue[1..];
    }
  }

  lemma StepAlert(s: State, step: Step)
    requires |s.workers| == 1 && Exclusive(s) && Alert(s) && Enabled(s, step)
    ensures Alert(After(s, step))
  {
    assert SomeoneWaits(s) <==> s.workers[0] == Waiting(false);
    var s' := After(s, step);
    assert SomeoneWaits(s') <==> s'.workers[0] == Waiting(false);
  }

  lemma StepOrderly(s: State, step: Step)
    requires |s.workers| == 1 && Orderly(s) && Enabled(s, step)
    ensures Orderly(After(s, step))
  {
  }

  lemma StepInv(s: State, step: Step)
    requires Inv(s) && Enabled(s, step)
    ensures Inv(After(s, step))
    ensures |After(s, step).workers| == |s.workers| && |After(s, step).producers| == |s.producers|
  {
    StepExclusive(s, step);
    StepFifo(s, step);
    if |s.workers| == 1 {
      StepAlert(s, step);
      StepOrderly(s, step);
    }
  }

  lemma {:induction false} RunInv(s: State, steps: seq<Step>, s': State)
    requires Inv(s) && Leads(s, steps, s')
    ensures Inv(s') && |s'.workers| == |s.workers| && |s'.producers| == |s.producers|
    decreases |steps|
  {
    if steps != [] {
      StepInv(s, steps[0]);
      RunInv(After(s, steps[0]), steps[1..], s');
    }
  }

  // ----- no wake-up is lost, with one worker -----

  // Nobody sleeps unsignalled next to a queued task while the mutex is free.
  ghost predicate Awake(s: State) {
    s.owner == Free && s.queue != [] ==> !SomeoneWaits(s)
  }

  ghost predicate AlwaysAwake(producers: nat, workers: nat) {
    forall steps, s :: Leads(Start(producers, workers), steps, s) ==> Awake(s)
  }

  lemma NoLostWakeup(producers: nat, workers: nat, steps: seq<Step>, s: State)
    requires workers <= 1 && Leads(Start(producers, workers), steps, s)
    ensures Awake(s)
  {
    StartInv(producers, workers);
    RunInv(Start(producers, workers), steps, s);
  }

  lemma {:induction false} LeadsOn(s: State, steps: seq<Step>, s': State, more: seq<Step>, s'': State)
    requires Leads(s, steps, s') && Leads(s', more, s'')
    ensures Leads(s, steps + more, s'')
    decreases |steps|
  {
    if steps == [] {
      assert steps + more == more;
    } else {
      assert (steps + more)[0] == steps[0] && (steps + more)[1..] == steps[1..] + more;
      LeadsOn(After(s, steps[0]), steps[1..], s', more, s'');
    }
  }

  // One more step at the end of a run.
  lemma Onward(s: State, steps: seq<Step>, s': State, step: Step)
    requires Leads(s, steps, s') && Enabled(s', step)
    ensures Leads(s, steps + [step], After(s', step))
  {
    var s'' := After(s', step);
    assert Leads(s'', [], s'');
    assert [step][1..] == [];
    assert Leads(s', [step], s'');
    LeadsOn(s, steps, s', [step], s'');
  }

  // Worker w finds the queue empty and falls asleep.
  lemma FallAsleep(start: State, steps: seq<Step>, s: State, w: nat) returns (steps': seq<Step>, s': State)
    requires Leads(start, steps, s)
    requires s.owner == Free && s.queue == [] && w < |s.workers| && s.workers[w] == Ready
    ensures Leads(start, steps', s') && s' == s.(workers := s.workers[w := Waiting(false)])
  {
    Onward(start, steps, s, Acquire(w));
    s' := After(s, Acquire(w));
    Onward(start, steps + [Acquire(w)], s', Test(w));
    steps' := steps + [Acquire(w)] + [Test(w)];
    s' := After(s', Test(w));
    assert s.workers[w := Testing][w := Waiting(false)] == s.workers[w := Waiting(false)];
  }

  // Producer p gets as far as holding the mutex.
  lemma EnterEnqueue(start: State, steps: seq<Step>, s: State, p: nat, task: Task)
    returns (steps': seq<Step>, s': State)
    requires Leads(start, steps, s) && s.owner == Free && p < |s.producers| && s.producers[p] == Off
    ensures Leads(start, steps', s')
    ensures s' == s.(owner := ByProducer(p), producers := s.producers[p := Linking(task)])
  {
    Onward(start, steps, s, Submit(p, task));
    s' := After(s, Submit(p, task));
    Onward(start, steps + [Submit(p, task)], s', Lock(p));
    steps' := steps + [Submit(p, task)] + [Lock(p)];
    s' := After(s', Lock(p));
    assert s.producers[p := Locking(task)][p := Linking(task)] == s.producers[p := Linking(task)];
  }

  // Producer p enqueues on an empty queue and wakes w.
  lemma EnqueueFirst(start: State, steps: seq<Step>, s: State, p: nat, task: Task, w: nat)
    returns (steps': seq<Step>, s': State)
    requires Leads(start, steps, s) && s.owner == Free && p < |s.producers| && s.producers[p] == Off
    requires s.queue == [] && w < |s.workers| && s.workers[w] == Waiting(false)
    ensures Leads(start, steps', s') && s'.owner == Free && s'.queue == [task]
    ensures s'.producers == s.producers && s'.workers == s.workers[w := Waiting(true)]
  {
    steps', s' := EnterEnqueue(start, steps, s, p, task);
    Onward(start, steps', s', LinkIn(p));
    steps', s' := steps' + [LinkIn(p)], After(s', LinkIn(p));
    assert SomeoneWaits(s');
    Onward(start, steps', s', Signal(p, w));
    steps', s' := steps' + [Signal(p, w)], After(s', Signal(p, w));
    Onward(start, steps', s', Unlock(p));
    steps', s' := steps' + [Unlock(p)], After(s', Unlock(p));
  }

  // Producer p enqueues behind another task and wakes nobody.
  lemma EnqueueNext(start: State, steps: seq<Step>, s: State, p: nat, task: Task)
    returns (steps': seq<Step>, s': State)
    requires Leads(start, steps, s) && s.owner == Free && p < |s.producers| && s.producers[p] == Off && s.queue != []
    ensures Leads(start, steps', s') && s'.owner == Free && s'.queue == s.queue + [task] && s'.workers == s.workers
  {
    steps', s' := EnterEnqueue(start, steps, s, p, task);
    Onward(start, steps', s', LinkIn(p));
    steps', s' := steps' + [LinkIn(p)], After(s', LinkIn(p));
    Onward(start, steps', s', Unlock(p));
    steps', s' := steps' + [Unlock(p)], After(s', Unlock(p));
  }

  // A run that strands the second of two or more workers: both fall asleep, and two tasks come in
  // before the first, which gets the only signal, has left.
  lemma LostWakeup(producers: nat, workers: nat, task: Task) returns (steps: seq<Step>, s: State)
    requires producers >= 1 && workers >= 2
    ensures Leads(Start(producers, workers), steps, s) && !Awake(s)
  {
    var start := Start(producers, workers);
    assert Leads(start, [], start);
    steps, s := FallAsleep(start, [], start, 0);
    steps, s := FallAsleep(start, steps, s, 1);
    steps, s := EnqueueFirst(start, steps, s, 0, task, 0);
    steps, s := EnqueueNext(start, steps, s, 0, task);
    assert s.workers[1] == Waiting(false);
  }

  // Signalling only on the step from empty to non-empty is safe exactly for at most one worker a queue.
  lemma OneWorkerPerQueue(producers: nat, workers: nat)
    requires producers >= 1
    ensures AlwaysAwake(producers, workers) <==> workers <= 1
  {
    if workers >= 2 {
      var steps, s := LostWakeup(producers, workers, Task(1, 0, 0));
      assert !Awake(s);
    } else {
      forall steps, s | Leads(Start(producers, workers), steps, s)
        ensures Awake(s)
      {
        NoLostWakeup(producers, workers, steps, s);
      }
    }
  }

  // ----- what a worker that has stopped has done -----

  predicate HasPill(tasks: seq<Task>) {
    exists i :: 0 <= i < |tasks| && IsPill(tasks[i])
  }

  // The tasks in front of the first pill.
  function BeforePill(tasks: seq<Task>): seq<Task> {
    if tasks == [] || IsPill(tasks[0]) then [] else [tasks[0]] + BeforePill(tasks[1..])
  }

  lemma {:induction false} BeforePillIs(tasks: seq<Task>, k: nat)
    requires k < |tasks| && IsPill(tasks[k]) && forall i :: 0 <= i < k ==> !IsPill(tasks[i])
    ensures BeforePill(tasks) == tasks[..k]
  {
    if k > 0 {
      BeforePillIs(tasks[1..], k - 1);
      assert tasks[..k] == [tasks[0]] + tasks[1..][..k - 1];
    }
  }

  // At any time, what the only worker has executed is an initial part of what was submitted, in the
  // order of submission. When it has stopped, that part is exactly what stood in front of the first pill.
  lemma ExecutedInOrder(producers: nat, steps: seq<Step>, s: State)
    requires Leads(Start(producers, 1), steps, s)
    ensures |s.workers| == 1
    ensures |s.executed| <= |s.submitted| && s.executed == s.submitted[..|s.executed|]
    ensures s.workers[0] == Exited ==> HasPill(s.submitted) && s.executed == BeforePill(s.submitted)
  {
    StartInv(producers, 1);
    RunInv(Start(producers, 1), steps, s);
    StoppedExecuted(s);
  }

  lemma StoppedExecuted(s: State)
    requires |s.workers| == 1 && Inv(s)
    ensures |s.executed| <= |s.submitted| && s.executed == s.submitted[..|s.executed|]
    ensures s.workers[0] == Exited ==> HasPill(s.submitted) && s.executed == BeforePill(s.submitted)
  {
    assert forall i :: 0 <= i < |s.taken| ==> s.submitted[i] == s.taken[i];
    if s.workers[0] == Exited {
      BeforePillIs(s.submitted, |s.executed|);
    }
  }

  // ----- progress -----

  function RankP(pc: ProducerPc): nat {
    match pc
    case Off => 0
    case Locking(_) => 11
    case Linking(_) => 10
    case Signalling => 5
    case Leaving => 1
  }

  function RankW(pc: WorkerPc): nat {
    match pc
    case Ready => 2
    case Testing => 1
    case Waiting(signalled) => if signalled then 3 else 0
    case Took(_) => 4
    case Running(_) => 3
    case Exited => 0
  }

  function SumP(pcs: seq<ProducerPc>): nat {
    if pcs == [] then 0 else RankP(pcs[0]) + SumP(pcs[1..])
  }

  function SumW(pcs: seq<WorkerPc>): nat {
    if pcs == [] then 0 else RankW(pcs[0]) + SumW(pcs[1..])
  }

  function Rank(s: State): nat {
    4 * |s.queue| + SumP(s.producers) + SumW(s.workers)
  }

  // Every step but a new submission and a wake-up that no signal caused.
  predicate Driving(s: State, step: Step) {
    !step.Submit? && !(step.Wake? && step.w < |s.workers| && s.workers[step.w] == Waiting(false))
  }

  lemma {:induction false} SumPUpdate(pcs: seq<ProducerPc>, i: nat, pc: ProducerPc)
    requires i < |pcs|
    ensures SumP(pcs[i := pc]) == SumP(pcs) - RankP(pcs[i]) + RankP(pc)
  {
    if i > 0 {
      SumPUpdate(pcs[1..], i - 1, pc);
      assert pcs[i := pc][1..] == pcs[1..][i - 1 := pc];
    } else {
      assert pcs[i := pc][1..] == pcs[1..];
    }
  }

  lemma {:induction false} SumWUpdate(pcs: seq<WorkerPc>, i: nat, pc: WorkerPc)
    requires i < |pcs|
    ensures SumW(pcs[i := pc]) == SumW(pcs) - RankW(pcs[i]) + RankW(pc)
  {
    if i > 0 {
      SumWUpdate(pcs[1..], i - 1, pc);
      assert pcs[i := pc][1..] == pcs[1..][i - 1 := pc];
    } else {
      assert pcs[i := pc][1..] == pcs[1..];
    }
  }
  lemma ProducerStepsRunOut(s: State, step: Step)
    requires Enabled(s, step) && (step.Lock? || step.LinkIn? || step.Signal? || step.Unlock?)
    ensures Rank(After(s, step)) < Rank(s)
  {
    SumPUpdate(s.producers, step.p, After(s, step).producers[step.p]);
    if step.Signal? && SomeoneWaits(s) {
      SumWUpdate(s.workers, step.target, Waiting(true));
    }
  }

  lemma WorkerStepsRunOut(s: State, step: Step)
    requires Enabled(s, step) && Driving(s, step)
    requires step.Acquire? || step.Test? || step.Release? || step.Work? || step.Wake?
    ensures Rank(After(s, step)) < Rank(s)
  {
    SumWUpdate(s.workers, step.w, After(s, step).workers[step.w]);
  }

  // However threads are scheduled, the queue can only go on without new submissions for so long.
  lemma DrivingStepsRunOut(s: State, step: Step)
    requires Enabled(s, step) && Driving(s, step)
    ensures Rank(After(s, step)) < Rank(s)
  {
    if step.Lock? || step.LinkIn? || step.Signal? || step.Unlock? {
      ProducerStepsRunOut(s, step);
    } else {
      WorkerStepsRunOut(s, step);
    }
  }

  lemma WorkerStep(s: State) returns (step: Step)
    requires |s.workers| == 1 && Exclusive(s) && !s.owner.ByProducer?
    requires s.workers[0] != Exited && s.workers[0] != Waiting(false)
    ensures Enabled(s, step) && Driving(s, step)
  {
    match s.workers[0]
    case Ready => step := Acquire(0);
    case Testing => step := Test(0);
    case Took(_) => step := Release(0);
    case Running(_) => step := Work(0);
    case Waiting(_) => step := Wake(0);
  }

  // A worker that has not stopped, although a pill was submitted, is never stuck.
  lemma NeverStuck(s: State) returns (step: Step)
    requires |s.workers| == 1 && Inv(s) && HasPill(s.submitted) && s.workers[0] != Exited
    ensures Enabled(s, step) && Driving(s, step)
  {
    if s.owner.ByProducer? {
      step := HolderStep(s);
    } else {
      assert s.workers[0] == Waiting(false) ==> SomeoneWaits(s);
      step := WorkerStep(s);
    }
  }

  // A producer that holds the mutex can always go on.
  lemma HolderStep(s: State) returns (step: Step)
    requires Exclusive(s) && s.owner.ByProducer?
    ensures Enabled(s, step) && Driving(s, step)
  {
    var p := s.owner.id;
    match s.producers[p]
    case Linking(_) => step := LinkIn(p);
    case Leaving => step := Unlock(p);
    case Signalling =>
      if SomeoneWaits(s) {
        var w :| 0 <= w < |s.workers| && s.workers[w] == Waiting(false);
        step := Signal(p, w);
      } else {
        step := Signal(p, 0);
      }
  }

  // Where nobody has a step to take, no call of enqueue is under way.
  lemma NobodyEnqueues(s: State, p: nat)
    requires Exclusive(s) && p < |s.producers| && (s.owner == Free || s.owner == ByProducer(p))
    requires forall step :: Enabled(s, step) ==> !Driving(s, step)
    ensures s.producers[p] == Off && s.owner == Free
  {
    if s.owner == ByProducer(p) {
      var step := HolderStep(s);
    } else if s.producers[p] != Off {
      assert Enabled(s, Lock(p)) && Driving(s, Lock(p));
    }
  }

  lemma WorkerRests(s: State)
    requires |s.workers| == 1 && Inv(s)
    requires forall step :: Enabled(s, step) ==> !Driving(s, step)
    ensures s.owner == Free && (s.workers[0] == Exited || s.workers[0] == Waiting(false))
  {
    if s.owner.ByProducer? {
      NobodyEnqueues(s, s.owner.id);
    } else if s.workers[0] != Exited && s.workers[0] != Waiting(false) {
      var step := WorkerStep(s);
    }
  }

  // With or without a pill: in a run that has come to rest, so that only a new submission or a wake-up that no
  // signal caused could go on, no producer is on its way, and everything submitted has been executed unless the
  // worker has stopped at a pill.
  lemma RestIsDone(producers: nat, steps: seq<Step>, s: State)
    requires Leads(Start(producers, 1), steps, s)
    requires forall step :: Enabled(s, step) ==> !Driving(s, step)
    ensures |s.workers| == 1 && forall p :: 0 <= p < |s.producers| ==> s.producers[p] == Off
    ensures s.workers[0] != Exited ==> s.executed == s.submitted
    ensures s.workers[0] == Exited ==> s.executed == BeforePill(s.submitted)
  {
    StartInv(producers, 1);
    RunInv(Start(producers, 1), steps, s);
    StoppedExecuted(s);
    WorkerRests(s);
    forall p | 0 <= p < |s.producers|
      ensures s.producers[p] == Off
    {
      NobodyEnqueues(s, p);
    }
    assert s.workers[0] == Waiting(false) ==> SomeoneWaits(s);
  }

  lemma StepKeepsPill(s: State, step: Step)
    requires Enabled(s, step) && HasPill(s.submitted)
    ensures HasPill(After(s, step).submitted)
  {
    var i :| 0 <= i < |s.submitted| && IsPill(s.submitted[i]);
    assert After(s, step).submitted[i] == s.submitted[i];
  }
}
