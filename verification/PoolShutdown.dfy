// thread_pool_destroy of moudles/server/dm_threading_pool.c over a pool of queues with one worker each:
// for every queue in turn it enqueues a pill, signals once more, and joins the worker.
module PoolShutdown {
  import opened PoolTask
  import opened PoolProtocol

  const PILL := Task(0, -1, 0)

  // Enqueuing(i): inside enqueue on queue i. Joining(i): inside pthread_join for worker i.
  datatype Destroyer = Idle | Enqueuing(i: nat) | Joining(i: nat) | Done

  // In every queue producer 0 is the destroying thread.
  datatype Pool = Pool(queues: seq<State>, destroyer: Destroyer)

  // A step of some thread at queue i, or one of the destroyer between its calls of enqueue.
  datatype PoolStep = At(i: nat, step: Step) | Begin | Nudge(target: nat) | Join

  function StartPool(threads: nat, producers: nat): Pool {
    Pool(seq(threads, i => Start(producers + 1, 1)), Idle)
  }

  predicate Shaped(s: State) {
    |s.workers| == 1 && s.producers != []
  }

  predicate AllShaped(pool: Pool) {
    forall i :: 0 <= i < |pool.queues| ==> Shaped(pool.queues[i])
  }

  // Producer 0 submits only what the destroyer makes it submit.
  predicate ByOthers(step: Step) {
    !(step.Submit? && step.p == 0)
  }

  ghost predicate CanStep(pool: Pool, step: PoolStep) {
    AllShaped(pool) &&
    match step
    case At(i, step) => i < |pool.queues| && Enabled(pool.queues[i], step) && ByOthers(step)
    case Begin => pool.destroyer == Idle
    case Nudge(target) =>
      && pool.destroyer.Enqueuing? && pool.destroyer.i < |pool.queues|
      && pool.queues[pool.destroyer.i].producers[0] == Off && Wakes(pool.queues[pool.destroyer.i], target)
    case Join =>
      && pool.destroyer.Joining? && pool.destroyer.i < |pool.queues|
      && pool.queues[pool.destroyer.i].workers[0] == Exited
  }

  // The destroyer turns to queue i, if there is one, and enters enqueue there.
  function Turn(pool: Pool, i: nat): Pool
    requires AllShaped(pool)
  {
    if i < |pool.queues| then
      var s := pool.queues[i];
      Pool(pool.queues[i := s.(producers := s.producers[0 := Locking(PILL)])], Enqueuing(i))
    else pool.(destroyer := Done)
  }

  ghost function Nudged(s: State, target: nat): State
    requires Wakes(s, target)
  {
    s.(workers := Signalled(s, target))
  }

  ghost function Then(pool: Pool, step: PoolStep): Pool
    requires CanStep(pool, step)
  {
    match step
    case At(i, step) => pool.(queues := pool.queues[i := After(pool.queues[i], step)])
    case Begin => Turn(pool, 0)
    case Nudge(target) =>
      var i := pool.destroyer.i;
      Pool(pool.queues[i := Nudged(pool.queues[i], target)], Joining(i))
    case Join => Turn(pool, pool.destroyer.i + 1)
  }

  ghost predicate Leads'(pool: Pool, steps: seq<PoolStep>, pool': Pool)
    decreases |steps|
  {
    if steps == [] then pool == pool'
    else CanStep(pool, steps[0]) && Leads'(Then(pool, steps[0]), steps[1..], pool')
  }

  // ----- what every step keeps -----

  // The destroyer is on its way to linking its pill into the queue, or has done so.
  ghost predicate Poisoned(s: State) {
    HasPill(s.submitted) || (s.producers != [] && s.producers[0] in [Locking(PILL), Linking(PILL)])
  }

  // Where queue i stands when the destroyer stands where it does.
  ghost predicate Stands(s: State, i: nat, destroyer: Destroyer)
    requires Shaped(s)
  {
    match destroyer
    case Idle => s.producers[0] == Off
    case Enqueuing(k) =>
      if i < k then s.workers[0] == Exited else if i == k then Poisoned(s) else s.producers[0] == Off
    case Joining(k) =>
      if i < k then s.workers[0] == Exited else if i == k then HasPill(s.submitted) else s.producers[0] == Off
    case Done => s.workers[0] == Exited
  }

  ghost predicate QueueInv(s: State, i: nat, destroyer: Destroyer) {
    Inv(s) && Shaped(s) && Stands(s, i, destroyer)
  }

  ghost predicate PoolInv(pool: Pool) {
    && (forall i :: 0 <= i < |pool.queues| ==> QueueInv(pool.queues[i], i, pool.destroyer))
    && (pool.destroyer.Enqueuing? || pool.destroyer.Joining? ==> pool.destroyer.i < |pool.queues|)
  }

  lemma StepStands(s: State, i: nat, destroyer: Destroyer, step: Step)
    requires QueueInv(s, i, destroyer) && Enabled(s, step) && ByOthers(step)
    ensures QueueInv(After(s, step), i, destroyer)
  {
    StepInv(s, step);
    if HasPill(s.submitted) {
      StepKeepsPill(s, step);
    }
    if step == LinkIn(0) {
      var s' := After(s, step);
      assert s'.submitted[|s'.submitted| - 1] == s.producers[0].task;
    }
  }

  lemma NudgeKeeps(s: State, i: nat, destroyer: Destroyer, target: nat)
    requires QueueInv(s, i, destroyer) && Wakes(s, target)
    ensures QueueInv(Nudged(s, target), i, destroyer)
  {
    assert SomeoneWaits(s) <==> s.workers[0] == Waiting(false);
    assert SomeoneWaits(Nudged(s, target)) <==> Nudged(s, target).workers[0] == Waiting(false);
  }

  lemma SubmitKeeps(s: State, task: Task)
    requires Inv(s) && Shaped(s) && s.producers[0] == Off
    ensures Inv(s.(producers := s.producers[0 := Locking(task)]))
  {
    StepInv(s, Submit(0, task));
  }

  // A queue that the destroyer has left behind, or not come to.
  ghost predicate Joined(s: State, joined: bool) {
    Inv(s) && Shaped(s) && if joined then s.workers[0] == Exited else s.producers[0] == Off
  }

  lemma TurnKeeps(pool: Pool, i: nat)
    requires i <= |pool.queues| && AllShaped(pool)
    requires forall j :: 0 <= j < |pool.queues| ==> Joined(pool.queues[j], j < i)
    ensures PoolInv(Turn(pool, i))
  {
    if i < |pool.queues| {
      SubmitKeeps(pool.queues[i], PILL);
    }
  }

  lemma StepPoolInv(pool: Pool, step: PoolStep)
    requires PoolInv(pool) && CanStep(pool, step)
    ensures PoolInv(Then(pool, step)) && |Then(pool, step).queues| == |pool.queues|
  {
    match step
    case At(i, step) => StepStands(pool.queues[i], i, pool.destroyer, step);
    case Begin => TurnKeeps(pool, 0);
    case Nudge(target) =>
      NudgeKeeps(pool.queues[pool.destroyer.i], pool.destroyer.i, pool.destroyer, target);
    case Join => TurnKeeps(pool, pool.destroyer.i + 1);
  }

  lemma {:induction false} RunPoolInv(pool: Pool, steps: seq<PoolStep>, pool': Pool)
    requires PoolInv(pool) && Leads'(pool, steps, pool')
    ensures PoolInv(pool') && |pool'.queues| == |pool.queues|
    decreases |steps|
  {
    if steps != [] {
      StepPoolInv(pool, steps[0]);
      RunPoolInv(Then(pool, steps[0]), steps[1..], pool');
    }
  }

  lemma StartPoolInv(threads: nat, producers: nat)
    ensures PoolInv(StartPool(threads, producers))
  {
    StartInv(producers + 1, 1);
  }

  // When thread_pool_destroy has returned, every worker has stopped, having executed exactly the tasks
  // that were enqueued on its queue in front of the first pill, in that order.
  lemma DestroyedPool(threads: nat, producers: nat, steps: seq<PoolStep>, pool: Pool)
    requires Leads'(StartPool(threads, producers), steps, pool) && pool.destroyer == Done
    ensures |pool.queues| == threads
    ensures forall i :: 0 <= i < threads ==>
              HasPill(pool.queues[i].submitted) && pool.queues[i].executed == BeforePill(pool.queues[i].submitted)
  {
    StartPoolInv(threads, producers);
    RunPoolInv(StartPool(threads, producers), steps, pool);
    forall i | 0 <= i < threads
      ensures HasPill(pool.queues[i].submitted) && pool.queues[i].executed == BeforePill(pool.queues[i].submitted)
    {
      assert QueueInv(pool.queues[i], i, pool.destroyer);
      StoppedExecuted(pool.queues[i]);
    }
  }

  // ----- progress -----

  function SumRanks(queues: seq<State>): nat {
    if queues == [] then 0 else Rank(queues[0]) + SumRanks(queues[1..])
  }

  function RankD(n: nat, destroyer: Destroyer): int {
    match destroyer
    case Idle => 20 * n + 1
    case Enqueuing(i) => 20 * (n - i - 1) + 6
    case Joining(i) => 20 * (n - i - 1) + 2
    case Done => 0
  }

  function PoolRank(pool: Pool): int {
    SumRanks(pool.queues) + RankD(|pool.queues|, pool.destroyer)
  }

  ghost predicate Drives(pool: Pool, step: PoolStep) {
    step.At? ==> step.i < |pool.queues| && Driving(pool.queues[step.i], step.step)
  }

  lemma {:induction false} SumRanksUpdate(queues: seq<State>, i: nat, s: State)
    requires i < |queues|
    ensures SumRanks(queues[i := s]) == SumRanks(queues) - Rank(queues[i]) + Rank(s)
  {
    if i > 0 {
      SumRanksUpdate(queues[1..], i - 1, s);
      assert queues[i := s][1..] == queues[1..][i - 1 := s];
    } else {
      assert queues[i := s][1..] == queues[1..];
    }
  }

  lemma TurnRank(pool: Pool, i: nat)
    requires AllShaped(pool) && i <= |pool.queues| && (i < |pool.queues| ==> pool.queues[i].producers[0] == Off)
    ensures PoolRank(Turn(pool, i)) <= SumRanks(pool.queues) + 20 * (|pool.queues| - i)
  {
    if i < |pool.queues| {
      var s := pool.queues[i];
      SumRanksUpdate(pool.queues, i, s.(producers := s.producers[0 := Locking(PILL)]));
      SumPUpdate(s.producers, 0, Locking(PILL));
    }
  }

  lemma NudgeRank(s: State, target: nat)
    requires Wakes(s, target)
    ensures Rank(Nudged(s, target)) <= Rank(s) + 3
  {
    if SomeoneWaits(s) {
      SumWUpdate(s.workers, target, Waiting(true));
    }
  }

  // However threads are scheduled, only so many steps are left until somebody submits again or a
  // worker wakes for no reason.
  lemma PoolStepsRunOut(pool: Pool, step: PoolStep)
    requires PoolInv(pool) && CanStep(pool, step) && Drives(pool, step)
    ensures 0 <= PoolRank(Then(pool, step)) < PoolRank(pool)
  {
    StepPoolInv(pool, step);
    match step
    case At(i, step) =>
      DrivingStepsRunOut(pool.queues[i], step);
      SumRanksUpdate(pool.queues, i, After(pool.queues[i], step));
    case Begin => TurnRank(pool, 0);
    case Nudge(target) =>
      var i := pool.destroyer.i;
      NudgeRank(pool.queues[i], target);
      SumRanksUpdate(pool.queues, i, Nudged(pool.queues[i], target));
    case Join => TurnRank(pool, pool.destroyer.i + 1);
  }

  // Once begun, the destruction of the pool can always go on.
  lemma DestroyerNeverStuck(pool: Pool) returns (step: PoolStep)
    requires PoolInv(pool) && (pool.destroyer.Enqueuing? || pool.destroyer.Joining?)
    ensures CanStep(pool, step) && Drives(pool, step)
  {
    var i := pool.destroyer.i;
    var s := pool.queues[i];
    assert QueueInv(s, i, pool.destroyer);
    if pool.destroyer.Joining? && s.workers[0] == Exited {
      step := Join;
    } else if pool.destroyer.Enqueuing? && s.producers[0] == Off {
      var target :| Wakes(s, target);
      step := Nudge(target);
    } else if pool.destroyer.Joining? {
      var step' := NeverStuck(s);
      step := At(i, step');
    } else {
      var step' := EnqueueGoesOn(s, 0);
      step := At(i, step');
    }
  }

  // A thread inside enqueue, or whoever keeps it waiting for the mutex, can go on.
  lemma EnqueueGoesOn(s: State, p: nat) returns (step: Step)
    requires Inv(s) && p < |s.producers| && s.producers[p] != Off
    ensures Enabled(s, step) && Driving(s, step) && ByOthers(step)
  {
    match s.owner
    case Free => step := Lock(p);
    case ByProducer(_) => step := HolderStep(s);
    case ByWorker(w) => step := if s.workers[w] == Testing then Test(w) else Release(w);
  }

  // From every state in which the destruction of the pool has begun, it can be finished: every worker
  // stops and every join returns.
  lemma DestroyReturns(pool: Pool) returns (steps: seq<PoolStep>, pool': Pool)
    requires PoolInv(pool) && pool.destroyer != Idle
    ensures Leads'(pool, steps, pool') && pool'.destroyer == Done
    decreases PoolRank(pool)
  {
    if pool.destroyer == Done {
      steps, pool' := [], pool;
    } else {
      var step := DestroyerNeverStuck(pool);
      StepPoolInv(pool, step);
      PoolStepsRunOut(pool, step);
      steps, pool' := DestroyReturns(Then(pool, step));
      assert ([step] + steps)[1..] == steps;
      steps := [step] + steps;
    }
  }
}
