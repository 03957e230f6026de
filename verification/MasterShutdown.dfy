// What SIGUSR1 achieves: the master stops within the sweep that the signal comes into, and which workers the
// signal misses.
module MasterShutdown {
  import opened MasterProtocol
  import opened MasterRuns

  // ----- restarts after the signal -----

  // The slots that the sweep under way can still restart.
  function Left(s: State): int {
    match s.pc
    case Sweeping(i) => |s.slots| - i
    case Reaped(i) => |s.slots| - i
    case Recording(i, _) => |s.slots| - i - 1
    case _ => 0
  }

  predicate InRange(s: State) {
    match s.pc
    case Sweeping(i) => i <= |s.slots|
    case Reaped(i) => i < |s.slots|
    case Recording(i, _) => i < |s.slots|
    case Starting(i) => i <= |s.slots|
    case StartRecording(i, _) => i < |s.slots|
    case _ => true
  }

  predicate Budget(s: State) {
    InRange(s) && (s.flag ==> s.pc != Stopped)
  }

  lemma BudgetKept(s: State, step: Step)
    requires Budget(s) && Enabled(s, step)
    ensures Budget(After(s, step)) && |After(s, step).slots| == |s.slots|
    ensures !s.flag ==> 0 <= Left(After(s, step)) <= Left(s) - (if step.Fork? then 1 else 0)
  {
  }

  // The steps that the master itself takes.
  predicate Own(step: Step) {
    !step.End? && !step.Signal?
  }

  // How many steps the master can still take once the flag is off.
  function StopRank(s: State): int {
    match s.pc
    case Starting(i) => 2 * (|s.slots| - i) + 2
    case StartRecording(i, _) => 2 * (|s.slots| - i) + 1
    case Sweeping(i) => 3 * (|s.slots| - i) + 2
    case Reaped(i) => 3 * (|s.slots| - i) + 1
    case Recording(i, _) => 3 * (|s.slots| - i)
    case Checking => 1
    case _ => 0
  }

  lemma RankFalls(s: State, step: Step)
    requires Budget(s) && Enabled(s, step) && !s.flag
    ensures !After(s, step).flag && 0 <= StopRank(After(s, step))
    ensures StopRank(After(s, step)) <= StopRank(s) - (if Own(step) then 1 else 0)
  {
  }

  function OwnSteps(steps: seq<Step>): nat {
    if steps == [] then 0 else (if Own(steps[0]) then 1 else 0) + OwnSteps(steps[1..])
  }

  lemma {:induction false} OwnStepsRunOut(s: State, steps: seq<Step>, s': State)
    requires Budget(s) && !s.flag && Leads(s, steps, s')
    ensures Budget(s') && !s'.flag && 0 <= StopRank(s') && OwnSteps(steps) + StopRank(s') <= StopRank(s)
    ensures Forks(steps) + Left(s') <= Left(s) && (steps == [] || 0 <= Left(s'))
    decreases |steps|
  {
    if steps != [] {
      BudgetKept(s, steps[0]);
      RankFalls(s, steps[0]);
      OwnStepsRunOut(After(s, steps[0]), steps[1..], s');
    }
  }

  lemma {:induction false} BudgetRun(s: State, steps: seq<Step>, s': State)
    requires Budget(s) && Leads(s, steps, s')
    ensures Budget(s') && |s'.slots| == |s.slots|
    decreases |steps|
  {
    if steps != [] {
      BudgetKept(s, steps[0]);
      BudgetRun(After(s, steps[0]), steps[1..], s');
    }
  }

  // While it runs the master always has a step to take, whatever the kernel answers.
  lemma NeverStuck(s: State) returns (step: Step)
    requires Runs(s.pc) && InRange(s)
    ensures Own(step) && Enabled(s, step)
  {
    step := match s.pc
      case Starting(i) => if i < |s.slots| then ForkStartFails else BeginChecking
      case StartRecording(_, _) => RecordStart
      case Checking => Test
      case Sweeping(i) => if i < |s.slots| then Poll else EndSweep
      case Reaped(_) => ForkFails
      case Recording(_, _) => Record
      case _ => Signal;
  }

  // From the signal on, the master takes at most three steps a slot and two more, then it has stopped; it
  // restarts no more workers than the sweep under way had slots left, and none once it is back at the test.
  lemma StopsAfterSignal(n: nat, before: seq<Step>, s: State, steps: seq<Step>, s': State)
    requires Leads(Start(n), before, s) && !s.flag && Leads(s, steps, s')
    ensures OwnSteps(steps) <= 3 * n + 2
    ensures Forks(steps) <= n
    ensures s.pc == Checking ==> OwnSteps(steps) <= 1 && Forks(steps) == 0 && (Runs(s'.pc) ==> s'.pc == Checking)
    ensures OwnSteps(steps) == StopRank(s) ==> !Runs(s'.pc)
  {
    BudgetRun(Start(n), before, s);
    OwnStepsRunOut(s, steps, s');
    BudgetRun(s, steps, s');
    if s.pc == Checking {
      BackAtTest(s, steps, s');
    }
  }

  lemma {:induction false} BackAtTest(s: State, steps: seq<Step>, s': State)
    requires !s.flag && (s.pc == Checking || !Runs(s.pc)) && Leads(s, steps, s')
    ensures Runs(s'.pc) ==> s'.pc == Checking
    decreases |steps|
  {
    if steps != [] {
      BackAtTest(After(s, steps[0]), steps[1..], s');
    }
  }

  // ----- whom the signal reaches -----

  // A worker that has been forked again and is not yet in the table.
  predicate InHand(s: State, pid: nat) {
    s.pc.Recording? && s.pc.pid == pid && pid !in s.slots
  }

  predicate Sent(s: State, pid: nat) {
    pid in s.children && s.children[pid].birth in s.killed
  }

  // No SIGTERM was sent to a worker before it was forked, or while it was in hand.
  ghost predicate Unsigned(s: State) {
    && (forall b :: b in s.killed ==> b < s.nextBirth)
    && (forall p :: p in s.children && InHand(s, p) ==> !Sent(s, p))
  }

  // While the first loop runs, the table has empty slots.
  lemma NotStarting(s: State)
    requires Inv(s) && Runs(s.pc) && 0 !in s.slots
    ensures !s.pc.StartRecording?
  {
    if s.pc.StartRecording? {
      assert Unfilled(s.pc, s.pc.i);
    }
  }

  // A child that is in no slot is the one in hand.
  lemma SlotOrHand(s: State, p: nat)
    requires Inv(s) && Runs(s.pc) && 0 !in s.slots && p in s.children && p !in s.slots
    ensures InHand(s, p)
  {
    NotStarting(s);
    assert !Slotted(s, p);
  }

  // The signal reaches every child that is in a slot, whatever the master is doing; with an empty slot it reaches
  // all children, and ends the master. Of those in no slot it reaches none else.
  lemma SignalReaches(s: State, p: nat)
    requires Enabled(s, Signal) && BirthsFine(s) && p in s.children
    ensures !After(s, Signal).flag && p in After(s, Signal).children
    ensures p in s.slots || 0 in s.slots ==> Sent(After(s, Signal), p)
    ensures p !in s.slots && 0 !in s.slots ==> (Sent(After(s, Signal), p) <==> Sent(s, p))
    ensures 0 in s.slots <==> After(s, Signal).pc == Terminated
  {
    if p in s.slots && 0 !in s.slots {
      assert s.children[p].birth in Reached(s);
    }
  }

  lemma UnsignedSignal(s: State)
    requires BirthsFine(s) && Unsigned(s) && Enabled(s, Signal)
    ensures Unsigned(After(s, Signal))
  {
    var s' := After(s, Signal);
    forall p | p in s'.children && InHand(s', p)
      ensures !Sent(s', p)
    {
      SignalReaches(s, p);
    }
  }

  lemma UnsignedStep(s: State, step: Step)
    requires BirthsFine(s) && Unsigned(s) && Enabled(s, step)
    ensures Unsigned(After(s, step))
  {
    if step.Signal? {
      UnsignedSignal(s);
    }
  }

  lemma {:induction false} UnsignedRun(s: State, steps: seq<Step>, s': State)
    requires BirthsFine(s) && Unsigned(s) && Leads(s, steps, s')
    ensures BirthsFine(s') && Unsigned(s')
    decreases |steps|
  {
    if steps != [] {
      BirthsKept(s, steps[0]);
      UnsignedStep(s, steps[0]);
      UnsignedRun(After(s, steps[0]), steps[1..], s');
    }
  }

  // ----- after the last signal -----

  predicate NoSignal(steps: seq<Step>) {
    Signal !in steps
  }

  // The children of s that are older than t0 are children of t, and SIGTERM was sent to the same of them.
  ghost predicate SameSent(t: State, s: State, n: nat) {
    && n <= s.nextBirth
    && (forall b :: b in s.killed <==> b in t.killed)
    && (forall p :: p in s.children && s.children[p].birth < n ==>
          p in t.children && t.children[p].birth == s.children[p].birth)
  }

  lemma SameSentStep(t: State, s: State, step: Step, n: nat)
    requires SameSent(t, s, n) && Enabled(s, step) && !step.Signal?
    ensures SameSent(t, After(s, step), n)
  {
  }

  lemma {:induction false} SameSentRun(t: State, s: State, steps: seq<Step>, s': State, n: nat)
    requires SameSent(t, s, n) && NoSignal(steps) && Leads(s, steps, s')
    ensures SameSent(t, s', n)
    decreases |steps|
  {
    if steps != [] {
      SameSentStep(t, s, steps[0], n);
      SameSentRun(t, After(s, steps[0]), steps[1..], s', n);
    }
  }

  lemma {:induction false} NeverStopped(s: State, steps: seq<Step>, s': State)
    requires s.flag && s.pc != Stopped && NoSignal(steps) && Leads(s, steps, s')
    ensures s'.flag && s'.pc != Stopped
    decreases |steps|
  {
    if steps != [] {
      NeverStopped(After(s, steps[0]), steps[1..], s');
    }
  }

  // A master that has stopped has had a last signal: what led to the state t before it, and what came after.
  lemma {:induction false} LastSignal(s: State, steps: seq<Step>, s': State) returns (k: nat, t: State)
    requires Leads(s, steps, s') && !NoSignal(steps)
    ensures k < |steps| && steps[k] == Signal && NoSignal(steps[k + 1..])
    ensures Leads(s, steps[..k], t) && Enabled(t, Signal) && Leads(After(t, Signal), steps[k + 1..], s')
    decreases |steps|
  {
    var u, rest := After(s, steps[0]), steps[1..];
    if NoSignal(rest) {
      k, t := 0, s;
    } else {
      k, t := LastSignal(u, rest, s');
      k := k + 1;
      assert steps[..k][0] == steps[0] && steps[..k][1..] == rest[..k - 1] && rest[k..] == steps[k + 1..];
    }
  }

  predicate SameWorker(t: State, s: State, p: nat) {
    p in t.children && p in s.children && t.children[p].birth == s.children[p].birth
  }

  // Of the workers that there were when the last signal came, the one in hand alone was not sent SIGTERM.
  lemma SentUnlessInHand(t: State, steps: seq<Step>, s: State, p: nat)
    requires Inv(t) && BirthsFine(t) && Unsigned(t) && Enabled(t, Signal)
    requires NoSignal(steps) && Leads(After(t, Signal), steps, s) && s.pc == Stopped && p in s.children
    ensures !Sent(s, p) <==> s.children[p].birth >= t.nextBirth || (InHand(t, p) && SameWorker(t, s, p))
  {
    var u := After(t, Signal);
    UnsignedSignal(t);
    SameSentRun(u, u, steps, s, t.nextBirth);
    if s.children[p].birth < t.nextBirth {
      SignalReaches(t, p);
      if 0 in t.slots {
        LostForGood(u, steps, s);
      } else if p !in t.slots {
        SlotOrHand(t, p);
      }
    }
  }

  // When the master has stopped, the workers that no SIGTERM was sent to are exactly those forked after the last
  // signal, which came in the state t, and the one that had been forked then and was not yet in the table.
  lemma Survivors(n: nat, steps: seq<Step>, s: State) returns (k: nat, t: State)
    requires Leads(Start(n), steps, s) && StartsSucceed(steps) && s.pc == Stopped
    ensures k < |steps| && steps[k] == Signal && NoSignal(steps[k + 1..])
    ensures Leads(Start(n), steps[..k], t) && Enabled(t, Signal) && Leads(After(t, Signal), steps[k + 1..], s)
    ensures forall p :: p in s.children ==>
              (!Sent(s, p) <==> s.children[p].birth >= t.nextBirth || (InHand(t, p) && SameWorker(t, s, p)))
    ensures forall p, q :: p in s.children && q in s.children && !Sent(s, p) && !Sent(s, q) && p != q ==>
              s.children[p].birth >= t.nextBirth || s.children[q].birth >= t.nextBirth
  {
    if NoSignal(steps) {
      NeverStopped(Start(n), steps, s);
    }
    k, t := LastSignal(Start(n), steps, s);
    StartInv(n);
    RunInv(Start(n), steps[..k], t);
    UnsignedRun(Start(n), steps[..k], t);
    forall p | p in s.children
      ensures !Sent(s, p) <==> s.children[p].birth >= t.nextBirth || (InHand(t, p) && SameWorker(t, s, p))
    {
      SentUnlessInHand(t, steps[k + 1..], s, p);
    }
  }

  // ----- a worker that survives -----

  lemma TwoSteps(s: State, a: Step, t: State, b: Step, u: State)
    requires Enabled(s, a) && t == After(s, a) && Enabled(t, b) && u == After(t, b)
    ensures Leads(s, [a, b], u)
  {
    assert Leads(u, [], u);
    assert [a, b][1..] == [b] && [b][1..] == [];
    assert Leads(t, [b], u);
  }

  lemma FirstWorker() returns (s: State)
    ensures Leads(Start(1), [ForkStart(2), RecordStart], s)
    ensures s == State([2], map[2 := Child(0, Running)], true, Starting(1), 1, {})
  {
    var t := After(Start(1), ForkStart(2));
    s := After(t, RecordStart);
    assert t.slots[0 := 2] == [2];
    TwoSteps(Start(1), ForkStart(2), t, RecordStart, s);
  }

  // A worker whose predecessor was found dead after the signal came into the sweep.
  lemma RestartedLate(s: State) returns (s': State)
    requires s == State([2], map[2 := Child(0, Ended)], false, Sweeping(0), 1, {0})
    ensures Leads(s, [Poll, Fork(3), Record, EndSweep], s')
    ensures s' == State([3], map[3 := Child(1, Running)], false, Checking, 2, {0})
  {
    var t1 := After(s, Poll);
    assert t1 == s.(pc := Reaped(0), children := map[]);
    var t2 := After(t1, Fork(3));
    TwoSteps(s, Poll, t1, Fork(3), t2);
    var t3 := After(t2, Record);
    s' := After(t3, EndSweep);
    TwoSteps(t2, Record, t3, EndSweep, s');
    LeadsOn(s, [Poll, Fork(3)], t2, [Record, EndSweep], s');
    assert [Poll, Fork(3)] + [Record, EndSweep] == [Poll, Fork(3), Record, EndSweep];
  }

  lemma SignalAtDeath(s: State) returns (s': State)
    requires s == State([2], map[2 := Child(0, Running)], true, Sweeping(0), 1, {})
    ensures Leads(s, [End(2), Signal], s')
    ensures s' == State([2], map[2 := Child(0, Ended)], false, Sweeping(0), 1, {0})
  {
    var t := After(s, End(2));
    assert t.children == map[2 := Child(0, Ended)];
    s' := After(t, Signal);
    assert t.slots[0] in t.children && Reached(t) == {0};
    TwoSteps(s, End(2), t, Signal, s');
  }

  lemma SweepBegins() returns (steps: seq<Step>, s: State)
    ensures Leads(Start(1), steps, s) && StartsSucceed(steps)
    ensures s == State([2], map[2 := Child(0, Running)], true, Sweeping(0), 1, {})
  {
    var t := FirstWorker();
    s := After(After(t, BeginChecking), Test);
    TwoSteps(t, BeginChecking, After(t, BeginChecking), Test, s);
    steps := Composed(Start(1), [ForkStart(2), RecordStart], t, [BeginChecking, Test], s);
  }

  lemma SweepEnds(s: State) returns (steps: seq<Step>, s': State)
    requires s == State([2], map[2 := Child(0, Ended)], false, Sweeping(0), 1, {0})
    ensures Leads(s, steps, s') && StartsSucceed(steps)
    ensures s' == State([3], map[3 := Child(1, Running)], false, Stopped, 2, {0})
  {
    var t := RestartedLate(s);
    s' := After(t, Test);
    assert Leads(s', [], s') && [Test][1..] == [];
    steps := Composed(s, [Poll, Fork(3), Record, EndSweep], t, [Test], s');
  }

  lemma Composed(s: State, a: seq<Step>, t: State, b: seq<Step>, u: State) returns (steps: seq<Step>)
    requires Leads(s, a, t) && Leads(t, b, u) && StartsSucceed(a) && StartsSucceed(b)
    ensures Leads(s, steps, u) && StartsSucceed(steps)
  {
    LeadsOn(s, a, t, b, u);
    steps := a + b;
  }

  // There can be such a worker: the sweep comes to a dead worker after the signal, and starts another one that
  // runs on when the master has stopped.
  lemma WorkerSurvives() returns (steps: seq<Step>, s: State)
    ensures Leads(Start(1), steps, s) && StartsSucceed(steps) && s.pc == Stopped
    ensures 3 in s.children && s.children[3].status == Running && !Sent(s, 3)
  {
    var before, t := SweepBegins();
    var u := SignalAtDeath(t);
    var rest;
    rest, s := SweepEnds(u);
    steps := Composed(Start(1), before, t, [End(2), Signal], u);
    steps := Composed(Start(1), steps, u, rest, s);
  }
}
