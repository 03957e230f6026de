// What supervision achieves over whole runs.
module MasterRuns {
  import opened MasterProtocol

  // ----- at a sweep boundary -----

  // When all initial forks succeed, the failure branch of waitpid is never taken, and between two sweeps the
  // slots hold the pids of different children, all the children there are.
  lemma Supervised(n: nat, steps: seq<Step>, s: State)
    requires Leads(Start(n), steps, s) && StartsSucceed(steps)
    ensures s.pc != FailedWait
    ensures s.pc == Checking ==>
              && (forall j :: 0 <= j < |s.slots| ==> s.slots[j] in s.children)
              && (forall j, k :: 0 <= j < k < |s.slots| ==> s.slots[j] != s.slots[k])
              && (forall pid :: pid in s.children ==> pid in s.slots)
  {
    StartInv(n);
    RunInv(Start(n), steps, s);
    if s.pc == Checking {
      forall pid | pid in s.children
        ensures pid in s.slots
      {
        assert Slotted(s, pid);
      }
    }
  }

  // An initial fork that failed leaves a slot through which the master is lost: when the sweep comes to it,
  // one dead worker, or none at all, is enough.
  lemma SweepHitsHole(s: State) returns (steps: seq<Step>, s': State)
    requires s.pc.Sweeping? && s.pc.i < |s.slots| && s.slots[s.pc.i] == 0
    ensures Leads(s, steps, s') && s'.pc == FailedWait && |steps| <= 2
    ensures forall i :: 0 <= i < |steps| ==> steps[i].End? || steps[i] == Poll
  {
    if s.children == map[] || exists p :: p in s.children && s.children[p].status == Ended {
      steps, s' := [Poll], After(s, Poll);
      assert Leads(s', [], s');
    } else {
      var pid :| pid in s.children;
      var t := After(s, End(pid));
      assert pid in t.children && t.children[pid].status == Ended;
      s' := After(t, Poll);
      steps := [End(pid), Poll];
      assert Leads(s', [], s') && steps[1..] == [Poll] && [Poll][1..] == [];
      assert Leads(t, [Poll], s');
    }
  }

  // ----- births -----

  ghost predicate BirthsFine(s: State) {
    && (forall p :: p in s.children ==> s.children[p].birth < s.nextBirth)
    && (forall p, q :: p in s.children && q in s.children && p != q ==> s.children[p].birth != s.children[q].birth)
  }

  lemma BirthsKept(s: State, step: Step)
    requires BirthsFine(s) && Enabled(s, step)
    ensures BirthsFine(After(s, step)) && After(s, step).nextBirth >= s.nextBirth
  {
  }

  // ----- one sweep -----

  predicate WasDead(s0: State, j: nat) {
    j < |s0.slots| && s0.slots[j] in s0.children && s0.children[s0.slots[j]].status == Ended
  }

  // The worker that was dead in slot j has been waited for.
  ghost predicate GoneAt(s0: State, s: State, j: nat)
    requires WasDead(s0, j)
  {
    forall p :: p in s.children ==> s.children[p].birth != s0.children[s0.slots[j]].birth
  }

  // ... and a child forked since is in its place.
  ghost predicate ReplacedAt(s0: State, s: State, j: nat) {
    WasDead(s0, j) ==>
      && GoneAt(s0, s, j) && j < |s.slots| && s.slots[j] in s.children
      && s.children[s.slots[j]].birth >= s0.nextBirth
  }

  ghost predicate StillAt(s0: State, s: State, j: nat) {
    WasDead(s0, j) ==>
      && j < |s.slots| && s.slots[j] == s0.slots[j] && s.slots[j] in s.children
      && s.children[s.slots[j]] == s0.children[s0.slots[j]]
  }

  // How far the sweep that began in s0 has come.
  function Passed(s: State): nat {
    match s.pc
    case Sweeping(i) => i
    case Reaped(i) => i
    case Recording(i, _) => i
    case Checking => |s.slots|
    case _ => 0
  }

  ghost predicate SlotSwept(s0: State, s: State, j: nat) {
    if j < Passed(s) then ReplacedAt(s0, s, j)
    else if Between(s.pc, j) then WasDead(s0, j) ==> GoneAt(s0, s, j)
    else StillAt(s0, s, j)
  }

  ghost predicate Swept(s0: State, s: State) {
    && |s.slots| == |s0.slots|
    && (forall j: nat :: j < |s.slots| ==> SlotSwept(s0, s, j))
    && (s.pc.Recording? ==> s.pc.pid in s.children && s.children[s.pc.pid].birth >= s0.nextBirth)
    && s.nextBirth >= s0.nextBirth
  }

  // The places of a sweep under way.
  predicate InSweep(pc: Pc) {
    pc.Sweeping? || pc.Reaped? || pc.Recording? || pc.Checking?
  }

  lemma SlotAfterPoll(s0: State, s: State, j: nat)
    requires Inv(s) && BirthsFine(s) && Enabled(s, Poll) && j < |s.slots| && SlotSwept(s0, s, j)
    requires InSweep(After(s, Poll).pc)
    ensures SlotSwept(s0, After(s, Poll), j)
  {
    assert !Between(s.pc, j) && !Between(s.pc, s.pc.i);
  }

  lemma SlotAfterFork(s0: State, s: State, pid: nat, j: nat)
    requires Inv(s) && BirthsFine(s0) && Enabled(s, Fork(pid)) && j < |s.slots| && SlotSwept(s0, s, j)
    requires s.nextBirth >= s0.nextBirth
    ensures SlotSwept(s0, After(s, Fork(pid)), j)
  {
  }

  lemma SlotAfterRecord(s0: State, s: State, j: nat)
    requires Inv(s) && Enabled(s, Record) && j < |s.slots| && SlotSwept(s0, s, j)
    requires s.pc.pid in s.children && s.children[s.pc.pid].birth >= s0.nextBirth
    ensures SlotSwept(s0, After(s, Record), j)
  {
  }

  lemma SlotAfterEnd(s0: State, s: State, pid: nat, j: nat)
    requires Enabled(s, End(pid)) && SlotSwept(s0, s, j)
    ensures SlotSwept(s0, After(s, End(pid)), j)
  {
  }

  lemma SweptPoll(s0: State, s: State)
    requires Inv(s) && BirthsFine(s) && Swept(s0, s) && Enabled(s, Poll) && InSweep(After(s, Poll).pc)
    ensures Swept(s0, After(s, Poll))
  {
    forall j: nat | j < |s.slots|
      ensures SlotSwept(s0, After(s, Poll), j)
    {
      SlotAfterPoll(s0, s, j);
    }
  }

  lemma SweptFork(s0: State, s: State, pid: nat)
    requires Inv(s) && BirthsFine(s0) && Swept(s0, s) && Enabled(s, Fork(pid))
    ensures Swept(s0, After(s, Fork(pid)))
  {
    forall j: nat | j < |s.slots|
      ensures SlotSwept(s0, After(s, Fork(pid)), j)
    {
      SlotAfterFork(s0, s, pid, j);
    }
  }

  lemma SweptRecord(s0: State, s: State)
    requires Inv(s) && Swept(s0, s) && Enabled(s, Record)
    ensures Swept(s0, After(s, Record))
  {
    forall j: nat | j < |s.slots|
      ensures SlotSwept(s0, After(s, Record), j)
    {
      SlotAfterRecord(s0, s, j);
    }
  }

  lemma SweptEnd(s0: State, s: State, pid: nat)
    requires Swept(s0, s) && Enabled(s, End(pid))
    ensures Swept(s0, After(s, End(pid)))
  {
    forall j: nat | j < |s.slots|
      ensures SlotSwept(s0, After(s, End(pid)), j)
    {
      SlotAfterEnd(s0, s, pid, j);
    }
  }

  // The end of a sweep, and a signal, touch neither the table nor the children.
  lemma SweptElse(s0: State, s: State, s': State)
    requires Swept(s0, s) && s'.slots == s.slots && s'.children == s.children && s'.nextBirth == s.nextBirth
    requires s'.pc == s.pc || (s.pc == Sweeping(|s.slots|) && s'.pc == Checking)
    ensures Swept(s0, s')
  {
    forall j: nat | j < |s.slots|
      ensures SlotSwept(s0, s', j)
    {
      assert SlotSwept(s0, s, j);
    }
  }

  lemma SweptStep(s0: State, s: State, step: Step)
    requires Inv(s) && BirthsFine(s) && BirthsFine(s0) && Swept(s0, s) && Enabled(s, step) && step != Test
    requires InSweep(s.pc) && InSweep(After(s, step).pc)
    ensures Swept(s0, After(s, step))
  {
    if step.Poll? {
      SweptPoll(s0, s);
    } else if step.Fork? {
      SweptFork(s0, s, step.pid);
    } else if step.Record? {
      SweptRecord(s0, s);
    } else if step.End? {
      SweptEnd(s0, s, step.pid);
    } else if step.EndSweep? || step.Signal? {
      SweptElse(s0, s, After(s, step));
    }
  }

  // From one place of a sweep to another, with no test of the flag between.
  predicate OneSweep(steps: seq<Step>) {
    forall i :: 0 <= i < |steps| ==> steps[i] != Test && steps[i] != ForkStartFails
  }

  // What the sweep that began in s0 relies on.
  ghost predicate Sweep(s0: State, s: State) {
    Inv(s) && BirthsFine(s) && BirthsFine(s0) && Swept(s0, s) && InSweep(s.pc)
  }

  lemma SweepStep(s0: State, s: State, step: Step)
    requires Sweep(s0, s) && Enabled(s, step) && step != Test && step != ForkStartFails && InSweep(After(s, step).pc)
    ensures Sweep(s0, After(s, step))
  {
    StepInv(s, step);
    BirthsKept(s, step);
    SweptStep(s0, s, step);
  }

  lemma {:induction false} LostForGood(s: State, steps: seq<Step>, s': State)
    requires !Runs(s.pc) && Leads(s, steps, s')
    ensures s'.pc == s.pc
    decreases |steps|
  {
    if steps != [] {
      LostForGood(After(s, steps[0]), steps[1..], s');
    }
  }

  // A run that ends at the test has not left the sweep on the way.
  lemma StaysInSweep(s0: State, s: State, step: Step, t: State, rest: seq<Step>, s': State)
    requires Sweep(s0, s) && Enabled(s, step) && step != Test && step != ForkStartFails && t == After(s, step)
    requires Leads(t, rest, s') && s'.pc == Checking
    ensures InSweep(t.pc) && Sweep(s0, t)
  {
    if InSweep(t.pc) {
      SweepStep(s0, s, step);
    } else {
      LostForGood(t, rest, s');
    }
  }

  lemma {:induction false} SweptRun(s0: State, s: State, steps: seq<Step>, s': State)
    requires Sweep(s0, s) && OneSweep(steps) && Leads(s, steps, s') && s'.pc == Checking
    ensures Sweep(s0, s')
    decreases |steps|
  {
    if steps != [] {
      StaysInSweep(s0, s, steps[0], After(s, steps[0]), steps[1..], s');
      SweptRun(s0, After(s, steps[0]), steps[1..], s');
    }
  }

  lemma {:induction false} BirthsRun(s: State, steps: seq<Step>, s': State)
    requires BirthsFine(s) && Leads(s, steps, s')
    ensures BirthsFine(s')
    decreases |steps|
  {
    if steps != [] {
      BirthsKept(s, steps[0]);
      BirthsRun(After(s, steps[0]), steps[1..], s');
    }
  }

  // Every worker that is dead when a sweep begins has been waited for when it ends, and a worker forked in the
  // meantime is in its slot.
  lemma SweepReplaces(n: nat, before: seq<Step>, s0: State, steps: seq<Step>, s: State, j: nat)
    requires Leads(Start(n), before, s0) && StartsSucceed(before) && s0.pc == Sweeping(0)
    requires OneSweep(steps) && Leads(s0, steps, s) && s.pc == Checking
    requires WasDead(s0, j)
    ensures ReplacedAt(s0, s, j)
  {
    StartInv(n);
    RunInv(Start(n), before, s0);
    BirthsRun(Start(n), before, s0);
    SweptStart(s0);
    SweptRun(s0, s0, steps, s);
    assert SlotSwept(s0, s, j);
  }

  lemma SweptStart(s0: State)
    requires s0.pc == Sweeping(0)
    ensures Swept(s0, s0)
  {
    assert forall j: nat :: j < |s0.slots| ==> StillAt(s0, s0, j);
  }
}
