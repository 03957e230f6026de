// What one sweep does to every slot: whom it leaves alone, whom it replaces, and how many workers it forks.
module MasterSweep {
  import opened MasterProtocol
  import opened MasterRuns

  // ----- a worker that lives through the sweep -----

  // The worker that was in slot j is still in it.
  predicate KeptAt(s0: State, s: State, j: nat) {
    && j < |s0.slots| && s0.slots[j] in s0.children
    && j < |s.slots| && s.slots[j] == s0.slots[j] && s.slots[j] in s.children
    && s.children[s.slots[j]].birth == s0.children[s0.slots[j]].birth
  }

  predicate RunningAt(s: State, j: nat) {
    j < |s.slots| && s.slots[j] in s.children && s.children[s.slots[j]].status == Running
  }

  ghost predicate LivingAt(s0: State, s: State, j: nat) {
    KeptAt(s0, s, j) && RunningAt(s, j) && !Between(s.pc, j)
  }

  lemma LivingPoll(s0: State, s: State, j: nat)
    requires Inv(s) && LivingAt(s0, s, j) && Enabled(s, Poll)
    ensures LivingAt(s0, After(s, Poll), j)
  {
    assert s.pc.i != j ==> !Between(s.pc, s.pc.i) && s.slots[s.pc.i] != s.slots[j];
  }

  lemma LivingStep(s0: State, s: State, step: Step, j: nat)
    requires Inv(s) && InSweep(s.pc) && LivingAt(s0, s, j) && Enabled(s, step) && step != End(s0.slots[j])
    ensures LivingAt(s0, After(s, step), j)
  {
    if step.Poll? {
      LivingPoll(s0, s, j);
    }
  }

  lemma {:induction false} LivingRun(s0: State, s: State, steps: seq<Step>, s': State, j: nat)
    requires Sweep(s0, s) && LivingAt(s0, s, j) && OneSweep(steps) && End(s0.slots[j]) !in steps
    requires Leads(s, steps, s') && s'.pc == Checking
    ensures LivingAt(s0, s', j)
    decreases |steps|
  {
    if steps != [] {
      var t := After(s, steps[0]);
      LivingStep(s0, s, steps[0], j);
      StaysInSweep(s0, s, steps[0], t, steps[1..], s');
      LivingRun(s0, t, steps[1..], s', j);
    }
  }

  lemma SweepBegun(n: nat, before: seq<Step>, s0: State)
    requires Leads(Start(n), before, s0) && StartsSucceed(before) && s0.pc == Sweeping(0)
    ensures Sweep(s0, s0)
  {
    StartInv(n);
    RunInv(Start(n), before, s0);
    BirthsRun(Start(n), before, s0);
    SweptStart(s0);
  }

  // A worker that runs when a sweep begins, and does not end during it, is in the same slot when it is over,
  // and still runs.
  lemma SweepKeeps(n: nat, before: seq<Step>, s0: State, steps: seq<Step>, s: State, j: nat)
    requires Leads(Start(n), before, s0) && StartsSucceed(before) && s0.pc == Sweeping(0)
    requires OneSweep(steps) && Leads(s0, steps, s) && s.pc == Checking
    requires RunningAt(s0, j) && End(s0.slots[j]) !in steps
    ensures KeptAt(s0, s, j) && RunningAt(s, j)
  {
    SweepBegun(n, before, s0);
    LivingRun(s0, s0, steps, s, j);
  }

  // ----- the forks of a sweep -----

  // The step asks for a worker that has ended.
  predicate FindsEnded(s: State, step: Step) {
    && step.Poll? && Enabled(s, step) && s.slots[s.pc.i] in s.children
    && s.children[s.slots[s.pc.i]].status == Ended
  }

  // The slots that a run of the master finds ended.
  function Found(s: State, steps: seq<Step>): set<nat>
    decreases |steps|
  {
    if steps == [] || !Enabled(s, steps[0]) then {}
    else (if FindsEnded(s, steps[0]) then {s.pc.i} else {}) + Found(After(s, steps[0]), steps[1..])
  }

  // A worker forked since the sweep began is in slot j.
  predicate RenewedAt(s0: State, s: State, j: nat) {
    j < |s.slots| && s.slots[j] in s.children && s.children[s.slots[j]].birth >= s0.nextBirth
  }

  ghost predicate Told(s0: State, s: State, found: set<nat>, j: nat) {
    if j in found then
      (j < Passed(s) || Between(s.pc, j)) && (Between(s.pc, j) || RenewedAt(s0, s, j))
    else KeptAt(s0, s, j) && !Between(s.pc, j)
  }

  // How many of the found are still to be replaced.
  function Due(pc: Pc): nat {
    if pc.Reaped? then 1 else 0
  }

  // What is known of a sweep that has found these slots ended, and forked so often.
  ghost predicate Account(s0: State, s: State, found: set<nat>, forks: nat) {
    && Sweep(s0, s) && |found| == forks + Due(s.pc)
    && (forall j :: j in found ==> j < |s.slots|)
    && (forall j: nat :: j < |s.slots| ==> Told(s0, s, found, j))
  }

  function FoundBy(s: State, step: Step): set<nat> {
    if FindsEnded(s, step) then {s.pc.i} else {}
  }

  lemma ToldPoll(s0: State, s: State, found: set<nat>, j: nat)
    requires Inv(s) && Enabled(s, Poll) && InSweep(After(s, Poll).pc) && j < |s.slots| && Told(s0, s, found, j)
    ensures Told(s0, After(s, Poll), found + FoundBy(s, Poll), j)
  {
    PollBacked(s);
    assert s.pc.i != j ==> !Between(s.pc, s.pc.i) && s.slots[s.pc.i] != s.slots[j];
  }

  lemma ToldFork(s0: State, s: State, pid: nat, found: set<nat>, j: nat)
    requires Inv(s) && Enabled(s, Fork(pid)) && j < |s.slots| && Told(s0, s, found, j)
    ensures Told(s0, After(s, Fork(pid)), found, j)
  {
  }

  lemma ToldRecord(s0: State, s: State, found: set<nat>, j: nat)
    requires Sweep(s0, s) && Enabled(s, Record) && j < |s.slots| && Told(s0, s, found, j)
    ensures Told(s0, After(s, Record), found, j)
  {
  }

  // The steps that leave the table and the births alone.
  lemma ToldElse(s0: State, s: State, step: Step, found: set<nat>, j: nat)
    requires Enabled(s, step) && (step.EndSweep? || step.End? || step.Signal?) && InSweep(After(s, step).pc)
    requires InSweep(s.pc) && j < |s.slots| && Told(s0, s, found, j)
    ensures Told(s0, After(s, step), found, j)
  {
  }

  lemma ToldStep(s0: State, s: State, step: Step, found: set<nat>, j: nat)
    requires Sweep(s0, s) && Enabled(s, step) && step != Test && InSweep(After(s, step).pc)
    requires j < |s.slots| && Told(s0, s, found, j)
    ensures Told(s0, After(s, step), found + FoundBy(s, step), j)
  {
    assert !step.Poll? ==> found + FoundBy(s, step) == found;
    match step {
      case Poll => ToldPoll(s0, s, found, j);
      case Fork(pid) => ToldFork(s0, s, pid, found, j);
      case Record => ToldRecord(s0, s, found, j);
      case _ => ToldElse(s0, s, step, found, j);
    }
  }

  lemma FoundOnce(s0: State, s: State, step: Step, found: set<nat>, forks: nat)
    requires Account(s0, s, found, forks) && Enabled(s, step) && step != Test && InSweep(After(s, step).pc)
    ensures |found + FoundBy(s, step)| == forks + (if step.Fork? then 1 else 0) + Due(After(s, step).pc)
  {
    if step.Poll? {
      PollBacked(s);
      assert Told(s0, s, found, s.pc.i);
      assert s.pc.i !in found;
    } else {
      assert found + FoundBy(s, step) == found;
    }
  }

  lemma AccountStep(s0: State, s: State, step: Step, found: set<nat>, forks: nat)
    requires Account(s0, s, found, forks) && Enabled(s, step) && step != Test
    requires Sweep(s0, After(s, step))
    ensures Account(s0, After(s, step), found + FoundBy(s, step), forks + (if step.Fork? then 1 else 0))
  {
    var s' := After(s, step);
    forall j: nat | j < |s'.slots|
      ensures Told(s0, s', found + FoundBy(s, step), j)
    {
      ToldStep(s0, s, step, found, j);
    }
    FoundOnce(s0, s, step, found, forks);
  }

  lemma FoundRest(s: State, steps: seq<Step>, found: set<nat>)
    requires steps != [] && Enabled(s, steps[0])
    ensures found + FoundBy(s, steps[0]) + Found(After(s, steps[0]), steps[1..]) == found + Found(s, steps)
  {
  }

  lemma AccountNext(s0: State, s: State, steps: seq<Step>, s': State, found: set<nat>, forks: nat)
    requires Account(s0, s, found, forks) && OneSweep(steps) && Leads(s, steps, s') && s'.pc == Checking && steps != []
    ensures Account(s0, After(s, steps[0]), found + FoundBy(s, steps[0]),
                    forks + (if steps[0].Fork? then 1 else 0))
  {
    StaysInSweep(s0, s, steps[0], After(s, steps[0]), steps[1..], s');
    AccountStep(s0, s, steps[0], found, forks);
  }

  lemma {:induction false} AccountRun(s0: State, s: State, steps: seq<Step>, s': State, found: set<nat>, forks: nat)
    requires Account(s0, s, found, forks) && OneSweep(steps) && Leads(s, steps, s') && s'.pc == Checking
    ensures Account(s0, s', found + Found(s, steps), forks + Forks(steps))
    decreases |steps|
  {
    if steps == [] {
      assert found + {} == found;
    } else {
      var t := After(s, steps[0]);
      AccountNext(s0, s, steps, s', found, forks);
      FoundRest(s, steps, found);
      AccountRun(s0, t, steps[1..], s', found + FoundBy(s, steps[0]), forks + (if steps[0].Fork? then 1 else 0));
    }
  }

  // A sweep forks as many workers as slots it finds ended, and puts them there; in every other slot the worker
  // is the one that was there before. It finds every worker that was dead before, and no other but those that
  // end during the sweep.
  lemma SweepExact(n: nat, before: seq<Step>, s0: State, steps: seq<Step>, s: State)
    requires Leads(Start(n), before, s0) && StartsSucceed(before) && s0.pc == Sweeping(0)
    requires OneSweep(steps) && Leads(s0, steps, s) && s.pc == Checking
    ensures Forks(steps) == |Found(s0, steps)| && |s.slots| == |s0.slots|
    ensures forall j: nat :: j < |s0.slots| ==>
              if j in Found(s0, steps) then RenewedAt(s0, s, j) else KeptAt(s0, s, j)
    ensures forall j: nat :: j < |s0.slots| && j in Found(s0, steps) ==> WasDead(s0, j) || End(s0.slots[j]) in steps
    ensures forall j: nat :: WasDead(s0, j) ==> j in Found(s0, steps)
  {
    var found := Found(s0, steps);
    SweepBegun(n, before, s0);
    AccountStart(s0);
    AccountRun(s0, s0, steps, s, {}, 0);
    assert {} + found == found;
    forall j: nat | j < |s0.slots|
      ensures if j in found then RenewedAt(s0, s, j) else KeptAt(s0, s, j)
      ensures j in found ==> WasDead(s0, j) || End(s0.slots[j]) in steps
      ensures WasDead(s0, j) ==> j in found
    {
      assert Told(s0, s, found, j);
      FoundForCause(n, before, s0, steps, s, j);
    }
  }

  lemma AccountStart(s0: State)
    requires Sweep(s0, s0) && s0.pc == Sweeping(0)
    ensures Account(s0, s0, {}, 0)
  {
    forall j: nat | j < |s0.slots|
      ensures Told(s0, s0, {}, j)
    {
      assert !Between(s0.pc, j) && !Unfilled(s0.pc, j);
    }
  }

  lemma FoundForCause(n: nat, before: seq<Step>, s0: State, steps: seq<Step>, s: State, j: nat)
    requires Leads(Start(n), before, s0) && StartsSucceed(before) && s0.pc == Sweeping(0)
    requires OneSweep(steps) && Leads(s0, steps, s) && s.pc == Checking && j < |s0.slots|
    ensures WasDead(s0, j) ==> !KeptAt(s0, s, j)
    ensures RenewedAt(s0, s, j) ==> WasDead(s0, j) || End(s0.slots[j]) in steps
  {
    SweepBegun(n, before, s0);
    assert !Between(s0.pc, j) && !Unfilled(s0.pc, j);
    if WasDead(s0, j) {
      SweepReplaces(n, before, s0, steps, s, j);
    } else if End(s0.slots[j]) !in steps {
      SweepKeeps(n, before, s0, steps, s, j);
    }
  }

  // ----- when nobody has ended -----

  lemma {:induction false} QuietRun(s: State, steps: seq<Step>, s': State)
    requires s.pc.Sweeping? || s.pc == Checking
    requires forall j :: 0 <= j < |s.slots| ==> RunningAt(s, j) && s.slots[j] > 0
    requires OneSweep(steps) && (forall i :: 0 <= i < |steps| ==> !steps[i].End?)
    requires Leads(s, steps, s') && s'.pc == Checking
    ensures s'.slots == s.slots && s'.children == s.children && Forks(steps) == 0
    decreases |steps|
  {
    if steps != [] {
      var t := After(s, steps[0]);
      assert t.slots == s.slots && t.children == s.children;
      QuietRun(t, steps[1..], s');
    }
  }

  // While all workers run, a sweep changes nothing.
  lemma QuietSweep(n: nat, before: seq<Step>, s0: State, steps: seq<Step>, s: State)
    requires Leads(Start(n), before, s0) && StartsSucceed(before) && s0.pc == Sweeping(0)
    requires forall pid :: pid in s0.children ==> s0.children[pid].status == Running
    requires OneSweep(steps) && (forall i :: 0 <= i < |steps| ==> !steps[i].End?)
    requires Leads(s0, steps, s) && s.pc == Checking
    ensures s.slots == s0.slots && s.children == s0.children && Forks(steps) == 0
  {
    SweepBegun(n, before, s0);
    forall j: nat | j < |s0.slots|
      ensures RunningAt(s0, j) && s0.slots[j] > 0
    {
      assert !Between(s0.pc, j) && !Unfilled(s0.pc, j);
    }
    QuietRun(s0, steps, s);
  }
}
