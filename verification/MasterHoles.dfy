// What an initial fork that failed leaves behind: a slot that is never filled, through which the master is lost.
module MasterHoles {
  import opened MasterProtocol
  import opened MasterRuns

  // ----- a slot that was passed over stays empty -----

  // Slots that the first loop has not come to are empty, and one whose worker was waited for is not.
  predicate Shape(s: State) {
    && (forall j: nat :: j < |s.slots| && Unfilled(s.pc, j) ==> s.slots[j] == 0)
    && (forall j: nat :: j < |s.slots| && Between(s.pc, j) ==> s.slots[j] != 0)
  }

  predicate Hole(s: State, j: nat) {
    j < |s.slots| && s.slots[j] == 0 && !Unfilled(s.pc, j)
  }

  // The first loop is over.
  predicate Begun(pc: Pc) {
    !pc.Starting? && !pc.StartRecording?
  }

  lemma ShapeKept(s: State, step: Step)
    requires Shape(s) && Enabled(s, step)
    ensures Shape(After(s, step)) && |After(s, step).slots| == |s.slots|
    ensures Begun(s.pc) ==> Begun(After(s, step).pc) && step != ForkStartFails
  {
  }

  lemma HoleKept(s: State, step: Step, j: nat)
    requires Shape(s) && Hole(s, j) && Enabled(s, step)
    ensures Hole(After(s, step), j)
  {
  }

  lemma {:induction false} HoleStays(s: State, steps: seq<Step>, s': State, j: nat)
    requires Shape(s) && Hole(s, j) && Leads(s, steps, s')
    ensures Hole(s', j)
    decreases |steps|
  {
    if steps != [] {
      ShapeKept(s, steps[0]);
      HoleKept(s, steps[0], j);
      HoleStays(After(s, steps[0]), steps[1..], s', j);
    }
  }

  // A run without a hole at its end had no failing initial fork.
  lemma {:induction false} NoHoleNoFailure(s: State, steps: seq<Step>, s': State)
    requires Shape(s) && Leads(s, steps, s') && 0 !in s'.slots
    ensures StartsSucceed(steps)
    decreases |steps|
  {
    if steps != [] {
      var t := After(s, steps[0]);
      ShapeKept(s, steps[0]);
      if steps[0] == ForkStartFails {
        HoleStays(t, steps[1..], s', s.pc.i);
      }
      NoHoleNoFailure(t, steps[1..], s');
    }
  }

  lemma {:induction false} BegunRun(s: State, steps: seq<Step>, s': State)
    requires Shape(s) && Begun(s.pc) && Leads(s, steps, s')
    ensures StartsSucceed(steps)
    decreases |steps|
  {
    if steps != [] {
      ShapeKept(s, steps[0]);
      BegunRun(After(s, steps[0]), steps[1..], s');
    }
  }

  // ----- a hole is fatal -----

  lemma {:induction false} Unused(used: set<nat>, n: nat) returns (pid: nat)
    requires n > 0
    ensures pid >= n && pid !in used
    decreases |used|
  {
    if n in used {
      pid := Unused(used - {n}, n + 1);
    } else {
      pid := n;
    }
  }

  lemma OneStep(s: State, step: Step)
    requires Enabled(s, step)
    ensures Leads(s, [step], After(s, step))
  {
    assert [step][1..] == [];
    assert Leads(After(s, step), [], After(s, step));
  }

  lemma Restarted(s: State) returns (steps: seq<Step>, s': State)
    requires s.pc.Reaped? && s.pc.i < |s.slots|
    ensures Leads(s, steps, s') && s'.pc == Sweeping(s.pc.i + 1) && |s'.slots| == |s.slots|
    ensures forall j :: 0 <= j < |s.slots| && j != s.pc.i ==> s'.slots[j] == s.slots[j]
  {
    var pid := Unused(s.children.Keys, 1);
    var t := After(s, Fork(pid));
    OneStep(s, Fork(pid));
    s' := After(t, Record);
    OneStep(t, Record);
    LeadsOn(s, [Fork(pid)], t, [Record], s');
    steps := [Fork(pid)] + [Record];
  }

  lemma {:induction false} SweepToHole(s: State, j: nat) returns (steps: seq<Step>, s': State)
    requires s.pc.Sweeping? && s.pc.i <= j < |s.slots| && s.slots[j] == 0
    ensures Leads(s, steps, s') && s'.pc == FailedWait
    decreases j - s.pc.i
  {
    if s.slots[s.pc.i] == 0 {
      steps, s' := SweepHitsHole(s);
    } else {
      var t := After(s, Poll);
      OneStep(s, Poll);
      steps, s' := [Poll], t;
      if t.pc.Reaped? {
        var more, u := Restarted(t);
        LeadsOn(s, steps, t, more, u);
        steps, s' := steps + more, u;
      }
      if s'.pc.Sweeping? {
        var more, u := SweepToHole(s', j);
        LeadsOn(s, steps, s', more, u);
        steps, s' := steps + more, u;
      }
    }
  }

  lemma HoleIsFatal(s: State) returns (steps: seq<Step>, s': State)
    requires s.pc == Checking && s.flag && 0 in s.slots
    ensures Leads(s, steps, s') && s'.pc == FailedWait
  {
    var j: nat :| j < |s.slots| && s.slots[j] == 0;
    OneStep(s, Test);
    var more;
    more, s' := SweepToHole(After(s, Test), j);
    LeadsOn(s, [Test], After(s, Test), more, s');
    steps := [Test] + more;
  }

  // ----- what saves the master for a while -----

  predicate NobodyEnded(s: State) {
    && s.children != map[] && (forall p :: p in s.children ==> s.children[p].status == Running)
    && (forall j :: 0 <= j < |s.slots| ==> s.slots[j] == 0 || s.slots[j] in s.children)
  }

  lemma {:induction false} PollsPass(s: State) returns (steps: seq<Step>)
    requires NobodyEnded(s) && s.pc.Sweeping? && s.pc.i <= |s.slots|
    ensures Leads(s, steps, s.(pc := Checking))
    decreases |s.slots| - s.pc.i
  {
    if s.pc.i == |s.slots| {
      OneStep(s, EndSweep);
      steps := [EndSweep];
    } else {
      OneStep(s, Poll);
      var more := PollsPass(After(s, Poll));
      LeadsOn(s, [Poll], After(s, Poll), more, s.(pc := Checking));
      steps := [Poll] + more;
    }
  }

  // As long as some worker runs and none has ended, a sweep passes over empty slots and changes nothing.
  lemma SweepPassesHoles(s: State) returns (steps: seq<Step>)
    requires NobodyEnded(s) && s.pc == Checking && s.flag
    ensures steps != [] && Leads(s, steps, s)
  {
    var t := After(s, Test);
    OneStep(s, Test);
    var more := PollsPass(t);
    LeadsOn(s, [Test], t, more, s);
    steps := [Test] + more;
  }

  // ----- exactly then -----

  ghost predicate CanFailWait(s: State) {
    exists steps, s' :: Leads(s, steps, s') && s'.pc == FailedWait
  }

  // From any state that a run can reach at the test of the flag, some continuation ends in the failure branch of
  // waitpid if and only if some slot is empty.
  lemma FailsWithHole(n: nat, before: seq<Step>, s: State)
    requires Leads(Start(n), before, s) && s.pc == Checking && s.flag
    ensures CanFailWait(s) <==> 0 in s.slots
  {
    if 0 in s.slots {
      var steps, s' := HoleIsFatal(s);
    } else {
      NoHoleNoFailure(Start(n), before, s);
      forall steps, s' | Leads(s, steps, s')
        ensures s'.pc != FailedWait
      {
        NeverFails(n, before, s, steps, s');
      }
    }
  }

  lemma NeverFails(n: nat, before: seq<Step>, s: State, steps: seq<Step>, s': State)
    requires Leads(Start(n), before, s) && StartsSucceed(before) && s.pc == Checking && Leads(s, steps, s')
    ensures s'.pc != FailedWait
  {
    StartInv(n);
    RunInv(Start(n), before, s);
    ShapeOf(s);
    BegunRun(s, steps, s');
    RunInv(s, steps, s');
  }

  lemma ShapeOf(s: State)
    requires s.pc == Checking
    ensures Shape(s)
  {
  }

  // Such states are real: for any table, the first fork fails and all others succeed.
  lemma {:induction false} OthersStart(s: State) returns (steps: seq<Step>, s': State)
    requires s.pc.Starting? && 0 < s.pc.i <= |s.slots| && s.flag && s.slots[0] == 0
    requires forall p :: p in s.children ==> p <= s.pc.i
    ensures Leads(s, steps, s') && s'.pc == Checking && s'.flag && 0 in s'.slots && StartsSucceed(steps)
    decreases |s.slots| - s.pc.i
  {
    if s.pc.i == |s.slots| {
      OneStep(s, BeginChecking);
      steps, s' := [BeginChecking], After(s, BeginChecking);
      assert s'.slots[0] == 0;
    } else {
      var t := After(s, ForkStart(s.pc.i + 1));
      OneStep(s, ForkStart(s.pc.i + 1));
      OneStep(t, RecordStart);
      LeadsOn(s, [ForkStart(s.pc.i + 1)], t, [RecordStart], After(t, RecordStart));
      var more, u := OthersStart(After(t, RecordStart));
      LeadsOn(s, [ForkStart(s.pc.i + 1)] + [RecordStart], After(t, RecordStart), more, u);
      steps, s' := [ForkStart(s.pc.i + 1)] + [RecordStart] + more, u;
    }
  }

  lemma FirstForkFails(n: nat) returns (steps: seq<Step>, s: State)
    requires n > 0
    ensures Leads(Start(n), steps, s) && s.pc == FailedWait
    ensures steps != [] && steps[0] == ForkStartFails && StartsSucceed(steps[1..])
  {
    var t := After(Start(n), ForkStartFails);
    OneStep(Start(n), ForkStartFails);
    var more, u := OthersStart(t);
    LeadsOn(Start(n), [ForkStartFails], t, more, u);
    var last;
    last, s := HoleIsFatal(u);
    LeadsOn(Start(n), [ForkStartFails] + more, u, last, s);
    ShapeOf(u);
    BegunRun(u, last, s);
    steps := [ForkStartFails] + more + last;
    assert steps[1..] == more + last;
  }
}
