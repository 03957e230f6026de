// The supervision of moudles/server/dm_master.c: the master forks the workers, sweeps over its table for
// workers that have ended, and stops on SIGUSR1. Workers end, and the signal comes, between any two steps.
module MasterProtocol {
  datatype Status = Running | Ended

  // A child of the master that has not been waited for. Births number the forks.
  datatype Child = Child(birth: nat, status: Status)

  // Starting, StartRecording: in the loop of master_start_multi_process_server, before fork, and before the
  // pid is stored. Checking: at the test of server_running_flag. Sweeping: before waitpid for a slot. Reaped,
  // Recording: before fork, and before the new pid is stored. Stopped: the loop has ended. FailedWait,
  // FailedFork: exit(1) after waitpid or fork. Terminated: killed by its own SIGTERM.
  datatype Pc =
    | Starting(i: nat)
    | StartRecording(i: nat, pid: nat)
    | Checking
    | Sweeping(i: nat)
    | Reaped(i: nat)
    | Recording(i: nat, pid: nat)
    | Stopped
    | FailedWait
    | FailedFork
    | Terminated

  // The worker table, the kernel's children, the flag, and for the record: the number of the next birth, and the
  // births that SIGTERM was sent to.
  datatype State = State(slots: seq<nat>, children: map<nat, Child>, flag: bool, pc: Pc, nextBirth: nat,
                         killed: set<nat>)

  datatype Step =
    | ForkStart(pid: nat)
    | ForkStartFails
    | RecordStart
    | BeginChecking
    | Test
    | Poll
    | EndSweep
    | Fork(pid: nat)
    | ForkFails
    | Record
    | End(pid: nat)
    | Signal

  function Start(n: nat): State {
    State(seq(n, i => 0), map[], true, Starting(0), 0, {})
  }

  predicate Fresh(s: State, pid: nat) {
    pid > 0 && pid !in s.children
  }

  // The master still runs.
  predicate Runs(pc: Pc) {
    !pc.Stopped? && !pc.FailedWait? && !pc.FailedFork? && !pc.Terminated?
  }

  predicate Enabled(s: State, step: Step) {
    match step
    case ForkStart(pid) => s.pc.Starting? && s.pc.i < |s.slots| && Fresh(s, pid)
    case ForkStartFails => s.pc.Starting? && s.pc.i < |s.slots|
    case RecordStart => s.pc.StartRecording? && s.pc.i < |s.slots|
    case BeginChecking => s.pc.Starting? && s.pc.i >= |s.slots|
    case Test => s.pc.Checking?
    case Poll => s.pc.Sweeping? && s.pc.i < |s.slots|
    case EndSweep => s.pc.Sweeping? && s.pc.i >= |s.slots|
    case Fork(pid) => s.pc.Reaped? && Fresh(s, pid)
    case ForkFails => s.pc.Reaped?
    case Record => s.pc.Recording? && s.pc.i < |s.slots|
    case End(pid) => pid in s.children && s.children[pid].status == Running
    case Signal => Runs(s.pc)
  }

  // What waitpid(pid, &status, WNOHANG) does for a slot. For the pid 0 of an unused slot it waits for any
  // child: it returns the pid of one that has ended, which is not the slot's 0, or fails without children.
  function Polled(s: State, i: nat): (Pc, map<nat, Child>)
    requires i < |s.slots|
  {
    var pid := s.slots[i];
    if pid == 0 then
      if s.children == map[] || exists p :: p in s.children && s.children[p].status == Ended
      then (FailedWait, s.children) else (Sweeping(i + 1), s.children)
    else if pid !in s.children then (FailedWait, s.children)
    else if s.children[pid].status == Running then (Sweeping(i + 1), s.children)
    else (Reaped(i), s.children - {pid})
  }

  function Born(s: State, pid: nat, pc: Pc): State {
    s.(children := s.children[pid := Child(s.nextBirth, Running)], nextBirth := s.nextBirth + 1, pc := pc)
  }

  // The births that kill reaches through the table.
  function Reached(s: State): set<nat> {
    set j | 0 <= j < |s.slots| && s.slots[j] in s.children :: s.children[s.slots[j]].birth
  }

  // The handler: kill on an unused slot's 0 reaches the whole process group, the master with it.
  function Signalled(s: State): State {
    var all := set p | p in s.children :: s.children[p].birth;
    if 0 in s.slots then s.(flag := false, killed := s.killed + all, pc := Terminated)
    else s.(flag := false, killed := s.killed + Reached(s))
  }

  function After(s: State, step: Step): State
    requires Enabled(s, step)
  {
    match step
    case ForkStart(pid) => Born(s, pid, StartRecording(s.pc.i, pid))
    case ForkStartFails => s.(pc := Starting(s.pc.i + 1))
    case RecordStart => s.(slots := s.slots[s.pc.i := s.pc.pid], pc := Starting(s.pc.i + 1))
    case BeginChecking => s.(pc := Checking)
    case Test => s.(pc := if s.flag then Sweeping(0) else Stopped)
    case Poll => var (pc, children) := Polled(s, s.pc.i); s.(pc := pc, children := children)
    case EndSweep => s.(pc := Checking)
    case Fork(pid) => Born(s, pid, Recording(s.pc.i, pid))
    case ForkFails => s.(pc := FailedFork)
    case Record => s.(slots := s.slots[s.pc.i := s.pc.pid], pc := Sweeping(s.pc.i + 1))
    case End(pid) => s.(children := s.children[pid := s.children[pid].(status := Ended)])
    case Signal => Signalled(s)
  }

  predicate Leads(s: State, steps: seq<Step>, s': State)
    decreases |steps|
  {
    if steps == [] then s == s' else Enabled(s, steps[0]) && Leads(After(s, steps[0]), steps[1..], s')
  }

  // How many workers a run restarts.
  function Forks(steps: seq<Step>): nat {
    if steps == [] then 0 else (if steps[0].Fork? then 1 else 0) + Forks(steps[1..])
  }

  lemma {:induction false} LeadsOn(s: State, steps: seq<Step>, t: State, more: seq<Step>, u: State)
    requires Leads(s, steps, t) && Leads(t, more, u)
    ensures Leads(s, steps + more, u)
    decreases |steps|
  {
    if steps == [] {
      assert steps + more == more;
    } else {
      assert (steps + more)[0] == steps[0] && (steps + more)[1..] == steps[1..] + more;
      LeadsOn(After(s, steps[0]), steps[1..], t, more, u);
    }
  }

  // ----- the table, when all initial forks succeed -----

  // The slot that is not backed by a child: its worker has been waited for, and the next is not stored.
  predicate Between(pc: Pc, j: nat) {
    (pc.Reaped? || pc.Recording?) && pc.i == j
  }

  predicate Unfilled(pc: Pc, j: nat) {
    (pc.Starting? || pc.StartRecording?) && pc.i <= j
  }

  predicate Unrecorded(pc: Pc, pid: nat) {
    (pc.StartRecording? || pc.Recording?) && pc.pid == pid
  }

  predicate Slotted(s: State, pid: nat) {
    exists j: nat :: j < |s.slots| && !Between(s.pc, j) && s.slots[j] == pid
  }

  // Slots hold the pids of different children, and every child is in a slot or about to be put there.
  predicate TableFine(s: State) {
    && (forall j: nat :: j < |s.slots| && !Between(s.pc, j) ==>
          if Unfilled(s.pc, j) then s.slots[j] == 0 else s.slots[j] > 0 && s.slots[j] in s.children)
    && (forall j: nat :: j < |s.slots| && Between(s.pc, j) ==>
          s.slots[j] > 0 && (s.pc.Reaped? ==> s.slots[j] !in s.children))
    && (forall j, k :: 0 <= j < k < |s.slots| && !Between(s.pc, j) && !Between(s.pc, k) && s.slots[j] == s.slots[k] ==>
          s.slots[j] == 0)
    && (forall pid :: pid in s.children ==> pid > 0 && (Unrecorded(s.pc, pid) || Slotted(s, pid)))
  }

  predicate PcFine(s: State) {
    match s.pc
    case Starting(i) => i <= |s.slots|
    case StartRecording(i, pid) => i < |s.slots| && pid in s.children && pid !in s.slots
    case Sweeping(i) => i <= |s.slots|
    case Reaped(i) => i < |s.slots|
    case Recording(i, pid) =>
      i < |s.slots| && pid in s.children && forall j: nat :: j < |s.slots| && j != i ==> s.slots[j] != pid
    case _ => true
  }

  predicate Inv(s: State) {
    && s.pc != FailedWait
    && (Runs(s.pc) || s.pc == Stopped ==> PcFine(s) && TableFine(s))
  }

  lemma StartInv(n: nat)
    ensures Inv(Start(n))
  {
  }

  lemma PollBacked(s: State)
    requires Inv(s) && Enabled(s, Poll)
    ensures s.slots[s.pc.i] > 0 && s.slots[s.pc.i] in s.children
  {
    assert !Between(s.pc, s.pc.i) && !Unfilled(s.pc, s.pc.i);
  }

  lemma PollReaps(s: State)
    requires Inv(s) && Enabled(s, Poll) && s.slots[s.pc.i] > 0 && s.slots[s.pc.i] in s.children
    requires s.children[s.slots[s.pc.i]].status == Ended
    ensures Inv(After(s, Poll))
  {
    var s' := After(s, Poll);
    forall p | p in s'.children
      ensures Slotted(s', p)
    {
      assert Slotted(s, p);
      var j: nat :| j < |s.slots| && !Between(s.pc, j) && s.slots[j] == p;
      assert !Between(s'.pc, j);
    }
  }

  lemma PollInv(s: State)
    requires Inv(s) && Enabled(s, Poll)
    ensures Inv(After(s, Poll))
  {
    PollBacked(s);
    if s.children[s.slots[s.pc.i]].status == Ended {
      PollReaps(s);
    } else {
      SlotsKept(s, After(s, Poll));
    }
  }

  // What is in a slot that stays backed is still there.
  lemma SlotsKept(s: State, s': State)
    requires |s'.slots| == |s.slots|
    requires forall j: nat :: j < |s.slots| && !Between(s.pc, j) ==>
               !Between(s'.pc, j) && (s'.slots[j] == s.slots[j] || s.slots[j] == 0)
    ensures forall pid: nat :: pid > 0 && Slotted(s, pid) ==> Slotted(s', pid)
  {
    forall pid: nat | pid > 0 && Slotted(s, pid)
      ensures Slotted(s', pid)
    {
      var j: nat :| j < |s.slots| && !Between(s.pc, j) && s.slots[j] == pid;
      assert s'.slots[j] == pid;
    }
  }

  lemma RecordInv(s: State, step: Step)
    requires Inv(s) && Enabled(s, step) && (step.Record? || step.RecordStart?)
    ensures Inv(After(s, step))
  {
    var s' := After(s, step);
    SlotsKept(s, s');
    assert s'.slots[s.pc.i] == s.pc.pid && !Between(s'.pc, s.pc.i);
    assert Slotted(s', s.pc.pid);
  }

  lemma ForkInv(s: State, pid: nat)
    requires Inv(s) && Enabled(s, Fork(pid))
    ensures Inv(After(s, Fork(pid)))
  {
    SlotsKept(s, After(s, Fork(pid)));
  }

  lemma ForkStartInv(s: State, pid: nat)
    requires Inv(s) && Enabled(s, ForkStart(pid))
    ensures Inv(After(s, ForkStart(pid)))
  {
    SlotsKept(s, After(s, ForkStart(pid)));
  }

  // The pc moves between places where every slot is backed by a child.
  lemma MoveInv(s: State, step: Step)
    requires Inv(s) && Enabled(s, step) && (step.BeginChecking? || step.Test? || step.EndSweep? || step.ForkFails?)
    ensures Inv(After(s, step))
  {
    var s' := After(s, step);
    if !step.ForkFails? {
      SlotsKept(s, s');
    }
  }

  lemma EndInv(s: State, pid: nat)
    requires Inv(s) && Enabled(s, End(pid))
    ensures Inv(After(s, End(pid)))
  {
    if Runs(s.pc) || s.pc == Stopped {
      SlotsKept(s, After(s, End(pid)));
    }
  }

  lemma SignalInv(s: State)
    requires Inv(s) && Enabled(s, Signal)
    ensures Inv(After(s, Signal))
  {
    if 0 !in s.slots {
      SlotsKept(s, After(s, Signal));
    }
  }

  lemma StepInv(s: State, step: Step)
    requires Inv(s) && Enabled(s, step) && step != ForkStartFails
    ensures Inv(After(s, step))
  {
    if step.Poll? {
      PollInv(s);
    } else if step.Record? || step.RecordStart? {
      RecordInv(s, step);
    } else if step.Fork? {
      ForkInv(s, step.pid);
    } else if step.ForkStart? {
      ForkStartInv(s, step.pid);
    } else if step.End? {
      EndInv(s, step.pid);
    } else if step.Signal? {
      SignalInv(s);
    } else {
      MoveInv(s, step);
    }
  }

  predicate StartsSucceed(steps: seq<Step>) {
    forall i :: 0 <= i < |steps| ==> steps[i] != ForkStartFails
  }

  lemma {:induction false} RunInv(s: State, steps: seq<Step>, s': State)
    requires Inv(s) && StartsSucceed(steps) && Leads(s, steps, s')
    ensures Inv(s')
    decreases |steps|
  {
    if steps != [] {
      StepInv(s, steps[0]);
      RunInv(After(s, steps[0]), steps[1..], s');
    }
  }
}
