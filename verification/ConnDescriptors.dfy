// The descriptors of connections: no two open connections of a worker have the same one.
module ConnDescriptors {
  import opened ConnProtocol
  import opened ConnCounters

  // The connection has its descriptor.
  predicate HasFd(conn: Conn) {
    conn.phase == Counted || Live(conn.phase)
  }

  predicate Apart(a: Conn, b: Conn) {
    HasFd(a) && HasFd(b) && a.worker == b.worker ==> a.fd != b.fd
  }

  // Open connections have descriptors that are open, different ones, and none that is just being accepted.
  ghost predicate Table(s: State) {
    && (forall c :: 0 <= c < |s.conns| && HasFd(s.conns[c]) ==>
          s.conns[c].worker < |s.workers| && s.conns[c].fd in s.workers[s.conns[c].worker].open)
    && (forall c, d :: 0 <= c < d < |s.conns| ==> Apart(s.conns[c], s.conns[d]))
    && (forall w: nat :: w < |s.workers| && s.workers[w].pc.Fresh? ==> FreshFd(s, w))
  }

  ghost predicate FreshFd(s: State, w: nat)
    requires w < |s.workers| && s.workers[w].pc.Fresh?
  {
    && s.workers[w].pc.fd in s.workers[w].open
    && forall c :: 0 <= c < |s.conns| && HasFd(s.conns[c]) && s.conns[c].worker == w ==>
         s.conns[c].fd != s.workers[w].pc.fd
  }

  // A step that opens and closes nothing.
  lemma TableKept(s: State, s': State)
    requires Table(s) && |s'.conns| == |s.conns| && |s'.workers| >= |s.workers|
    requires forall c :: 0 <= c < |s.conns| ==>
               && s'.conns[c].worker == s.conns[c].worker && s'.conns[c].fd == s.conns[c].fd
               && (HasFd(s'.conns[c]) ==> HasFd(s.conns[c]))
    requires forall w :: 0 <= w < |s.workers| ==>
               && s'.workers[w].open == s.workers[w].open
               && (s'.workers[w].pc.Fresh? ==> s'.workers[w].pc == s.workers[w].pc)
    requires forall w :: |s.workers| <= w < |s'.workers| ==> !s'.workers[w].pc.Fresh?
    ensures Table(s')
  {
    forall c, d | 0 <= c < d < |s'.conns|
      ensures Apart(s'.conns[c], s'.conns[d])
    {
      assert Apart(s.conns[c], s.conns[d]);
    }
    forall w: nat | w < |s'.workers| && s'.workers[w].pc.Fresh?
      ensures FreshFd(s', w)
    {
      assert FreshFd(s, w);
    }
  }

  // A connection loses its descriptor, which becomes free.
  lemma TableDrop(s: State, s': State, w: nat, c: nat)
    requires Table(s) && w < |s.workers| && c < |s.conns| && s.conns[c].worker == w && HasFd(s.conns[c])
    requires |s'.conns| == |s.conns| && s'.conns == s.conns[c := s'.conns[c]] && !HasFd(s'.conns[c])
    requires |s'.workers| == |s.workers| && s'.workers == s.workers[w := s'.workers[w]]
    requires s'.workers[w].open == s.workers[w].open - {s.conns[c].fd} && !s'.workers[w].pc.Fresh?
    ensures Table(s')
  {
    forall d | 0 <= d < |s'.conns| && HasFd(s'.conns[d])
      ensures s'.conns[d].worker < |s'.workers| && s'.conns[d].fd in s'.workers[s'.conns[d].worker].open
    {
      assert if d < c then Apart(s.conns[d], s.conns[c]) else Apart(s.conns[c], s.conns[d]);
    }
    forall d, d' | 0 <= d < d' < |s'.conns|
      ensures Apart(s'.conns[d], s'.conns[d'])
    {
      assert Apart(s.conns[d], s.conns[d']);
    }
    forall v: nat | v < |s'.workers| && s'.workers[v].pc.Fresh?
      ensures FreshFd(s', v)
    {
      assert FreshFd(s, v);
    }
  }

  lemma TableAccept(s: State, w: nat, fd: nat)
    requires Table(s) && Enabled(s, Accept(w, fd))
    ensures Table(After(s, Accept(w, fd)))
  {
    var s' := After(s, Accept(w, fd));
    forall v: nat | v < |s'.workers| && s'.workers[v].pc.Fresh?
      ensures FreshFd(s', v)
    {
      assert v != w ==> FreshFd(s, v);
    }
  }

  lemma TableCount(s: State, w: nat)
    requires Table(s) && Enabled(s, Count(w)) && Defined(s, Count(w))
    ensures Table(After(s, Count(w)))
  {
    var s' := After(s, Count(w));
    assert FreshFd(s, w);
    forall c, d | 0 <= c < d < |s'.conns|
      ensures Apart(s'.conns[c], s'.conns[d])
    {
      assert d < |s.conns| ==> Apart(s.conns[c], s.conns[d]);
    }
    forall v: nat | v < |s'.workers| && s'.workers[v].pc.Fresh?
      ensures FreshFd(s', v)
    {
      assert v != w ==> FreshFd(s, v);
    }
  }

  // The steps that open or close a descriptor.
  predicate Switches(step: Step) {
    step.Accept? || step.Count? || (step.Add? && !step.ok) || step.Close?
  }

  // The step is on a connection of its worker that has its descriptor.
  predicate OnOpen(s: State, step: Step) {
    step.Add? || step.CountRead? || step.Mod? || step.CountWrite? || step.Close? ==>
      && At(s, step.w) && var pc := s.workers[step.w].pc;
         (pc.Adding? || pc.CountingRead? || pc.Modding? || pc.CountingWrite? || pc.Closing?) &&
         pc.c < |s.conns| && s.conns[pc.c].worker == step.w && HasFd(s.conns[pc.c])
  }

  lemma StepOnOpen(s: State, step: Step)
    requires Inv(s) && Enabled(s, step)
    ensures OnOpen(s, step)
  {
    if !step.Spawn? {
      assert WorkerFine(s.listeners, s.conns, step.w, s.workers[step.w]);
    }
  }

  lemma TableElse(s: State, step: Step)
    requires Table(s) && Enabled(s, step) && Defined(s, step) && !Switches(step) && OnOpen(s, step)
    ensures Table(After(s, step))
  {
    TableKept(s, After(s, step));
  }

  lemma TableClose(s: State, step: Step)
    requires Table(s) && Enabled(s, step) && Defined(s, step) && OnOpen(s, step)
    requires step.Close? || (step.Add? && !step.ok)
    ensures Table(After(s, step))
  {
    TableDrop(s, After(s, step), step.w, s.workers[step.w].pc.c);
  }

  lemma TableStep(s: State, step: Step)
    requires Inv(s) && Table(s) && Enabled(s, step)
    ensures Defined(s, step) && Table(After(s, step))
  {
    StepInv(s, step);
    StepOnOpen(s, step);
    if step.Accept? {
      TableAccept(s, step.w, step.fd);
    } else if step.Count? {
      TableCount(s, step.w);
    } else if Switches(step) {
      TableClose(s, step);
    } else {
      TableElse(s, step);
    }
  }

  lemma {:induction false} TableRun(s: State, steps: seq<Step>, s': State)
    requires Inv(s) && Table(s) && Leads(s, steps, s')
    ensures Table(s')
    decreases |steps|
  {
    if steps != [] {
      StepInv(s, steps[0]);
      TableStep(s, steps[0]);
      TableRun(After(s, steps[0]), steps[1..], s');
    }
  }

  // In every run the descriptor that a worker closes is that of the connection it closes and of no other: two open
  // connections of a worker never have the same, and each has one that is open.
  lemma DescriptorsApart(listeners: seq<Kind>, steps: seq<Step>, s: State, c: nat, d: nat)
    requires Leads(Start(listeners), steps, s) && c < d < |s.conns| && s.conns[c].worker == s.conns[d].worker
    requires HasFd(s.conns[c]) && HasFd(s.conns[d])
    ensures s.conns[c].worker < |s.workers| && {s.conns[c].fd, s.conns[d].fd} <= s.workers[s.conns[c].worker].open
    ensures s.conns[c].fd != s.conns[d].fd
  {
    StartInv(listeners);
    TableRun(Start(listeners), steps, s);
    assert Apart(s.conns[c], s.conns[d]);
  }
}
