// What every step of every worker keeps, and what the counters say.
module ConnCounters {
  import opened ConnProtocol

  // ----- tallies -----

  datatype Tally = Tally(sd: Counters, live: nat, refused: nat, modFails: nat)

  function Zero(): Tally {
    Tally(Counters(0, 0, 0, 0), 0, 0, 0)
  }

  function Plus(t: Tally, conn: Conn): Tally {
    Tally(
      Counters(t.sd.accepted + 1, t.sd.read + conn.readTimes,
               t.sd.written + conn.writeTimes, t.sd.closed + conn.closeTimes),
      t.live + (if conn.phase == Closed || conn.phase == Refused then 0 else 1),
      t.refused + (if conn.phase == Refused then 1 else 0),
      t.modFails + conn.modFails)
  }

  // What the connections have added to the counters, how many are open, how many epoll_ctl refused, and how
  // often EPOLL_CTL_MOD failed.
  function TallyOf(conns: seq<Conn>): Tally {
    if conns == [] then Zero() else Plus(TallyOf(conns[..|conns| - 1]), conns[|conns| - 1])
  }

  predicate Moves(t: Tally, conn: Conn, t': Tally, conn': Conn) {
    && t'.sd.accepted == t.sd.accepted
    && t'.sd.read - conn'.readTimes == t.sd.read - conn.readTimes
    && t'.sd.written - conn'.writeTimes == t.sd.written - conn.writeTimes
    && t'.sd.closed - conn'.closeTimes == t.sd.closed - conn.closeTimes
    && t'.modFails - conn'.modFails == t.modFails - conn.modFails
  }

  lemma {:induction false} TallyUpdate(conns: seq<Conn>, c: nat, conn: Conn)
    requires c < |conns|
    ensures Moves(TallyOf(conns), conns[c], TallyOf(conns[c := conn]), conn)
  {
    var last := |conns| - 1;
    if c == last {
      assert conns[c := conn][..last] == conns[..last];
    } else {
      assert conns[c := conn][..last] == conns[..last][c := conn];
      TallyUpdate(conns[..last], c, conn);
    }
  }

  lemma TallyMore(conns: seq<Conn>, conn: Conn)
    ensures TallyOf(conns + [conn]) == Plus(TallyOf(conns), conn)
  {
    assert (conns + [conn])[..|conns|] == conns;
  }

  // ----- the invariant -----

  // A connection that has been counted as read, or as written, and has not moved on.
  predicate Halfway(conn: Conn) {
    (conn.phase == Reading && conn.readTimes > conn.modFails) || (conn.phase == Writing && conn.writeTimes > 0)
  }

  // Each connection is read with success once more than EPOLL_CTL_MOD failed, written once, closed once.
  predicate ConnFine(listeners: seq<Kind>, workers: seq<Worker>, c: nat, conn: Conn) {
    && conn.worker < |workers|
    && conn.fd > |listeners|
    && conn.writeTimes <= conn.readTimes <= conn.modFails + 1
    && conn.writeTimes <= 1
    && conn.closeTimes == (if conn.phase == Closed then 1 else 0)
    && (conn.phase == Counted || conn.phase == Refused ==> conn.readTimes == 0 && conn.modFails == 0)
    && (conn.phase == Reading ==> conn.writeTimes == 0 && conn.readTimes >= conn.modFails)
    && (conn.phase == Writing ==> conn.readTimes == conn.modFails + 1)
    && (Halfway(conn) ==> workers[conn.worker].pc == Dead || Holds(workers[conn.worker].pc, c))
  }

  predicate Mine(conns: seq<Conn>, w: nat, c: nat) {
    c < |conns| && conns[c].worker == w
  }

  // What a worker has in hand is its own, is open, and is where the worker believes it to be.
  predicate PcFine(listeners: seq<Kind>, conns: seq<Conn>, w: nat, pc: Pc) {
    match pc
    case Looping => true
    case Dead => true
    case Accepting(k) => k < |listeners|
    case Fresh(k, fd) => k < |listeners| && fd > |listeners|
    case Adding(k, c) => k < |listeners| && Mine(conns, w, c) && conns[c].phase == Counted
    case InRead(c) => Mine(conns, w, c) && conns[c].phase == Reading && !Halfway(conns[c])
    case InReverse(c) => Mine(conns, w, c) && conns[c].phase == Reading && !Halfway(conns[c])
    case CountingRead(c, _) => Mine(conns, w, c) && conns[c].phase == Reading && !Halfway(conns[c])
    case Modding(c) => Mine(conns, w, c) && conns[c].phase == Reading && Halfway(conns[c])
    case InWrite(c) => Mine(conns, w, c) && conns[c].phase == Writing && !Halfway(conns[c])
    case CountingWrite(c) => Mine(conns, w, c) && conns[c].phase == Writing && !Halfway(conns[c])
    case Closing(c) => Mine(conns, w, c) && Live(conns[c].phase)
  }

  // A reported event that is still to be handled speaks of what is there, and not of what is in hand.
  predicate EventFine(listeners: seq<Kind>, conns: seq<Conn>, w: nat, pc: Pc, e: Event) {
    match e
    case OnListener(k) => k < |listeners|
    case OnConn(c, readable, writable, _) =>
      && Mine(conns, w, c) && Live(conns[c].phase) && !Holds(pc, c)
      && (readable ==> conns[c].phase == Reading) && (writable ==> conns[c].phase == Writing)
  }

  predicate WorkerFine(listeners: seq<Kind>, conns: seq<Conn>, w: nat, worker: Worker) {
    && PcFine(listeners, conns, w, worker.pc)
    && OncePerSource(worker.batch)
    && (forall i :: 0 <= i < |worker.batch| ==> EventFine(listeners, conns, w, worker.pc, worker.batch[i]))
    && (worker.pc == Dead ==> worker.batch == [])
    && (forall x: nat :: x <= |listeners| ==> x in worker.open)
  }

  predicate Inv(s: State) {
    && (forall w: nat :: w < |s.workers| ==> WorkerFine(s.listeners, s.conns, w, s.workers[w]))
    && (forall c: nat :: c < |s.conns| ==> ConnFine(s.listeners, s.workers, c, s.conns[c]))
    && TallyOf(s.conns).sd == s.sd
  }

  lemma StartInv(listeners: seq<Kind>)
    ensures Inv(Start(listeners))
  {
  }

  // What is still to be handled is not touched by a step on what is in hand.
  lemma BatchKept(s: State, s': State, w: nat, c: nat)
    requires Inv(s) && w < |s.workers| && c < |s.conns| && Holds(s.workers[w].pc, c)
    requires |s'.workers| == |s.workers| && |s'.conns| == |s.conns| && s'.conns == s.conns[c := s'.conns[c]]
    requires s'.workers[w].batch == s.workers[w].batch && s'.workers[w].pc != Dead
    requires forall x: nat :: x <= |s.listeners| && x in s.workers[w].open ==> x in s'.workers[w].open
    requires PcFine(s.listeners, s'.conns, w, s'.workers[w].pc)
    requires forall d: nat :: Holds(s'.workers[w].pc, d) ==> d == c
    ensures WorkerFine(s.listeners, s'.conns, w, s'.workers[w])
  {
    assert WorkerFine(s.listeners, s.conns, w, s.workers[w]);
  }

  // A step that changes one worker and a connection it has in hand is checked on these two.
  lemma Replaced(s: State, s': State, w: nat, c: nat)
    requires Inv(s) && w < |s.workers| && c < |s.conns| && s.conns[c].worker == w && s.workers[w].pc != Dead
    requires s'.listeners == s.listeners && |s'.workers| == |s.workers| && |s'.conns| == |s.conns|
    requires s'.workers == s.workers[w := s'.workers[w]] && s'.conns == s.conns[c := s'.conns[c]]
    requires s'.conns[c].worker == w
    requires forall d: nat :: Holds(s.workers[w].pc, d) ==> d == c
    requires WorkerFine(s.listeners, s'.conns, w, s'.workers[w])
    requires ConnFine(s.listeners, s'.workers, c, s'.conns[c])
    requires TallyOf(s'.conns).sd == s'.sd
    ensures Inv(s')
  {
    forall v: nat | v < |s'.workers|
      ensures WorkerFine(s'.listeners, s'.conns, v, s'.workers[v])
    {
      assert WorkerFine(s.listeners, s.conns, v, s.workers[v]);
    }
    forall d: nat | d < |s'.conns|
      ensures ConnFine(s'.listeners, s'.workers, d, s'.conns[d])
    {
      assert ConnFine(s.listeners, s.workers, d, s.conns[d]);
    }
  }

  // A step that only moves one worker.
  lemma Moved(s: State, s': State, w: nat)
    requires Inv(s) && w < |s.workers| && |s'.workers| == |s.workers|
    requires s' == s.(workers := s.workers[w := s'.workers[w]])
    requires s.workers[w].pc == Dead ==> s'.workers[w].pc == Dead
    requires WorkerFine(s.listeners, s.conns, w, s'.workers[w])
    requires forall d: nat :: d < |s.conns| && Holds(s.workers[w].pc, d) && Halfway(s.conns[d]) ==>
               s'.workers[w].pc == Dead || Holds(s'.workers[w].pc, d)
    ensures Inv(s')
  {
    forall d: nat | d < |s'.conns|
      ensures ConnFine(s'.listeners, s'.workers, d, s'.conns[d])
    {
      assert ConnFine(s.listeners, s.workers, d, s.conns[d]);
    }
  }

  // ----- the steps -----

  // Descriptors handed out in turn fill the table from below.
  lemma {:induction false} FilledFromBelow(inherited: set<nat>, fds: seq<nat>, n: nat)
    requires OpenedInTurn(inherited, fds) && n <= |fds|
    ensures forall x: nat :: x < n ==> x in Opened(inherited, fds, n)
  {
    if n > 0 {
      FilledFromBelow(inherited, fds, n - 1);
      assert LowestFree(Opened(inherited, fds, n - 1), fds[n - 1]);
    }
  }

  lemma SpawnInv(s: State, inherited: set<nat>, fds: seq<nat>)
    requires Inv(s) && Enabled(s, Spawn(inherited, fds))
    ensures Inv(After(s, Spawn(inherited, fds)))
  {
    FilledFromBelow(inherited, fds, |fds|);
    var s' := After(s, Spawn(inherited, fds));
    forall w: nat | w < |s'.workers|
      ensures WorkerFine(s'.listeners, s'.conns, w, s'.workers[w])
    {
      assert w < |s.workers| ==> WorkerFine(s.listeners, s.conns, w, s.workers[w]);
    }
    forall d: nat | d < |s'.conns|
      ensures ConnFine(s'.listeners, s'.workers, d, s'.conns[d])
    {
      assert ConnFine(s.listeners, s.workers, d, s.conns[d]);
    }
  }

  // Every event that a worker turns to has a listener or a live connection behind it, and the test on the
  // tag tells the two apart.
  lemma EventDefined(s: State, w: nat)
    requires Inv(s) && Enabled(s, Dispatch(w))
    ensures var e := s.workers[w].batch[0];
            && DispatchDefined(s, e)
            && (Tag(s, e) <= |s.listeners| <==> e.OnListener?)
            && (e.OnConn? ==> Live(s.conns[e.c].phase) && s.conns[e.c].worker == w)
  {
    assert WorkerFine(s.listeners, s.conns, w, s.workers[w]);
    var e := s.workers[w].batch[0];
    if e.OnConn? {
      assert ConnFine(s.listeners, s.workers, e.c, s.conns[e.c]);
    }
  }

  lemma DispatchInv(s: State, w: nat)
    requires Inv(s) && Enabled(s, Dispatch(w))
    ensures Defined(s, Dispatch(w)) && Inv(After(s, Dispatch(w)))
  {
    EventDefined(s, w);
    var worker := s.workers[w];
    assert WorkerFine(s.listeners, s.conns, w, worker);
    var e, pc := worker.batch[0], Branch(s, worker.batch[0]);
    var s' := After(s, Dispatch(w));
    if e.OnConn? {
      assert ConnFine(s.listeners, s.workers, e.c, s.conns[e.c]);
    }
    forall i | 0 <= i < |worker.batch| - 1
      ensures EventFine(s.listeners, s.conns, w, pc, worker.batch[1..][i])
    {
      assert EventFine(s.listeners, s.conns, w, worker.pc, worker.batch[i + 1]);
      assert !SameSource(worker.batch[0], worker.batch[i + 1]);
    }
    Moved(s, s', w);
  }

  // The steps that change nothing but where a worker stands: at the end of a loop of a handler, ...
  predicate Ends(step: Step) {
    step.EndRead? || step.EndWrite? || step.EndReverse?
  }

  // ... and outside the handlers.
  predicate Waits(step: Step) {
    step.Die? || step.Wait? || step.Accept? || step.AcceptNone? || step.NonBlockingFails?
  }

  lemma EndsInv(s: State, step: Step)
    requires Inv(s) && Enabled(s, step) && Ends(step)
    ensures Inv(After(s, step))
  {
    var w, s' := step.w, After(s, step);
    assert WorkerFine(s.listeners, s.conns, w, s.workers[w]);
    assert s' == Goes(s, w, s'.workers[w].pc) && PcFine(s.listeners, s.conns, w, s'.workers[w].pc);
    Moved(s, s', w);
  }

  lemma WaitsInv(s: State, step: Step)
    requires Inv(s) && Enabled(s, step) && Waits(step)
    ensures Inv(After(s, step))
  {
    assert WorkerFine(s.listeners, s.conns, step.w, s.workers[step.w]);
    Moved(s, After(s, step), step.w);
  }

  lemma CountDefined(s: State, w: nat)
    requires Inv(s) && Enabled(s, Count(w))
    ensures Defined(s, Count(w))
  {
    assert WorkerFine(s.listeners, s.conns, w, s.workers[w]);
  }

  lemma CountKeepsWorkers(s: State, w: nat, v: nat)
    requires Inv(s) && Enabled(s, Count(w)) && Defined(s, Count(w)) && v < |s.workers|
    ensures WorkerFine(s.listeners, After(s, Count(w)).conns, v, After(s, Count(w)).workers[v])
  {
    assert WorkerFine(s.listeners, s.conns, v, s.workers[v]);
  }

  lemma CountKeepsConns(s: State, w: nat, d: nat)
    requires Inv(s) && Enabled(s, Count(w)) && Defined(s, Count(w)) && d <= |s.conns|
    ensures ConnFine(s.listeners, After(s, Count(w)).workers, d, After(s, Count(w)).conns[d])
  {
    assert WorkerFine(s.listeners, s.conns, w, s.workers[w]);
    assert d < |s.conns| ==> ConnFine(s.listeners, s.workers, d, s.conns[d]);
  }

  lemma CountInv(s: State, w: nat)
    requires Inv(s) && Enabled(s, Count(w))
    ensures Defined(s, Count(w)) && Inv(After(s, Count(w)))
  {
    CountDefined(s, w);
    var s' := After(s, Count(w));
    TallyMore(s.conns, s'.conns[|s.conns|]);
    forall v: nat | v < |s'.workers|
      ensures WorkerFine(s'.listeners, s'.conns, v, s'.workers[v])
    {
      CountKeepsWorkers(s, w, v);
    }
    forall d: nat | d < |s'.conns|
      ensures ConnFine(s'.listeners, s'.workers, d, s'.conns[d])
    {
      CountKeepsConns(s, w, d);
    }
  }

  lemma AddInv(s: State, w: nat, ok: bool)
    requires Inv(s) && Enabled(s, Add(w, ok))
    ensures Defined(s, Add(w, ok)) && Inv(After(s, Add(w, ok)))
  {
    var c := s.workers[w].pc.c;
    assert WorkerFine(s.listeners, s.conns, w, s.workers[w]);
    assert ConnFine(s.listeners, s.workers, c, s.conns[c]);
    var s' := After(s, Add(w, ok));
    TallyUpdate(s.conns, c, s'.conns[c]);
    BatchKept(s, s', w, c);
    Replaced(s, s', w, c);
  }

  lemma CountReadDefined(s: State, w: nat)
    requires Inv(s) && Enabled(s, CountRead(w))
    ensures Defined(s, CountRead(w)) && !Halfway(s.conns[s.workers[w].pc.c]) && s.conns[s.workers[w].pc.c].worker == w
  {
    assert WorkerFine(s.listeners, s.conns, w, s.workers[w]);
  }

  lemma CountReadSides(s: State, w: nat, c: nat)
    requires Inv(s) && Enabled(s, CountRead(w)) && Defined(s, CountRead(w)) && c == s.workers[w].pc.c
    ensures WorkerFine(s.listeners, After(s, CountRead(w)).conns, w, After(s, CountRead(w)).workers[w])
    ensures ConnFine(s.listeners, After(s, CountRead(w)).workers, c, After(s, CountRead(w)).conns[c])
  {
    assert WorkerFine(s.listeners, s.conns, w, s.workers[w]);
    assert ConnFine(s.listeners, s.workers, c, s.conns[c]);
    BatchKept(s, After(s, CountRead(w)), w, c);
  }

  lemma CountReadInv(s: State, w: nat)
    requires Inv(s) && Enabled(s, CountRead(w))
    ensures Defined(s, CountRead(w)) && Inv(After(s, CountRead(w)))
  {
    var c := s.workers[w].pc.c;
    CountReadDefined(s, w);
    CountReadSides(s, w, c);
    TallyUpdate(s.conns, c, After(s, CountRead(w)).conns[c]);
    Replaced(s, After(s, CountRead(w)), w, c);
  }

  lemma ModInv(s: State, w: nat, ok: bool)
    requires Inv(s) && Enabled(s, Mod(w, ok))
    ensures Defined(s, Mod(w, ok)) && Inv(After(s, Mod(w, ok)))
  {
    var c := s.workers[w].pc.c;
    assert WorkerFine(s.listeners, s.conns, w, s.workers[w]);
    assert ConnFine(s.listeners, s.workers, c, s.conns[c]);
    var s' := After(s, Mod(w, ok));
    TallyUpdate(s.conns, c, s'.conns[c]);
    BatchKept(s, s', w, c);
    Replaced(s, s', w, c);
  }

  lemma CountWriteInv(s: State, w: nat)
    requires Inv(s) && Enabled(s, CountWrite(w))
    ensures Defined(s, CountWrite(w)) && Inv(After(s, CountWrite(w)))
  {
    var c := s.workers[w].pc.c;
    assert WorkerFine(s.listeners, s.conns, w, s.workers[w]);
    assert ConnFine(s.listeners, s.workers, c, s.conns[c]);
    var s' := After(s, CountWrite(w));
    TallyUpdate(s.conns, c, s'.conns[c]);
    BatchKept(s, s', w, c);
    Replaced(s, s', w, c);
  }

  lemma CloseInv(s: State, w: nat)
    requires Inv(s) && Enabled(s, Close(w))
    ensures Defined(s, Close(w)) && Inv(After(s, Close(w)))
  {
    var c := s.workers[w].pc.c;
    assert WorkerFine(s.listeners, s.conns, w, s.workers[w]);
    assert ConnFine(s.listeners, s.workers, c, s.conns[c]);
    var s' := After(s, Close(w));
    TallyUpdate(s.conns, c, s'.conns[c]);
    BatchKept(s, s', w, c);
    Replaced(s, s', w, c);
  }

  lemma StepInv(s: State, step: Step)
    requires Inv(s) && Enabled(s, step)
    ensures Defined(s, step) && Inv(After(s, step))
  {
    match step {
      case Spawn(inherited, fds) => SpawnInv(s, inherited, fds);
      case Dispatch(w) => DispatchInv(s, w);
      case Count(w) => CountInv(s, w);
      case Add(w, ok) => AddInv(s, w, ok);
      case CountRead(w) => CountReadInv(s, w);
      case Mod(w, ok) => ModInv(s, w, ok);
      case CountWrite(w) => CountWriteInv(s, w);
      case Close(w) => CloseInv(s, w);
      case EndRead(_, _) => EndsInv(s, step);
      case EndWrite(_, _) => EndsInv(s, step);
      case EndReverse(_, _) => EndsInv(s, step);
      case _ => WaitsInv(s, step);
    }
  }

  lemma {:induction false} RunInv(s: State, steps: seq<Step>, s': State)
    requires Inv(s) && Leads(s, steps, s')
    ensures Inv(s')
    decreases |steps|
  {
    if steps != [] {
      StepInv(s, steps[0]);
      RunInv(After(s, steps[0]), steps[1..], s');
    }
  }

  // ----- what the counters say -----

  lemma {:induction false} TallyBounds(listeners: seq<Kind>, workers: seq<Worker>, conns: seq<Conn>)
    requires forall c: nat :: c < |conns| ==> ConnFine(listeners, workers, c, conns[c])
    ensures var t := TallyOf(conns);
            && t.sd.accepted == t.sd.closed + t.live + t.refused
            && t.sd.written <= t.sd.read <= t.sd.accepted + t.modFails
  {
    if conns != [] {
      TallyBounds(listeners, workers, conns[..|conns| - 1]);
      assert ConnFine(listeners, workers, |conns| - 1, conns[|conns| - 1]);
    }
  }

  // In every run of any workers, whenever one looks at the counters: each accepted connection is closed, still
  // open, or was refused by epoll; and no more responses are counted than reads, and no more reads than
  // connections but for the times that EPOLL_CTL_MOD failed.
  lemma CountersAgree(listeners: seq<Kind>, steps: seq<Step>, s: State)
    requires Leads(Start(listeners), steps, s)
    ensures var t := TallyOf(s.conns);
            && s.sd.accepted == s.sd.closed + t.live + t.refused
            && s.sd.written <= s.sd.read <= s.sd.accepted + t.modFails
  {
    StartInv(listeners);
    RunInv(Start(listeners), steps, s);
    TallyBounds(s.listeners, s.workers, s.conns);
  }

  predicate ModsSucceed(steps: seq<Step>) {
    forall i :: 0 <= i < |steps| ==> steps[i].Mod? ==> steps[i].ok
  }

  predicate NoModFailed(s: State) {
    forall c :: 0 <= c < |s.conns| ==> s.conns[c].modFails == 0
  }

  lemma ModsKept(s: State, step: Step)
    requires NoModFailed(s) && Enabled(s, step) && Defined(s, step) && (step.Mod? ==> step.ok)
    ensures NoModFailed(After(s, step))
  {
  }

  lemma {:induction false} ModsCounted(s: State, steps: seq<Step>, s': State)
    requires NoModFailed(s) && ModsSucceed(steps) && Leads(s, steps, s')
    ensures NoModFailed(s')
    decreases |steps|
  {
    if steps != [] {
      ModsKept(s, steps[0]);
      ModsCounted(After(s, steps[0]), steps[1..], s');
    }
  }

  lemma {:induction false} NoFailsTally(conns: seq<Conn>)
    requires forall c :: 0 <= c < |conns| ==> conns[c].modFails == 0
    ensures TallyOf(conns).modFails == 0
  {
    if conns != [] {
      NoFailsTally(conns[..|conns| - 1]);
    }
  }

  // While EPOLL_CTL_MOD succeeds, write_num <= read_num <= accept_num.
  lemma CountersOrdered(listeners: seq<Kind>, steps: seq<Step>, s: State)
    requires Leads(Start(listeners), steps, s) && ModsSucceed(steps)
    ensures s.sd.written <= s.sd.read <= s.sd.accepted
  {
    CountersAgree(listeners, steps, s);
    ModsCounted(Start(listeners), steps, s);
    NoFailsTally(s.conns);
  }

  // No connection is closed twice, nothing freed is handled, and the test tempfd <= lis_num sends exactly
  // the events of listeners to accept, whatever the worker's table of descriptors was at the start.
  lemma EventsAreSound(listeners: seq<Kind>, steps: seq<Step>, s: State, step: Step)
    requires Leads(Start(listeners), steps, s) && Enabled(s, step)
    ensures Defined(s, step)
    ensures forall c :: 0 <= c < |s.conns| ==> s.conns[c].closeTimes <= 1
    ensures step.Close? ==> Live(s.conns[s.workers[step.w].pc.c].phase)
    ensures step.Dispatch? ==>
              var e := s.workers[step.w].batch[0];
              && (Tag(s, e) <= |s.listeners| <==> e.OnListener?)
              && (e.OnConn? ==> Live(s.conns[e.c].phase) && s.conns[e.c].worker == step.w)
  {
    StartInv(listeners);
    RunInv(Start(listeners), steps, s);
    StepInv(s, step);
    if step.Dispatch? {
      EventDefined(s, step.w);
    }
    if step.Close? {
      assert WorkerFine(s.listeners, s.conns, step.w, s.workers[step.w]);
    }
    forall c: nat | c < |s.conns|
      ensures s.conns[c].closeTimes <= 1
    {
      assert ConnFine(s.listeners, s.workers, c, s.conns[c]);
    }
  }

  // ----- when EPOLL_CTL_MOD fails -----

  lemma {:induction false} LeadsOn(s: State, steps: seq<Step>, t: State, more: seq<Step>, u: State)
    requires Leads(s, steps, t) && Leads(t, more, u)
    ensures Leads(s, steps + more, u)
    decreases |steps|
  {
    if steps == [] {
      assert steps + more == more;
    } else {
      assert (steps + more)[0] == steps[0] && (steps + more)[1..] == steps[1..] + more;
      LeadsOn(After(s, steps[0]), steps[1..], t, more, u);
    }
  }

  lemma LeadsStep(s: State, steps: seq<Step>, t: State, step: Step)
    requires Leads(s, steps, t) && Enabled(t, step) && Defined(t, step)
    ensures Leads(s, steps + [step], After(t, step))
  {
    assert Leads(After(t, step), [], After(t, step));
    assert Leads(t, [step], After(t, step));
    LeadsOn(s, steps, t, [step], After(t, step));
  }

  // The worker waits, and the connection is registered for reading.
  predicate Poised(s: State, w: nat, c: nat) {
    && w < |s.workers| && s.workers[w].pc == Looping && s.workers[w].batch == []
    && c < |s.conns| && s.conns[c].worker == w && s.conns[c].phase == Reading && s.conns[c].kind == Http
    && s.conns[c].fd > |s.listeners|
  }

  // A connection that is still registered for reading is read, and counted, once more.
  lemma ReadAgain(s: State, w: nat, c: nat) returns (steps: seq<Step>, s': State)
    requires Poised(s, w, c)
    ensures Leads(s, steps, s') && Poised(s', w, c)
    ensures s'.sd == s.sd.(read := s.sd.read + 1) && s'.conns[c].modFails == s.conns[c].modFails + 1
  {
    var e := OnConn(c, true, false, false);
    assert Leads(s, [], s);
    LeadsStep(s, [], s, Wait(w, [e]));
    var s1 := After(s, Wait(w, [e]));
    LeadsStep(s, [] + [Wait(w, [e])], s1, Dispatch(w));
    var s2 := After(s1, Dispatch(w));
    assert s2.workers[w].pc == InRead(c);
    steps := [] + [Wait(w, [e])] + [Dispatch(w)];
    var more, t := CountedAgain(s2, w, c);
    LeadsOn(s, steps, s2, more, t);
    steps, s' := steps + more, t;
  }

  lemma CountedAgain(s: State, w: nat, c: nat) returns (steps: seq<Step>, s': State)
    requires w < |s.workers| && c < |s.conns| && s.workers[w].pc == InRead(c) && s.workers[w].batch == []
    requires Poised(Goes(s, w, Looping), w, c)
    ensures Leads(s, steps, s') && Poised(s', w, c)
    ensures s'.sd == s.sd.(read := s.sd.read + 1) && s'.conns[c].modFails == s.conns[c].modFails + 1
  {
    assert Leads(s, [], s);
    LeadsStep(s, [], s, EndRead(w, Drained));
    var s1 := After(s, EndRead(w, Drained));
    LeadsStep(s, [] + [EndRead(w, Drained)], s1, CountRead(w));
    var s2 := After(s1, CountRead(w));
    LeadsStep(s, [] + [EndRead(w, Drained)] + [CountRead(w)], s2, Mod(w, false));
    steps, s' := [] + [EndRead(w, Drained)] + [CountRead(w)] + [Mod(w, false)], After(s2, Mod(w, false));
  }

  lemma FirstTwo()
    ensures OpenedInTurn({}, [0, 1]) && Opened({}, [0, 1], 2) == {0, 1}
  {
    var fds: seq<nat> := [0, 1];
    assert Opened({}, fds, 0) == {};
    assert fds[0] in Opened({}, fds, 1) && Opened({}, fds, 1) == {0};
    assert fds[0] in Opened({}, fds, 2) && fds[1] in Opened({}, fds, 2) && Opened({}, fds, 2) == {0, 1};
  }

  // One HTTP listener, one worker, one connection.
  lemma FirstConnection() returns (steps: seq<Step>, s: State)
    ensures Leads(Start([Http]), steps, s) && Poised(s, 0, 0) && s.sd == Counters(1, 0, 0, 0)
  {
    var s0 := Start([Http]);
    assert Leads(s0, [], s0);
    FirstTwo();
    LeadsStep(s0, [], s0, Spawn({}, [0, 1]));
    var s1 := After(s0, Spawn({}, [0, 1]));
    assert s1 == State([Http], [Worker(Looping, [], {0, 1})], [], Counters(0, 0, 0, 0));
    var e := OnListener(0);
    LeadsStep(s0, [] + [Spawn({}, [0, 1])], s1, Wait(0, [e]));
    var s2 := After(s1, Wait(0, [e]));
    LeadsStep(s0, [] + [Spawn({}, [0, 1])] + [Wait(0, [e])], s2, Dispatch(0));
    var s3 := After(s2, Dispatch(0));
    steps := [] + [Spawn({}, [0, 1])] + [Wait(0, [e])] + [Dispatch(0)];
    assert [e][1..] == [];
    assert s3 == State([Http], [Worker(Accepting(0), [], {0, 1})], [], Counters(0, 0, 0, 0));
    var more, t := Accepted(s3);
    LeadsOn(s0, steps, s3, more, t);
    steps, s := steps + more, t;
  }

  lemma Accepted(s: State) returns (steps: seq<Step>, s': State)
    requires s == State([Http], [Worker(Accepting(0), [], {0, 1})], [], Counters(0, 0, 0, 0))
    ensures Leads(s, steps, s') && Poised(s', 0, 0) && s'.sd == Counters(1, 0, 0, 0)
  {
    assert Leads(s, [], s);
    LeadsStep(s, [], s, Accept(0, 2));
    var s1 := After(s, Accept(0, 2));
    LeadsStep(s, [] + [Accept(0, 2)], s1, Count(0));
    var s2 := After(s1, Count(0));
    LeadsStep(s, [] + [Accept(0, 2)] + [Count(0)], s2, Add(0, true));
    var s3 := After(s2, Add(0, true));
    LeadsStep(s, [] + [Accept(0, 2)] + [Count(0)] + [Add(0, true)], s3, AcceptNone(0));
    steps := [] + [Accept(0, 2)] + [Count(0)] + [Add(0, true)] + [AcceptNone(0)];
    s' := After(s3, AcceptNone(0));
  }

  // Without that, read_num is not bounded by accept_num: one connection can be counted any number of times.
  lemma {:induction false} ReadsUnbounded(n: nat) returns (steps: seq<Step>, s: State)
    ensures Leads(Start([Http]), steps, s) && Poised(s, 0, 0) && s.sd == Counters(1, n, 0, 0)
  {
    if n == 0 {
      steps, s := FirstConnection();
    } else {
      var before, t := ReadsUnbounded(n - 1);
      var more, u := ReadAgain(t, 0, 0);
      LeadsOn(Start([Http]), before, t, more, u);
      steps, s := before + more, u;
    }
  }
}
