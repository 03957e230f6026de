// What becomes of a batch of events, in every run: by the time a worker waits again, each of its events has been
// handled by the handler that it calls for.
module ConnBatches {
  import opened ConnProtocol
  import opened ConnCounters
  import opened ConnHandlers
  import opened ConnEvents

  // What an event can make of its connection.
  predicate Outcome(e: Event, old': Conn, conn: Conn)
    requires e.OnConn?
  {
    var read := old'.(readTimes := old'.readTimes + 1);
    if e.readable && old'.kind == Http then
      || conn == read.(phase := Writing)
      || conn == read.(modFails := read.modFails + 1)
      || conn == Shut(read)
      || conn == Shut(old')
      || conn == old'
    else if e.readable then conn == Shut(old') || conn == old'
    else if e.writable then
      old'.kind == Http && (conn == Shut(old') || conn == Shut(old'.(writeTimes := old'.writeTimes + 1)))
    else if e.hungUp then conn == Shut(old')
    else conn == old'
  }

  // What it has made of it while the handler is at work.
  predicate Stage(e: Event, pc: Pc, old': Conn, conn: Conn)
    requires e.OnConn?
  {
    var read := old'.(readTimes := old'.readTimes + 1);
    match pc
    case InRead(_) => e.readable && old'.kind == Http && conn == old'
    case CountingRead(_, _) => e.readable && old'.kind == Http && conn == old'
    case Modding(_) => e.readable && old'.kind == Http && conn == read
    case InReverse(_) => e.readable && old'.kind == Proxy && conn == old'
    case InWrite(_) => !e.readable && e.writable && old'.kind == Http && conn == old'
    case CountingWrite(_) => !e.readable && e.writable && old'.kind == Http && conn == old'
    case Closing(_) => Outcome(e, old', Shut(conn)) && Live(conn.phase)
    case _ => false
  }

  // ----- only HTTP connections are ever set to writing -----

  // Where the handler of HTTP connections is at work, it is on one of them.
  predicate InHttp(conns: seq<Conn>, pc: Pc) {
    match pc
    case InRead(c) => c < |conns| && conns[c].kind == Http
    case CountingRead(c, _) => c < |conns| && conns[c].kind == Http
    case Modding(c) => c < |conns| && conns[c].kind == Http
    case _ => true
  }

  ghost predicate HttpOnly(s: State) {
    && (forall c :: 0 <= c < |s.conns| && s.conns[c].phase == Writing ==> s.conns[c].kind == Http)
    && (forall w :: 0 <= w < |s.workers| ==> InHttp(s.conns, s.workers[w].pc))
  }

  lemma WritingIsHttp(s: State, step: Step, c: nat)
    requires HttpOnly(s) && Enabled(s, step) && Defined(s, step) && c < |After(s, step).conns|
    ensures After(s, step).conns[c].phase == Writing ==> After(s, step).conns[c].kind == Http
  {
    assert !step.Spawn? ==> InHttp(s.conns, s.workers[step.w].pc);
  }

  lemma WorkerInHttp(s: State, step: Step, w: nat)
    requires HttpOnly(s) && Enabled(s, step) && Defined(s, step) && w < |After(s, step).workers|
    ensures InHttp(After(s, step).conns, After(s, step).workers[w].pc)
  {
    assert w < |s.workers| ==> InHttp(s.conns, s.workers[w].pc);
  }

  lemma HttpOnlyStep(s: State, step: Step)
    requires HttpOnly(s) && Enabled(s, step) && Defined(s, step)
    ensures HttpOnly(After(s, step))
  {
    forall c: nat | c < |After(s, step).conns|
      ensures After(s, step).conns[c].phase == Writing ==> After(s, step).conns[c].kind == Http
    {
      WritingIsHttp(s, step, c);
    }
    forall w: nat | w < |After(s, step).workers|
      ensures InHttp(After(s, step).conns, After(s, step).workers[w].pc)
    {
      WorkerInHttp(s, step, w);
    }
  }

  lemma {:induction false} HttpOnlyRun(s: State, steps: seq<Step>, s': State)
    requires HttpOnly(s) && Leads(s, steps, s')
    ensures HttpOnly(s')
    decreases |steps|
  {
    if steps != [] {
      HttpOnlyStep(s, steps[0]);
      HttpOnlyRun(After(s, steps[0]), steps[1..], s');
    }
  }

  // ----- one event of the batch, at every step -----

  // How far an event has come: still to be handled, in hand, or done.
  predicate EventAt(s0: State, s: State, w: nat, e: Event, begun: bool)
    requires At(s, w)
  {
    var pc := s.workers[w].pc;
    e.OnConn? ==>
      && e.c < |s0.conns| && e.c < |s.conns| && s.conns[e.c].worker == w && Live(s0.conns[e.c].phase)
      && var (old', conn) := (s0.conns[e.c], s.conns[e.c]);
         if !begun then conn == old' && !Holds(pc, e.c)
         else if Holds(pc, e.c) then Stage(e, pc, old', conn)
         else Outcome(e, old', conn)
  }

  // The steps of other workers leave a worker and its connections alone.
  lemma OthersKeep(s: State, step: Step, w: nat, c: nat)
    requires Inv(s) && At(s, w) && c < |s.conns| && s.conns[c].worker == w && Enabled(s, step) && Defined(s, step)
    requires !step.Spawn? ==> step.w != w
    ensures After(s, step).workers[w] == s.workers[w]
    ensures c < |After(s, step).conns| && After(s, step).conns[c] == s.conns[c]
  {
    if !step.Spawn? {
      assert WorkerFine(s.listeners, s.conns, step.w, s.workers[step.w]);
    }
  }

  lemma EventElsewhere(s0: State, s: State, step: Step, w: nat, e: Event, begun: bool)
    requires Inv(s) && At(s, w) && Enabled(s, step) && Defined(s, step) && (!step.Spawn? ==> step.w != w)
    requires EventAt(s0, s, w, e, begun)
    ensures At(After(s, step), w) && EventAt(s0, After(s, step), w, e, begun)
  {
    if e.OnConn? {
      OthersKeep(s, step, w, e.c);
    }
  }

  // The worker turns to an event.
  lemma EventTurned(s0: State, s: State, w: nat, e: Event)
    requires TurnsTo(s, w, e) && HttpOnly(s) && EventAt(s0, s, w, e, false)
    requires e.OnConn? && e.writable ==> s.conns[e.c].phase == Writing
    ensures Defined(s, Dispatch(w)) && EventAt(s0, After(s, Dispatch(w)), w, e, true)
  {
    if e.OnConn? {
      ToConnection(s, w, e);
    } else {
      ToListener(s, w, e);
    }
  }

  // ... and not to another one.
  lemma EventWaits(s0: State, s: State, w: nat, e: Event, begun: bool)
    requires At(s, w) && Enabled(s, Dispatch(w)) && Defined(s, Dispatch(w)) && EventAt(s0, s, w, e, begun)
    requires !SameSource(s.workers[w].batch[0], e)
    ensures EventAt(s0, After(s, Dispatch(w)), w, e, begun)
  {
  }

  // The steps of a handler, and of handle_accept.
  predicate Handles(step: Step) {
    !step.Spawn? && !step.Die? && !step.Wait? && !step.Dispatch?
  }

  // Such a step leaves alone what the worker has not in hand.
  lemma ApartKept(s: State, step: Step, c: nat)
    requires Handles(step) && Enabled(s, step) && Defined(s, step)
    requires c < |s.conns| && !Holds(s.workers[step.w].pc, c)
    ensures At(After(s, step), step.w) && c < |After(s, step).conns| && After(s, step).conns[c] == s.conns[c]
    ensures !Holds(After(s, step).workers[step.w].pc, c)
  {
  }

  lemma StageStep(s: State, step: Step, e: Event, old': Conn)
    requires Handles(step) && Enabled(s, step) && Defined(s, step) && e.OnConn? && e.c < |s.conns|
    requires Holds(s.workers[step.w].pc, e.c) && Stage(e, s.workers[step.w].pc, old', s.conns[e.c])
    requires Live(old'.phase)
    ensures At(After(s, step), step.w) && e.c < |After(s, step).conns|
    ensures After(s, step).conns[e.c].worker == s.conns[e.c].worker
    ensures var pc := After(s, step).workers[step.w].pc;
            if Holds(pc, e.c) then Stage(e, pc, old', After(s, step).conns[e.c])
            else Outcome(e, old', After(s, step).conns[e.c])
  {
  }

  lemma EventHandled(s0: State, s: State, step: Step, e: Event, begun: bool)
    requires Handles(step) && Enabled(s, step) && Defined(s, step) && EventAt(s0, s, step.w, e, begun)
    ensures At(After(s, step), step.w) && EventAt(s0, After(s, step), step.w, e, begun)
  {
    if e.OnConn? {
      if Holds(s.workers[step.w].pc, e.c) {
        StageStep(s, step, e, s0.conns[e.c]);
      } else {
        ApartKept(s, step, e.c);
      }
    }
  }

  // ----- the whole batch -----

  // How many of the events the worker has turned to.
  function Begun(s: State, w: nat, events: seq<Event>): int
    requires At(s, w)
  {
    |events| - |s.workers[w].batch|
  }

  ghost predicate EventsAt(s0: State, s: State, w: nat, events: seq<Event>)
    requires At(s, w)
  {
    forall i :: 0 <= i < |events| ==> EventAt(s0, s, w, events[i], i < Begun(s, w, events))
  }

  // What is known of the run since the worker was told of the events in s0.
  ghost predicate Progress(s0: State, s: State, w: nat, events: seq<Event>) {
    && Inv(s) && HttpOnly(s) && At(s, w) && OncePerSource(events)
    && (forall i :: 0 <= i < |events| ==> Reported(s0, w, events[i]))
    && |s.workers[w].batch| <= |events| && s.workers[w].batch == events[Begun(s, w, events)..]
    && EventsAt(s0, s, w, events)
  }

  // The worker does not wait for events again, and does not die.
  predicate Stays(w: nat, step: Step) {
    !(step.Wait? && step.w == w) && !(step.Die? && step.w == w)
  }

  lemma DispatchEvent(s0: State, s: State, w: nat, events: seq<Event>, i: nat)
    requires Progress(s0, s, w, events) && Enabled(s, Dispatch(w)) && Defined(s, Dispatch(w)) && i < |events|
    ensures EventAt(s0, After(s, Dispatch(w)), w, events[i], i <= Begun(s, w, events))
  {
    var k := Begun(s, w, events);
    assert s.workers[w].batch[0] == events[k];
    assert EventAt(s0, s, w, events[i], i < k) && Reported(s0, w, events[i]);
    if i == k {
      EventTurned(s0, s, w, events[k]);
    } else {
      assert !SameSource(events[if i < k then i else k], events[if i < k then k else i]);
      EventWaits(s0, s, w, events[i], i < k);
    }
  }

  lemma EventStep(s0: State, s: State, step: Step, w: nat, events: seq<Event>, i: nat)
    requires Progress(s0, s, w, events) && Enabled(s, step) && Defined(s, step) && Stays(w, step) && i < |events|
    ensures At(After(s, step), w)
    ensures EventAt(s0, After(s, step), w, events[i],
                    i < Begun(s, w, events) + if step == Dispatch(w) then 1 else 0)
  {
    assert EventAt(s0, s, w, events[i], i < Begun(s, w, events));
    if step.Spawn? || step.w != w {
      EventElsewhere(s0, s, step, w, events[i], i < Begun(s, w, events));
    } else if step.Dispatch? {
      DispatchEvent(s0, s, w, events, i);
    } else {
      EventHandled(s0, s, step, events[i], i < Begun(s, w, events));
    }
  }

  lemma BatchStep(s: State, step: Step, w: nat)
    requires Enabled(s, step) && Defined(s, step) && Stays(w, step) && At(s, w)
    ensures At(After(s, step), w)
    ensures After(s, step).workers[w].batch ==
            if step == Dispatch(w) then s.workers[w].batch[1..] else s.workers[w].batch
  {
  }

  lemma ProgressStep(s0: State, s: State, step: Step, w: nat, events: seq<Event>)
    requires Progress(s0, s, w, events) && Enabled(s, step) && Stays(w, step)
    ensures Defined(s, step) && Progress(s0, After(s, step), w, events)
  {
    StepInv(s, step);
    HttpOnlyStep(s, step);
    BatchStep(s, step, w);
    forall i | 0 <= i < |events|
      ensures EventAt(s0, After(s, step), w, events[i], i < Begun(After(s, step), w, events))
    {
      EventStep(s0, s, step, w, events, i);
    }
  }

  lemma {:induction false} DeadForGood(s: State, steps: seq<Step>, s': State, w: nat)
    requires At(s, w) && s.workers[w].pc == Dead && Leads(s, steps, s')
    ensures At(s', w) && s'.workers[w].pc == Dead
    decreases |steps|
  {
    if steps != [] {
      DeadForGood(After(s, steps[0]), steps[1..], s', w);
    }
  }

  predicate NoWait(w: nat, steps: seq<Step>) {
    forall i :: 0 <= i < |steps| && steps[i].Wait? ==> steps[i].w != w
  }

  lemma {:induction false} ProgressRun(s0: State, s: State, steps: seq<Step>, s': State, w: nat, events: seq<Event>)
    requires Progress(s0, s, w, events) && NoWait(w, steps) && Leads(s, steps, s') && Idle(s', w)
    ensures Progress(s0, s', w, events)
    decreases |steps|
  {
    if steps != [] {
      if steps[0] == Die(w) {
        DeadForGood(After(s, steps[0]), steps[1..], s', w);
      } else {
        ProgressStep(s0, s, steps[0], w, events);
        ProgressRun(s0, After(s, steps[0]), steps[1..], s', w, events);
      }
    }
  }

  lemma ProgressStart(s0: State, w: nat, events: seq<Event>)
    requires Inv(s0) && HttpOnly(s0) && Enabled(s0, Wait(w, events))
    ensures Progress(s0, After(s0, Wait(w, events)), w, events)
  {
    StepInv(s0, Wait(w, events));
    HttpOnlyStep(s0, Wait(w, events));
    var s := After(s0, Wait(w, events));
    forall i | 0 <= i < |events|
      ensures EventAt(s0, s, w, events[i], i < Begun(s, w, events))
    {
      assert Reported(s0, w, events[i]);
    }
  }

  // A run of the server in which the worker w, told of these events in s0, is back where it waits.
  ghost predicate RunOfBatch(listeners: seq<Kind>, before: seq<Step>, s0: State, w: nat, events: seq<Event>,
                             steps: seq<Step>, s: State)
  {
    && Leads(Start(listeners), before, s0) && Enabled(s0, Wait(w, events))
    && Leads(After(s0, Wait(w, events)), steps, s) && NoWait(w, steps) && Idle(s, w)
  }

  lemma BatchStarts(listeners: seq<Kind>, before: seq<Step>, s0: State, w: nat, events: seq<Event>)
    requires Leads(Start(listeners), before, s0) && Enabled(s0, Wait(w, events))
    ensures Progress(s0, After(s0, Wait(w, events)), w, events)
  {
    StartInv(listeners);
    RunInv(Start(listeners), before, s0);
    HttpOnlyRun(Start(listeners), before, s0);
    ProgressStart(s0, w, events);
  }

  // The event has had one of its outcomes on its connection.
  predicate Dealt(s0: State, s: State, e: Event) {
    e.OnConn? ==> e.c < |s0.conns| && e.c < |s.conns| && Outcome(e, s0.conns[e.c], s.conns[e.c])
  }

  // In every run, whatever the other workers do: when a worker that was told of some events is back where it
  // waits, each of them has had one of its outcomes. An HTTP connection that was writable has been closed, a
  // connection that was hung up has been closed, and none was passed over.
  lemma BatchIsHandled(listeners: seq<Kind>, before: seq<Step>, s0: State, w: nat, events: seq<Event>,
                       steps: seq<Step>, s: State)
    requires RunOfBatch(listeners, before, s0, w, events, steps, s)
    ensures forall i :: 0 <= i < |events| ==> Dealt(s0, s, events[i])
  {
    BatchStarts(listeners, before, s0, w, events);
    ProgressRun(s0, After(s0, Wait(w, events)), steps, s, w, events);
    forall i | 0 <= i < |events|
      ensures Dealt(s0, s, events[i])
    {
      assert EventAt(s0, s, w, events[i], true);
    }
  }

  // ----- connections without an event -----

  predicate Unreported(events: seq<Event>, c: nat) {
    forall i :: 0 <= i < |events| && events[i].OnConn? ==> events[i].c != c
  }

  predicate AtRest(s: State, w: nat, c: nat, conn: Conn) {
    At(s, w) && c < |s.conns| && s.conns[c] == conn && !Holds(s.workers[w].pc, c)
  }

  lemma TurnedElsewhere(s0: State, s: State, w: nat, events: seq<Event>, c: nat, conn: Conn)
    requires Progress(s0, s, w, events) && Enabled(s, Dispatch(w)) && Unreported(events, c) && AtRest(s, w, c, conn)
    ensures Defined(s, Dispatch(w)) && AtRest(After(s, Dispatch(w)), w, c, conn)
  {
    StepInv(s, Dispatch(w));
    assert s.workers[w].batch[0] == events[Begun(s, w, events)];
  }

  lemma AtRestStep(s0: State, s: State, step: Step, w: nat, events: seq<Event>, c: nat, conn: Conn)
    requires Progress(s0, s, w, events) && Enabled(s, step) && Stays(w, step)
    requires Unreported(events, c) && AtRest(s, w, c, conn) && conn.worker == w
    ensures Defined(s, step) && AtRest(After(s, step), w, c, conn)
  {
    StepInv(s, step);
    if step.Spawn? || step.w != w {
      OthersKeep(s, step, w, c);
    } else if step.Dispatch? {
      TurnedElsewhere(s0, s, w, events, c, conn);
    } else {
      ApartKept(s, step, c);
    }
  }

  lemma {:induction false} AtRestRun(s0: State, s: State, steps: seq<Step>, s': State, w: nat, events: seq<Event>,
                                      c: nat, conn: Conn)
    requires Progress(s0, s, w, events) && NoWait(w, steps) && Leads(s, steps, s') && Idle(s', w)
    requires Unreported(events, c) && AtRest(s, w, c, conn) && conn.worker == w
    ensures AtRest(s', w, c, conn)
    decreases |steps|
  {
    if steps != [] {
      if steps[0] == Die(w) {
        DeadForGood(After(s, steps[0]), steps[1..], s', w);
      } else {
        AtRestStep(s0, s, steps[0], w, events, c, conn);
        ProgressStep(s0, s, steps[0], w, events);
        AtRestRun(s0, After(s, steps[0]), steps[1..], s', w, events, c, conn);
      }
    }
  }

  // In the same runs a connection of the worker that no event was about is as it was.
  lemma OthersUntouched(listeners: seq<Kind>, before: seq<Step>, s0: State, w: nat, events: seq<Event>,
                        steps: seq<Step>, s: State, c: nat)
    requires RunOfBatch(listeners, before, s0, w, events, steps, s)
    requires c < |s0.conns| && s0.conns[c].worker == w && Unreported(events, c)
    ensures c < |s.conns| && s.conns[c] == s0.conns[c]
  {
    BatchStarts(listeners, before, s0, w, events);
    AtRestRun(s0, After(s0, Wait(w, events)), steps, s, w, events, c, s0.conns[c]);
  }
}
