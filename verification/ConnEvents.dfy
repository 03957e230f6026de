// Where each event leads: what a worker does with the next event of its batch, in some run and in all runs.
module ConnEvents {
  import opened ConnProtocol
  import opened ConnCounters
  import opened ConnHandlers

  // ----- the first step -----

  // The worker w turns to its next event.
  ghost predicate TurnsTo(s: State, w: nat, e: Event) {
    Inv(s) && Enabled(s, Dispatch(w)) && s.workers[w].batch[0] == e
  }

  // The state in which w stands elsewhere and has one event less to handle, and nothing else has changed.
  function Turned(s: State, w: nat, pc: Pc): State
    requires At(s, w) && s.workers[w].batch != []
  {
    s.(workers := s.workers[w := s.workers[w].(pc := pc, batch := s.workers[w].batch[1..])])
  }

  lemma ToConnection(s: State, w: nat, e: Event)
    requires TurnsTo(s, w, e) && e.OnConn?
    ensures Defined(s, Dispatch(w)) && e.c < |s.conns| && s.conns[e.c].worker == w && Live(s.conns[e.c].phase)
    ensures var t := After(s, Dispatch(w));
            var kind := s.conns[e.c].kind;
            && (e.readable && kind == Http ==> t == Turned(s, w, InRead(e.c)))
            && (e.readable && kind == Proxy ==> t == Turned(s, w, InReverse(e.c)))
            && (!e.readable && e.writable && kind == Http ==> t == Turned(s, w, InWrite(e.c)))
            && (!e.readable && !e.writable && e.hungUp ==> t == Turned(s, w, Closing(e.c)))
            && (!e.readable && !e.writable && !e.hungUp ==> t == Turned(s, w, Looping))
    ensures Leads(s, [Dispatch(w)], After(s, Dispatch(w)))
  {
    EventDefined(s, w);
    OneStep(s, Dispatch(w), After(s, Dispatch(w)));
  }

  lemma ToListener(s: State, w: nat, e: Event)
    requires TurnsTo(s, w, e) && e.OnListener?
    ensures Defined(s, Dispatch(w)) && e.k < |s.listeners|
    ensures After(s, Dispatch(w)) == Turned(s, w, Accepting(e.k))
    ensures Leads(s, [Dispatch(w)], After(s, Dispatch(w)))
  {
    EventDefined(s, w);
    OneStep(s, Dispatch(w), After(s, Dispatch(w)));
  }

  // ----- what the handlers make of it -----

  // The worker is back in its loop with one event less, the connection c has become conn, the counters are sd,
  // the descriptor of a closed connection is free again, and nothing else has changed.
  function Handled(s: State, w: nat, c: nat, conn: Conn, sd: Counters): State
    requires At(s, w) && s.workers[w].batch != [] && c < |s.conns|
  {
    var worker := s.workers[w];
    var open := if conn.phase == Closed then worker.open - {conn.fd} else worker.open;
    s.(workers := s.workers[w := Worker(Looping, worker.batch[1..], open)], conns := s.conns[c := conn], sd := sd)
  }

  // What a handler does to the state at its start it does to the state before the event.
  lemma HandledFrom(s: State, w: nat, pc: Pc, c: nat, s': State, conn: Conn, effect: (Phase, Counters))
    requires At(s, w) && s.workers[w].batch != [] && HasHandled(Turned(s, w, pc), w, c, s', conn, effect)
    ensures s' == Handled(s, w, c, conn, effect.1)
  {
    var worker := s'.workers[w];
    assert s.workers[w := s.workers[w].(pc := pc, batch := s.workers[w].batch[1..])][w := worker] ==
           s.workers[w := worker];
  }

  // EPOLLIN on an HTTP connection: it is read, counted, and set to writing, closed, or left as it was, as the end
  // of the read loop says.
  lemma ReadableIsRead(s: State, w: nat, e: Event, seen: ReadEnd, modOk: bool) returns (steps: seq<Step>, s': State)
    requires TurnsTo(s, w, e) && e.OnConn? && e.readable && s.conns[e.c].kind == Http
    ensures Leads(s, steps, s')
    ensures s' == Handled(s, w, e.c, ConnAfterRead(seen, modOk, s.conns[e.c]),
                          AfterRead(seen, modOk, s.conns[e.c].phase, s.sd).1)
  {
    ToConnection(s, w, e);
    var t := Turned(s, w, InRead(e.c));
    s' := ReadIsARun(t, w, e.c, seen, modOk);
    HandledFrom(s, w, InRead(e.c), e.c, s', ConnAfterRead(seen, modOk, s.conns[e.c]),
                AfterRead(seen, modOk, s.conns[e.c].phase, s.sd));
    LeadsOn(s, [Dispatch(w)], t, ReadSteps(w, seen, modOk), s');
    steps := [Dispatch(w)] + ReadSteps(w, seen, modOk);
  }

  // EPOLLOUT on an HTTP connection: the response is written, counted unless the write fails hard, and the
  // connection is closed.
  lemma WritableIsServed(s: State, w: nat, e: Event, counted: bool) returns (steps: seq<Step>, s': State)
    requires TurnsTo(s, w, e) && e.OnConn? && e.writable && !e.readable && s.conns[e.c].kind == Http
    ensures Leads(s, steps, s')
    ensures var n := if counted then 1 else 0;
            var conn := s.conns[e.c];
            s' == Handled(s, w, e.c,
                          conn.(phase := Closed, writeTimes := conn.writeTimes + n, closeTimes := conn.closeTimes + 1),
                          s.sd.(written := s.sd.written + n, closed := s.sd.closed + 1))
  {
    ToConnection(s, w, e);
    var t := Turned(s, w, InWrite(e.c));
    s' := WriteIsARun(t, w, e.c, counted);
    HandledFrom(s, w, InWrite(e.c), e.c, s', ConnAfterWrite(counted, s.conns[e.c]), AfterWrite(counted, s.sd));
    LeadsOn(s, [Dispatch(w)], t, WriteSteps(w, counted), s');
    steps := [Dispatch(w)] + WriteSteps(w, counted);
  }

  // EPOLLIN on a proxy connection: it is closed, or left as it was.
  lemma ReadableIsProxied(s: State, w: nat, e: Event, closes: bool) returns (steps: seq<Step>, s': State)
    requires TurnsTo(s, w, e) && e.OnConn? && e.readable && s.conns[e.c].kind == Proxy
    ensures Leads(s, steps, s') && After(s, Dispatch(w)).workers[w].pc == InReverse(e.c)
    ensures var conn := s.conns[e.c];
            s' == if closes then
                    Handled(s, w, e.c, conn.(phase := Closed, closeTimes := conn.closeTimes + 1),
                            s.sd.(closed := s.sd.closed + 1))
                  else Handled(s, w, e.c, conn, s.sd)
  {
    ToConnection(s, w, e);
    var t := Turned(s, w, InReverse(e.c));
    var conn := s.conns[e.c];
    s' := ReverseIsARun(t, w, e.c, closes);
    HandledFrom(s, w, InReverse(e.c), e.c, s', if closes then Shut(conn) else conn,
                AfterReverse(closes, conn.phase, s.sd));
    LeadsOn(s, [Dispatch(w)], t, ReverseSteps(w, closes), s');
    steps := [Dispatch(w)] + ReverseSteps(w, closes);
  }

  // EPOLLHUP or EPOLLERR alone: the connection is closed, and close_num alone is raised.
  lemma HungUpIsClosed(s: State, w: nat, e: Event) returns (steps: seq<Step>, s': State)
    requires TurnsTo(s, w, e) && e.OnConn? && e.hungUp && !e.readable && !e.writable
    ensures Leads(s, steps, s')
    ensures var conn := s.conns[e.c];
            s' == Handled(s, w, e.c, conn.(phase := Closed, closeTimes := conn.closeTimes + 1),
                          s.sd.(closed := s.sd.closed + 1))
  {
    ToConnection(s, w, e);
    var t := Turned(s, w, Closing(e.c));
    s' := CloseIsARun(t, w, e.c);
    HandledFrom(s, w, Closing(e.c), e.c, s', Shut(s.conns[e.c]), (Closed, s.sd.(closed := s.sd.closed + 1)));
    LeadsOn(s, [Dispatch(w)], t, [Close(w)], s');
    steps := [Dispatch(w)] + [Close(w)];
  }

  // ----- a listener -----

  // A connection that was accepted from the listener k.
  function Added(s: State, w: nat, k: nat, fd: nat): Conn
    requires k < |s.listeners|
  {
    Conn(w, s.listeners[k], fd, Reading, 0, 0, 0, 0)
  }

  // The state after the first n of the descriptors have been accepted.
  function AddedAll(s: State, w: nat, k: nat, fds: seq<nat>, n: nat): State
    requires At(s, w) && k < |s.listeners| && n <= |fds|
  {
    s.(workers := s.workers[w := s.workers[w].(pc := Accepting(k), open := Opened(s.workers[w].open, fds, n))],
       conns := s.conns + seq(n, i requires 0 <= i < n => Added(s, w, k, fds[i])),
       sd := s.sd.(accepted := s.sd.accepted + n))
  }

  // One round of the loop in event_accept_http.
  lemma OneIsAccepted(s: State, w: nat, k: nat, fd: nat) returns (steps: seq<Step>, s': State)
    requires At(s, w) && s.workers[w].pc == Accepting(k) && k < |s.listeners| && LowestFree(s.workers[w].open, fd)
    ensures Leads(s, steps, s')
    ensures s' == s.(workers := s.workers[w := s.workers[w].(open := s.workers[w].open + {fd})],
                     conns := s.conns + [Added(s, w, k, fd)],
                     sd := s.sd.(accepted := s.sd.accepted + 1))
  {
    var t := After(s, Accept(w, fd));
    var u := After(t, Count(w));
    s' := After(u, Add(w, true));
    steps := [Accept(w, fd), Count(w), Add(w, true)];
    ThreeSteps(s, Accept(w, fd), t, Count(w), u, Add(w, true), s');
    assert u.conns[|s.conns| := Added(s, w, k, fd)] == s.conns + [Added(s, w, k, fd)];
  }

  // A round in which EPOLL_CTL_ADD fails: the connection stays counted as accepted, its descriptor is free again,
  // and the loop goes on.
  lemma OneIsRefused(s: State, w: nat, k: nat, fd: nat) returns (steps: seq<Step>, s': State)
    requires At(s, w) && s.workers[w].pc == Accepting(k) && k < |s.listeners| && LowestFree(s.workers[w].open, fd)
    ensures Leads(s, steps, s')
    ensures s' == s.(conns := s.conns + [Added(s, w, k, fd).(phase := Refused)],
                     sd := s.sd.(accepted := s.sd.accepted + 1))
  {
    var t := After(s, Accept(w, fd));
    var u := After(t, Count(w));
    s' := After(u, Add(w, false));
    steps := [Accept(w, fd), Count(w), Add(w, false)];
    ThreeSteps(s, Accept(w, fd), t, Count(w), u, Add(w, false), s');
    assert s.workers[w].open + {fd} - {fd} == s.workers[w].open;
    assert s'.workers == s.workers;
    assert s'.conns == s.conns + [Added(s, w, k, fd).(phase := Refused)];
  }

  // A round in which set_non_blocking fails: the loop ends, nothing is counted, and the descriptor stays open
  // although there is no connection to close it.
  lemma OneIsLeaked(s: State, w: nat, k: nat, fd: nat) returns (steps: seq<Step>, s': State)
    requires At(s, w) && s.workers[w].pc == Accepting(k) && k < |s.listeners| && LowestFree(s.workers[w].open, fd)
    ensures Leads(s, steps, s')
    ensures s' == s.(workers := s.workers[w := s.workers[w].(pc := Looping, open := s.workers[w].open + {fd})])
  {
    var t := After(s, Accept(w, fd));
    s' := After(t, NonBlockingFails(w));
    steps := [Accept(w, fd), NonBlockingFails(w)];
    TwoSteps(s, Accept(w, fd), t, NonBlockingFails(w), s');
  }

  lemma AddedOneMore(s: State, w: nat, k: nat, fds: seq<nat>, n: nat)
    requires At(s, w) && k < |s.listeners| && n < |fds|
    ensures var t := AddedAll(s, w, k, fds, n);
            AddedAll(s, w, k, fds, n + 1) ==
            t.(workers := t.workers[w := t.workers[w].(open := t.workers[w].open + {fds[n]})],
               conns := t.conns + [Added(t, w, k, fds[n])],
               sd := t.sd.(accepted := t.sd.accepted + 1))
  {
    var t, open := AddedAll(s, w, k, fds, n), s.workers[w].open;
    assert Opened(open, fds, n + 1) == Opened(open, fds, n) + {fds[n]};
    assert AddedAll(s, w, k, fds, n + 1).conns == t.conns + [Added(t, w, k, fds[n])];
  }

  lemma AddedNone(s: State, w: nat, k: nat, fds: seq<nat>)
    requires At(s, w) && s.workers[w].pc == Accepting(k) && k < |s.listeners|
    ensures AddedAll(s, w, k, fds, 0) == s
  {
    assert Opened(s.workers[w].open, fds, 0) == s.workers[w].open;
    assert s.workers[w := s.workers[w]] == s.workers && s.conns + [] == s.conns;
  }

  lemma NextRound(s: State, w: nat, k: nat, fds: seq<nat>, n: nat) returns (steps: seq<Step>)
    requires At(s, w) && k < |s.listeners| && OpenedInTurn(s.workers[w].open, fds) && n < |fds|
    ensures Leads(AddedAll(s, w, k, fds, n), steps, AddedAll(s, w, k, fds, n + 1))
  {
    var t := AddedAll(s, w, k, fds, n);
    AddedOneMore(s, w, k, fds, n);
    var u;
    steps, u := OneIsAccepted(t, w, k, fds[n]);
  }

  lemma {:induction false} RoundsAccept(s: State, w: nat, k: nat, fds: seq<nat>, n: nat) returns (steps: seq<Step>)
    requires At(s, w) && s.workers[w].pc == Accepting(k) && k < |s.listeners|
    requires OpenedInTurn(s.workers[w].open, fds) && n <= |fds|
    ensures Leads(s, steps, AddedAll(s, w, k, fds, n))
  {
    if n == 0 {
      steps := [];
      AddedNone(s, w, k, fds);
    } else {
      steps := RoundsAccept(s, w, k, fds, n - 1);
      var more := NextRound(s, w, k, fds, n - 1);
      LeadsOn(s, steps, AddedAll(s, w, k, fds, n - 1), more, AddedAll(s, w, k, fds, n));
      steps := steps + more;
    }
  }

  // The event of a listener: as many connections as there are to accept are counted, and registered for reading
  // with the kind of that listener.
  lemma ListenerAccepts(s: State, w: nat, e: Event, fds: seq<nat>) returns (steps: seq<Step>, s': State)
    requires TurnsTo(s, w, e) && e.OnListener? && OpenedInTurn(s.workers[w].open, fds)
    ensures e.k < |s.listeners| && Leads(s, steps, s')
    ensures s' == s.(workers := s.workers[w := Worker(Looping, s.workers[w].batch[1..],
                                                      Opened(s.workers[w].open, fds, |fds|))],
                     conns := s.conns + seq(|fds|, i requires 0 <= i < |fds| => Added(s, w, e.k, fds[i])),
                     sd := s.sd.(accepted := s.sd.accepted + |fds|))
  {
    ToListener(s, w, e);
    var t := Turned(s, w, Accepting(e.k));
    var more := RoundsAccept(t, w, e.k, fds, |fds|);
    var u := AddedAll(t, w, e.k, fds, |fds|);
    LeadsOn(s, [Dispatch(w)], t, more, u);
    LeadsStep(s, [Dispatch(w)] + more, u, AcceptNone(w));
    steps := [Dispatch(w)] + more + [AcceptNone(w)];
    s' := After(u, AcceptNone(w));
  }

  // ----- a connection from accept to close -----

  predicate Idle(s: State, w: nat) {
    At(s, w) && s.workers[w].pc == Looping && s.workers[w].batch == []
  }

  lemma {:induction false} FreeFrom(open: set<nat>, n: nat, rest: set<nat>) returns (fd: nat)
    requires (forall x: nat :: x < n ==> x in open) && rest == set x | x in open && x >= n
    ensures LowestFree(open, fd)
    decreases |rest|
  {
    if n in open {
      fd := FreeFrom(open, n + 1, rest - {n});
    } else {
      fd := n;
    }
  }

  // The worker waits, and is told of one event.
  lemma Told(s: State, w: nat, e: Event) returns (t: State)
    requires Inv(s) && Idle(s, w) && Reported(s, w, e)
    ensures Leads(s, [Wait(w, [e])], t) && TurnsTo(t, w, e)
    ensures t == s.(workers := s.workers[w := s.workers[w].(batch := [e])])
  {
    StepInv(s, Wait(w, [e]));
    t := After(s, Wait(w, [e]));
    OneStep(s, Wait(w, [e]), t);
  }

  lemma HandledAlone(s: State, w: nat, e: Event, c: nat, conn: Conn, sd: Counters, t: State)
    requires Idle(s, w) && c < |s.conns| && t == s.(workers := s.workers[w := s.workers[w].(batch := [e])])
    ensures var open := if conn.phase == Closed then s.workers[w].open - {conn.fd} else s.workers[w].open;
            Handled(t, w, c, conn, sd) ==
            s.(workers := s.workers[w := s.workers[w].(open := open)], conns := s.conns[c := conn], sd := sd)
  {
    assert [e][1..] == [];
  }

  lemma ToldThen(s: State, wait: Step, t: State, more: seq<Step>, s': State)
    requires Inv(s) && Leads(s, [wait], t) && Leads(t, more, s')
    ensures Leads(s, [wait] + more, s') && Inv(s')
  {
    LeadsOn(s, [wait], t, more, s');
    RunInv(s, [wait] + more, s');
  }

  lemma AcceptedAlone(s: State, w: nat, k: nat) returns (steps: seq<Step>, s': State, fd: nat)
    requires Inv(s) && Idle(s, w) && k < |s.listeners|
    ensures Leads(s, steps, s') && Inv(s') && LowestFree(s.workers[w].open, fd)
    ensures s' == s.(workers := s.workers[w := s.workers[w].(open := s.workers[w].open + {fd})],
                     conns := s.conns + [Added(s, w, k, fd)],
                     sd := s.sd.(accepted := s.sd.accepted + 1))
  {
    var open := s.workers[w].open;
    fd := FreeFrom(open, 0, open);
    var t := Told(s, w, OnListener(k));
    assert Opened(open, [fd], 0) == open && [fd][0] in Opened(open, [fd], 1) && Opened(open, [fd], 1) == open + {fd};
    var more;
    more, s' := ListenerAccepts(t, w, OnListener(k), [fd]);
    ToldThen(s, Wait(w, [OnListener(k)]), t, more, s');
    steps := [Wait(w, [OnListener(k)])] + more;
    assert [OnListener(k)][1..] == [];
    assert seq(1, i requires 0 <= i < 1 => Added(t, w, k, [fd][i])) == [Added(s, w, k, fd)];
  }

  lemma ReadIs(s: State, w: nat, e: Event, c: nat, t: State)
    requires Idle(s, w) && c < |s.conns| && t == s.(workers := s.workers[w := s.workers[w].(batch := [e])])
    ensures var conn := s.conns[c];
            Handled(t, w, c, ConnAfterRead(Drained, true, conn), s.sd.(read := s.sd.read + 1)) ==
            s.(conns := s.conns[c := conn.(phase := Writing, readTimes := conn.readTimes + 1)],
               sd := s.sd.(read := s.sd.read + 1))
  {
    HandledAlone(s, w, e, c, ConnAfterRead(Drained, true, s.conns[c]), s.sd.(read := s.sd.read + 1), t);
    assert s.workers[w := s.workers[w]] == s.workers;
  }

  lemma ReadAlone(s: State, w: nat, c: nat) returns (steps: seq<Step>, s': State)
    requires Inv(s) && Idle(s, w) && c < |s.conns| && s.conns[c].worker == w && s.conns[c].kind == Http
    requires s.conns[c].phase == Reading
    ensures Leads(s, steps, s') && Inv(s')
    ensures s' == s.(conns := s.conns[c := s.conns[c].(phase := Writing, readTimes := s.conns[c].readTimes + 1)],
                     sd := s.sd.(read := s.sd.read + 1))
  {
    var e := OnConn(c, true, false, false);
    var t := Told(s, w, e);
    var more;
    more, s' := ReadableIsRead(t, w, e, Drained, true);
    ToldThen(s, Wait(w, [e]), t, more, s');
    steps := [Wait(w, [e])] + more;
    ReadIs(s, w, e, c, t);
  }

  lemma WriteAlone(s: State, w: nat, c: nat) returns (steps: seq<Step>, s': State)
    requires Inv(s) && Idle(s, w) && c < |s.conns| && s.conns[c].worker == w && s.conns[c].kind == Http
    requires s.conns[c].phase == Writing
    ensures Leads(s, steps, s')
    ensures var conn := s.conns[c];
            s' == s.(workers := s.workers[w := s.workers[w].(open := s.workers[w].open - {conn.fd})],
                     conns := s.conns[c := conn.(phase := Closed, writeTimes := conn.writeTimes + 1,
                                                 closeTimes := conn.closeTimes + 1)],
                     sd := s.sd.(written := s.sd.written + 1, closed := s.sd.closed + 1))
  {
    var e := OnConn(c, false, true, false);
    var t := Told(s, w, e);
    var more;
    more, s' := WritableIsServed(t, w, e, true);
    HandledAlone(s, w, e, c, s'.conns[c], s'.sd, t);
    ToldThen(s, Wait(w, [e]), t, more, s');
    steps := [Wait(w, [e])] + more;
  }

  lemma AcceptedAndRead(s: State, w: nat, k: nat) returns (steps: seq<Step>, s': State, fd: nat)
    requires Inv(s) && Idle(s, w) && k < |s.listeners| && s.listeners[k] == Http
    ensures Leads(s, steps, s') && Inv(s') && fd !in s.workers[w].open
    ensures s' == s.(workers := s.workers[w := s.workers[w].(open := s.workers[w].open + {fd})],
                     conns := s.conns + [Conn(w, Http, fd, Writing, 1, 0, 0, 0)],
                     sd := s.sd.(accepted := s.sd.accepted + 1, read := s.sd.read + 1))
  {
    var t, more;
    steps, t, fd := AcceptedAlone(s, w, k);
    more, s' := ReadAlone(t, w, |s.conns|);
    LeadsOn(s, steps, t, more, s');
    steps := steps + more;
  }

  lemma ClosedAgain(s: State, t: State, s': State, w: nat, fd: nat)
    requires At(s, w) && fd !in s.workers[w].open
    requires t == s.(workers := s.workers[w := s.workers[w].(open := s.workers[w].open + {fd})],
                     conns := s.conns + [Conn(w, Http, fd, Writing, 1, 0, 0, 0)],
                     sd := s.sd.(accepted := s.sd.accepted + 1, read := s.sd.read + 1))
    requires s' == t.(workers := t.workers[w := t.workers[w].(open := t.workers[w].open - {fd})],
                      conns := t.conns[|s.conns| := Conn(w, Http, fd, Closed, 1, 0, 1, 1)],
                      sd := t.sd.(written := t.sd.written + 1, closed := t.sd.closed + 1))
    ensures s' == s.(conns := s.conns + [Conn(w, Http, fd, Closed, 1, 0, 1, 1)],
                     sd := Counters(s.sd.accepted + 1, s.sd.read + 1, s.sd.written + 1, s.sd.closed + 1))
  {
    assert s.workers[w].open + {fd} - {fd} == s.workers[w].open;
    assert s'.workers == s.workers;
    assert s'.conns == s.conns + [Conn(w, Http, fd, Closed, 1, 0, 1, 1)];
  }

  lemma ServedAgain(s: State, w: nat, k: nat) returns (steps: seq<Step>, s': State, fd: nat)
    requires Inv(s) && Idle(s, w) && k < |s.listeners| && s.listeners[k] == Http
    ensures Leads(s, steps, s')
    ensures s' == s.(conns := s.conns + [Conn(w, Http, fd, Closed, 1, 0, 1, 1)],
                     sd := Counters(s.sd.accepted + 1, s.sd.read + 1, s.sd.written + 1, s.sd.closed + 1))
  {
    var t, more;
    steps, t, fd := AcceptedAndRead(s, w, k);
    more, s' := WriteAlone(t, w, |s.conns|);
    LeadsOn(s, steps, t, more, s');
    steps := steps + more;
    ClosedAgain(s, t, s', w, fd);
  }

  // In every reachable state a worker that is back at epoll_wait can serve one more connection, from accept to
  // close: every counter is raised once, and the worker is as before, with no descriptor more or less.
  lemma OneMoreServed(listeners: seq<Kind>, before: seq<Step>, s: State, w: nat, k: nat)
    returns (steps: seq<Step>, s': State, fd: nat)
    requires Leads(Start(listeners), before, s) && Idle(s, w) && k < |s.listeners| && s.listeners[k] == Http
    ensures Leads(s, steps, s')
    ensures s' == s.(conns := s.conns + [Conn(w, Http, fd, Closed, 1, 0, 1, 1)],
                     sd := Counters(s.sd.accepted + 1, s.sd.read + 1, s.sd.written + 1, s.sd.closed + 1))
  {
    StartInv(listeners);
    RunInv(Start(listeners), before, s);
    steps, s', fd := ServedAgain(s, w, k);
  }

  // So a server of one worker comes to any number of served connections.
  lemma {:induction false} AnyNumberServed(n: nat) returns (steps: seq<Step>, s: State)
    ensures Leads(Start([Http]), steps, s) && Idle(s, 0) && s.listeners == [Http] && s.sd == Counters(n, n, n, n)
  {
    if n == 0 {
      FirstTwo();
      var spawn := Spawn({}, [0, 1]);
      s := After(Start([Http]), spawn);
      OneStep(Start([Http]), spawn, s);
      steps := [spawn];
    } else {
      var before, t := AnyNumberServed(n - 1);
      var more, fd;
      more, s, fd := OneMoreServed([Http], before, t, 0, 0);
      LeadsOn(Start([Http]), before, t, more, s);
      steps := before + more;
    }
  }
}
