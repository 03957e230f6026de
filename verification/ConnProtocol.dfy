// The life of the connections of moudles/server/dm_events.c and the event loop of
// moudles/server/dm_server.c, run by any number of worker processes that come and go. The workers share
// nothing but four atomic counters; each has its own descriptors and its own epoll instance.
module ConnProtocol {
  datatype Kind = Http | Proxy

  // Counted: accept_num is incremented, registration comes next. Reading, Writing: registered for EPOLLIN,
  // for EPOLLOUT. Refused: registration failed. Closed: handle_close has freed the request.
  datatype Phase = Counted | Reading | Writing | Refused | Closed

  // A connection, with what it has added to the counters and how often EPOLL_CTL_MOD failed for it.
  datatype Conn = Conn(worker: nat, kind: Kind, fd: nat, phase: Phase,
                       readTimes: nat, modFails: nat, writeTimes: nat, closeTimes: nat)

  // What epoll_wait reports: for the listener k, or for a connection with the bits EPOLLIN, EPOLLOUT, and
  // EPOLLHUP or EPOLLERR.
  datatype Event = OnListener(k: nat) | OnConn(c: nat, readable: bool, writable: bool, hungUp: bool)

  // Where a worker stands. Looping: in the for loop of server_make. Accepting: at accept. Fresh: accepted, not
  // counted. Adding: counted. CountingRead, CountingWrite: read_num or write_num comes next. Modding:
  // EPOLL_CTL_MOD comes next. Closing: in handle_close.
  datatype Pc =
    | Looping
    | Accepting(k: nat)
    | Fresh(k: nat, fd: nat)
    | Adding(k: nat, c: nat)
    | InRead(c: nat)
    | CountingRead(c: nat, reset: bool)
    | Modding(c: nat)
    | InWrite(c: nat)
    | CountingWrite(c: nat)
    | InReverse(c: nat)
    | Closing(c: nat)
    | Dead

  datatype Worker = Worker(pc: Pc, batch: seq<Event>, open: set<nat>)

  datatype Counters = Counters(accepted: nat, read: nat, written: nat, closed: nat)

  datatype State = State(listeners: seq<Kind>, workers: seq<Worker>, conns: seq<Conn>, sd: Counters)

  // How the read loop ends: EAGAIN, ECONNRESET, a read of 0 bytes, or another error.
  datatype ReadEnd = Drained | Reset | EndOfFile | ReadError

  datatype Step =
    | Spawn(inherited: set<nat>, fds: seq<nat>)
    | Die(w: nat)
    | Wait(w: nat, events: seq<Event>)
    | Dispatch(w: nat)
    | Accept(w: nat, fd: nat)
    | AcceptNone(w: nat)
    | NonBlockingFails(w: nat)
    | Count(w: nat)
    | Add(w: nat, ok: bool)
    | EndRead(w: nat, end: ReadEnd)
    | CountRead(w: nat)
    | Mod(w: nat, ok: bool)
    | EndWrite(w: nat, ok: bool)
    | CountWrite(w: nat)
    | EndReverse(w: nat, close: bool)
    | Close(w: nat)

  // The kernel hands out the lowest descriptor that is free.
  ghost predicate LowestFree(open: set<nat>, fd: nat) {
    fd !in open && forall x: nat :: x < fd ==> x in open
  }

  // The descriptors open after the first n of fds have been handed out.
  function Opened(inherited: set<nat>, fds: seq<nat>, n: nat): set<nat>
    requires n <= |fds|
  {
    inherited + set j | 0 <= j < n :: fds[j]
  }

  ghost predicate OpenedInTurn(inherited: set<nat>, fds: seq<nat>) {
    forall i :: 0 <= i < |fds| ==> LowestFree(Opened(inherited, fds, i), fds[i])
  }

  function Start(listeners: seq<Kind>): State {
    State(listeners, [], [], Counters(0, 0, 0, 0))
  }

  predicate Live(phase: Phase) {
    phase == Reading || phase == Writing
  }

  // A connection is reported for what it is registered for, and for hang-ups and errors.
  predicate Reported(s: State, w: nat, e: Event) {
    match e
    case OnListener(k) => k < |s.listeners|
    case OnConn(c, readable, writable, _) =>
      && c < |s.conns| && s.conns[c].worker == w && Live(s.conns[c].phase)
      && (readable ==> s.conns[c].phase == Reading) && (writable ==> s.conns[c].phase == Writing)
  }

  predicate SameSource(e: Event, e': Event) {
    if e.OnListener? then e'.OnListener? && e'.k == e.k else e'.OnConn? && e'.c == e.c
  }

  predicate OncePerSource(batch: seq<Event>) {
    forall i, j :: 0 <= i < j < |batch| ==> !SameSource(batch[i], batch[j])
  }

  predicate At(s: State, w: nat) {
    w < |s.workers|
  }

  // The connection that a worker has in hand.
  predicate Holds(pc: Pc, c: nat) {
    match pc
    case Adding(_, d) => d == c
    case InRead(d) => d == c
    case CountingRead(d, _) => d == c
    case Modding(d) => d == c
    case InWrite(d) => d == c
    case CountingWrite(d) => d == c
    case InReverse(d) => d == c
    case Closing(d) => d == c
    case _ => false
  }

  // Whether the worker is where the step starts.
  ghost predicate Enabled(s: State, step: Step) {
    match step
    case Spawn(inherited, fds) => |fds| == |s.listeners| + 1 && OpenedInTurn(inherited, fds)
    case Die(w) => At(s, w)
    case Wait(w, events) =>
      && At(s, w) && s.workers[w].pc == Looping && s.workers[w].batch == []
      && OncePerSource(events) && forall i :: 0 <= i < |events| ==> Reported(s, w, events[i])
    case Dispatch(w) => At(s, w) && s.workers[w].pc == Looping && s.workers[w].batch != []
    case Accept(w, fd) => At(s, w) && s.workers[w].pc.Accepting? && LowestFree(s.workers[w].open, fd)
    case AcceptNone(w) => At(s, w) && s.workers[w].pc.Accepting?
    case NonBlockingFails(w) => At(s, w) && s.workers[w].pc.Fresh?
    case Count(w) => At(s, w) && s.workers[w].pc.Fresh?
    case Add(w, _) => At(s, w) && s.workers[w].pc.Adding?
    case EndRead(w, _) => At(s, w) && s.workers[w].pc.InRead?
    case CountRead(w) => At(s, w) && s.workers[w].pc.CountingRead?
    case Mod(w, _) => At(s, w) && s.workers[w].pc.Modding?
    case EndWrite(w, _) => At(s, w) && s.workers[w].pc.InWrite?
    case CountWrite(w) => At(s, w) && s.workers[w].pc.CountingWrite?
    case EndReverse(w, _) => At(s, w) && s.workers[w].pc.InReverse?
    case Close(w) => At(s, w) && s.workers[w].pc.Closing?
  }

  // What a step reads and frees exists: a listener that is in the table, a connection that was accepted.
  ghost predicate Defined(s: State, step: Step) {
    match step
    case Dispatch(w) => At(s, w) && s.workers[w].batch != [] && DispatchDefined(s, s.workers[w].batch[0])
    case Count(w) => At(s, w) && s.workers[w].pc.Fresh? && s.workers[w].pc.k < |s.listeners|
    case Add(w, _) => At(s, w) && s.workers[w].pc.Adding? && s.workers[w].pc.c < |s.conns|
    case CountRead(w) => At(s, w) && s.workers[w].pc.CountingRead? && s.workers[w].pc.c < |s.conns|
    case Mod(w, _) => At(s, w) && s.workers[w].pc.Modding? && s.workers[w].pc.c < |s.conns|
    case CountWrite(w) => At(s, w) && s.workers[w].pc.CountingWrite? && s.workers[w].pc.c < |s.conns|
    case Close(w) => At(s, w) && s.workers[w].pc.Closing? && s.workers[w].pc.c < |s.conns|
    case _ => true
  }

  // The tag that the loop tests: the index of a listener, or the descriptor of a connection.
  function Tag(s: State, e: Event): nat
    requires e.OnConn? ==> e.c < |s.conns|
  {
    if e.OnListener? then e.k else s.conns[e.c].fd
  }

  predicate DispatchDefined(s: State, e: Event) {
    && (e.OnConn? ==> e.c < |s.conns|)
    && (Tag(s, e) <= |s.listeners| ==> Tag(s, e) < |s.listeners|)
    && (e.OnListener? ==> Tag(s, e) <= |s.listeners|)
  }

  // Where the loop goes with an event: the branches on tempfd <= lis_num and on the bits.
  function Branch(s: State, e: Event): Pc
    requires DispatchDefined(s, e)
  {
    if Tag(s, e) <= |s.listeners| then Accepting(Tag(s, e))
    else if e.readable then
      match s.conns[e.c].kind
      case Http => InRead(e.c)
      case Proxy => InReverse(e.c)
    else if e.writable then
      match s.conns[e.c].kind
      case Http => InWrite(e.c)
      case Proxy => Looping
    else if e.hungUp then Closing(e.c)
    else Looping
  }

  function Goes(s: State, w: nat, pc: Pc): State
    requires At(s, w)
  {
    s.(workers := s.workers[w := s.workers[w].(pc := pc)])
  }

  function Becomes(s: State, c: nat, conn: Conn): State
    requires c < |s.conns|
  {
    s.(conns := s.conns[c := conn])
  }

  function Drops(s: State, w: nat, fd: nat): State
    requires At(s, w)
  {
    s.(workers := s.workers[w := s.workers[w].(open := s.workers[w].open - {fd})])
  }

  function After(s: State, step: Step): State
    requires Enabled(s, step) && Defined(s, step)
  {
    match step
    case Spawn(inherited, fds) =>
      s.(workers := s.workers + [Worker(Looping, [], Opened(inherited, fds, |fds|))])
    case Die(w) => s.(workers := s.workers[w := s.workers[w].(pc := Dead, batch := [])])
    case Wait(w, events) => s.(workers := s.workers[w := s.workers[w].(batch := events)])
    case Dispatch(w) =>
      var e := s.workers[w].batch[0];
      s.(workers := s.workers[w := s.workers[w].(pc := Branch(s, e), batch := s.workers[w].batch[1..])])
    case Accept(w, fd) =>
      s.(workers := s.workers[w := s.workers[w].(pc := Fresh(s.workers[w].pc.k, fd), open := s.workers[w].open + {fd})])
    case AcceptNone(w) => Goes(s, w, Looping)
    case NonBlockingFails(w) => Goes(s, w, Looping)
    case Count(w) =>
      var pc := s.workers[w].pc;
      Goes(s, w, Adding(pc.k, |s.conns|))
        .(conns := s.conns + [Conn(w, s.listeners[pc.k], pc.fd, Counted, 0, 0, 0, 0)],
          sd := s.sd.(accepted := s.sd.accepted + 1))
    case Add(w, ok) =>
      var pc := s.workers[w].pc;
      var conn := s.conns[pc.c];
      if ok then Goes(Becomes(s, pc.c, conn.(phase := Reading)), w, Accepting(pc.k))
      else Goes(Drops(Becomes(s, pc.c, conn.(phase := Refused)), w, conn.fd), w, Accepting(pc.k))
    case EndRead(w, end) =>
      var c := s.workers[w].pc.c;
      (match end
       case Drained => Goes(s, w, CountingRead(c, false))
       case Reset => Goes(s, w, CountingRead(c, true))
       case EndOfFile => Goes(s, w, Closing(c))
       case ReadError => Goes(s, w, Looping))
    case CountRead(w) =>
      var pc := s.workers[w].pc;
      var conn := s.conns[pc.c];
      var next := if pc.reset then Closing(pc.c) else Modding(pc.c);
      Goes(Becomes(s, pc.c, conn.(readTimes := conn.readTimes + 1)), w, next)
        .(sd := s.sd.(read := s.sd.read + 1))
    case Mod(w, ok) =>
      var c := s.workers[w].pc.c;
      var conn := s.conns[c];
      Goes(Becomes(s, c, if ok then conn.(phase := Writing) else conn.(modFails := conn.modFails + 1)), w, Looping)
    case EndWrite(w, ok) => Goes(s, w, if ok then CountingWrite(s.workers[w].pc.c) else Closing(s.workers[w].pc.c))
    case CountWrite(w) =>
      var c := s.workers[w].pc.c;
      var conn := s.conns[c];
      Goes(Becomes(s, c, conn.(writeTimes := conn.writeTimes + 1)), w, Closing(c))
        .(sd := s.sd.(written := s.sd.written + 1))
    case EndReverse(w, close) => Goes(s, w, if close then Closing(s.workers[w].pc.c) else Looping)
    case Close(w) =>
      var c := s.workers[w].pc.c;
      var conn := s.conns[c];
      Goes(Drops(Becomes(s, c, conn.(phase := Closed, closeTimes := conn.closeTimes + 1)), w, conn.fd), w, Looping)
        .(sd := s.sd.(closed := s.sd.closed + 1))
  }

  // s' is reached from s by the steps, each enabled in its turn.
  ghost predicate Leads(s: State, steps: seq<Step>, s': State)
    decreases |steps|
  {
    if steps == [] then s == s'
    else Enabled(s, steps[0]) && Defined(s, steps[0]) && Leads(After(s, steps[0]), steps[1..], s')
  }
}
