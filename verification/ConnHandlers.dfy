// The handlers of moudles/server/dm_events.c with their read and write loops, against what a kernel can
// answer, and the steps of the protocol that one call of a handler takes.
module ConnHandlers {
  import opened ConnProtocol

  // ----- the kernel -----

  // The bytes that arrive before a read finds the socket empty, and what that read says then.
  class Socket {
    const end: ReadEnd
    var pending: string

    constructor (pending: string, end: ReadEnd)
      ensures this.pending == pending && this.end == end
    {
      this.pending, this.end := pending, end;
    }

    // Hands out what there is in any portions. A read that has no room for a byte returns 0.
    method Read(room: nat) returns (n: int, bytes: string)
      modifies this
      ensures n == -1 ==> old(pending) == "" && end != EndOfFile && room > 0
      ensures n == 0 ==> room == 0 || (old(pending) == "" && end == EndOfFile)
      ensures n <= 0 ==> pending == old(pending) && bytes == ""
      ensures -1 <= n <= room && (n >= 0 ==> |bytes| == n) && (n > 0 ==> old(pending) == bytes + pending)
    {
      bytes := "";
      if room == 0 {
        return 0, "";
      }
      if pending == "" {
        return if end == EndOfFile then 0 else -1, "";
      }
      var k: nat :| 0 < k <= room && k <= |pending|;
      n, bytes, pending := k, pending[..k], pending[k..];
    }
  }

  datatype WriteAnswer = Wrote(k: nat) | WouldBlock | BrokenPipe | WriteError

  // The peer, with the answers that it has for the next writes, and what has been sent.
  class Peer {
    var answers: seq<WriteAnswer>
    var sent: string
    var calls: nat

    constructor (answers: seq<WriteAnswer>)
      ensures this.answers == answers && sent == "" && calls == 0
    {
      this.answers, sent, calls := answers, "", 0;
    }

    // The number of bytes taken, or -1, and whether errno is EAGAIN.
    method Write(bytes: string) returns (n: int, again: bool)
      modifies this
      ensures calls == old(calls) + 1
      ensures n == Taken(old(answers), |bytes|) && (n < 0 ==> (again <==> !Hard(old(answers))))
      ensures sent == old(sent) + bytes[..if n < 0 then 0 else n]
      ensures answers == if old(answers) == [] then [] else old(answers)[1..]
    {
      n := Taken(answers, |bytes|);
      again := !Hard(answers);
      sent := sent + bytes[..if n < 0 then 0 else n];
      answers := if answers == [] then [] else answers[1..];
      calls := calls + 1;
    }
  }

  // What the next write of so many bytes returns; a peer without an answer takes nothing.
  function Taken(answers: seq<WriteAnswer>, size: nat): (n: int)
    ensures -1 <= n <= size
  {
    if answers == [] || !answers[0].Wrote? then -1 else if answers[0].k > size then size else answers[0].k
  }

  // Whether the next write fails otherwise than with EAGAIN.
  predicate Hard(answers: seq<WriteAnswer>) {
    answers != [] && (answers[0] == BrokenPipe || answers[0] == WriteError)
  }

  // ----- requests and shared counters -----

  class SharedData {
    var acceptNum: nat
    var readNum: nat
    var writeNum: nat
    var closeNum: nat

    ghost function Value(): Counters
      reads this
    {
      Counters(acceptNum, readNum, writeNum, closeNum)
    }
  }

  class Request {
    const kind: Kind
    const sd: SharedData
    var phase: Phase

    constructor (kind: Kind, sd: SharedData)
      ensures this.kind == kind && this.sd == sd && phase == Reading
    {
      this.kind, this.sd, phase := kind, sd, Reading;
    }
  }

  // ----- what a handler does -----

  // How a loop with a buffer of this size ends: when the buffer is full, the next read has no room and its 0
  // is taken for the end of the connection.
  function Seen(size: nat, pending: string, end: ReadEnd): ReadEnd {
    if |pending| >= size then EndOfFile else end
  }

  function AfterRead(seen: ReadEnd, modOk: bool, phase: Phase, sd: Counters): (Phase, Counters) {
    match seen
    case Drained => (if modOk then Writing else phase, sd.(read := sd.read + 1))
    case Reset => (Closed, sd.(read := sd.read + 1, closed := sd.closed + 1))
    case EndOfFile => (Closed, sd.(closed := sd.closed + 1))
    case ReadError => (phase, sd)
  }

  function AfterWrite(counted: bool, sd: Counters): (Phase, Counters) {
    (Closed, sd.(written := sd.written + (if counted then 1 else 0), closed := sd.closed + 1))
  }

  function AfterReverse(closes: bool, phase: Phase, sd: Counters): (Phase, Counters) {
    if closes then (Closed, sd.(closed := sd.closed + 1)) else (phase, sd)
  }

  method HandleClose(req: Request)
    modifies req`phase, req.sd`closeNum
    ensures req.phase == Closed && req.sd.closeNum == old(req.sd.closeNum) + 1
  {
    req.sd.closeNum := req.sd.closeNum + 1;
    req.phase := Closed;
  }

  // The loop that reads until the socket is empty.
  method ReadAll(socket: Socket, readBuf: array<char>) returns (seen: ReadEnd, totalRead: nat)
    modifies socket, readBuf
    ensures seen == Seen(readBuf.Length, old(socket.pending), socket.end)
    ensures totalRead <= readBuf.Length && totalRead <= |old(socket.pending)|
    ensures totalRead == |old(socket.pending)| || totalRead == readBuf.Length
    ensures readBuf[..totalRead] == old(socket.pending)[..totalRead]
    ensures readBuf[totalRead..] == old(readBuf[..])[totalRead..]
  {
    totalRead := 0;
    ghost var all := socket.pending;
    while true
      invariant totalRead <= readBuf.Length && all == readBuf[..totalRead] + socket.pending
      invariant readBuf[totalRead..] == old(readBuf[..])[totalRead..]
      decreases |socket.pending|
    {
      var bytesRead, bytes := socket.Read(readBuf.Length - totalRead);
      if bytesRead == -1 {
        return socket.end, totalRead;
      } else if bytesRead == 0 {
        return EndOfFile, totalRead;
      }
      Append(readBuf, totalRead, bytes);
      totalRead := totalRead + bytesRead;
    }
  }

  method Append(buf: array<char>, at: nat, bytes: string)
    requires at + |bytes| <= buf.Length
    modifies buf
    ensures buf[..at + |bytes|] == old(buf[..at]) + bytes && buf[at + |bytes|..] == old(buf[at + |bytes|..])
  {
    forall i | 0 <= i < |bytes| {
      buf[at + i] := bytes[i];
    }
  }

  // The event_http_read function; `dump` says whether the counters are printed. The buffer always ends in a
  // zero byte when it is compared.
  method EventHttpRead(req: Request, socket: Socket, modOk: bool) returns (dump: bool)
    modifies req`phase, req.sd, socket
    ensures (req.phase, req.sd.Value()) ==
            AfterRead(Seen(1024, old(socket.pending), socket.end), modOk, old(req.phase), old(req.sd.Value()))
    ensures dump <==>
              && Seen(1024, old(socket.pending), socket.end) == Drained && old(socket.pending) != ""
              && old(socket.pending)[0] == '\n' && (|old(socket.pending)| == 1 || old(socket.pending)[1] == '\0')
  {
    var readBuf := new char[1024](_ => '\0');
    var seen, totalRead := ReadAll(socket, readBuf);
    dump := false;
    match seen {
      case Reset =>
        req.sd.readNum := req.sd.readNum + 1;
        HandleClose(req);
      case EndOfFile =>
        HandleClose(req);
      case ReadError =>
      case Drained =>
        req.sd.readNum := req.sd.readNum + 1;
        assert readBuf[totalRead..][0] == '\0';
        dump := readBuf[0] == '\n' && readBuf[1] == '\0';
        assert forall i :: 0 <= i < totalRead ==> readBuf[i] == readBuf[..totalRead][i];
        if modOk {
          req.phase := Writing;
        }
    }
  }

  // The loop that writes until all is sent. It never goes round twice: a short write ends it.
  method WriteAll(peer: Peer, data: string) returns (failed: bool)
    modifies peer
    ensures failed <==> data != "" && Hard(old(peer.answers))
    ensures peer.calls == old(peer.calls) + if data == "" then 0 else 1
    ensures peer.sent == old(peer.sent) + data[..SentOf(old(peer.answers), data)]
  {
    var n := |data|;
    while n > 0
      invariant n == |data| || n == 0
      invariant n == |data| > 0 ==>
                  peer.calls == old(peer.calls) && peer.sent == old(peer.sent) && peer.answers == old(peer.answers)
      invariant n == 0 ==> peer.sent == old(peer.sent) + data[..SentOf(old(peer.answers), data)]
      invariant n == 0 ==> peer.calls == old(peer.calls) + if data == "" then 0 else 1
      invariant n == 0 ==> data == "" || !Hard(old(peer.answers))
    {
      var nwrite, again := peer.Write(data[|data| - n..]);
      if nwrite < n {
        return nwrite == -1 && !again;
      }
      n := n - nwrite;
    }
    failed := false;
  }

  // How many bytes of the data reach the peer.
  function SentOf(answers: seq<WriteAnswer>, data: string): (n: nat)
    ensures n <= |data|
  {
    if Taken(answers, |data|) < 0 then 0 else Taken(answers, |data|)
  }

  // The HTTP case of handle_write: the response is counted although it may have been cut short, and the
  // connection is closed in any case.
  method HandleHttpWrite(req: Request, peer: Peer, sendBuf: string)
    requires sendBuf != ""
    modifies req`phase, req.sd, peer
    ensures (req.phase, req.sd.Value()) == AfterWrite(!Hard(old(peer.answers)), old(req.sd.Value()))
    ensures peer.sent == old(peer.sent) + sendBuf[..SentOf(old(peer.answers), sendBuf)]
  {
    var failed := WriteAll(peer, sendBuf);
    if !failed {
      req.sd.writeNum := req.sd.writeNum + 1;
    }
    HandleClose(req);
  }

  // The backend of a proxy: whether it can be reached, how many bytes one send takes, and what has come of its
  // answer when recv asks for it, nothing if recv fails.
  class Backend {
    const up: bool
    const takes: nat
    const answer: string
    var received: string

    constructor (up: bool, takes: nat, answer: string)
      ensures this.up == up && this.takes == takes && this.answer == answer && received == ""
    {
      this.up, this.takes, this.answer, received := up, takes, answer, "";
    }

    method Send(bytes: string) returns (n: nat)
      modifies this
      ensures n == Least(takes, |bytes|) && received == old(received) + bytes[..n]
    {
      n := Least(takes, |bytes|);
      received := received + bytes[..n];
    }

    method Recv(room: nat) returns (bytes: string)
      ensures bytes == answer[..Least(room, |answer|)]
    {
      bytes := answer[..Least(room, |answer|)];
    }
  }

  function Least(a: nat, b: nat): nat {
    if a < b then a else b
  }

  // What the handler has of the answer to pass on.
  function Relayed(answer: string): string {
    answer[..Least(4096, |answer|)]
  }

  // The request is there and the backend can be reached.
  predicate Reaches(pending: string, end: ReadEnd, up: bool) {
    Seen(4096, pending, end) == Drained && up
  }

  // When the proxy handler closes the connection of the client.
  predicate ReverseCloses(pending: string, end: ReadEnd, up: bool, answer: string, answers: seq<WriteAnswer>) {
    || Seen(4096, pending, end) == EndOfFile
    || (Reaches(pending, end, up) && (answer == "" || !Hard(answers)))
  }

  // The request to the backend, and its answer to the client.
  method PassOn(backend: Backend, peer: Peer, buffer: array<char>, totalRead: nat) returns (failed: bool)
    requires buffer.Length == 4096 && totalRead <= buffer.Length
    modifies backend, peer, buffer
    ensures backend.received == old(backend.received) + old(buffer[..totalRead])[..Least(backend.takes, totalRead)]
    ensures var relayed := Relayed(backend.answer);
            && failed == (relayed != "" && Hard(old(peer.answers)))
            && peer.sent == old(peer.sent) + relayed[..SentOf(old(peer.answers), relayed)]
  {
    var sendLen := backend.Send(buffer[..totalRead]);
    forall i | 0 <= i < buffer.Length {
      buffer[i] := '\0';
    }
    var bytes := backend.Recv(buffer.Length);
    Append(buffer, 0, bytes);
    assert buffer[..|bytes|] == bytes;
    failed := WriteAll(peer, buffer[..|bytes|]);
  }

  // The event_http_reverse function. The backend gets what one send takes of the request, the client what one
  // write takes of what one recv brings; and whatever goes wrong but an end of the connection leaves it open.
  method EventHttpReverse(req: Request, socket: Socket, backend: Backend, peer: Peer)
    modifies req`phase, req.sd, socket, backend, peer
    ensures (req.phase, req.sd.Value()) ==
            AfterReverse(ReverseCloses(old(socket.pending), socket.end, backend.up, backend.answer, old(peer.answers)),
                         old(req.phase), old(req.sd.Value()))
    ensures var pending := old(socket.pending);
            var relayed := Relayed(backend.answer);
            if Reaches(pending, socket.end, backend.up) then
              && backend.received == old(backend.received) + pending[..Least(backend.takes, |pending|)]
              && peer.sent == old(peer.sent) + relayed[..SentOf(old(peer.answers), relayed)]
            else
              backend.received == old(backend.received) && peer.sent == old(peer.sent)
  {
    var buffer := new char[4096](_ => '\0');
    var seen, totalRead := ReadAll(socket, buffer);
    match seen {
      case EndOfFile =>
        HandleClose(req);
      case Reset =>
      case ReadError =>
      case Drained =>
        if !backend.up {
          return;
        }
        var failed := PassOn(backend, peer, buffer, totalRead);
        if failed {
          return;
        }
        HandleClose(req);
    }
  }

  // ----- one call of a handler is a run of its worker -----

  predicate InHandler(s: State, w: nat, c: nat) {
    w < |s.workers| && c < |s.conns| && Holds(s.workers[w].pc, c)
  }

  function Shut(conn: Conn): Conn {
    conn.(phase := Closed, closeTimes := conn.closeTimes + 1)
  }

  // The worker is back in its loop, the handler has had its effect, on c and the counters alone, and the
  // descriptor of a closed connection is free again.
  predicate HasHandled(s: State, w: nat, c: nat, s': State, conn: Conn, effect: (Phase, Counters)) {
    && w < |s.workers| && c < |s.conns| && effect == (conn.phase, s'.sd)
    && var worker := s.workers[w];
       var open := if conn.phase == Closed then worker.open - {conn.fd} else worker.open;
       s' == s.(workers := s.workers[w := Worker(Looping, worker.batch, open)], conns := s.conns[c := conn],
                sd := s'.sd)
  }

  function ReadSteps(w: nat, seen: ReadEnd, modOk: bool): seq<Step> {
    match seen
    case Drained => [EndRead(w, Drained), CountRead(w), Mod(w, modOk)]
    case Reset => [EndRead(w, Reset), CountRead(w), Close(w)]
    case EndOfFile => [EndRead(w, EndOfFile), Close(w)]
    case ReadError => [EndRead(w, ReadError)]
  }

  lemma OneStep(s: State, a: Step, s': State)
    requires Enabled(s, a) && Defined(s, a) && s' == After(s, a)
    ensures Leads(s, [a], s')
  {
    assert Leads(s', [], s');
  }

  lemma TwoSteps(s: State, a: Step, t: State, b: Step, s': State)
    requires Enabled(s, a) && Defined(s, a) && t == After(s, a)
    requires Enabled(t, b) && Defined(t, b) && s' == After(t, b)
    ensures Leads(s, [a, b], s')
  {
    OneStep(t, b, s');
    assert [a, b][1..] == [b];
  }

  lemma ThreeSteps(s: State, a: Step, t: State, b: Step, u: State, c: Step, s': State)
    requires Enabled(s, a) && Defined(s, a) && t == After(s, a)
    requires Enabled(t, b) && Defined(t, b) && u == After(t, b)
    requires Enabled(u, c) && Defined(u, c) && s' == After(u, c)
    ensures Leads(s, [a, b, c], s')
  {
    TwoSteps(t, b, u, c, s');
    assert [a, b, c][1..] == [b, c];
  }

  function ConnAfterRead(seen: ReadEnd, modOk: bool, conn: Conn): Conn {
    match seen
    case Drained =>
      if modOk then conn.(readTimes := conn.readTimes + 1, phase := Writing)
      else conn.(readTimes := conn.readTimes + 1, modFails := conn.modFails + 1)
    case Reset => Shut(conn.(readTimes := conn.readTimes + 1))
    case EndOfFile => Shut(conn)
    case ReadError => conn
  }

  // The handler was called for an open connection.
  predicate ReadsOpen(s: State, w: nat, c: nat) {
    InHandler(s, w, c) && s.workers[w].pc == InRead(c) && Live(s.conns[c].phase)
  }

  lemma DrainedIsARun(s: State, w: nat, c: nat, modOk: bool) returns (s': State)
    requires ReadsOpen(s, w, c)
    ensures Leads(s, ReadSteps(w, Drained, modOk), s')
    ensures HasHandled(s, w, c, s', ConnAfterRead(Drained, modOk, s.conns[c]),
                       AfterRead(Drained, modOk, s.conns[c].phase, s.sd))
  {
    var t := After(s, EndRead(w, Drained));
    var u := After(t, CountRead(w));
    s' := After(u, Mod(w, modOk));
    ThreeSteps(s, EndRead(w, Drained), t, CountRead(w), u, Mod(w, modOk), s');
  }

  lemma ResetIsARun(s: State, w: nat, c: nat, modOk: bool) returns (s': State)
    requires ReadsOpen(s, w, c)
    ensures Leads(s, ReadSteps(w, Reset, modOk), s')
    ensures HasHandled(s, w, c, s', ConnAfterRead(Reset, modOk, s.conns[c]),
                       AfterRead(Reset, modOk, s.conns[c].phase, s.sd))
  {
    var t := After(s, EndRead(w, Reset));
    var u := After(t, CountRead(w));
    s' := After(u, Close(w));
    ThreeSteps(s, EndRead(w, Reset), t, CountRead(w), u, Close(w), s');
  }

  lemma EndedIsARun(s: State, w: nat, c: nat, modOk: bool) returns (s': State)
    requires ReadsOpen(s, w, c)
    ensures Leads(s, ReadSteps(w, EndOfFile, modOk), s')
    ensures HasHandled(s, w, c, s', ConnAfterRead(EndOfFile, modOk, s.conns[c]),
                       AfterRead(EndOfFile, modOk, s.conns[c].phase, s.sd))
  {
    var t := After(s, EndRead(w, EndOfFile));
    s' := After(t, Close(w));
    TwoSteps(s, EndRead(w, EndOfFile), t, Close(w), s');
  }

  lemma FailedIsARun(s: State, w: nat, c: nat, modOk: bool) returns (s': State)
    requires ReadsOpen(s, w, c)
    ensures Leads(s, ReadSteps(w, ReadError, modOk), s')
    ensures HasHandled(s, w, c, s', ConnAfterRead(ReadError, modOk, s.conns[c]),
                       AfterRead(ReadError, modOk, s.conns[c].phase, s.sd))
  {
    s' := After(s, EndRead(w, ReadError));
    OneStep(s, EndRead(w, ReadError), s');
    assert s.conns[c := s.conns[c]] == s.conns;
  }

  lemma ReadIsARun(s: State, w: nat, c: nat, seen: ReadEnd, modOk: bool) returns (s': State)
    requires ReadsOpen(s, w, c)
    ensures Leads(s, ReadSteps(w, seen, modOk), s')
    ensures HasHandled(s, w, c, s', ConnAfterRead(seen, modOk, s.conns[c]),
                       AfterRead(seen, modOk, s.conns[c].phase, s.sd))
  {
    match seen {
      case Drained => s' := DrainedIsARun(s, w, c, modOk);
      case Reset => s' := ResetIsARun(s, w, c, modOk);
      case EndOfFile => s' := EndedIsARun(s, w, c, modOk);
      case ReadError => s' := FailedIsARun(s, w, c, modOk);
    }
  }

  function WriteSteps(w: nat, counted: bool): seq<Step> {
    if counted then [EndWrite(w, true), CountWrite(w), Close(w)] else [EndWrite(w, false), Close(w)]
  }

  function ConnAfterWrite(counted: bool, conn: Conn): Conn {
    Shut(conn.(writeTimes := conn.writeTimes + (if counted then 1 else 0)))
  }

  lemma CountedWriteIsARun(s: State, w: nat, c: nat) returns (s': State)
    requires InHandler(s, w, c) && s.workers[w].pc == InWrite(c)
    ensures Leads(s, WriteSteps(w, true), s')
    ensures HasHandled(s, w, c, s', ConnAfterWrite(true, s.conns[c]), AfterWrite(true, s.sd))
  {
    var t := After(s, EndWrite(w, true));
    var u := After(t, CountWrite(w));
    s' := After(u, Close(w));
    ThreeSteps(s, EndWrite(w, true), t, CountWrite(w), u, Close(w), s');
  }

  lemma UncountedWriteIsARun(s: State, w: nat, c: nat) returns (s': State)
    requires InHandler(s, w, c) && s.workers[w].pc == InWrite(c)
    ensures Leads(s, WriteSteps(w, false), s')
    ensures HasHandled(s, w, c, s', ConnAfterWrite(false, s.conns[c]), AfterWrite(false, s.sd))
  {
    var t := After(s, EndWrite(w, false));
    s' := After(t, Close(w));
    TwoSteps(s, EndWrite(w, false), t, Close(w), s');
  }

  lemma WriteIsARun(s: State, w: nat, c: nat, counted: bool) returns (s': State)
    requires InHandler(s, w, c) && s.workers[w].pc == InWrite(c)
    ensures Leads(s, WriteSteps(w, counted), s')
    ensures HasHandled(s, w, c, s', ConnAfterWrite(counted, s.conns[c]), AfterWrite(counted, s.sd))
  {
    if counted {
      s' := CountedWriteIsARun(s, w, c);
    } else {
      s' := UncountedWriteIsARun(s, w, c);
    }
  }

  function ReverseSteps(w: nat, closes: bool): seq<Step> {
    if closes then [EndReverse(w, true), Close(w)] else [EndReverse(w, false)]
  }

  lemma ReverseIsARun(s: State, w: nat, c: nat, closes: bool) returns (s': State)
    requires InHandler(s, w, c) && s.workers[w].pc == InReverse(c) && Live(s.conns[c].phase)
    ensures Leads(s, ReverseSteps(w, closes), s')
    ensures HasHandled(s, w, c, s', if closes then Shut(s.conns[c]) else s.conns[c],
                       AfterReverse(closes, s.conns[c].phase, s.sd))
  {
    var t := After(s, EndReverse(w, closes));
    if closes {
      s' := After(t, Close(w));
      TwoSteps(s, EndReverse(w, true), t, Close(w), s');
    } else {
      s' := t;
      OneStep(s, EndReverse(w, false), s');
      assert s.conns[c := s.conns[c]] == s.conns;
    }
  }

  // handle_close, called for a hang-up.
  lemma CloseIsARun(s: State, w: nat, c: nat) returns (s': State)
    requires InHandler(s, w, c) && s.workers[w].pc == Closing(c)
    ensures Leads(s, [Close(w)], s')
    ensures HasHandled(s, w, c, s', Shut(s.conns[c]), (Closed, s.sd.(closed := s.sd.closed + 1)))
  {
    s' := After(s, Close(w));
    OneStep(s, Close(w), s');
  }
}
