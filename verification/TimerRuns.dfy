// The list of moudles/server/dm_timer.c over whole runs of addTimer, deleteTimer and executeTimers, with one
// constant timeout and a clock that does not run backwards.
module TimerRuns {
  import opened TimerNode
  import opened TimerOrder
  import opened TimerList

  // Delete takes out the timer of addition number `id`, which may have fired or been taken out before.
  datatype Op = Add(now: int, callback: nat) | Delete(now: int, id: nat) | Tick(now: int)

  // A timer that waits, named by the number of its addition.
  datatype Waiter = Waiter(id: nat, deadline: int)

  // The clock does not go back, and only timers that were added are deleted.
  predicate Orderly(ops: seq<Op>, from: int, added: nat) {
    ops == [] ||
    (&& from <= ops[0].now && (ops[0].Delete? ==> ops[0].id < added)
     && Orderly(ops[1..], ops[0].now, if ops[0].Add? then added + 1 else added))
  }

  // ----- what a run should do, in terms of who waits -----

  function DueOf(q: seq<Waiter>, now: int): seq<Waiter> {
    if q == [] then [] else (if q[0].deadline <= now then [q[0]] else []) + DueOf(q[1..], now)
  }

  function NotDue(q: seq<Waiter>, now: int): seq<Waiter> {
    if q == [] then [] else (if q[0].deadline <= now then [] else [q[0]]) + NotDue(q[1..], now)
  }

  function Without(q: seq<Waiter>, id: nat): seq<Waiter> {
    if q == [] then [] else (if q[0].id == id then [] else [q[0]]) + Without(q[1..], id)
  }

  // An addition goes behind all that wait, a deletion takes out one and leaves the others in place, and a tick
  // takes out everything that is due.
  function Waiting(q: seq<Waiter>, op: Op, added: nat, timeout: int): seq<Waiter> {
    match op
    case Add(now, _) => q + [Waiter(added, now + timeout)]
    case Delete(_, id) => Without(q, id)
    case Tick(now) => NotDue(q, now)
  }

  function Firing(q: seq<Waiter>, op: Op): seq<Waiter> {
    match op
    case Tick(now) => DueOf(q, now)
    case _ => []
  }

  function Added(op: Op): nat {
    if op.Add? then 1 else 0
  }

  // Who fires over the run, in order, and who waits when it is over.
  function Fires(ops: seq<Op>, q: seq<Waiter>, added: nat, timeout: int): seq<Waiter> {
    if ops == [] then []
    else Firing(q, ops[0]) + Fires(ops[1..], Waiting(q, ops[0], added, timeout), added + Added(ops[0]), timeout)
  }

  function Remaining(ops: seq<Op>, q: seq<Waiter>, added: nat, timeout: int): seq<Waiter> {
    if ops == [] then q
    else Remaining(ops[1..], Waiting(q, ops[0], added, timeout), added + Added(ops[0]), timeout)
  }

  // ----- the list against it -----

  // The entries, in order, are the timers and deadlines of those who wait.
  ghost predicate Match(c: seq<Entry>, created: seq<Timer>, q: seq<Waiter>) {
    |c| == |q| && forall i :: 0 <= i < |q| ==> q[i].id < |created| && c[i] == Entry(created[q[i].id], q[i].deadline)
  }

  ghost predicate Different(q: seq<Timer>) {
    forall i, j :: 0 <= i < j < |q| ==> q[i] != q[j]
  }

  ghost predicate Bounded(c: seq<Entry>, bound: int) {
    forall e :: e in c ==> e.expire <= bound
  }

  // A sorted list that holds exactly those who wait, none of them later than the bound.
  ghost predicate Sound(c: seq<Entry>, created: seq<Timer>, q: seq<Waiter>, bound: int) {
    Match(c, created, q) && Different(created) && Ascending(c) && Bounded(c, bound)
  }

  ghost predicate Tracks(list: TimerList, created: seq<Timer>, q: seq<Waiter>, bound: int)
    reads list, list.timers
  {
    list.Valid() && Sound(TimerList.Entries(list.timers), created, q, bound)
  }

  lemma MatchAdd(c: seq<Entry>, created: seq<Timer>, q: seq<Waiter>, t: Timer, deadline: int)
    requires Match(c, created, q)
    ensures Match(c + [Entry(t, deadline)], created + [t], q + [Waiter(|created|, deadline)])
  {
  }

  // Under a forward clock and one timeout, heapify leaves the new entry at the end.
  lemma Behind(c: seq<Entry>, e: Entry, bound: int)
    requires Ascending(c) && Bounded(c, bound) && bound <= e.expire
    ensures Heapified(c + [e]) == c + [e] && Ascending(c + [e]) && Bounded(c + [e], e.expire)
  {
    assert c != [] ==> c[|c| - 1] in c;
    AddedToAscending(c, e);
    forall d | d in c + [e]
      ensures d.expire <= e.expire
    {
      assert d in c || d == e;
    }
  }

  // Of waiters with different numbers, at most one is taken out, and the others stay where they are.
  lemma {:induction false} WithoutAt(q: seq<Waiter>, id: nat, i: nat)
    requires i < |q| && q[i].id == id && forall j :: 0 <= j < |q| && j != i ==> q[j].id != id
    ensures Without(q, id) == q[..i] + q[i + 1..]
  {
    if i == 0 {
      WithoutNone(q[1..], id);
      assert q[..0] + q[1..] == q[1..];
    } else {
      WithoutAt(q[1..], id, i - 1);
      assert q[..i] + q[i + 1..] == [q[0]] + (q[1..][..i - 1] + q[1..][i..]);
    }
  }

  lemma {:induction false} WithoutNone(q: seq<Waiter>, id: nat)
    requires forall j :: 0 <= j < |q| ==> q[j].id != id
    ensures Without(q, id) == q
  {
    if q != [] {
      WithoutNone(q[1..], id);
    }
  }

  // Where those who are due stand in front, they are taken off the front.
  lemma {:induction false} DueInFront(q: seq<Waiter>, n: nat, now: int)
    requires n <= |q|
    requires (forall i :: 0 <= i < n ==> q[i].deadline <= now) && forall i :: n <= i < |q| ==> now < q[i].deadline
    ensures DueOf(q, now) == q[..n] && NotDue(q, now) == q[n..]
    decreases |q|
  {
    if q != [] {
      var n' := if n == 0 then 0 else n - 1;
      DueInFront(q[1..], n', now);
      if n > 0 {
        assert q[..n] == [q[0]] + q[1..][..n'] && q[n..] == q[1..][n'..];
      } else {
        assert q == [q[0]] + q[1..];
      }
    }
  }

  // ----- the operations -----

  lemma SoundAdd(c: seq<Entry>, created: seq<Timer>, q: seq<Waiter>, bound: int, timer: Timer, op: Op, timeout: int,
                 c': seq<Entry>, created': seq<Timer>, q': seq<Waiter>)
    requires Sound(c, created, q, bound) && timer !in created && op.Add? && bound <= op.now + timeout
    requires c' == AddedTo(c, timer, op.now + timeout) && created' == created + [timer]
    requires q' == Waiting(q, op, |created|, timeout)
    ensures Sound(c', created', q', op.now + timeout)
  {
    Behind(c, Entry(timer, op.now + timeout), bound);
    MatchAdd(c, created, q, timer, op.now + timeout);
  }

  method StepAdd(list: TimerList, op: Op, ghost q: seq<Waiter>, created: seq<Timer>, ghost bound: int, timeout: int)
    returns (created': seq<Timer>, ghost q': seq<Waiter>)
    requires Tracks(list, created, q, bound) && op.Add? && bound <= op.now + timeout
    modifies list, list.repr`next
    ensures fresh(list.repr - old(list.repr)) && |created'| == |created| + 1 && created'[..|created|] == created
    ensures q' == Waiting(q, op, |created|, timeout) && Tracks(list, created', q', op.now + timeout)
  {
    ghost var c := TimerList.Entries(list.timers);
    var timer := list.AddNew(op.now, timeout, op.callback);
    created' := created + [timer];
    q' := Waiting(q, op, |created|, timeout);
    SoundAdd(c, created, q, bound, timer, op, timeout, TimerList.Entries(list.timers), created', q');
  }

  // The entry of a timer is where its number is.
  lemma EntryOf(c: seq<Entry>, created: seq<Timer>, q: seq<Waiter>, i: nat, id: nat)
    requires Match(c, created, q) && Different(created) && i < |q| && id < |created|
    ensures c[i].timer == created[id] <==> q[i].id == id
  {
  }

  lemma SoundDelete(c: seq<Entry>, created: seq<Timer>, q: seq<Waiter>, bound: int, i: nat)
    requires Sound(c, created, q, bound) && i < |c|
    ensures Sound(c[..i] + c[i + 1..], created, q[..i] + q[i + 1..], bound)
    ensures Heapified(c[..i] + c[i + 1..]) == c[..i] + c[i + 1..]
  {
    RemovedFromAscending(c, i);
  }

  // What deleteTimer leaves of the entries.
  lemma Deleted(c: seq<Entry>, c': seq<Entry>, created: seq<Timer>, q: seq<Waiter>, bound: int, id: nat)
    requires Sound(c, created, q, bound) && id < |created|
    requires forall i, j :: 0 <= i < j < |c| ==> c[i].timer != c[j].timer
    requires (forall i :: 0 <= i < |c| ==> c[i].timer != created[id]) ==> c' == c
    requires forall i :: 0 <= i < |c| && c[i].timer == created[id] ==>
               c' == if i == 0 then c[1..] else Heapified(c[..i] + c[i + 1..])
    ensures Sound(c', created, Without(q, id), bound)
  {
    forall i: nat | i < |q|
      ensures c[i].timer == created[id] <==> q[i].id == id
    {
      EntryOf(c, created, q, i, id);
    }
    if i: nat :| i < |c| && c[i].timer == created[id] {
      SoundDelete(c, created, q, bound, i);
      assert i == 0 ==> c[..i] + c[i + 1..] == c[1..];
      WithoutAt(q, id, i);
    } else {
      WithoutNone(q, id);
    }
  }

  method StepDelete(list: TimerList, ghost q: seq<Waiter>, created: seq<Timer>, ghost bound: int, id: nat)
    requires Tracks(list, created, q, bound) && id < |created|
    modifies list, list.repr`next
    ensures list.repr <= old(list.repr) && Tracks(list, created, Without(q, id), bound)
  {
    ghost var c := TimerList.Entries(list.timers);
    list.DeleteTimer(created[id]);
    Deleted(c, TimerList.Entries(list.timers), created, q, bound, id);
  }

  lemma SoundTick(c: seq<Entry>, created: seq<Timer>, q: seq<Waiter>, bound: int, now: int)
    requires Sound(c, created, q, bound)
    ensures var n := DueFront(c, now);
            && Sound(c[n..], created, NotDue(q, now), bound)
            && Match(c[..n], created, DueOf(q, now))
  {
    var n := DueFront(c, now);
    forall i | 0 <= i < |q|
      ensures q[i].deadline == c[i].expire
    {
    }
    DueInFront(q, n, now);
  }

  method StepTick(list: TimerList, ghost q: seq<Waiter>, created: seq<Timer>, ghost bound: int, now: int)
    returns (due: seq<Timer>)
    requires Tracks(list, created, q, bound)
    modifies list
    ensures list.repr <= old(list.repr) && Tracks(list, created, NotDue(q, now), bound)
    ensures Fired(due, created, DueOf(q, now))
  {
    ghost var c := TimerList.Entries(list.timers);
    due := list.ExecuteTimers(now);
    SoundTick(c, created, q, bound, now);
  }

  // ----- whole runs -----

  // The timers, in order, are those of the waiters.
  ghost predicate Fired(timers: seq<Timer>, created: seq<Timer>, q: seq<Waiter>) {
    |timers| == |q| && forall i :: 0 <= i < |q| ==> q[i].id < |created| && timers[i] == created[q[i].id]
  }

  lemma FiredMore(timers: seq<Timer>, created: seq<Timer>, q: seq<Waiter>,
                  due: seq<Timer>, created': seq<Timer>, q': seq<Waiter>)
    requires Fired(timers, created, q) && Fired(due, created', q') && created <= created'
    ensures Fired(timers + due, created', q + q')
  {
  }

  lemma Later(c: seq<Entry>, created: seq<Timer>, q: seq<Waiter>, bound: int, bound': int)
    requires Sound(c, created, q, bound) && bound <= bound'
    ensures Sound(c, created, q, bound')
  {
  }

  method StepRun(list: TimerList, op: Op, ghost q: seq<Waiter>, created: seq<Timer>, ghost last: int, timeout: int)
    returns (created': seq<Timer>, due: seq<Timer>, ghost q': seq<Waiter>)
    requires Tracks(list, created, q, last + timeout) && last <= op.now && (op.Delete? ==> op.id < |created|)
    modifies list, list.repr`next
    ensures fresh(list.repr - old(list.repr)) && created <= created' && |created'| == |created| + Added(op)
    ensures q' == Waiting(q, op, |created|, timeout) && Tracks(list, created', q', op.now + timeout)
    ensures Fired(due, created', Firing(q, op))
  {
    created', due, q' := created, [], q;
    if op.Add? {
      created', q' := StepAdd(list, op, q, created, last + timeout, timeout);
    } else if op.Delete? {
      StepDelete(list, q, created, last + timeout, op.id);
      q' := Without(q, op.id);
      Later(TimerList.Entries(list.timers), created, q', last + timeout, op.now + timeout);
    } else {
      due := StepTick(list, q, created, last + timeout, op.now);
      q' := NotDue(q, op.now);
      Later(TimerList.Entries(list.timers), created, q', last + timeout, op.now + timeout);
    }
  }

  // What has fired and who waits, with `rest` still to come, is what the whole run calls for.
  ghost predicate OnTrack(ops: seq<Op>, timeout: int, rest: seq<Op>, q: seq<Waiter>, added: nat, done: seq<Waiter>) {
    && done + Fires(rest, q, added, timeout) == Fires(ops, [], 0, timeout)
    && Remaining(rest, q, added, timeout) == Remaining(ops, [], 0, timeout)
  }

  lemma OnTrackStart(ops: seq<Op>, timeout: int)
    ensures OnTrack(ops, timeout, ops, [], 0, [])
  {
  }

  lemma OnTrackStep(ops: seq<Op>, timeout: int, rest: seq<Op>, q: seq<Waiter>, added: nat, done: seq<Waiter>)
    requires OnTrack(ops, timeout, rest, q, added, done) && rest != []
    ensures OnTrack(ops, timeout, rest[1..], Waiting(q, rest[0], added, timeout), added + Added(rest[0]),
                    done + Firing(q, rest[0]))
  {
    var later := Fires(rest[1..], Waiting(q, rest[0], added, timeout), added + Added(rest[0]), timeout);
    assert done + (Firing(q, rest[0]) + later) == (done + Firing(q, rest[0])) + later;
  }

  lemma OnTrackEnd(ops: seq<Op>, timeout: int, q: seq<Waiter>, added: nat, done: seq<Waiter>)
    requires OnTrack(ops, timeout, [], q, added, done)
    ensures done == Fires(ops, [], 0, timeout) && q == Remaining(ops, [], 0, timeout)
  {
    assert done + [] == done;
  }

  // The run stands before `rest`, with the clock at `last`.
  ghost predicate Running(list: TimerList, ops: seq<Op>, timeout: int, rest: seq<Op>, last: int,
                          created: seq<Timer>, fired: seq<Timer>, q: seq<Waiter>, done: seq<Waiter>)
    reads list, list.timers
  {
    && Tracks(list, created, q, last + timeout) && Orderly(rest, last, |created|)
    && Fired(fired, created, done) && OnTrack(ops, timeout, rest, q, |created|, done)
  }

  method RunRound(list: TimerList, ghost ops: seq<Op>, timeout: int, rest: seq<Op>, ghost last: int,
                  created: seq<Timer>, fired: seq<Timer>, ghost q: seq<Waiter>, ghost done: seq<Waiter>)
    returns (created': seq<Timer>, fired': seq<Timer>, ghost q': seq<Waiter>, ghost done': seq<Waiter>)
    requires rest != [] && Running(list, ops, timeout, rest, last, created, fired, q, done)
    modifies list, list.repr`next
    ensures fresh(list.repr - old(list.repr))
    ensures Running(list, ops, timeout, rest[1..], rest[0].now, created', fired', q', done')
  {
    OnTrackStep(ops, timeout, rest, q, |created|, done);
    var due;
    created', due, q' := StepRun(list, rest[0], q, created, last, timeout);
    FiredMore(fired, created, done, due, created', Firing(q, rest[0]));
    fired', done' := fired + due, done + Firing(q, rest[0]);
  }

  // Over any run of additions, deletions and ticks the list stays sorted: each addition goes to its end, each
  // deletion takes out one entry in place, and each tick fires everything that is due, in order.
  method RunList(ops: seq<Op>, start: int, timeout: int)
    returns (list: TimerList, created: seq<Timer>, fired: seq<Timer>)
    requires Orderly(ops, start, 0)
    ensures fresh(list) && list.Valid() && Ascending(TimerList.Entries(list.timers))
    ensures Match(TimerList.Entries(list.timers), created, Remaining(ops, [], 0, timeout))
    ensures Fired(fired, created, Fires(ops, [], 0, timeout))
  {
    list := new TimerList();
    created, fired := [], [];
    var rest, last := ops, start;
    ghost var q: seq<Waiter>, done: seq<Waiter> := [], [];
    OnTrackStart(ops, timeout);
    while rest != []
      invariant fresh(list) && fresh(list.repr)
      invariant Running(list, ops, timeout, rest, last, created, fired, q, done)
      decreases |rest|
    {
      created, fired, q, done := RunRound(list, ops, timeout, rest, last, created, fired, q, done);
      last, rest := rest[0].now, rest[1..];
    }
    OnTrackEnd(ops, timeout, q, |created|, done);
  }
}
