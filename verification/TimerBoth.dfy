// The two schedulers side by side: with one constant timeout and a clock that does not run backwards,
// the list of moudles/server/dm_timer.c fires what the heap of moudles/test/timer/timer.c fires.
module TimerBoth {
  import opened TimerEvent
  import opened TimerNode
  import TimerOrder
  import TimerHeap
  import TimerList

  datatype Op = Add(now: int, callback: nat) | Tick(now: int)

  function Times(q: seq<Event>): (d: seq<int>)
    ensures |d| == |q| && forall i :: 0 <= i < |q| ==> d[i] == q[i].timeout
  {
    seq(|q|, i requires 0 <= i < |q| => q[i].timeout)
  }

  function Deadlines(q: seq<Entry>): (d: seq<int>)
    ensures |d| == |q| && forall i :: 0 <= i < |q| ==> d[i] == q[i].expire
  {
    seq(|q|, i requires 0 <= i < |q| => q[i].expire)
  }

  ghost predicate Sorted(d: seq<int>) {
    forall i, j :: 0 <= i < j < |d| ==> d[i] <= d[j]
  }

  // The clock readings of the operations do not go down, and do not go below `from`.
  predicate Forward(ops: seq<Op>, from: int) {
    ops == [] || (from <= ops[0].now && Forward(ops[1..], ops[0].now))
  }

  // How many of the leading deadlines are due.
  function Due(pending: seq<int>, now: int): (n: nat)
    ensures n <= |pending|
  {
    if pending == [] || now < pending[0] then 0 else 1 + Due(pending[1..], now)
  }

  // What an operation should leave waiting, and what it should fire, when `pending` are waiting.
  function Waiting(pending: seq<int>, op: Op, timeout: int): seq<int> {
    match op
    case Add(now, _) => pending + [now + timeout]
    case Tick(now) => pending[Due(pending, now)..]
  }

  function Firing(pending: seq<int>, op: Op): seq<int> {
    match op
    case Add(_, _) => []
    case Tick(now) => pending[..Due(pending, now)]
  }

  function Fires(ops: seq<Op>, pending: seq<int>, timeout: int): seq<int> {
    if ops == [] then [] else Firing(pending, ops[0]) + Fires(ops[1..], Waiting(pending, ops[0], timeout), timeout)
  }

  // Whenever an addition comes, the heap's array has room for one more pending event.
  predicate Fits(ops: seq<Op>, pending: seq<int>, timeout: int) {
    ops == [] ||
    ((ops[0].Add? ==> |pending| < TimerHeap.CAPACITY) && Fits(ops[1..], Waiting(pending, ops[0], timeout), timeout))
  }

  lemma {:induction false} DueIsDueFront(c: seq<Entry>, now: int)
    ensures Due(Deadlines(c), now) == TimerOrder.DueFront(c, now)
  {
    if c != [] {
      assert Deadlines(c)[1..] == Deadlines(c[1..]);
      DueIsDueFront(c[1..], now);
    }
  }

  lemma TimesConcat(p: seq<Event>, q: seq<Event>)
    ensures Times(p + q) == Times(p) + Times(q)
  {
  }

  lemma Head<T>(q: seq<T>)
    requires q != []
    ensures multiset(q) == multiset(q[1..]) + multiset{q[0]}
    ensures multiset(q[1..]) == multiset(q) - multiset{q[0]}
  {
    assert q == [q[0]] + q[1..];
  }

  lemma Middle<T>(q: seq<T>, i: nat)
    requires i < |q|
    ensures multiset(q) == multiset(q[..i] + q[i + 1..]) + multiset{q[i]}
    ensures multiset(q[..i] + q[i + 1..]) == multiset(q) - multiset{q[i]}
  {
    assert q == q[..i] + [q[i]] + q[i + 1..];
  }

  lemma SameSize<T>(p: seq<T>, q: seq<T>)
    requires multiset(p) == multiset(q)
    ensures |p| == |q|
  {
    assert |p| == |multiset(p)| && |q| == |multiset(q)|;
  }

  lemma Somewhere<T>(t: T, q: seq<T>) returns (i: nat)
    requires t in multiset(q)
    ensures i < |q| && q[i] == t
  {
    i :| i < |q| && q[i] == t;
  }

  // Equal bags of events have equal bags of times.
  lemma {:induction false} TimesBag(p: seq<Event>, q: seq<Event>)
    requires multiset(p) == multiset(q)
    ensures multiset(Times(p)) == multiset(Times(q))
    decreases |p|
  {
    SameSize(p, q);
    if p != [] {
      Head(p);
      var i := Somewhere(p[0], q);
      Middle(q, i);
      TimesBag(p[1..], q[..i] + q[i + 1..]);
      TimesHead(p);
      TimesMiddle(q, i);
    }
  }

  lemma TimesHead(q: seq<Event>)
    requires q != []
    ensures multiset(Times(q)) == multiset(Times(q[1..])) + multiset{q[0].timeout}
  {
    Head(Times(q));
    assert Times(q)[1..] == Times(q[1..]);
  }

  lemma TimesMiddle(q: seq<Event>, i: nat)
    requires i < |q|
    ensures multiset(Times(q)) == multiset(Times(q[..i] + q[i + 1..])) + multiset{q[i].timeout}
  {
    Middle(Times(q), i);
    assert Times(q)[..i] + Times(q)[i + 1..] == Times(q[..i] + q[i + 1..]);
  }

  // A bag of numbers can be put in order in one way only.
  lemma {:induction false} SortedUnique(p: seq<int>, q: seq<int>)
    requires Sorted(p) && Sorted(q) && multiset(p) == multiset(q)
    ensures p == q
    decreases |p|
  {
    SameSize(p, q);
    if p != [] {
      Head(p);
      Head(q);
      LeastFirst(p, q);
      LeastFirst(q, p);
      SortedUnique(p[1..], q[1..]);
      assert p == [p[0]] + p[1..] && q == [q[0]] + q[1..];
    }
  }

  lemma LeastFirst(p: seq<int>, q: seq<int>)
    requires Sorted(p) && multiset(p) == multiset(q) && p != [] && q != []
    ensures p[0] <= q[0]
  {
    var i := Somewhere(q[0], p);
  }

  // Two ways to split a bag at `now` have the same first part.
  lemma SplitUnique(a: multiset<int>, b: multiset<int>, c: multiset<int>, d: multiset<int>, now: int)
    requires a + b == c + d
    requires (forall t :: t in a ==> t <= now) && (forall t :: t in c ==> t <= now)
    requires (forall t :: t in b ==> now < t) && (forall t :: t in d ==> now < t)
    ensures a == c && b == d
  {
    forall t
      ensures a[t] == c[t] && b[t] == d[t]
    {
      assert (a + b)[t] == (c + d)[t];
      assert t > now ==> t !in a && t !in c;
      assert t <= now ==> t !in b && t !in d;
    }
  }

  // A list and a heap hold the same deadlines; those in the list are in order, and none is later than
  // an addition at `last` would give.
  ghost predicate Alike(c: seq<Entry>, q: seq<Event>, last: int, timeout: int) {
    TimerOrder.Ascending(c) && (forall e :: e in c ==> e.expire <= last + timeout)
    && multiset(Deadlines(c)) == multiset(Times(q))
  }

  ghost predicate Agree(list: TimerList.TimerList, heap: TimerHeap.MinHeap, last: int, timeout: int)
    reads list, list.timers, heap, heap.events
  {
    list.Valid() && heap.Valid() && Alike(list.Entries(list.timers), heap.events[..heap.size], last, timeout)
  }

  lemma AlikeSize(c: seq<Entry>, q: seq<Event>, last: int, timeout: int)
    requires Alike(c, q, last, timeout)
    ensures |Deadlines(c)| == |q|
  {
    SameSize(Deadlines(c), Times(q));
  }

  lemma AddedTimes(q: seq<Event>, q': seq<Event>, event: Event)
    requires multiset(q') == multiset(q) + multiset{event}
    ensures multiset(Times(q')) == multiset(Times(q)) + multiset{event.timeout}
  {
    TimesBag(q', q + [event]);
    TimesConcat(q, [event]);
  }

  lemma AddedAlike(c: seq<Entry>, q: seq<Event>, c': seq<Entry>, q': seq<Event>, last: int, timeout: int,
                   e: Entry, event: Event, op: Op)
    requires Alike(c, q, last, timeout) && op.Add? && last <= op.now && op.now + timeout == e.expire == event.timeout
    requires c' == TimerOrder.AddedTo(c, e.timer, e.expire) && multiset(q') == multiset(q) + multiset{event}
    ensures Alike(c', q', op.now, timeout) && Deadlines(c') == Waiting(Deadlines(c), op, timeout)
  {
    AddedBehind(c, e, last, timeout);
    OneMore(c, e, op, timeout);
    AddedTimes(q, q', event);
  }

  // Under a forward clock and one timeout, heapify leaves a new deadline at the end.
  lemma AddedBehind(c: seq<Entry>, e: Entry, last: int, timeout: int)
    requires TimerOrder.Ascending(c) && (forall d :: d in c ==> d.expire <= last + timeout)
    requires last + timeout <= e.expire
    ensures TimerOrder.Heapified(c + [e]) == c + [e] && TimerOrder.Ascending(c + [e])
  {
    assert c != [] ==> c[|c| - 1] in c;
    TimerOrder.AddedToAscending(c, e);
  }

  lemma OneMore(c: seq<Entry>, e: Entry, op: Op, timeout: int)
    requires op.Add? && e.expire == op.now + timeout
    ensures Deadlines(c + [e]) == Waiting(Deadlines(c), op, timeout)
    ensures multiset(Deadlines(c + [e])) == multiset(Deadlines(c)) + multiset{e.expire}
    ensures forall d :: d in c + [e] ==> d in c || d == e
  {
  }

  lemma DeadlinesSplit(c: seq<Entry>, n: nat)
    requires n <= |c|
    ensures multiset(Deadlines(c)) == multiset(Deadlines(c[..n])) + multiset(Deadlines(c[n..]))
  {
    assert Deadlines(c) == Deadlines(c[..n]) + Deadlines(c[n..]);
  }

  lemma TimesSplit(q: seq<Event>, fired: seq<Event>, q': seq<Event>)
    requires multiset(q) == multiset(fired) + multiset(q')
    ensures multiset(Times(q)) == multiset(Times(fired)) + multiset(Times(q'))
  {
    TimesBag(q, fired + q');
    TimesConcat(fired, q');
  }

  // Of an ascending list, what is due is in front, and the rest is not due.
  lemma DueSplit(c: seq<Entry>, now: int)
    requires TimerOrder.Ascending(c)
    ensures var n := TimerOrder.DueFront(c, now);
            && Sorted(Deadlines(c[..n])) && TimerOrder.Ascending(c[n..])
            && (forall t :: t in multiset(Deadlines(c[..n])) ==> t <= now)
            && (forall t :: t in multiset(Deadlines(c[n..])) ==> now < t)
  {
  }

  // What fires at `now` from a list and a heap that are alike has the same deadlines in the same order,
  // and what is left is alike.
  lemma FiredAlike(c: seq<Entry>, q: seq<Event>, fired: seq<Event>, q': seq<Event>, last: int, timeout: int, now: int)
    requires Alike(c, q, last, timeout) && multiset(q) == multiset(fired) + multiset(q')
    requires Ascending(fired) && (forall e :: e in fired ==> e.timeout <= now)
    requires forall e :: e in multiset(q') ==> now < e.timeout
    ensures Deadlines(c[..TimerOrder.DueFront(c, now)]) == Times(fired)
    ensures Alike(c[TimerOrder.DueFront(c, now)..], q', last, timeout)
  {
    var n := TimerOrder.DueFront(c, now);
    DeadlinesSplit(c, n);
    TimesSplit(q, fired, q');
    DueSplit(c, now);
    TimesSide(fired, q', now);
    SplitUnique(multiset(Deadlines(c[..n])), multiset(Deadlines(c[n..])),
                multiset(Times(fired)), multiset(Times(q')), now);
    SortedUnique(Deadlines(c[..n]), Times(fired));
  }

  lemma FiredWaiting(c: seq<Entry>, now: int, timeout: int)
    ensures Deadlines(c[..TimerOrder.DueFront(c, now)]) == Firing(Deadlines(c), Tick(now))
    ensures Deadlines(c[TimerOrder.DueFront(c, now)..]) == Waiting(Deadlines(c), Tick(now), timeout)
  {
    var n := TimerOrder.DueFront(c, now);
    DueIsDueFront(c, now);
    assert Deadlines(c)[..n] == Deadlines(c[..n]) && Deadlines(c)[n..] == Deadlines(c[n..]);
  }

  lemma FiresStep(done: seq<int>, ops: seq<Op>, pending: seq<int>, timeout: int)
    requires ops != []
    ensures done + Fires(ops, pending, timeout)
         == (done + Firing(pending, ops[0])) + Fires(ops[1..], Waiting(pending, ops[0], timeout), timeout)
  {
  }

  lemma TimesSide(fired: seq<Event>, q': seq<Event>, now: int)
    requires Ascending(fired) && (forall e :: e in fired ==> e.timeout <= now)
    requires forall e :: e in multiset(q') ==> now < e.timeout
    ensures Sorted(Times(fired)) && (forall t :: t in multiset(Times(fired)) ==> t <= now)
    ensures forall t :: t in multiset(Times(q')) ==> now < t
  {
    forall t | t in multiset(Times(q'))
      ensures now < t
    {
      var i := Somewhere(t, Times(q'));
      assert q'[i] in multiset(q');
    }
    forall t | t in multiset(Times(fired))
      ensures t <= now
    {
      var i := Somewhere(t, Times(fired));
      assert fired[i] in fired;
    }
  }

  method AddToEach(list: TimerList.TimerList, heap: TimerHeap.MinHeap, now: int, timeout: int, callback: nat)
    returns (timer: Timer)
    requires list.Valid() && heap.Valid() && heap.size < TimerHeap.CAPACITY
    modifies list, list.repr`next, heap`size, heap.events
    ensures list.Valid() && fresh(list.repr - old(list.repr))
    ensures list.Entries(list.timers) == TimerOrder.AddedTo(old(list.Entries(list.timers)), timer, now + timeout)
    ensures heap.Valid() && heap.size == old(heap.size) + 1
    ensures multiset(heap.events[..heap.size]) ==
            multiset(old(heap.events[..heap.size])) + multiset{Event(now + timeout, callback)}
  {
    timer := list.AddNew(now, timeout, callback);
    ghost var c' := list.Entries(list.timers);
    heap.AddTimer(now, timeout, callback);
    assert list.Valid() && list.Entries(list.timers) == c';
  }

  method AddBoth(list: TimerList.TimerList, heap: TimerHeap.MinHeap, ghost last: int, now: int, timeout: int,
                 callback: nat)
    requires Agree(list, heap, last, timeout) && last <= now && heap.size < TimerHeap.CAPACITY
    modifies list, list.repr`next, heap`size, heap.events
    ensures Agree(list, heap, now, timeout) && heap.size == old(heap.size) + 1
    ensures Deadlines(list.Entries(list.timers)) ==
            Waiting(old(Deadlines(list.Entries(list.timers))), Add(now, callback), timeout)
    ensures fresh(list.repr - old(list.repr))
  {
    ghost var c, q := list.Entries(list.timers), heap.events[..heap.size];
    var timer := AddToEach(list, heap, now, timeout, callback);
    AddedAlike(c, q, list.Entries(list.timers), heap.events[..heap.size], last, timeout,
               Entry(timer, now + timeout), Event(now + timeout, callback), Add(now, callback));
  }

  method TickEach(list: TimerList.TimerList, heap: TimerHeap.MinHeap, now: int)
    returns (timers: seq<Timer>, fired: seq<Event>)
    requires list.Valid() && heap.Valid()
    modifies list, heap`size, heap.events
    ensures list.Valid() && list.repr <= old(list.repr) && heap.Valid() && heap.size <= old(heap.size)
    ensures var (c, n) := (old(list.Entries(list.timers)), TimerOrder.DueFront(old(list.Entries(list.timers)), now));
            list.Entries(timers) == c[..n] && list.Entries(list.timers) == c[n..]
    ensures Ascending(fired) && (forall e :: e in fired ==> e.timeout <= now)
    ensures forall e :: e in multiset(heap.events[..heap.size]) ==> now < e.timeout
    ensures multiset(old(heap.events[..heap.size])) == multiset(fired) + multiset(heap.events[..heap.size])
  {
    timers := list.ExecuteTimers(now);
    ghost var c', d := list.Entries(list.timers), list.Entries(timers);
    fired := heap.HandleEvents(now);
    assert list.Valid() && list.Entries(list.timers) == c' && list.Entries(timers) == d;
  }

  method TickBoth(list: TimerList.TimerList, heap: TimerHeap.MinHeap, ghost last: int, now: int, ghost timeout: int)
    returns (timers: seq<Timer>, fired: seq<Event>)
    requires Agree(list, heap, last, timeout)
    modifies list, heap`size, heap.events
    ensures Agree(list, heap, last, timeout) && heap.size <= old(heap.size) && list.repr <= old(list.repr)
    ensures Deadlines(list.Entries(timers)) == Times(fired)
    ensures Times(fired) == Firing(old(Deadlines(list.Entries(list.timers))), Tick(now))
    ensures Deadlines(list.Entries(list.timers)) ==
            Waiting(old(Deadlines(list.Entries(list.timers))), Tick(now), timeout)
  {
    ghost var c, q := list.Entries(list.timers), heap.events[..heap.size];
    timers, fired := TickEach(list, heap, now);
    FiredAlike(c, q, fired, heap.events[..heap.size], last, timeout, now);
    FiredWaiting(c, now, timeout);
  }

  // The timers and the events fired so far carry the same deadlines, one by one.
  ghost predicate SameLog(timers: seq<Timer>, events: seq<Event>)
    reads timers
  {
    |timers| == |events| && forall i :: 0 <= i < |timers| ==> timers[i].expire == events[i].timeout
  }

  lemma LogGrows(timers: seq<Timer>, events: seq<Event>, ts: seq<Timer>, es: seq<Event>)
    requires SameLog(timers, events) && SameLog(ts, es)
    ensures SameLog(timers + ts, events + es) && Times(events + es) == Times(events) + Times(es)
  {
    TimesConcat(events, es);
  }

  method StepBoth(list: TimerList.TimerList, heap: TimerHeap.MinHeap, op: Op, ghost last: int, timeout: int,
                  timers: seq<Timer>, events: seq<Event>)
    returns (timers': seq<Timer>, events': seq<Event>)
    requires Agree(list, heap, last, timeout) && last <= op.now && SameLog(timers, events)
    requires op.Add? ==> heap.size < TimerHeap.CAPACITY
    modifies list, list.repr`next, heap`size, heap.events
    ensures Agree(list, heap, op.now, timeout) && SameLog(timers', events')
    ensures fresh(list.repr - old(list.repr))
    ensures Times(events') == Times(events) + Firing(old(Deadlines(list.Entries(list.timers))), op)
    ensures Deadlines(list.Entries(list.timers)) == Waiting(old(Deadlines(list.Entries(list.timers))), op, timeout)
  {
    if op.Add? {
      AddBoth(list, heap, last, op.now, timeout, op.callback);
      timers', events' := timers, events;
      assert Times(events) + [] == Times(events);
    } else {
      var ts, es := TickBoth(list, heap, last, op.now, timeout);
      LogGrows(timers, events, ts, es);
      timers', events' := timers + ts, events + es;
    }
  }

  method RunFrom(list: TimerList.TimerList, heap: TimerHeap.MinHeap, ops: seq<Op>, start: int, timeout: int)
    returns (timers: seq<Timer>, events: seq<Event>)
    requires Agree(list, heap, start, timeout) && Forward(ops, start)
    requires Fits(ops, Deadlines(list.Entries(list.timers)), timeout)
    modifies list, list.repr`next, heap`size, heap.events
    ensures SameLog(timers, events)
    ensures Times(events) == Fires(ops, old(Deadlines(list.Entries(list.timers))), timeout)
  {
    ghost var pending := Deadlines(list.Entries(list.timers));
    timers, events := [], [];
    var rest, last := ops, start;
    assert Times([]) + Fires(ops, pending, timeout) == Fires(ops, pending, timeout);
    while rest != []
      invariant fresh(list.repr - old(list.repr))
      invariant Agree(list, heap, last, timeout) && SameLog(timers, events)
      invariant Forward(rest, last) && Fits(rest, Deadlines(list.Entries(list.timers)), timeout)
      invariant Times(events) + Fires(rest, Deadlines(list.Entries(list.timers)), timeout) ==
                Fires(ops, pending, timeout)
      decreases |rest|
    {
      FiresStep(Times(events), rest, Deadlines(list.Entries(list.timers)), timeout);
      AlikeSize(list.Entries(list.timers), heap.events[..heap.size], last, timeout);
      timers, events := StepBoth(list, heap, rest[0], last, timeout, timers, events);
      last := rest[0].now;
      rest := rest[1..];
    }
  }

  // Over any run of additions and ticks, however long and however far the clock moves, both
  // schedulers fire the same deadlines in the same order: each one that a tick finds due, oldest first.
  method RunBoth(ops: seq<Op>, start: int, timeout: int) returns (timers: seq<Timer>, events: seq<Event>)
    requires Forward(ops, start) && Fits(ops, [], timeout)
    ensures SameLog(timers, events) && Times(events) == Fires(ops, [], timeout)
  {
    var list := new TimerList.TimerList();
    var heap := new TimerHeap.MinHeap();
    assert list.Entries(list.timers) == [] && Deadlines([]) == [] && Times(heap.events[..0]) == [];
    timers, events := RunFrom(list, heap, ops, start, timeout);
  }
}
