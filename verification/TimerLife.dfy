// The timers inside the requests of moudles/server/dm_events.c, if accepting a connection registers one (the
// call is commented out there): what handle_close and executeTimers find in the list.
module TimerLife {
  import opened TimerNode
  import opened TimerOrder
  import opened TimerList

  predicate Carried(q: seq<Timer>, c: seq<Entry>) {
    |q| == |c| && forall i :: 0 <= i < |q| ==> c[i].timer == q[i]
  }

  // Lists with the same entries hold the same timers.
  lemma SameTimers(q: seq<Timer>, c: seq<Entry>, q': seq<Timer>, c': seq<Entry>, t: Timer)
    requires Carried(q, c) && Carried(q', c') && multiset(c) == multiset(c') && t in q
    ensures t in q'
  {
    var i :| 0 <= i < |q| && q[i] == t;
    assert c[i] in multiset(c');
    var j :| 0 <= j < |c'| && c'[j] == c[i];
    assert q'[j] == t;
  }

  lemma AllTimers(q: seq<Timer>, c: seq<Entry>, q': seq<Timer>, c': seq<Entry>)
    requires Carried(q, c) && Carried(q', c') && multiset(c) == multiset(c')
    ensures forall t :: t in q <==> t in q'
  {
    forall t | t in q
      ensures t in q'
    {
      SameTimers(q, c, q', c', t);
    }
    forall t | t in q'
      ensures t in q
    {
      SameTimers(q', c', q, c, t);
    }
  }

  class TimedServer {
    const list: TimerList

    // The timers in requests that have not been freed, and those that have fired.
    ghost var live: set<Timer>
    ghost var fired: set<Timer>

    // The list, which is acyclic and free of duplicates, holds exactly the timers that are live and have not
    // fired.
    ghost predicate Valid()
      reads this, list, list.timers
    {
      && list.Valid()
      && (forall t :: t in list.timers ==> t in live && t !in fired)
      && (forall t :: t in live && t !in fired ==> t in list.timers)
    }

    constructor ()
      ensures Valid() && live == {} && fired == {} && fresh(list)
    {
      list := new TimerList();
      live, fired := {}, {};
    }

    // What event_accept_http does with the timer; whether epoll then accepts the descriptor changes nothing,
    // as the request is not freed.
    method Accept(now: int, expire: int, callback: nat) returns (timer: Timer)
      requires Valid()
      modifies this, list, list.repr`next
      ensures Valid() && fresh(timer) && live == old(live) + {timer} && fired == old(fired)
      ensures TimerList.Entries(list.timers) == AddedTo(old(TimerList.Entries(list.timers)), timer, now + expire)
      ensures timer.expire == now + expire && timer.callback == callback
    {
      ghost var q, c := list.timers, TimerList.Entries(list.timers);
      timer := list.AddNew(now, expire, callback);
      AfterAdd(q, c, timer, now + expire, list.timers, TimerList.Entries(list.timers));
      live := live + {timer};
      assert timer !in old(fired) by { assert timer !in old(live); }
    }

    // deleteTimer takes out the timer and no other.
    method TakeOut(timer: Timer)
      requires list.Valid()
      modifies list, list.repr`next
      ensures list.Valid()
      ensures forall t :: t in list.timers <==> t in old(list.timers) && t != timer
    {
      ghost var q, c := list.timers, TimerList.Entries(list.timers);
      list.DeleteTimer(timer);
      if timer in q {
        ghost var i :| 0 <= i < |q| && q[i] == timer;
        AfterDelete(q, c, i, list.timers, TimerList.Entries(list.timers));
      }
    }

    // The part of handle_close that takes the timer out before the request is freed.
    method Close(timer: Timer)
      requires Valid() && timer in live
      modifies this, list, list.repr`next
      ensures Valid() && live == old(live) - {timer} && fired == old(fired)
    {
      TakeOut(timer);
      live := live - {timer};
    }

    // executeTimers fires the timers at the front that are due, and leaves one that is not, if any, in front.
    method FireDue(now: int) returns (due: seq<Timer>)
      requires list.Valid()
      modifies list
      ensures list.Valid() && old(list.timers) == due + list.timers && forall t :: t in due ==> t.expire <= now
      ensures list.timers != [] ==> list.timers[0].expire > now
    {
      ghost var q := list.timers;
      DueInFront(q, DueFront(TimerList.Entries(q), now), now);
      due := list.ExecuteTimers(now);
    }

    // A tick of the event loop fires the timers at the front of the list that are due, and leaves one that is not
    // due, if any, in front. Each is inside a live request, and fires for the first time.
    method Tick(now: int) returns (due: seq<Timer>)
      requires Valid()
      modifies this, list
      ensures Valid() && live == old(live) && fired == old(fired) + set t | t in due
      ensures forall t :: t in due ==> t in live && t !in old(fired)
      ensures forall i, j :: 0 <= i < j < |due| ==> due[i] != due[j]
      ensures old(list.timers) == due + list.timers && forall t :: t in due ==> t.expire <= now
      ensures list.timers != [] ==> list.timers[0].expire > now
    {
      ghost var q := list.timers;
      due := FireDue(now);
      fired := fired + set t | t in due;
      SplitTimers(q, due, list.timers);
    }
  }

  lemma DueInFront(q: seq<Timer>, n: nat, now: int)
    requires n == DueFront(TimerList.Entries(q), now)
    ensures n <= |q| && q == q[..n] + q[n..]
    ensures forall t :: t in q[..n] ==> t.expire <= now
    ensures n < |q| ==> q[n..][0].expire > now
  {
    var c := TimerList.Entries(q);
    assert forall i :: 0 <= i < n ==> c[i].expire <= now;
  }

  lemma AfterAdd(q: seq<Timer>, c: seq<Entry>, timer: Timer, deadline: int, q': seq<Timer>, c': seq<Entry>)
    requires Carried(q, c) && Carried(q', c') && c' == AddedTo(c, timer, deadline)
    ensures forall t :: t in q' <==> t in q || t == timer
  {
    var more := c + [Entry(timer, deadline)];
    HeapifiedBag(more);
    AllTimers(q + [timer], more, q', c');
  }

  lemma SplitTimers(q: seq<Timer>, front: seq<Timer>, rest: seq<Timer>)
    requires q == front + rest && forall j, k :: 0 <= j < k < |q| ==> q[j] != q[k]
    ensures forall t :: t in q <==> t in front || t in rest
    ensures forall t :: t in front ==> t !in rest
    ensures forall i, j :: 0 <= i < j < |front| ==> front[i] != front[j]
  {
    assert forall i :: 0 <= i < |front| ==> q[i] == front[i];
    assert forall i :: 0 <= i < |rest| ==> q[|front| + i] == rest[i];
  }

  lemma AfterDelete(q: seq<Timer>, c: seq<Entry>, i: nat, q': seq<Timer>, c': seq<Entry>)
    requires Carried(q, c) && Carried(q', c') && i < |q| && forall j, k :: 0 <= j < k < |q| ==> q[j] != q[k]
    requires c' == if i == 0 then c[1..] else Heapified(c[..i] + c[i + 1..])
    ensures forall t :: t in q' <==> t in q && t != q[i]
  {
    var rest := c[..i] + c[i + 1..];
    if i == 0 {
      assert rest == c[1..];
    } else {
      HeapifiedBag(rest);
    }
    CarriedWithout(q, c, i);
    AllTimers(q[..i] + q[i + 1..], rest, q', c');
    WithoutOne(q, i);
  }

  lemma CarriedWithout(q: seq<Timer>, c: seq<Entry>, i: nat)
    requires Carried(q, c) && i < |q|
    ensures Carried(q[..i] + q[i + 1..], c[..i] + c[i + 1..])
  {
  }

  lemma WithoutOne(q: seq<Timer>, i: nat)
    requires i < |q| && forall j, k :: 0 <= j < k < |q| ==> q[j] != q[k]
    ensures forall t :: t in q[..i] + q[i + 1..] <==> t in q && t != q[i]
  {
    forall t | t in q && t != q[i]
      ensures t in q[..i] + q[i + 1..]
    {
      var j :| 0 <= j < |q| && q[j] == t;
      assert (q[..i] + q[i + 1..])[if j < i then j else j - 1] == t;
    }
  }
}
