// The linked timer list of moudles/server/dm_timer.c.
module TimerList {
  import opened TimerNode
  import opened TimerOrder

  class TimerList {
    var heap: Timer?
    ghost var timers: seq<Timer>
    ghost var repr: set<Timer>

    // heap leads through next to exactly the timers, each once, all of them in repr.
    ghost predicate Valid()
      reads this, timers
    {
      && (forall i :: 0 <= i < |timers| ==> timers[i] in repr)
      && heap == (if timers == [] then null else timers[0])
      && Linked(timers)
      && (forall i, j :: 0 <= i < j < |timers| ==> timers[i] != timers[j])
    }

    static ghost predicate Linked(q: seq<Timer>)
      reads q
    {
      && (forall i :: 0 <= i < |q| - 1 ==> q[i].next == q[i + 1])
      && (q != [] ==> q[|q| - 1].next == null)
    }

    static ghost function Entries(q: seq<Timer>): (c: seq<Entry>)
      reads q
      ensures |c| == |q|
      ensures forall i :: 0 <= i < |q| ==> c[i] == Entry(q[i], q[i].expire)
    {
      seq(|q|, i requires 0 <= i < |q| reads q => Entry(q[i], q[i].expire))
    }

    constructor ()
      ensures Valid() && timers == [] && repr == {}
    {
      heap, timers, repr := null, [], {};
    }

    // current, the timer behind parent, moves to the front.
    method MoveToFront(parent: Timer, temp: Timer, ghost k: nat)
      requires Valid() && k + 1 < |timers| && parent == timers[k] && temp == timers[k + 1]
      modifies this, repr`next
      ensures Valid() && repr == old(repr) && |timers| == |old(timers)| && timers[0] == temp
      ensures forall i :: 0 < i <= k + 1 ==> timers[i] == old(timers)[i - 1]
      ensures forall i :: k + 2 <= i < |timers| ==> timers[i] == old(timers)[i]
    {
      ghost var q := timers;
      parent.next := temp.next;
      temp.next := heap;
      heap := temp;
      timers := [temp] + timers[..k + 1] + timers[k + 2..];
      assert forall i :: 0 < i <= k + 1 ==> timers[i] == q[i - 1];
      assert forall i :: k + 2 <= i < |timers| ==> timers[i] == q[i];
    }

    // The same, seen on the entries.
    method Front(parent: Timer, temp: Timer, ghost k: nat)
      requires Valid() && k + 1 < |timers| && parent == timers[k] && temp == timers[k + 1]
      modifies this, repr`next
      ensures Valid() && repr == old(repr) && |timers| == |old(timers)| && timers[k + 1] == parent
      ensures Entries(timers) == Fronted(old(Entries(timers)), k + 1)
      ensures parent.next == if k + 2 < |timers| then timers[k + 2] else null
    {
      ghost var q, c := timers, Entries(timers);
      MoveToFront(parent, temp, k);
      assert Entries(q) == c;
      EntriesFronted(q, timers, k + 1);
    }

    static lemma EntriesFronted(q: seq<Timer>, q': seq<Timer>, i: nat)
      requires i < |q| == |q'| && q'[0] == q[i]
      requires forall j :: 0 < j <= i ==> q'[j] == q[j - 1]
      requires forall j :: i < j < |q| ==> q'[j] == q[j]
      ensures Entries(q') == Fronted(Entries(q), i)
    {
      FrontedIs(Entries(q), Entries(q'), i);
    }

    method Heapify()
      requires Valid() && heap != null
      modifies this, repr`next
      ensures Valid() && Entries(timers) == Heapified(old(Entries(timers))) && repr == old(repr)
    {
      var parent: Timer := heap;
      var current := heap.next;
      ghost var k, q := 0, Entries(timers);
      PartlyStart(q);
      while current != null
        invariant Valid() && k < |timers| && parent == timers[k]
        invariant current == if k + 1 < |timers| then timers[k + 1] else null
        invariant Partly(Entries(timers), k) == Heapified(q)
        invariant repr == old(repr)
        decreases |timers| - k
      {
        if current.expire < parent.expire {
          var temp: Timer := current;
          PartlyDrop(Entries(timers), k);
          Front(parent, temp, k);
          current := parent.next;
        } else {
          PartlyKeep(Entries(timers), k);
          parent := current;
          current := current.next;
        }
        k := k + 1;
      }
      PartlyEnd(Entries(timers));
    }

    // The end of the list gets a new neighbour.
    method Append(newTimer: Timer)
      requires Valid() && newTimer !in timers && newTimer.next == null
      modifies this, repr`next
      ensures Valid() && timers == old(timers) + [newTimer] && repr == old(repr) + {newTimer}
    {
      if heap == null {
        heap := newTimer;
      } else {
        var temp: Timer := heap;
        ghost var k := 0;
        while temp.next != null
          invariant Valid() && k < |timers| && temp == timers[k]
          invariant k == |timers| - 1 || temp.next == timers[k + 1]
          decreases |timers| - k
        {
          temp := temp.next;
          k := k + 1;
        }
        temp.next := newTimer;
      }
      timers := timers + [newTimer];
      repr := repr + {newTimer};
    }

    method Settle(newTimer: Timer, ghost expire: int)
      requires Valid() && newTimer !in timers && newTimer.next == null && newTimer.expire == expire
      modifies this, newTimer`next, repr`next
      ensures Valid() && repr == old(repr) + {newTimer}
      ensures Entries(timers) == AddedTo(old(Entries(timers)), newTimer, expire)
    {
      Append(newTimer);
      assert Entries(timers) == old(Entries(timers)) + [Entry(newTimer, expire)];
      Heapify();
    }

    // A timer outside the list can be filled in.
    method Fill(newTimer: Timer, expire: int, callback: nat)
      requires Valid() && newTimer !in timers
      modifies newTimer
      ensures Valid() && newTimer.expire == expire && newTimer.callback == callback && newTimer.next == null
      ensures Entries(timers) == old(Entries(timers))
    {
      newTimer.callback := callback;
      newTimer.expire := expire;
      newTimer.next := null;
    }

    // addTimer, when the clock shows `now`.
    method AddTimer(newTimer: Timer, now: int, expire: int, callback: nat)
      requires Valid() && newTimer !in timers
      modifies this, newTimer, repr`next
      ensures Valid() && repr == old(repr) + {newTimer}
      ensures newTimer.expire == now + expire && newTimer.callback == callback
      ensures Entries(timers) == AddedTo(old(Entries(timers)), newTimer, now + expire)
    {
      Fill(newTimer, now + expire, callback);
      Settle(newTimer, now + expire);
    }

    // addTimer on the timer of a request just made.
    method AddNew(now: int, expire: int, callback: nat) returns (newTimer: Timer)
      requires Valid()
      modifies this, repr`next
      ensures Valid() && fresh(newTimer) && repr == old(repr) + {newTimer}
      ensures newTimer.expire == now + expire && newTimer.callback == callback
      ensures Entries(timers) == AddedTo(old(Entries(timers)), newTimer, now + expire)
    {
      newTimer := new Timer();
      AddTimer(newTimer, now, expire, callback);
    }

    // parent->next = current->next
    method Bypass(parent: Timer, current: Timer, ghost i: nat)
      requires Valid() && 0 < i < |timers| && timers[i] == current && timers[i - 1] == parent
      modifies this`timers, this`repr, repr`next
      ensures Valid() && repr == old(repr) - {current}
      ensures timers == old(timers[..i]) + old(timers[i + 1..])
    {
      ghost var q := timers;
      parent.next := current.next;
      timers := timers[..i] + timers[i + 1..];
      repr := repr - {current};
      assert forall j :: 0 <= j < i ==> timers[j] == q[j];
      assert forall j :: i <= j < |timers| ==> timers[j] == q[j + 1];
    }

    // heap = heap->next
    method TakeHead()
      requires Valid() && heap != null
      modifies this
      ensures Valid() && repr == old(repr) - {old(heap)}
      ensures timers == old(timers)[1..] && Entries(timers) == old(Entries(timers))[1..]
    {
      ghost var q := timers;
      assert 1 < |q| ==> q[0].next == q[1];
      repr := repr - {heap};
      heap := heap.next;
      timers := timers[1..];
      assert forall j :: 0 <= j < |timers| ==> timers[j] == q[j + 1];
    }

    method DeleteTimer(target: Timer?)
      requires Valid()
      modifies this, repr`next
      ensures Valid() && target !in timers
      ensures repr == if target in old(timers) then old(repr) - {target} else old(repr)
      ensures target !in old(timers) ==> timers == old(timers) && Entries(timers) == old(Entries(timers))
      ensures forall i :: 0 <= i < |old(timers)| && old(timers)[i] == target ==>
                var c := old(Entries(timers));
                Entries(timers) == if i == 0 then c[1..] else Heapified(c[..i] + c[i + 1..])
    {
      if heap == null || target == null {
        return;
      }
      ghost var q, c := timers, Entries(timers);
      if heap == target {
        TakeHead();
        return;
      }
      var parent: Timer := heap;
      var current := heap.next;
      ghost var k := 1;
      while current != null && current != target
        invariant 1 <= k <= |timers| && parent == timers[k - 1]
        invariant current == if k < |timers| then timers[k] else null
        invariant forall j :: 0 <= j < k ==> timers[j] != target
        decreases |timers| - k
      {
        parent := current;
        current := current.next;
        k := k + 1;
      }
      if current == null {
        return;
      }
      Bypass(parent, current, k);
      assert Entries(timers) == c[..k] + c[k + 1..];
      Heapify();
    }

    static lemma HeadMoves(fired: seq<Timer>, timers: seq<Timer>)
      requires timers != []
      ensures fired + timers == fired + [timers[0]] + timers[1..]
    {
    }

    static lemma EntriesSplit(q: seq<Timer>, fired: seq<Timer>, timers: seq<Timer>)
      requires q == fired + timers
      ensures fired == q[..|fired|] && timers == q[|fired|..]
      ensures Entries(fired) == Entries(q)[..|fired|] && Entries(timers) == Entries(q)[|fired|..]
    {
    }

    static lemma DueHead(q: seq<Entry>, now: int)
      requires q != [] && q[0].expire <= now
      ensures DueFront(q, now) == 1 + DueFront(q[1..], now)
    {
    }

    // The loop of executeTimers.
    method TakeDue(now: int) returns (fired: seq<Timer>)
      requires Valid()
      modifies this
      ensures Valid() && repr <= old(repr) && old(timers) == fired + timers
      ensures |fired| == DueFront(old(Entries(timers)), now)
    {
      fired := [];
      while heap != null && heap.expire <= now
        invariant Valid() && repr <= old(repr)
        invariant old(timers) == fired + timers
        invariant DueFront(old(Entries(timers)), now) == |fired| + DueFront(Entries(timers), now)
        decreases |timers|
      {
        var timer: Timer := heap;
        HeadMoves(fired, timers);
        DueHead(Entries(timers), now);
        fired := fired + [timer];
        TakeHead();
      }
    }

    // executeTimers, when the clock shows `now`; the callbacks of the timers in `fired` are called in that order.
    method ExecuteTimers(now: int) returns (fired: seq<Timer>)
      requires Valid()
      modifies this
      ensures Valid() && repr <= old(repr)
      ensures |fired| == DueFront(old(Entries(timers)), now)
      ensures fired == old(timers)[..|fired|] && timers == old(timers)[|fired|..]
      ensures Entries(fired) == old(Entries(timers))[..|fired|] && Entries(timers) == old(Entries(timers))[|fired|..]
    {
      ghost var q, c := timers, Entries(timers);
      fired := TakeDue(now);
      assert Entries(q) == c;
      EntriesSplit(q, fired, timers);
    }
  }
}
