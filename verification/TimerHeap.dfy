// The array min-heap of moudles/test/timer/timer.c.
module TimerHeap {
  import opened TimerEvent

  const CAPACITY := 1024

  function Parent(j: nat): nat
    requires j > 0
    ensures Parent(j) < j
  {
    (j - 1) / 2
  }

  ghost predicate Heap(v: seq<Event>) {
    forall j :: 0 < j < |v| ==> v[Parent(j)].timeout <= v[j].timeout
  }

  // The children of `hole` are no earlier than its parent.
  ghost predicate Bridged(v: seq<Event>, hole: nat) {
    forall j :: 0 < j < |v| && Parent(j) == hole && hole > 0 && Parent(hole) < |v| ==>
      v[Parent(hole)].timeout <= v[j].timeout
  }

  // A heap, except that `hole` may be earlier than its parent.
  ghost predicate HeapBut(v: seq<Event>, hole: nat) {
    (forall j :: 0 < j < |v| && j != hole ==> v[Parent(j)].timeout <= v[j].timeout) && Bridged(v, hole)
  }

  // A heap, except that `hole` may be later than its children.
  ghost predicate HeapAbove(v: seq<Event>, hole: nat) {
    (forall j :: 0 < j < |v| && Parent(j) != hole ==> v[Parent(j)].timeout <= v[j].timeout) && Bridged(v, hole)
  }

  // v with its entries at i and p exchanged.
  function Swapped(v: seq<Event>, i: nat, p: nat): seq<Event>
    requires i < |v| && p < |v|
  {
    v[i := v[p]][p := v[i]]
  }

  // The hole moves from i to p.
  lemma HoleMoved(q: seq<Event>, v: seq<Event>, i: nat, p: nat, event: Event)
    requires i < |q| && p < |q| && i != p && v == q[i := event]
    ensures q[i := q[p]][p := event] == Swapped(v, i, p)
  {
  }

  lemma SwapKeepsBag(v: seq<Event>, i: nat, p: nat)
    requires i < |v| && p < |v|
    ensures multiset(Swapped(v, i, p)) == multiset(v)
  {
  }

  // The entry at i rises past later parents.
  function Risen(v: seq<Event>, i: nat): seq<Event>
    requires i < |v|
    decreases i
  {
    if i == 0 || v[Parent(i)].timeout <= v[i].timeout then v else Risen(Swapped(v, i, Parent(i)), Parent(i))
  }

  lemma RisenStep(v: seq<Event>, i: nat)
    requires i < |v|
    ensures i > 0 && v[Parent(i)].timeout > v[i].timeout ==> Risen(v, i) == Risen(Swapped(v, i, Parent(i)), Parent(i))
    ensures i == 0 || v[Parent(i)].timeout <= v[i].timeout ==> Risen(v, i) == v
  {
  }

  lemma Rise(v: seq<Event>, i: nat)
    requires 0 < i < |v| && HeapBut(v, i) && v[Parent(i)].timeout > v[i].timeout
    ensures HeapBut(Swapped(v, i, Parent(i)), Parent(i))
  {
    var p, u := Parent(i), Swapped(v, i, Parent(i));
    forall j | 0 < j < |u|
      ensures j != p ==> u[Parent(j)].timeout <= u[j].timeout
      ensures Parent(j) == p && p > 0 ==> u[Parent(p)].timeout <= u[j].timeout
    {
      assert j != i ==> v[Parent(j)].timeout <= v[j].timeout;
      assert p > 0 ==> v[Parent(p)].timeout <= v[p].timeout;
    }
  }

  lemma {:induction false} RisenHeap(v: seq<Event>, i: nat)
    requires i < |v| && HeapBut(v, i)
    ensures Heap(Risen(v, i)) && multiset(Risen(v, i)) == multiset(v) && |Risen(v, i)| == |v|
    decreases i
  {
    if i > 0 && v[Parent(i)].timeout > v[i].timeout {
      Rise(v, i);
      SwapKeepsBag(v, i, Parent(i));
      RisenHeap(Swapped(v, i, Parent(i)), Parent(i));
    }
  }

  // The earlier child of i, the left one on a tie.
  function EarlierChild(v: seq<Event>, i: nat): (a: nat)
    requires 2 * i + 1 < |v|
    ensures i < a < |v|
  {
    if 2 * i + 2 < |v| && v[2 * i + 2].timeout < v[2 * i + 1].timeout then 2 * i + 2 else 2 * i + 1
  }

  // The entry at i sinks past earlier children.
  function Sunk(v: seq<Event>, i: nat): seq<Event>
    requires i < |v|
    decreases |v| - i
  {
    if 2 * i + 1 >= |v| || v[EarlierChild(v, i)].timeout >= v[i].timeout then v
    else Sunk(Swapped(v, i, EarlierChild(v, i)), EarlierChild(v, i))
  }

  lemma SunkStep(v: seq<Event>, i: nat)
    requires i < |v|
    ensures 2 * i + 1 < |v| && v[EarlierChild(v, i)].timeout < v[i].timeout ==>
              Sunk(v, i) == Sunk(Swapped(v, i, EarlierChild(v, i)), EarlierChild(v, i))
    ensures 2 * i + 1 >= |v| || v[EarlierChild(v, i)].timeout >= v[i].timeout ==> Sunk(v, i) == v
  {
  }

  lemma Sink(v: seq<Event>, i: nat)
    requires HeapAbove(v, i) && 2 * i + 1 < |v| && v[EarlierChild(v, i)].timeout < v[i].timeout
    ensures HeapAbove(Swapped(v, i, EarlierChild(v, i)), EarlierChild(v, i))
  {
    var a, u := EarlierChild(v, i), Swapped(v, i, EarlierChild(v, i));
    forall j | 0 < j < |u|
      ensures Parent(j) != a ==> u[Parent(j)].timeout <= u[j].timeout
      ensures Parent(j) == a ==> u[Parent(a)].timeout <= u[j].timeout
    {
      SinkAt(v, i, j);
    }
  }

  lemma SinkAt(v: seq<Event>, i: nat, j: nat)
    requires HeapAbove(v, i) && 2 * i + 1 < |v| && v[EarlierChild(v, i)].timeout < v[i].timeout && 0 < j < |v|
    ensures var (a, u) := (EarlierChild(v, i), Swapped(v, i, EarlierChild(v, i)));
            && (Parent(j) != a ==> u[Parent(j)].timeout <= u[j].timeout)
            && (Parent(j) == a ==> u[Parent(a)].timeout <= u[j].timeout)
  {
    assert Parent(j) != i ==> v[Parent(j)].timeout <= v[j].timeout;
    assert Parent(j) == i ==> v[EarlierChild(v, i)].timeout <= v[j].timeout;
  }

  lemma {:induction false} SunkHeap(v: seq<Event>, i: nat)
    requires i < |v| && HeapAbove(v, i)
    ensures Heap(Sunk(v, i)) && multiset(Sunk(v, i)) == multiset(v) && |Sunk(v, i)| == |v|
    decreases |v| - i
  {
    if 2 * i + 1 < |v| && v[EarlierChild(v, i)].timeout < v[i].timeout {
      Sink(v, i);
      SwapKeepsBag(v, i, EarlierChild(v, i));
      SunkHeap(Swapped(v, i, EarlierChild(v, i)), EarlierChild(v, i));
    }
  }

  lemma Appended(q: seq<Event>, event: Event)
    requires Heap(q)
    ensures HeapBut(q + [event], |q|) && multiset(q + [event]) == multiset(q) + multiset{event}
  {
  }

  lemma Pushed(q: seq<Event>, event: Event, v: seq<Event>)
    requires Heap(q) && v == Risen(q + [event], |q|)
    ensures Heap(v) && multiset(v) == multiset(q) + multiset{event} && |v| == |q| + 1
  {
    Appended(q, event);
    RisenHeap(q + [event], |q|);
  }

  // Writing the last entry over the first takes exactly the first out of a heap.
  lemma LastOverFirst(q: seq<Event>)
    requires Heap(q) && q != []
    ensures multiset(q) == (if |q| == 1 then multiset{} else multiset(q[..|q| - 1][0 := q[|q| - 1]])) + multiset{q[0]}
    ensures |q| > 1 ==> HeapAbove(q[..|q| - 1][0 := q[|q| - 1]], 0)
  {
    var n := |q| - 1;
    if n == 0 {
      assert q == [q[0]];
    } else {
      assert q == [q[0]] + q[1..n] + [q[n]];
      assert q[..n][0 := q[n]] == [q[n]] + q[1..n];
    }
  }

  lemma {:induction false} TopIsEarliest(v: seq<Event>, j: nat)
    requires Heap(v) && j < |v|
    ensures v[0].timeout <= v[j].timeout
  {
    if j > 0 {
      TopIsEarliest(v, Parent(j));
    }
  }

  class MinHeap {
    var events: array<Event>
    var size: nat

    ghost predicate Valid()
      reads this, events
    {
      events.Length == CAPACITY && size <= CAPACITY && Heap(events[..size])
    }

    ghost function Pending(): multiset<Event>
      reads this, events
      requires Valid()
    {
      multiset(events[..size])
    }

    constructor ()
      ensures Valid() && size == 0 && fresh(events)
    {
      events := new Event[CAPACITY];
      size := 0;
    }

    // The loop of min_heap_push: a hole moves up from the end until the event fits.
    method FillFromBelow(event: Event)
      requires events.Length == CAPACITY && 0 < size <= CAPACITY
      modifies events
      ensures events[..size] == Risen(old(events[..size - 1]) + [event], size - 1)
    {
      var i := size - 1;
      ghost var v := events[..size - 1] + [event];
      ghost var risen := Risen(v, size - 1);
      while i > 0
        invariant 0 <= i < size == |v|
        invariant Risen(v, i) == risen
        invariant events[..size][i := event] == v
      {
        var p := Parent(i);
        RisenStep(v, i);
        if events[p].timeout <= event.timeout {
          break;
        }
        HoleMoved(events[..size], v, i, p, event);
        ghost var q := events[..size];
        events[i] := events[p];
        assert events[..size] == q[i := q[p]];
        v := Swapped(v, i, p);
        i := p;
      }
      RisenStep(v, i);
      events[i] := event;
      assert events[..size] == v;
    }

    method Push(event: Event)
      requires Valid() && size < CAPACITY
      modifies this`size, events
      ensures Valid() && Pending() == old(Pending()) + multiset{event}
      ensures size == old(size) + 1
    {
      ghost var q := events[..size];
      size := size + 1;
      assert q == events[..size - 1];
      FillFromBelow(event);
      Pushed(q, event, events[..size]);
    }

    // The loop of min_heap_pop: a hole moves down from the top until the event fits.
    method FillFromAbove(event: Event)
      requires events.Length == CAPACITY && 0 < size <= CAPACITY
      modifies events
      ensures events[..size] == Sunk(old(events[..size])[0 := event], 0)
    {
      var i := 0;
      ghost var v := events[..size][0 := event];
      ghost var sunk := Sunk(v, 0);
      while i * 2 + 1 < size
        invariant 0 <= i < size == |v|
        invariant Sunk(v, i) == sunk
        invariant events[..size][i := event] == v
        decreases size - i
      {
        var a, b := i * 2 + 1, i * 2 + 2;
        if b < size && events[b].timeout < events[a].timeout {
          a := b;
        }
        assert a == EarlierChild(v, i);
        SunkStep(v, i);
        if events[a].timeout >= event.timeout {
          break;
        }
        HoleMoved(events[..size], v, i, a, event);
        ghost var q := events[..size];
        events[i] := events[a];
        assert events[..size] == q[i := q[a]];
        v := Swapped(v, i, a);
        i := a;
      }
      SunkStep(v, i);
      events[i] := event;
      assert events[..size] == v;
    }

    method Pop()
      requires Valid() && size > 0
      modifies this`size, events
      ensures Valid() && size == old(size) - 1
      ensures old(Pending()) == Pending() + multiset{old(events[0])}
    {
      ghost var q := events[..size];
      size := size - 1;
      var event := events[size];
      LastOverFirst(q);
      assert q[..|q| - 1] == events[..size];
      if size == 0 {
        events[0] := event;
      } else {
        FillFromAbove(event);
        SunkHeap(q[..|q| - 1][0 := event], 0);
      }
    }

    method HandleEvents(now: int) returns (fired: seq<Event>)
      requires Valid()
      modifies this`size, events
      ensures Valid() && size <= old(size)
      ensures old(Pending()) == multiset(fired) + Pending()
      ensures Ascending(fired) && (forall e :: e in fired ==> e.timeout <= now)
      ensures forall e :: e in Pending() ==> now < e.timeout
    {
      fired := [];
      while size > 0 && events[0].timeout <= now
        invariant Valid() && size <= old(size)
        invariant old(Pending()) == multiset(fired) + Pending()
        invariant Ascending(fired) && (forall e :: e in fired ==> e.timeout <= now)
        invariant forall e, f :: e in fired && f in Pending() ==> e.timeout <= f.timeout
        decreases size
      {
        ghost var pending := Pending();
        var event := PopFirst();
        FiredOn(fired, event, pending, Pending());
        fired := fired + [event];
      }
      EarliestPending();
    }

    lemma EarliestPending()
      requires Valid()
      ensures forall e :: e in Pending() ==> size > 0 && events[0].timeout <= e.timeout
    {
      forall e | e in Pending()
        ensures size > 0 && events[0].timeout <= e.timeout
      {
        var j :| 0 <= j < size && events[..size][j] == e;
        TopIsEarliest(events[..size], j);
      }
    }

    method PopFirst() returns (event: Event)
      requires Valid() && size > 0
      modifies this`size, events
      ensures Valid() && size == old(size) - 1 && event == old(events[0])
      ensures old(Pending()) == Pending() + multiset{event}
      ensures forall f :: f in old(Pending()) ==> event.timeout <= f.timeout
    {
      event := events[0];
      EarliestPending();
      Pop();
    }

    static lemma FiredOn(fired: seq<Event>, event: Event, before: multiset<Event>, after: multiset<Event>)
      requires Ascending(fired) && before == after + multiset{event}
      requires forall e, f :: e in fired && f in before ==> e.timeout <= f.timeout
      requires forall f :: f in before ==> event.timeout <= f.timeout
      ensures multiset(fired + [event]) + after == multiset(fired) + before && Ascending(fired + [event])
      ensures forall e, f :: e in fired + [event] && f in after ==> e.timeout <= f.timeout
    {
      assert event in before && forall f :: f in after ==> f in before;
      assert forall i :: 0 <= i < |fired| ==> fired[i] in fired;
    }

    // add_timer, when the clock shows `now`.
    method AddTimer(now: int, timeout: int, callback: nat)
      requires Valid() && size < CAPACITY
      modifies this`size, events
      ensures Valid() && size == old(size) + 1
      ensures Pending() == old(Pending()) + multiset{Event(now + timeout, callback)}
    {
      Push(Event(now + timeout, callback));
    }
  }
}
