// What one pass of heapify in moudles/server/dm_timer.c makes of a list.
module TimerOrder {
  import opened TimerNode

  // The entries that are no earlier than `top` and than every entry before them.
  function Records(q: seq<Entry>, top: int): seq<Entry> {
    if q == [] then []
    else if q[0].expire < top then Records(q[1..], top)
    else [q[0]] + Records(q[1..], q[0].expire)
  }

  // The other entries.
  function Drops(q: seq<Entry>, top: int): seq<Entry> {
    if q == [] then []
    else if q[0].expire < top then [q[0]] + Drops(q[1..], top)
    else Drops(q[1..], q[0].expire)
  }

  function Reverse(q: seq<Entry>): (r: seq<Entry>)
    ensures |r| == |q|
  {
    if q == [] then [] else Reverse(q[1..]) + [q[0]]
  }

  // The reversed non-records, followed by the records, of a list with head `first`.
  function Pass(first: Entry, rest: seq<Entry>): seq<Entry> {
    Reverse(Drops(rest, first.expire)) + ([first] + Records(rest, first.expire))
  }

  function Heapified(q: seq<Entry>): seq<Entry> {
    if q == [] then [] else Pass(q[0], q[1..])
  }

  // What adding a timer to a list makes of it.
  function AddedTo(q: seq<Entry>, timer: Timer, deadline: int): seq<Entry> {
    Heapified(q + [Entry(timer, deadline)])
  }

  // What heapify will return once its `parent` has come to position k.
  function Partly(q: seq<Entry>, k: nat): seq<Entry>
    requires k < |q|
  {
    Reverse(Drops(q[k + 1..], q[k].expire)) + (q[..k + 1] + Records(q[k + 1..], q[k].expire))
  }

  lemma PartlyStart(q: seq<Entry>)
    requires q != []
    ensures Partly(q, 0) == Heapified(q)
  {
    assert q[..1] == [q[0]];
  }

  lemma PartlyEnd(q: seq<Entry>)
    requires q != []
    ensures Partly(q, |q| - 1) == q
  {
    assert q[|q|..] == [];
  }

  // q with its entry at position i in front.
  function Fronted(q: seq<Entry>, i: nat): seq<Entry>
    requires i < |q|
  {
    [q[i]] + q[..i] + q[i + 1..]
  }

  lemma FrontedIs(q: seq<Entry>, q': seq<Entry>, i: nat)
    requires i < |q| == |q'| && q'[0] == q[i]
    requires forall j :: 0 < j <= i ==> q'[j] == q[j - 1]
    requires forall j :: i < j < |q| ==> q'[j] == q[j]
    ensures q' == Fronted(q, i)
  {
  }

  lemma PartlyDrop(q: seq<Entry>, k: nat)
    requires k + 1 < |q| && q[k + 1].expire < q[k].expire
    ensures Partly(Fronted(q, k + 1), k + 1) == Partly(q, k)
  {
    var q', rest := Fronted(q, k + 1), q[k + 2..];
    assert q[k + 1..] == [q[k + 1]] + rest;
    assert q'[k + 1] == q[k] && q'[k + 2..] == rest && q'[..k + 2] == [q[k + 1]] + q[..k + 1];
    var d, m := Drops(rest, q[k].expire), q[k].expire;
    assert Drops(q[k + 1..], m) == [q[k + 1]] + d && ([q[k + 1]] + d)[1..] == d;
    Shift(Reverse(d), [q[k + 1]], q[..k + 1], Records(rest, m));
  }

  lemma PartlyKeep(q: seq<Entry>, k: nat)
    requires k + 1 < |q| && q[k + 1].expire >= q[k].expire
    ensures Partly(q, k + 1) == Partly(q, k)
  {
    var rest := q[k + 2..];
    assert q[k + 1..] == [q[k + 1]] + rest;
    assert q[..k + 2] == q[..k + 1] + [q[k + 1]];
    Shift([], q[..k + 1], [q[k + 1]], Records(rest, q[k + 1].expire));
  }

  lemma Shift(a: seq<Entry>, b: seq<Entry>, c: seq<Entry>, d: seq<Entry>)
    ensures a + ((b + c) + d) == (a + b) + (c + d)
  {
  }

  ghost predicate Ascending(q: seq<Entry>) {
    forall i, j :: 0 <= i < j < |q| ==> q[i].expire <= q[j].expire
  }

  // At least the last k entries have come to rest: they are in order, and nothing before them is later.
  ghost predicate Settled(q: seq<Entry>, k: nat) {
    k <= |q| && forall i, j :: 0 <= i < j < |q| && |q| - k <= j ==> q[i].expire <= q[j].expire
  }

  lemma {:induction false} ReverseBag(q: seq<Entry>)
    ensures multiset(Reverse(q)) == multiset(q)
  {
    if q != [] {
      assert q == [q[0]] + q[1..];
      ReverseBag(q[1..]);
    }
  }

  lemma {:induction false} SplitBag(q: seq<Entry>, top: int)
    ensures multiset(Drops(q, top)) + multiset(Records(q, top)) == multiset(q)
    ensures |Drops(q, top)| + |Records(q, top)| == |q|
  {
    if q != [] {
      assert q == [q[0]] + q[1..];
      SplitBag(q[1..], if q[0].expire < top then top else q[0].expire);
    }
  }

  lemma HeapifiedBag(q: seq<Entry>)
    ensures multiset(Heapified(q)) == multiset(q) && |Heapified(q)| == |q|
  {
    if q != [] {
      assert q == [q[0]] + q[1..];
      SplitBag(q[1..], q[0].expire);
      ReverseBag(Drops(q[1..], q[0].expire));
    }
  }

  // An ascending list is all records.
  lemma {:induction false} AscendingStays(q: seq<Entry>, top: int)
    requires Ascending(q) && forall e :: e in q ==> top <= e.expire
    ensures Records(q, top) == q && Drops(q, top) == []
  {
    if q != [] {
      AscendingStays(q[1..], q[0].expire);
    }
  }

  lemma HeapifiedAscending(q: seq<Entry>)
    requires Ascending(q)
    ensures Heapified(q) == q
  {
    if q != [] {
      AscendingStays(q[1..], q[0].expire);
    }
  }

  function Top(q: seq<Entry>, top: int): int {
    if q == [] then top else Top(q[1..], if q[0].expire < top then top else q[0].expire)
  }

  lemma {:induction false} SplitConcat(p: seq<Entry>, q: seq<Entry>, top: int)
    ensures Records(p + q, top) == Records(p, top) + Records(q, Top(p, top))
    ensures Drops(p + q, top) == Drops(p, top) + Drops(q, Top(p, top))
  {
    if p == [] {
      assert p + q == q;
    } else {
      assert (p + q)[0] == p[0] && (p + q)[1..] == p[1..] + q;
      SplitConcat(p[1..], q, if p[0].expire < top then top else p[0].expire);
    }
  }

  lemma {:induction false} TopIs(q: seq<Entry>, top: int)
    ensures top <= Top(q, top) && forall e :: e in q ==> e.expire <= Top(q, top)
    ensures Top(q, top) == var r := Records(q, top); if r == [] then top else r[|r| - 1].expire
    ensures Top(q, top) == top || exists e :: e in q && e.expire == Top(q, top)
  {
    if q != [] {
      TopIs(q[1..], if q[0].expire < top then top else q[0].expire);
    }
  }

  // Entries that are in order and no earlier than all before them stay where they are.
  lemma HeapifiedPrefix(a: seq<Entry>, s: seq<Entry>)
    requires a != [] && Ascending(s) && forall e, f :: e in a && f in s ==> e.expire <= f.expire
    ensures Heapified(a + s) == Heapified(a) + s
  {
    TopInside(a);
    PassPrefix(a[0], a[1..], s);
    assert (a + s)[0] == a[0] && (a + s)[1..] == a[1..] + s;
  }

  lemma PassPrefix(first: Entry, t: seq<Entry>, s: seq<Entry>)
    requires Ascending(s) && forall f :: f in s ==> Top(t, first.expire) <= f.expire
    ensures Pass(first, t + s) == Pass(first, t) + s
  {
    AscendingStays(s, Top(t, first.expire));
    SplitConcat(t, s, first.expire);
    assert Drops(t + s, first.expire) == Drops(t, first.expire);
    Regroup(Reverse(Drops(t, first.expire)), [first], Records(t, first.expire), s);
  }

  lemma Regroup(a: seq<Entry>, b: seq<Entry>, c: seq<Entry>, d: seq<Entry>)
    ensures a + (b + (c + d)) == (a + (b + c)) + d
  {
  }

  lemma TopInside(a: seq<Entry>)
    requires a != []
    ensures exists e :: e in a && e.expire == Top(a[1..], a[0].expire)
  {
    TopIs(a[1..], a[0].expire);
    assert a[0] in a;
    assert forall e :: e in a[1..] ==> e in a;
  }

  // heapify moves a latest entry to the end.
  lemma LastIsLatest(q: seq<Entry>)
    requires q != []
    ensures Heapified(q) != [] && forall e :: e in q ==> e.expire <= Heapified(q)[|Heapified(q)| - 1].expire
  {
    TopIs(q[1..], q[0].expire);
    assert q == [q[0]] + q[1..];
    var r := Records(q[1..], q[0].expire);
  }

  // Each pass brings at least one more entry to rest at the end.
  lemma PassSettles(q: seq<Entry>, k: nat)
    requires Settled(q, k) && k < |q|
    ensures Settled(Heapified(q), k + 1)
  {
    var a, s := q[..|q| - k], q[|q| - k..];
    assert q == a + s;
    HeapifiedPrefix(a, s);
    LastIsLatest(a);
    HeapifiedBag(a);
    SettledJoin(q, a, s, Heapified(a));
  }

  // A latest entry at the end of the first part, and nothing later in front than behind.
  lemma SettledJoin(q: seq<Entry>, a: seq<Entry>, s: seq<Entry>, h: seq<Entry>)
    requires q == a + s && Settled(q, |s|) && a != [] && multiset(h) == multiset(a) && |h| == |a|
    requires forall e :: e in a ==> e.expire <= h[|h| - 1].expire
    ensures Settled(h + s, |s| + 1)
  {
    forall i | 0 <= i < |h|
      ensures h[i] in a
    {
      assert h[i] in multiset(h);
    }
    forall i, j | 0 <= i < j < |h + s| && |h| - 1 <= j
      ensures (h + s)[i].expire <= (h + s)[j].expire
    {
      SettledPair(q, a, s, h, i, j);
    }
  }

  lemma SettledPair(q: seq<Entry>, a: seq<Entry>, s: seq<Entry>, h: seq<Entry>, i: nat, j: nat)
    requires q == a + s && Settled(q, |s|) && |h| == |a| && i < j < |h + s| && |h| - 1 <= j
    requires forall k :: 0 <= k < |h| ==> h[k] in a
    requires forall e :: e in a ==> e.expire <= h[|h| - 1].expire
    ensures (h + s)[i].expire <= (h + s)[j].expire
  {
    if j >= |h| {
      assert (h + s)[j] == q[j];
      if i < |h| {
        var k :| 0 <= k < |a| && a[k] == h[i];
        assert q[k] == a[k];
      } else {
        assert (h + s)[i] == q[i];
      }
    }
  }

  function Passes(q: seq<Entry>, n: nat): seq<Entry> {
    if n == 0 then q else Heapified(Passes(q, n - 1))
  }

  // As many passes as there are entries sort any list.
  lemma {:induction false} PassesSettle(q: seq<Entry>, n: nat)
    requires n <= |q|
    ensures Settled(Passes(q, n), n) && multiset(Passes(q, n)) == multiset(q) && |Passes(q, n)| == |q|
  {
    if n > 0 {
      PassesSettle(q, n - 1);
      OnePassMore(q, Passes(q, n - 1), n);
    }
  }

  lemma OnePassMore(q: seq<Entry>, p: seq<Entry>, n: nat)
    requires 0 < n <= |q| && Settled(p, n - 1) && multiset(p) == multiset(q) && |p| == |q|
    ensures Settled(Heapified(p), n) && multiset(Heapified(p)) == multiset(q) && |Heapified(p)| == |q|
  {
    PassSettles(p, n - 1);
    HeapifiedBag(p);
  }

  lemma PassesSort(q: seq<Entry>)
    ensures Ascending(Passes(q, |q|)) && multiset(Passes(q, |q|)) == multiset(q)
  {
    PassesSettle(q, |q|);
  }

  // Appending to an ascending list and heapifying puts the new entry at the end if nothing is later, and
  // at the front otherwise; so the list stays ascending exactly if the entry is no earlier than all
  // others, or no later.
  lemma AddedToAscending(q: seq<Entry>, e: Entry)
    requires Ascending(q)
    ensures Heapified(q + [e]) == if q == [] || q[|q| - 1].expire <= e.expire then q + [e] else [e] + q
    ensures Ascending(Heapified(q + [e])) <==> q == [] || q[|q| - 1].expire <= e.expire || e.expire <= q[0].expire
  {
    if q == [] || q[|q| - 1].expire <= e.expire {
      HeapifiedAscending(q + [e]);
    } else {
      AddedInFront(q, e);
      AscendingFront(q, e);
    }
  }

  lemma AddedInFront(q: seq<Entry>, e: Entry)
    requires Ascending(q) && q != [] && e.expire < q[|q| - 1].expire
    ensures Heapified(q + [e]) == [e] + q
  {
    LateInAscending(q, e);
    PassLate(q[0], q[1..], e);
    assert (q + [e])[0] == q[0] && (q + [e])[1..] == q[1..] + [e];
    assert [q[0]] + q[1..] == q;
  }

  lemma LateInAscending(q: seq<Entry>, e: Entry)
    requires Ascending(q) && q != [] && e.expire < q[|q| - 1].expire
    ensures Records(q[1..], q[0].expire) == q[1..] && Drops(q[1..], q[0].expire) == []
    ensures e.expire < Top(q[1..], q[0].expire)
  {
    TopIs(q[1..], q[0].expire);
    AscendingStays(q[1..], q[0].expire);
  }

  lemma PassLate(first: Entry, t: seq<Entry>, e: Entry)
    requires Records(t, first.expire) == t && Drops(t, first.expire) == [] && e.expire < Top(t, first.expire)
    ensures Pass(first, t + [e]) == [e] + ([first] + t)
  {
    SplitConcat(t, [e], first.expire);
    OneDrops(e, Top(t, first.expire));
  }

  lemma OneDrops(e: Entry, top: int)
    requires e.expire < top
    ensures Drops([e], top) == [e] && Records([e], top) == [] && Reverse([e]) == [e]
  {
    assert [e][1..] == [];
  }

  lemma AscendingFront(q: seq<Entry>, e: Entry)
    requires Ascending(q) && q != []
    ensures Ascending([e] + q) <==> e.expire <= q[0].expire
  {
    var q' := [e] + q;
    assert q'[0] == e && q'[1] == q[0];
    forall i, j | e.expire <= q[0].expire && 0 <= i < j < |q'|
      ensures q'[i].expire <= q'[j].expire
    {
      assert q'[j] == q[j - 1] && (i > 0 ==> q'[i] == q[i - 1]);
    }
  }

  // An ascending list stays ascending without one of its entries, and heapify leaves it alone.
  lemma RemovedFromAscending(q: seq<Entry>, i: nat)
    requires Ascending(q) && i < |q|
    ensures Ascending(q[..i] + q[i + 1..]) && Heapified(q[..i] + q[i + 1..]) == q[..i] + q[i + 1..]
  {
    var q' := q[..i] + q[i + 1..];
    forall j, k | 0 <= j < k < |q'|
      ensures q'[j].expire <= q'[k].expire
    {
      assert q'[j] == q[if j < i then j else j + 1] && q'[k] == q[if k < i then k else k + 1];
    }
    HeapifiedAscending(q');
  }

  // The entries at the front that are due.
  function DueFront(q: seq<Entry>, now: int): (n: nat)
    ensures n <= |q|
    ensures forall i :: 0 <= i < n ==> q[i].expire <= now
    ensures n < |q| ==> now < q[n].expire
  {
    if q == [] || now < q[0].expire then 0 else 1 + DueFront(q[1..], now)
  }

  // executeTimers, which stops at the first entry that is not due, fires everything that is due exactly
  // if no due entry stands behind one that is not.
  lemma FiresAllDue(q: seq<Entry>, now: int)
    ensures (forall e :: e in q[DueFront(q, now)..] ==> now < e.expire)
       <==> (forall i, j :: 0 <= i < j < |q| && q[j].expire <= now ==> q[i].expire <= now)
  {
    var n := DueFront(q, now);
    assert forall j :: n <= j < |q| ==> q[j] in q[n..];
  }

  // The shortest list that addTimer leaves with a due timer out of reach.
  lemma DueTimerMissed(t0: Timer, t1: Timer, t2: Timer)
    ensures var q := Heapified([Entry(t0, 1), Entry(t1, 5)] + [Entry(t2, 3)]);
            q == [Entry(t2, 3), Entry(t0, 1), Entry(t1, 5)] && DueFront(q, 1) == 0 && Entry(t0, 1) in q
  {
    AddedToAscending([Entry(t0, 1), Entry(t1, 5)], Entry(t2, 3));
  }
}
