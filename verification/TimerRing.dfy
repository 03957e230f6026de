// What addTimer of moudles/server/dm_timer.c does to a timer that is already in the list. The links are a map
// here, as what comes out is no list.
module TimerRing {
  type Name = nat

  // The variable heap, what `next` and `expire` hold, and the variables of heapify's loop; 0 is NULL.
  datatype State = State(heap: Name, next: map<Name, Name>, expire: map<Name, int>, parent: Name, current: Name)

  // The timers of a list, with NULL behind the last.
  predicate Linked(q: seq<Name>, next: map<Name, Name>) {
    && q != [] && (forall i, j :: 0 <= i < j < |q| ==> q[i] != q[j])
    && (forall i :: 0 <= i < |q| ==> q[i] != 0 && q[i] in next && next[q[i]] == if i + 1 < |q| then q[i + 1] else 0)
  }

  // The link of t stays inside the names.
  predicate Inside(names: set<Name>, s: State, t: Name) {
    t in s.next && t in s.expire && s.next[t] in names
  }

  // A set of timers that links do not lead out of; NULL is outside.
  predicate Closed(names: set<Name>, s: State) {
    && 0 !in names && s.heap in names && s.parent in names && s.current in names
    && (forall t {:trigger Inside(names, s, t)} :: t in names ==> Inside(names, s, t))
  }

  // One round of heapify's loop, whose guard is current != NULL.
  function Round(s: State): State
    requires s.current in s.next && s.current in s.expire && s.parent in s.next && s.parent in s.expire
  {
    if s.expire[s.current] < s.expire[s.parent] then
      var next' := s.next[s.parent := s.next[s.current]];
      s.(next := next'[s.current := s.heap], heap := s.current, current := next'[s.parent])
    else s.(parent := s.current, current := s.next[s.current])
  }

  lemma RoundStaysClosed(names: set<Name>, s: State)
    requires Closed(names, s)
    ensures Inside(names, s, s.parent) && Inside(names, s, s.current) && Closed(names, Round(s))
  {
    assert Inside(names, s, s.parent) && Inside(names, s, s.current);
    forall t | t in names
      ensures Inside(names, Round(s), t)
    {
      assert Inside(names, s, t);
    }
  }

  // The loop goes on for n more rounds.
  predicate GoesOn(s: State, n: nat)
    decreases n
  {
    && s.current != 0 && s.current in s.next && s.current in s.expire && s.parent in s.next && s.parent in s.expire
    && (n > 0 ==> GoesOn(Round(s), n - 1))
  }

  lemma {:induction false} ClosedGoesOn(names: set<Name>, s: State, n: nat)
    requires Closed(names, s)
    ensures GoesOn(s, n)
    decreases n
  {
    RoundStaysClosed(names, s);
    if n > 0 {
      ClosedGoesOn(names, Round(s), n - 1);
    }
  }

  // The n-th timer behind t.
  function Behind(next: map<Name, Name>, t: Name, n: nat): Name
    decreases n
  {
    if n == 0 || t !in next then t else Behind(next, next[t], n - 1)
  }

  // Once addTimer has cleared the link of the timer at place k, its walk to the end of the list, which stops at
  // the first link that is NULL, stops at that timer.
  lemma {:induction false} WalkStops(q: seq<Name>, next: map<Name, Name>, k: nat, i: nat)
    requires Linked(q, next) && i <= k < |q|
    ensures var cut := next[q[k] := 0];
            Behind(cut, q[i], k - i) == q[k] && (cut[q[i]] == 0 <==> i == k)
    decreases k - i
  {
    if i < k {
      WalkStops(q, next, k, i + 1);
    }
  }

  // Where heapify starts after the timer at place k has been filled in and linked behind itself.
  function AddedAgain(q: seq<Name>, next: map<Name, Name>, expire: map<Name, int>, k: nat, deadline: int): State
    requires Linked(q, next) && k < |q|
  {
    var links := next[q[k] := 0][q[k] := q[k]];
    State(q[0], links, expire[q[k] := deadline], q[0], links[q[0]])
  }

  // Adding a timer that is in the list already never returns: heapify's loop goes on for any
  // number of rounds.
  lemma AddedTwiceNeverReturns(q: seq<Name>, next: map<Name, Name>, expire: map<Name, int>, k: nat,
                               deadline: int, n: nat)
    requires Linked(q, next) && k < |q| && forall t :: t in q ==> t in expire
    ensures GoesOn(AddedAgain(q, next, expire, k, deadline), n)
  {
    var s, names := AddedAgain(q, next, expire, k, deadline), set i | 0 <= i <= k :: q[i];
    forall t | t in names
      ensures Inside(names, s, t)
    {
      var i :| 0 <= i <= k && q[i] == t;
      assert i < k ==> q[i + 1] in names;
    }
    assert q[0] in names;
    ClosedGoesOn(names, s, n);
  }
}
