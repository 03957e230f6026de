// Keys in symmetric order: where a search goes and where an insertion lands.
module RbOrder {
  import opened RbNode
  import opened RbView

  ghost predicate Sorted(q: seq<Node>) {
    forall i, j :: 0 <= i < j < |q| ==> q[i].key <= q[j].key
  }

  ghost predicate NoneAbove(q: seq<Node>, key: int) {
    forall i :: 0 <= i < |q| ==> q[i].key <= key
  }

  ghost predicate AllAbove(q: seq<Node>, key: int) {
    forall i :: 0 <= i < |q| ==> key < q[i].key
  }

  // How many of the leading keys are at most `key`; in a sorted sequence, all that are.
  function UpperBound(q: seq<Node>, key: int): (i: nat)
    ensures i <= |q|
  {
    if q == [] || key < q[0].key then 0 else 1 + UpperBound(q[1..], key)
  }

  lemma {:induction false} UpperBoundIs(lo: seq<Node>, hi: seq<Node>, key: int)
    requires NoneAbove(lo, key) && AllAbove(hi, key)
    ensures UpperBound(lo + hi, key) == |lo|
  {
    if lo == [] {
      assert lo + hi == hi;
    } else {
      assert (lo + hi)[0] == lo[0] && (lo + hi)[1..] == lo[1..] + hi;
      UpperBoundIs(lo[1..], hi, key);
    }
  }

  // Everything outside the hole is on the side where a search for `key` would not look.
  ghost predicate Aims(c: Ctx, key: int) {
    NoneAbove(Before(c), key) && AllAbove(After(c), key)
  }

  lemma SortedParts(a: seq<Node>, n: Node, b: seq<Node>)
    requires Sorted(a + [n] + b)
    ensures Sorted(a) && Sorted(b)
    ensures forall i :: 0 <= i < |a| ==> a[i].key <= n.key
    ensures forall i :: 0 <= i < |b| ==> n.key <= b[i].key
  {
    var q := a + [n] + b;
    assert q[|a|] == n;
    assert forall i :: 0 <= i < |a| ==> a[i] == q[i];
    assert forall i :: 0 <= i < |b| ==> b[i] == q[|a| + 1 + i];
  }

  // One step down of insertNode's search.
  lemma Descend(c: Ctx, t: Tree, key: int)
    requires t.Fork? && Sorted(Inorder(t)) && Aims(c, key)
    ensures Sorted(Inorder(t.left)) && Sorted(Inorder(t.right))
    ensures key < t.node.key ==> Aims(Under(c, L, t.node, t.color, t.right), key)
    ensures key >= t.node.key ==> Aims(Under(c, R, t.node, t.color, t.left), key)
  {
    SortedParts(Inorder(t.left), t.node, Inorder(t.right));
    if key < t.node.key {
      AllAboveJoin([t.node] + Inorder(t.right), After(c), key);
    } else {
      NoneAboveJoin(Before(c), Inorder(t.left) + [t.node], key);
    }
  }

  lemma AllAboveJoin(a: seq<Node>, b: seq<Node>, key: int)
    ensures AllAbove(a + b, key) <==> AllAbove(a, key) && AllAbove(b, key)
  {
    var q := a + b;
    assert (forall i :: 0 <= i < |a| ==> a[i] == q[i]) && (forall i :: 0 <= i < |b| ==> b[i] == q[|a| + i]);
  }

  lemma NoneAboveJoin(a: seq<Node>, b: seq<Node>, key: int)
    ensures NoneAbove(a + b, key) <==> NoneAbove(a, key) && NoneAbove(b, key)
  {
    var q := a + b;
    assert (forall i :: 0 <= i < |a| ==> a[i] == q[i]) && (forall i :: 0 <= i < |b| ==> b[i] == q[|a| + i]);
  }

  // A sorted sequence stays sorted with a key put behind all that are not above it.
  lemma SortedInsert(lo: seq<Node>, n: Node, hi: seq<Node>)
    requires Sorted(lo + hi) && NoneAbove(lo, n.key) && AllAbove(hi, n.key)
    ensures Sorted(lo + [n] + hi)
  {
    var q, q' := lo + hi, lo + [n] + hi;
    forall i, j | 0 <= i < j < |q'|
      ensures q'[i].key <= q'[j].key
    {
      if i < |lo| < j {
        assert q'[i] == q[i] && q'[j] == q[j - 1];
      } else if j < |lo| {
        assert q'[i] == q[i] && q'[j] == q[j];
      } else if i > |lo| {
        assert q'[i] == q[i - 1] && q'[j] == q[j - 1];
      }
    }
  }

  predicate HasKey(q: seq<Node>, key: int) {
    exists i :: 0 <= i < |q| && q[i].key == key
  }

  // A search finds a key exactly if it is stored, wherever rotations have put equal keys.
  lemma {:induction false} FoundIffStored(t: Tree, key: int)
    requires Sorted(Inorder(t))
    ensures Found(t, key).Fork? <==> HasKey(Inorder(t), key)
  {
    if t.Fork? {
      var a, b, q := Inorder(t.left), Inorder(t.right), Inorder(t);
      SortedParts(a, t.node, b);
      FoundIffStored(t.left, key);
      FoundIffStored(t.right, key);
      assert q[|a|] == t.node;
      assert forall i :: 0 <= i < |a| ==> q[i] == a[i];
      assert forall i :: 0 <= i < |b| ==> q[|a| + 1 + i] == b[i];
      assert forall i :: |a| < i < |q| ==> q[i] == b[i - |a| - 1];
    }
  }

  // The place in symmetric order of the node that a search for `key` finds.
  function Rank(t: Tree, key: int): nat {
    |Before(FoundCtx(Top, t, key))| + if Found(t, key).Leaf? then 0 else |Inorder(Found(t, key).left)|
  }

  lemma RankAt(t: Tree, key: int)
    requires Found(t, key).Fork?
    ensures var c, f, i := FoundCtx(Top, t, key), Found(t, key), Rank(t, key);
            && i < |Inorder(t)| && Inorder(t)[i] == f.node && f.node.key == key
            && Inorder(t)[..i] == Before(c) + Inorder(f.left)
            && Inorder(t)[i + 1..] == Inorder(f.right) + After(c)
  {
    var c, f := FoundCtx(Top, t, key), Found(t, key);
    FoundAt(Top, t, key);
    InorderPlug(c, f);
    Around(Before(c), Inorder(f.left), f.node, Inorder(f.right), After(c));
  }

  lemma Around(a: seq<Node>, b: seq<Node>, n: Node, d: seq<Node>, e: seq<Node>)
    ensures var q := a + (b + [n] + d) + e;
            q[|a| + |b|] == n && q[..|a| + |b|] == a + b && q[|a| + |b| + 1..] == d + e
  {
    assert a + (b + [n] + d) + e == (a + b) + [n] + (d + e);
  }

  lemma SortedRemove(lo: seq<Node>, n: Node, hi: seq<Node>)
    requires Sorted(lo + [n] + hi)
    ensures Sorted(lo + hi)
  {
    var q, q' := lo + [n] + hi, lo + hi;
    forall i, j | 0 <= i < j < |q'|
      ensures q'[i].key <= q'[j].key
    {
      assert q'[i] == q[if i < |lo| then i else i + 1];
      assert q'[j] == q[if j < |lo| then j else j + 1];
    }
  }

  lemma SortedWithout(q: seq<Node>, i: nat)
    requires Sorted(q) && i < |q|
    ensures Sorted(q[..i] + q[i + 1..])
  {
    assert q == q[..i] + [q[i]] + q[i + 1..];
    SortedRemove(q[..i], q[i], q[i + 1..]);
  }

  function Keys(q: seq<Node>): multiset<int> {
    if q == [] then multiset{} else multiset{q[0].key} + Keys(q[1..])
  }

  lemma {:induction false} KeysSplit(a: seq<Node>, b: seq<Node>)
    ensures Keys(a + b) == Keys(a) + Keys(b)
  {
    if a == [] {
      assert a + b == b;
    } else {
      assert (a + b)[0] == a[0] && (a + b)[1..] == a[1..] + b;
      KeysSplit(a[1..], b);
    }
  }

  lemma KeysAround(a: seq<Node>, n: Node, b: seq<Node>)
    ensures Keys(a + [n] + b) == Keys(a + b) + multiset{n.key}
  {
    KeysSplit(a + [n], b);
    KeysSplit(a, [n]);
    KeysSplit(a, b);
    assert [n][1..] == [];
    assert Keys([n]) == multiset{n.key} + multiset{};
  }

  lemma {:induction false} KeysHas(q: seq<Node>, key: int)
    ensures key in Keys(q) <==> HasKey(q, key)
  {
    if q != [] {
      KeysHas(q[1..], key);
      assert forall i :: 0 < i < |q| ==> q[i] == q[1..][i - 1];
      assert forall i :: 0 <= i < |q[1..]| ==> q[1..][i] == q[i + 1];
    }
  }
}
