// Whole runs of the red-black tree: any sequence of insertions and deletions from the empty tree.
module RbRuns {
  import opened RbNode
  import opened RbView
  import opened RbRules
  import opened RbOrder
  import opened RbTree

  datatype Op = Insert(key: int) | Delete(key: int)

  // The keys that should be stored after the operations.
  function Replay(ops: seq<Op>): multiset<int> {
    if ops == [] then multiset{}
    else Stepped(Replay(ops[..|ops| - 1]), ops[|ops| - 1])
  }

  lemma InsertedKeys(q: seq<Node>, q': seq<Node>, i: nat)
    requires i <= |q| && |q'| == |q| + 1 && q' == q[..i] + [q'[i]] + q[i..]
    ensures Keys(q') == Keys(q) + multiset{q'[i].key}
  {
    KeysAround(q[..i], q'[i], q[i..]);
    assert q == q[..i] + q[i..];
  }

  lemma DeletedKeys(q: seq<Node>, q': seq<Node>, i: nat)
    requires i < |q| && q' == q[..i] + q[i + 1..]
    ensures Keys(q') == Keys(q) - multiset{q[i].key}
  {
    KeysAround(q[..i], q[i], q[i + 1..]);
    assert q == q[..i] + [q[i]] + q[i + 1..];
  }

  lemma AbsentKey(q: seq<Node>, key: int)
    requires !HasKey(q, key)
    ensures Keys(q) - multiset{key} == Keys(q)
  {
    KeysHas(q, key);
  }

  function Stepped(keys: multiset<int>, op: Op): multiset<int> {
    match op
    case Insert(key) => keys + multiset{key}
    case Delete(key) => keys - multiset{key}
  }

  method Step(t: RbTree, op: Op)
    requires t.Valid()
    modifies t, t.repr
    ensures t.Valid() && fresh(t.repr - old(t.repr))
    ensures Keys(Inorder(t.view)) == Stepped(old(Keys(Inorder(t.view))), op)
  {
    ghost var q := Inorder(t.view);
    match op
    case Insert(key) =>
      t.InsertNode(key);
      InsertedKeys(q, Inorder(t.view), UpperBound(q, key));
    case Delete(key) =>
      ghost var i := Rank(t.view, key);
      var _ := t.DeleteNode(key, true);
      if HasKey(q, key) {
        DeletedKeys(q, Inorder(t.view), i);
      } else {
        AbsentKey(q, key);
      }
  }

  // No search in t calls itself more than 2 * log2(n + 1) times.
  ghost predicate Shallow(t: Tree) {
    forall key :: Pow2(SearchCalls(t, key) - 1) <= (|Inorder(t)| + 1) * (|Inorder(t)| + 1)
  }

  lemma RedBlackIsShallow(t: Tree)
    requires RedBlack(t)
    ensures Shallow(t)
  {
    forall key
      ensures Pow2(SearchCalls(t, key) - 1) <= (|Inorder(t)| + 1) * (|Inorder(t)| + 1)
    {
      SearchIsLogarithmic(t, key);
    }
  }

  // Every tree that operations can reach obeys the rules, holds exactly the keys it should, and is low.
  method Run(ops: seq<Op>) returns (t: RbTree)
    ensures fresh(t) && t.Valid() && Keys(Inorder(t.view)) == Replay(ops) && Shallow(t.view)
  {
    t := new RbTree();
    for n := 0 to |ops|
      invariant fresh(t) && fresh(t.repr) && t.Valid() && Keys(Inorder(t.view)) == Replay(ops[..n])
    {
      assert ops[..n + 1][..n] == ops[..n];
      Step(t, ops[n]);
    }
    assert ops[..|ops|] == ops;
    RedBlackIsShallow(t.view);
  }
}
