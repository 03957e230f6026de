// What each pointer manipulation of moudles/test/rbtree.c does to the tree a store lays out.
module RbSteps {
  import opened RbNode
  import opened RbView

  // Every node of s keeps its fields in s', except possibly the four named.
  ghost predicate Elsewhere(s: Store, s': Store, w: Node?, x: Node?, y: Node?, z: Node?) {
    forall n :: n in s && n != w && n != x && n != y && n != z ==> n in s' && s'[n] == s[n]
  }

  // Every node of s keeps its fields in s', except possibly the five named.
  ghost predicate Beyond(s: Store, s': Store, v: Node?, w: Node?, x: Node?, y: Node?, z: Node?) {
    forall n :: n in s && n != v && n != w && n != x && n != y && n != z ==> n in s' && s'[n] == s[n]
  }

  // The context around a hole whose filler changed, when nothing else in the context did.
  lemma RefillApart(s: Store, s': Store, root: Node?, root': Node?, c: Ctx, hole: Node?, hole': Node?,
                    w: Node?, x: Node?, y: Node?, z: Node?)
    requires LaysCtx(s, root, c, hole) && CtxApart(c)
    requires w !in CtxNodes(c) && x !in CtxNodes(c) && y !in CtxNodes(c) && z !in CtxNodes(c)
    requires c.Under? ==> c.node in s' && s'[c.node] == CellOf(c.side, c.color, hole', RootOf(c.sib), CtxNode(c.up))
    requires root' == if c.Top? then hole' else root
    requires Beyond(s, s', CtxNode(c), w, x, y, z)
    ensures LaysCtx(s', root', c, hole')
  {
    Refill(s, s', root, root', c, hole, hole');
  }

  // The fields of the node in focus.
  lemma Focus(s: Store, root: Node?, c: Ctx, t: Tree)
    requires Whole(s, root, Plug(c, t))
    ensures t.Fork? ==> t.node in s && s[t.node] == Cell(t.color, RootOf(t.left), RootOf(t.right), CtxNode(c))
    ensures t.Fork? ==> (t.node == root <==> c.Top?)
    ensures c.Under? ==> c.node in s
    ensures c.Under? ==> s[c.node] == CellOf(c.side, c.color, RootOf(t), RootOf(c.sib), CtxNode(c.up))
    ensures c.Under? && t.Fork? ==> RootOf(c.sib) != t.node
    ensures c.Top? ==> root == RootOf(t)
    ensures root == null ==> c.Top? && t.Leaf?
  {
    Split(s, root, c, t);
    NodesPlug(c, t);
    OuterInCtx(s, root, c, RootOf(t));
    if c.Under? && c.sib.Fork? {
      assert c.sib.node in CtxNodes(c);
    }
  }

  lemma {:induction false} OuterInCtx(s: Store, root: Node?, c: Ctx, hole: Node?)
    requires LaysCtx(s, root, c, hole)
    ensures c.Under? ==> root != null && root in CtxNodes(c)
    decreases c
  {
    if c.Under? {
      OuterInCtx(s, root, c.up, c.node);
    }
  }

  // The fields of a node, its parent, its grandparent and its uncle.
  lemma Family(s: Store, root: Node?, c: Ctx, t: Tree)
    requires Whole(s, root, Plug(c, t)) && t.Fork? && c.Under? && c.up.Under?
    ensures t.node in s && s[t.node].parent == c.node
    ensures c.node in s && s[c.node] == CellOf(c.side, c.color, t.node, RootOf(c.sib), c.up.node)
    ensures RootOf(c.sib) != t.node
    ensures c.up.node in s
    ensures s[c.up.node] == CellOf(c.up.side, c.up.color, c.node, RootOf(c.up.sib), CtxNode(c.up.up))
    ensures RootOf(c.up.sib) != c.node
    ensures c.up.sib.Fork? ==> c.up.sib.node in s && s[c.up.sib.node].color == c.up.sib.color
  {
    Focus(s, root, c, t);
    Focus(s, root, c.up, Up(c, t));
    var k := c.up;
    Focus(s, root, Under(k.up, Other(k.side), k.node, k.color, Up(c, t)), k.sib);
  }

  // The sibling of the hole, seen as a place of its own.
  function SibCtx(c: Ctx, t: Tree): (d: Ctx)
    requires c.Under?
    ensures Plug(d, c.sib) == Plug(c, t)
  {
    Under(c.up, Other(c.side), c.node, c.color, t)
  }

  // The fields of the parent of a hole, of the sibling, and of the sibling's children.
  lemma Siblings(s: Store, root: Node?, c: Ctx, t: Tree)
    requires Whole(s, root, Plug(c, t)) && c.Under? && c.sib.Fork?
    ensures c.node in s && s[c.node] == CellOf(c.side, c.color, RootOf(t), c.sib.node, CtxNode(c.up))
    ensures c.sib.node in s && s[c.sib.node] == Cell(c.sib.color, RootOf(c.sib.left), RootOf(c.sib.right), c.node)
    ensures c.sib.left.Fork? ==> c.sib.left.node in s && s[c.sib.left.node].color == c.sib.left.color
    ensures c.sib.right.Fork? ==> c.sib.right.node in s && s[c.sib.right.node].color == c.sib.right.color
    ensures RootOf(t) != c.sib.node
    ensures t.Fork? ==> t.node in s && s[t.node].parent == c.node && s[t.node].color == t.color
  {
    Focus(s, root, c, t);
    var d := SibCtx(c, t);
    Focus(s, root, d, c.sib);
    Focus(s, root, Under(d, L, c.sib.node, c.sib.color, c.sib.right), c.sib.left);
    Focus(s, root, Under(d, R, c.sib.node, c.sib.color, c.sib.left), c.sib.right);
  }

  // n->color = color
  lemma Painted(s: Store, s': Store, root: Node?, c: Ctx, t: Tree, color: Color)
    requires Whole(s, root, Plug(c, t)) && t.Fork?
    requires t.node in s && t.node in s' && s'[t.node] == s[t.node].(color := color)
    requires Elsewhere(s, s', t.node, t.node, t.node, t.node)
    ensures Whole(s', root, Plug(c, t.(color := color)))
    ensures Inorder(Plug(c, t.(color := color))) == Inorder(Plug(c, t))
  {
    var t' := t.(color := color);
    Split(s, root, c, t);
    NodesPlug(c, t);
    CtxFrame(s, s', root, c, t.node);
    TreeFrame(s, s', t.left, t.node);
    TreeFrame(s, s', t.right, t.node);
    Join(s', root, c, t');
    NodesPlug(c, t);
    NodesPlug(c, t');
    InorderPlug(c, t);
    InorderPlug(c, t');
  }

  // A new red node hung into the hole of c.
  lemma Hung(s: Store, s': Store, root: Node?, root': Node?, c: Ctx, z: Node)
    requires Whole(s, root, Plug(c, Leaf)) && z !in Nodes(Plug(c, Leaf))
    requires z in s' && s'[z] == Cell(Red, null, null, CtxNode(c))
    requires c.Under? ==> c.node in s' && s'[c.node] == CellOf(c.side, c.color, z, RootOf(c.sib), CtxNode(c.up))
    requires root' == if c.Top? then z else root
    requires Elsewhere(s, s', z, CtxNode(c), z, z)
    ensures Whole(s', root', Plug(c, Fork(Leaf, z, Red, Leaf)))
    ensures Inorder(Plug(c, Fork(Leaf, z, Red, Leaf))) == Before(c) + [z] + After(c)
    ensures Nodes(Plug(c, Fork(Leaf, z, Red, Leaf))) == Nodes(Plug(c, Leaf)) + {z}
  {
    Split(s, root, c, Leaf);
    NodesPlug(c, Leaf);
    NodesPlug(c, Fork(Leaf, z, Red, Leaf));
    RefillApart(s, s', root, root', c, null, z, z, z, z, z);
    HungPieces(c, z);
    Join(s', root', c, Fork(Leaf, z, Red, Leaf));
  }

  lemma HungPieces(c: Ctx, z: Node)
    ensures Inorder(Plug(c, Fork(Leaf, z, Red, Leaf))) == Before(c) + [z] + After(c)
    ensures Nodes(Plug(c, Fork(Leaf, z, Red, Leaf))) == Nodes(Plug(c, Leaf)) + {z}
  {
    var t := Fork(Leaf, z, Red, Leaf);
    NodesPlug(c, Leaf);
    NodesPlug(c, t);
    InorderPlug(c, t);
    assert Inorder(t) == [z];
  }

  // The links around a node that is about to be spliced out.
  lemma SpliceLinks(s: Store, root: Node?, c: Ctx, t: Tree, w: Tree)
    requires Whole(s, root, Plug(c, t)) && t.Fork?
    requires (t.left.Leaf? && w == t.right) || (t.right.Leaf? && w == t.left)
    ensures t.node in s && s[t.node].parent == CtxNode(c) && CtxNode(c) != t.node
    ensures w.Fork? ==> w.node in s && w.node != CtxNode(c) && w.node != t.node
    ensures c.Under? ==> c.node in s
    ensures c.Under? ==>
              s[c.node] == CellOf(c.side, c.color, t.node, RootOf(c.sib), CtxNode(c.up)) && RootOf(c.sib) != t.node
  {
    Focus(s, root, c, t);
    Split(s, root, c, t);
    NodesPlug(c, t);
    OneChild(s, t, w, CtxNode(c));
    assert c.Under? ==> c.node in CtxNodes(c);
    assert w.Fork? ==> w.node in Nodes(w);
  }

  // transplant(u, w), where t has root u and w is its only child, or empty.
  lemma Excised(s: Store, s': Store, root: Node?, root': Node?, c: Ctx, t: Tree, w: Tree)
    requires Whole(s, root, Plug(c, t)) && t.Fork?
    requires (t.left.Leaf? && w == t.right) || (t.right.Leaf? && w == t.left)
    requires w.Fork? ==> w.node in s && w.node in s' && s'[w.node] == s[w.node].(parent := CtxNode(c))
    requires c.Under? ==> c.node in s' && s'[c.node] == CellOf(c.side, c.color, RootOf(w), RootOf(c.sib), CtxNode(c.up))
    requires root' == if c.Top? then RootOf(w) else root
    requires Elsewhere(s, s', RootOf(w), CtxNode(c), RootOf(w), RootOf(w))
    ensures Whole(s', root', Plug(c, w))
    ensures Nodes(Plug(c, w)) == Nodes(Plug(c, t)) - {t.node}
  {
    Split(s, root, c, t);
    ExcisedApart(s, c, t, w);
    ExcisedPieces(s, s', root, root', c, t.node, w);
    Join(s', root', c, w);
  }

  lemma ExcisedApart(s: Store, c: Ctx, t: Tree, w: Tree)
    requires Apart(Plug(c, t)) && t.Fork? && Lays(s, t, CtxNode(c))
    requires (t.left.Leaf? && w == t.right) || (t.right.Leaf? && w == t.left)
    ensures Lays(s, w, t.node) && Apart(w) && CtxApart(c) && Nodes(w) !! CtxNodes(c) && Apart(Plug(c, w))
    ensures Nodes(Plug(c, w)) == Nodes(Plug(c, t)) - {t.node}
  {
    NodesPlug(c, t);
    OneChild(s, t, w, CtxNode(c));
    Narrowed(c, t, w);
  }

  lemma Narrowed(c: Ctx, t: Tree, w: Tree)
    requires t.Fork? && Nodes(t) == Nodes(w) + {t.node} && t.node !in Nodes(w)
    requires CtxApart(c) && Apart(w) && Nodes(t) !! CtxNodes(c)
    ensures Nodes(w) !! CtxNodes(c) && Apart(Plug(c, w))
    ensures Nodes(Plug(c, w)) == Nodes(Plug(c, t)) - {t.node}
  {
    NodesPlug(c, t);
    NodesPlug(c, w);
    Minus(CtxNodes(c), Nodes(t), Nodes(w), t.node);
  }

  lemma Minus(a: set<Node>, b: set<Node>, b': set<Node>, n: Node)
    requires b == b' + {n} && n !in b' && a !! b
    ensures a !! b' && a + b' == a + b - {n}
  {
  }

  lemma OneChild(s: Store, t: Tree, w: Tree, parent: Node?)
    requires t.Fork? && Lays(s, t, parent) && Apart(t)
    requires (t.left.Leaf? && w == t.right) || (t.right.Leaf? && w == t.left)
    ensures Lays(s, w, t.node) && Apart(w) && Nodes(t) == Nodes(w) + {t.node} && t.node !in Nodes(w)
  {
  }

  lemma ExcisedPieces(s: Store, s': Store, root: Node?, root': Node?, c: Ctx, u: Node, w: Tree)
    requires Lays(s, w, u) && LaysCtx(s, root, c, u) && Apart(w) && CtxApart(c) && Nodes(w) !! CtxNodes(c)
    requires w.Fork? ==> w.node in s && w.node in s' && s'[w.node] == s[w.node].(parent := CtxNode(c))
    requires c.Under? ==> c.node in s' && s'[c.node] == CellOf(c.side, c.color, RootOf(w), RootOf(c.sib), CtxNode(c.up))
    requires root' == if c.Top? then RootOf(w) else root
    requires Elsewhere(s, s', RootOf(w), CtxNode(c), RootOf(w), RootOf(w))
    ensures Lays(s', w, CtxNode(c)) && LaysCtx(s', root', c, RootOf(w))
  {
    assert c.Under? ==> c.node in CtxNodes(c);
    assert w.Fork? ==> w.node in Nodes(w);
    ReparentApart(s, s', w, u, CtxNode(c), CtxNode(c), CtxNode(c), CtxNode(c));
    RefillApart(s, s', root, root', c, u, RootOf(w), RootOf(w), RootOf(w), RootOf(w), RootOf(w));
  }

  // y, from outside the tree, takes the place, the color and the children of z.
  lemma Substituted(s: Store, s': Store, root: Node?, root': Node?,
                    c: Ctx, a: Tree, z: Node, zc: Color, r: Tree, y: Node)
    requires Whole(s, root, Plug(c, Fork(a, z, zc, r))) && y !in Nodes(Plug(c, Fork(a, z, zc, r)))
    requires y in s' && s'[y] == Cell(zc, RootOf(a), RootOf(r), CtxNode(c))
    requires a.Fork? ==> a.node in s && a.node in s' && s'[a.node] == s[a.node].(parent := y)
    requires r.Fork? ==> r.node in s && r.node in s' && s'[r.node] == s[r.node].(parent := y)
    requires c.Under? ==> c.node in s' && s'[c.node] == CellOf(c.side, c.color, y, RootOf(c.sib), CtxNode(c.up))
    requires root' == if c.Top? then y else root
    requires Beyond(s, s', y, RootOf(a), RootOf(r), CtxNode(c), z)
    ensures Whole(s', root', Plug(c, Fork(a, y, zc, r)))
    ensures Nodes(Plug(c, Fork(a, y, zc, r))) == Nodes(Plug(c, Fork(a, z, zc, r))) - {z} + {y}
  {
    var t, t' := Fork(a, z, zc, r), Fork(a, y, zc, r);
    Split(s, root, c, t);
    NodesPlug(c, t);
    NodesPlug(c, t');
    NotIn(a, r);
    NotIn(r, a);
    SubstitutedKids(s, s', a, r, z, y, CtxNode(c));
    SubstitutedAround(s, s', root, root', c, a, r, z, y);
    Join(s', root', c, t');
  }

  // The links around a node z with two children that is about to give way to y.
  lemma SubstituteLinks(s: Store, root: Node?, c: Ctx, a: Tree, z: Node, zc: Color, r: Tree, y: Node)
    requires Whole(s, root, Plug(c, Fork(a, z, zc, r))) && y !in Nodes(Plug(c, Fork(a, z, zc, r)))
    requires a.Fork? && r.Fork?
    ensures z in s && s[z] == Cell(zc, a.node, r.node, CtxNode(c)) && z != y && CtxNode(c) != z && CtxNode(c) != y
    ensures a.node in s && a.node != r.node && a.node != z && a.node != y && a.node != CtxNode(c)
    ensures r.node in s && r.node != z && r.node != y && r.node != CtxNode(c)
    ensures c.Under? ==> c.node in s
    ensures c.Under? ==> s[c.node] == CellOf(c.side, c.color, z, RootOf(c.sib), CtxNode(c.up)) && RootOf(c.sib) != z
  {
    var t := Fork(a, z, zc, r);
    Focus(s, root, c, t);
    Split(s, root, c, t);
    NodesPlug(c, t);
    assert a.node in Nodes(a) && r.node in Nodes(r);
    assert c.Under? ==> c.node in CtxNodes(c);
  }

  // The store in which z's right child has given way to x.
  function Bypassed(s: Store, z: Node, x: Node?): Store
    requires z in s && (x != null ==> x in s)
  {
    var s1 := s[z := s[z].(right := x)];
    if x == null then s1 else s1[x := s1[x].(parent := z)]
  }

  lemma BypassedWhole(s: Store, root: Node?, c: Ctx, t: Tree)
    requires Whole(s, root, Plug(c, t)) && t.Fork? && t.right.Fork? && t.right.left.Leaf?
    ensures t.node in s && (t.right.right.Fork? ==> t.right.right.node in s)
    ensures Whole(Bypassed(s, t.node, RootOf(t.right.right)), root, Plug(c, t.(right := t.right.right)))
    ensures Nodes(Plug(c, t.(right := t.right.right))) == Nodes(Plug(c, t)) - {t.right.node}
  {
    var d, w := Under(c, R, t.node, t.color, t.left), t.right.right;
    Focus(s, root, d, t.right);
    SpliceLinks(s, root, d, t.right, w);
    Excised(s, Bypassed(s, t.node, RootOf(w)), root, root, d, t.right, w);
  }

  // The links around a node z with two children whose right child y has no left child.
  lemma NearLinks(s: Store, root: Node?, c: Ctx, t: Tree)
    requires Whole(s, root, Plug(c, t)) && t.Fork? && t.left.Fork? && t.right.Fork? && t.right.left.Leaf?
    ensures var (z, l, y, w) := (t.node, t.left.node, t.right.node, t.right.right);
            && z in s && s[z] == Cell(t.color, l, y, CtxNode(c)) && y in s && s[y].right == RootOf(w) && l in s
            && z != y && l != y && l != z && l != CtxNode(c) && CtxNode(c) != z && CtxNode(c) != y
            && (w.Fork? ==> w.node in s && w.node != z && w.node != y && w.node != l && w.node != CtxNode(c))
            && (c.Under? ==> c.node in s && RootOf(c.sib) != z)
            && (c.Under? ==> s[c.node] == CellOf(c.side, c.color, z, RootOf(c.sib), CtxNode(c.up)))
  {
    BypassedWhole(s, root, c, t);
    var w := t.right.right;
    var d := Under(c, R, t.node, t.color, t.left);
    Focus(s, root, c, t);
    Focus(s, root, d, t.right);
    Focus(s, root, Under(d, R, t.right.node, t.right.color, Leaf), w);
    Focus(s, root, Under(c, L, t.node, t.color, t.right), t.left);
    NodesPlug(c, t);
    assert t.left.node in Nodes(t.left) && t.right.node in Nodes(t.right);
    assert w.Fork? ==> w.node in Nodes(w);
    assert c.Under? ==> c.node in CtxNodes(c);
  }

  // The two-children case whose successor y is the right child, as a step on the tree.
  lemma SubstitutedNear(s: Store, s': Store, root: Node?, root': Node?, c: Ctx, t: Tree, y: Node)
    requires Whole(s, root, Plug(c, t)) && t.Fork? && t.left.Fork?
    requires t.right.Fork? && t.right.left.Leaf? && t.right.node == y
    requires y in s' && s'[y] == Cell(t.color, t.left.node, RootOf(t.right.right), CtxNode(c))
    requires t.left.node in s && t.left.node in s' && s'[t.left.node] == s[t.left.node].(parent := y)
    requires t.right.right.Fork? ==> t.right.right.node in s && t.right.right.node in s'
    requires t.right.right.Fork? ==> s'[t.right.right.node] == s[t.right.right.node].(parent := y)
    requires c.Under? ==> c.node in s' && s'[c.node] == CellOf(c.side, c.color, y, RootOf(c.sib), CtxNode(c.up))
    requires root' == if c.Top? then y else root
    requires Beyond(s, s', y, t.left.node, RootOf(t.right.right), CtxNode(c), t.node)
    ensures Whole(s', root', Plug(c, Fork(t.left, y, t.color, t.right.right)))
  {
    var w, z := t.right.right, t.node;
    BypassedWhole(s, root, c, t);
    NearLinks(s, root, c, t);
    Substituted(Bypassed(s, z, RootOf(w)), s', root, root', c, t.left, z, t.color, w, y);
  }

  lemma NearNodes(s: Store, root: Node?, c: Ctx, t: Tree)
    requires Whole(s, root, Plug(c, t)) && t.Fork? && t.left.Fork? && t.right.Fork? && t.right.left.Leaf?
    ensures Nodes(Plug(c, Fork(t.left, t.right.node, t.color, t.right.right))) == Nodes(Plug(c, t)) - {t.node}
  {
    var y, w := t.right.node, t.right.right;
    BypassedWhole(s, root, c, t);
    NearLinks(s, root, c, t);
    NodesPlug(c, t);
    NodesPlug(c, Fork(t.left, t.node, t.color, w));
    NodesPlug(c, Fork(t.left, y, t.color, w));
    assert y in Nodes(t.right);
    Swap(Nodes(Plug(c, t)), t.node, y);
  }

  lemma Swap(a: set<Node>, z: Node, y: Node)
    requires y in a && z != y
    ensures a - {y} - {z} + {y} == a - {z}
  {
  }

  lemma SubstitutedKids(s: Store, s': Store, a: Tree, r: Tree, z: Node, y: Node, p: Node?)
    requires Lays(s, a, z) && Lays(s, r, z) && Apart(a) && Apart(r)
    requires z !in Nodes(a) && y !in Nodes(a) && p !in Nodes(a) && RootOf(r) !in Nodes(a)
    requires z !in Nodes(r) && y !in Nodes(r) && p !in Nodes(r) && RootOf(a) !in Nodes(r)
    requires a.Fork? ==> a.node in s && a.node in s' && s'[a.node] == s[a.node].(parent := y)
    requires r.Fork? ==> r.node in s && r.node in s' && s'[r.node] == s[r.node].(parent := y)
    requires Beyond(s, s', y, RootOf(a), RootOf(r), p, z)
    ensures Lays(s', a, y) && Lays(s', r, y)
  {
    if a.Fork? {
      TreeFrame(s, s', a.left, a.node);
      TreeFrame(s, s', a.right, a.node);
    }
    if r.Fork? {
      TreeFrame(s, s', r.left, r.node);
      TreeFrame(s, s', r.right, r.node);
    }
  }

  lemma SubstitutedAround(s: Store, s': Store, root: Node?, root': Node?, c: Ctx, a: Tree, r: Tree, z: Node, y: Node)
    requires LaysCtx(s, root, c, z) && CtxApart(c)
    requires Nodes(a) !! CtxNodes(c) && Nodes(r) !! CtxNodes(c) && z !in CtxNodes(c) && y !in CtxNodes(c)
    requires c.Under? ==> c.node in s' && s'[c.node] == CellOf(c.side, c.color, y, RootOf(c.sib), CtxNode(c.up))
    requires root' == if c.Top? then y else root
    requires Beyond(s, s', y, RootOf(a), RootOf(r), CtxNode(c), z)
    ensures LaysCtx(s', root', c, y)
  {
    assert a.Fork? ==> a.node in Nodes(a);
    assert r.Fork? ==> r.node in Nodes(r);
    RefillApart(s, s', root, root', c, z, y, RootOf(a), RootOf(r), z, y);
  }

  // The shape before and after a rotation that moves x down to the `side` of y.
  function BeforeRotation(side: Side, a: Tree, x: Node, xc: Color, b: Tree, y: Node, yc: Color, g: Tree): Tree {
    Mk(side, a, x, xc, Mk(side, b, y, yc, g))
  }

  function AfterRotation(side: Side, a: Tree, x: Node, xc: Color, b: Tree, y: Node, yc: Color, g: Tree): Tree {
    Mk(side, Mk(side, a, x, xc, b), y, yc, g)
  }

  predicate CanRotate(side: Side, t: Tree) {
    t.Fork? && if side == L then t.right.Fork? else t.left.Fork?
  }

  // The tree t after a rotation at its root, which moves down to `side`.
  function Swung(side: Side, t: Tree): Tree
    requires CanRotate(side, t)
  {
    if side == L then
      Fork(Fork(t.left, t.node, t.color, t.right.left), t.right.node, t.right.color, t.right.right)
    else
      Fork(t.left.left, t.left.node, t.left.color, Fork(t.left.right, t.node, t.color, t.right))
  }

  lemma RotationLocal(side: Side, a: Tree, x: Node, xc: Color, b: Tree, y: Node, yc: Color, g: Tree)
    ensures Inorder(BeforeRotation(side, a, x, xc, b, y, yc, g)) == Inorder(AfterRotation(side, a, x, xc, b, y, yc, g))
  {
    var i, j, k := Inorder(a), Inorder(b), Inorder(g);
    if side == L {
      assert i + [x] + (j + [y] + k) == (i + [x] + j) + [y] + k;
    } else {
      assert k + [y] + (j + [x] + i) == (k + [y] + j) + [x] + i;
    }
  }

  // A rotation keeps the set of nodes, and no node occurs twice before it exactly if none does after it.
  lemma RotationApart(side: Side, a: Tree, x: Node, xc: Color, b: Tree, y: Node, yc: Color, g: Tree)
    ensures Nodes(BeforeRotation(side, a, x, xc, b, y, yc, g)) == Nodes(a) + Nodes(b) + Nodes(g) + {x, y}
    ensures Nodes(AfterRotation(side, a, x, xc, b, y, yc, g)) == Nodes(a) + Nodes(b) + Nodes(g) + {x, y}
    ensures Apart(BeforeRotation(side, a, x, xc, b, y, yc, g)) <==> Pieces(a, x, b, y, g)
    ensures Apart(AfterRotation(side, a, x, xc, b, y, yc, g)) <==> Pieces(a, x, b, y, g)
  {
  }

  predicate Pieces(a: Tree, x: Node, b: Tree, y: Node, g: Tree) {
    && Apart(a) && Apart(b) && Apart(g)
    && Nodes(a) !! Nodes(b) && Nodes(a) !! Nodes(g) && Nodes(b) !! Nodes(g)
    && x != y && x !in Nodes(a) + Nodes(b) + Nodes(g) && y !in Nodes(a) + Nodes(b) + Nodes(g)
  }

  // The links around a rotation, before it.
  lemma RotationLinks(side: Side, s: Store, root: Node?, c: Ctx,
                      a: Tree, x: Node, xc: Color, b: Tree, y: Node, yc: Color, g: Tree)
    requires Whole(s, root, Plug(c, BeforeRotation(side, a, x, xc, b, y, yc, g)))
    ensures x in s && s[x] == CellOf(side, xc, RootOf(a), y, CtxNode(c))
    ensures y in s && s[y] == CellOf(side, yc, RootOf(b), RootOf(g), x)
    ensures b.Fork? ==> b.node in s && b.node != x && b.node != y && b.node != CtxNode(c)
    ensures c.Under? ==> c.node in s && c.node != x && c.node != y
    ensures c.Under? ==> s[c.node] == CellOf(c.side, c.color, x, RootOf(c.sib), CtxNode(c.up)) && RootOf(c.sib) != x
    ensures x != y && (c.Top? ==> root == x)
  {
    var t := BeforeRotation(side, a, x, xc, b, y, yc, g);
    Split(s, root, c, t);
    Focus(s, root, c, t);
    LaysBefore(side, s, a, x, xc, b, y, yc, g, CtxNode(c));
    NodesPlug(c, t);
    RotationApart(side, a, x, xc, b, y, yc, g);
    PiecesDiffer(c, a, x, b, y, g);
  }

  lemma PiecesDiffer(c: Ctx, a: Tree, x: Node, b: Tree, y: Node, g: Tree)
    requires Pieces(a, x, b, y, g) && Nodes(a) + Nodes(b) + Nodes(g) + {x, y} !! CtxNodes(c)
    ensures b.Fork? ==> b.node != x && b.node != y && b.node != CtxNode(c)
    ensures c.Under? ==> c.node != x && c.node != y
  {
    assert b.Fork? ==> b.node in Nodes(b);
    assert c.Under? ==> c.node in CtxNodes(c);
  }

  lemma Rotated(side: Side, s: Store, s': Store, root: Node?, root': Node?, c: Ctx,
                a: Tree, x: Node, xc: Color, b: Tree, y: Node, yc: Color, g: Tree)
    requires Whole(s, root, Plug(c, BeforeRotation(side, a, x, xc, b, y, yc, g)))
    requires x in s' && s'[x] == CellOf(side, xc, RootOf(a), RootOf(b), y)
    requires y in s' && s'[y] == CellOf(side, yc, x, RootOf(g), CtxNode(c))
    requires b.Fork? ==> b.node in s && b.node in s' && s'[b.node] == s[b.node].(parent := x)
    requires c.Under? ==> c.node in s' && s'[c.node] == CellOf(c.side, c.color, y, RootOf(c.sib), CtxNode(c.up))
    requires root' == if c.Top? then y else root
    requires Elsewhere(s, s', x, y, RootOf(b), CtxNode(c))
    ensures Whole(s', root', Plug(c, AfterRotation(side, a, x, xc, b, y, yc, g)))
    ensures Inorder(Plug(c, AfterRotation(side, a, x, xc, b, y, yc, g)))
         == Inorder(Plug(c, BeforeRotation(side, a, x, xc, b, y, yc, g)))
  {
    var t, t' := BeforeRotation(side, a, x, xc, b, y, yc, g), AfterRotation(side, a, x, xc, b, y, yc, g);
    Split(s, root, c, t);
    NodesPlug(c, t);
    RotationApart(side, a, x, xc, b, y, yc, g);
    LaysBefore(side, s, a, x, xc, b, y, yc, g, CtxNode(c));
    assert c.Under? ==> c.node in CtxNodes(c);
    RotatedPieces(s, s', CtxNode(c), a, x, b, y, g);
    RotatedAround(s, s', root, root', c, x, b, y);
    LaysAfter(side, s', a, x, xc, b, y, yc, g, CtxNode(c));
    Join(s', root', c, t');
    NodesPlug(c, t');
    RotationLocal(side, a, x, xc, b, y, yc, g);
    InorderPlug(c, t);
    InorderPlug(c, t');
  }

  lemma LaysBefore(side: Side, s: Store, a: Tree, x: Node, xc: Color, b: Tree, y: Node, yc: Color, g: Tree,
                   parent: Node?)
    requires Lays(s, BeforeRotation(side, a, x, xc, b, y, yc, g), parent)
    ensures Lays(s, a, x) && Lays(s, b, y) && Lays(s, g, y)
    ensures y in s && s[y] == CellOf(side, yc, RootOf(b), RootOf(g), x)
  {
  }

  lemma LaysAfter(side: Side, s: Store, a: Tree, x: Node, xc: Color, b: Tree, y: Node, yc: Color, g: Tree,
                  parent: Node?)
    requires x in s && s[x] == CellOf(side, xc, RootOf(a), RootOf(b), y)
    requires y in s && s[y] == CellOf(side, yc, x, RootOf(g), parent)
    requires Lays(s, a, x) && Lays(s, b, x) && Lays(s, g, y)
    ensures Lays(s, AfterRotation(side, a, x, xc, b, y, yc, g), parent)
  {
  }

  lemma RotatedPieces(s: Store, s': Store, z: Node?, a: Tree, x: Node, b: Tree, y: Node, g: Tree)
    requires Lays(s, a, x) && Lays(s, b, y) && Lays(s, g, y)
    requires Pieces(a, x, b, y, g) && z !in Nodes(a) && z !in Nodes(b) && z !in Nodes(g)
    requires b.Fork? ==> b.node in s && b.node in s' && s'[b.node] == s[b.node].(parent := x)
    requires Elsewhere(s, s', x, y, RootOf(b), z)
    ensures Lays(s', a, x) && Lays(s', b, x) && Lays(s', g, y)
  {
    NotIn(b, a);
    NotIn(b, g);
    ApartFrame(s, s', a, x, x, y, RootOf(b), z);
    ApartFrame(s, s', g, y, x, y, RootOf(b), z);
    ReparentApart(s, s', b, y, x, x, y, z);
  }

  lemma NotIn(b: Tree, t: Tree)
    requires Nodes(b) !! Nodes(t)
    ensures RootOf(b) !in Nodes(t)
  {
    assert b.Fork? ==> b.node in Nodes(b);
  }

  lemma ReparentApart(s: Store, s': Store, t: Tree, parent: Node?, parent': Node?, w: Node?, x: Node?, y: Node?)
    requires Lays(s, t, parent) && Apart(t) && Elsewhere(s, s', w, x, RootOf(t), y)
    requires w !in Nodes(t) && x !in Nodes(t) && y !in Nodes(t)
    requires t.Fork? ==> t.node in s' && s'[t.node] == s[t.node].(parent := parent')
    ensures Lays(s', t, parent')
  {
    if t.Fork? {
      ApartFrame(s, s', t.left, t.node, w, x, t.node, y);
      ApartFrame(s, s', t.right, t.node, w, x, t.node, y);
    }
  }

  lemma ApartFrame(s: Store, s': Store, t: Tree, parent: Node?, w: Node?, x: Node?, y: Node?, z: Node?)
    requires Lays(s, t, parent) && Elsewhere(s, s', w, x, y, z)
    requires w !in Nodes(t) && x !in Nodes(t) && y !in Nodes(t) && z !in Nodes(t)
    ensures Lays(s', t, parent)
  {
    TreeFrame(s, s', t, parent);
  }

  lemma RotatedAround(s: Store, s': Store, root: Node?, root': Node?, c: Ctx, x: Node, b: Tree, y: Node)
    requires LaysCtx(s, root, c, x) && CtxApart(c) && Nodes(b) + {x, y} !! CtxNodes(c)
    requires c.Under? ==> c.node in s' && s'[c.node] == CellOf(c.side, c.color, y, RootOf(c.sib), CtxNode(c.up))
    requires root' == if c.Top? then y else root
    requires Elsewhere(s, s', x, y, RootOf(b), CtxNode(c))
    ensures LaysCtx(s', root', c, y)
  {
    assert b.Fork? ==> b.node in Nodes(b);
    RefillApart(s, s', root, root', c, x, y, x, y, RootOf(b), x);
  }

  // free(z), for a z that the tree no longer holds.
  lemma Forgotten(s: Store, s': Store, root: Node?, t: Tree)
    requires Whole(s, root, t) && Same(s, s', Nodes(t))
    ensures Whole(s', root, t)
  {
    TreeFrame(s, s', t, null);
  }
}
