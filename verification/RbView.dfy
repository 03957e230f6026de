// The tree that a graph of nodes stands for, one-hole contexts in it, and what it
// means for a store to lay such a tree out with consistent child and parent links.
module RbView {
  import opened RbNode

  datatype Tree = Leaf | Fork(left: Tree, node: Node, color: Color, right: Tree)

  // A tree with a hole: the hole is the `side` child of `node`, whose other child is `sib`.
  datatype Ctx = Top | Under(up: Ctx, side: Side, node: Node, color: Color, sib: Tree)

  // A fork whose `side` child is `near` and whose other child is `far`.
  function Mk(side: Side, near: Tree, node: Node, color: Color, far: Tree): (t: Tree)
    ensures t.Fork? && t.node == node && t.color == color
  {
    if side == L then Fork(near, node, color, far) else Fork(far, node, color, near)
  }

  function Plug(c: Ctx, t: Tree): Tree {
    if c.Top? then t else Plug(c.up, Mk(c.side, t, c.node, c.color, c.sib))
  }

  // One step out of the context: the tree whose root is the parent of the hole.
  function Up(c: Ctx, t: Tree): (p: Tree)
    requires c.Under?
    ensures p.Fork? && p.node == c.node && p.color == c.color
  {
    Mk(c.side, t, c.node, c.color, c.sib)
  }

  // The context `inner` placed in the hole of `outer`.
  function Append(inner: Ctx, outer: Ctx): Ctx {
    if inner.Top? then outer else Under(Append(inner.up, outer), inner.side, inner.node, inner.color, inner.sib)
  }

  function RootOf(t: Tree): Node? {
    if t.Leaf? then null else t.node
  }

  function CtxNode(c: Ctx): Node? {
    if c.Top? then null else c.node
  }

  // The nodes in symmetric order, as inorderTraversal visits them.
  function Inorder(t: Tree): seq<Node> {
    if t.Leaf? then [] else Inorder(t.left) + [t.node] + Inorder(t.right)
  }

  function Before(c: Ctx): seq<Node> {
    if c.Top? then []
    else Before(c.up) + if c.side == L then [] else Inorder(c.sib) + [c.node]
  }

  function After(c: Ctx): seq<Node> {
    if c.Top? then []
    else (if c.side == L then [c.node] + Inorder(c.sib) else []) + After(c.up)
  }

  function Nodes(t: Tree): set<Node> {
    if t.Leaf? then {} else Nodes(t.left) + {t.node} + Nodes(t.right)
  }

  function CtxNodes(c: Ctx): set<Node> {
    if c.Top? then {} else CtxNodes(c.up) + {c.node} + Nodes(c.sib)
  }

  // No node occurs twice.
  predicate Apart(t: Tree) {
    t.Fork? ==>
      && t.node !in Nodes(t.left) && t.node !in Nodes(t.right) && Nodes(t.left) !! Nodes(t.right)
      && Apart(t.left) && Apart(t.right)
  }

  predicate CtxApart(c: Ctx) {
    c.Under? ==>
      && c.node !in Nodes(c.sib) && c.node !in CtxNodes(c.up) && Nodes(c.sib) !! CtxNodes(c.up)
      && Apart(c.sib) && CtxApart(c.up)
  }

  // ----- search -----

  // The subtree at which searchNode stops.
  function Found(t: Tree, key: int): Tree {
    if t.Leaf? || t.node.key == key then t
    else if key < t.node.key then Found(t.left, key) else Found(t.right, key)
  }

  // The way there, starting from a subtree t in context c.
  function FoundCtx(c: Ctx, t: Tree, key: int): Ctx
    decreases t
  {
    if t.Leaf? || t.node.key == key then c
    else if key < t.node.key then FoundCtx(Under(c, L, t.node, t.color, t.right), t.left, key)
    else FoundCtx(Under(c, R, t.node, t.color, t.left), t.right, key)
  }

  // How many times searchNode is entered.
  function SearchCalls(t: Tree, key: int): nat {
    if t.Leaf? || t.node.key == key then 1
    else 1 + if key < t.node.key then SearchCalls(t.left, key) else SearchCalls(t.right, key)
  }

  lemma {:induction false} FoundAt(c: Ctx, t: Tree, key: int)
    ensures Plug(FoundCtx(c, t, key), Found(t, key)) == Plug(c, t)
    ensures Found(t, key).Fork? ==> Found(t, key).node.key == key
    decreases t
  {
    if t.Fork? && t.node.key != key {
      if key < t.node.key {
        FoundAt(Under(c, L, t.node, t.color, t.right), t.left, key);
      } else {
        FoundAt(Under(c, R, t.node, t.color, t.left), t.right, key);
      }
    }
  }

  // The subtree whose root getMinimumNode returns.
  function Minimum(t: Tree): (m: Tree)
    ensures t.Fork? ==> m.Fork? && m.left.Leaf?
    ensures m == t <==> t.Leaf? || t.left.Leaf?
  {
    if t.Leaf? || t.left.Leaf? then t else Minimum(t.left)
  }

  // The way from the root of t, in context c, to the root of Minimum(t).
  function MinCtx(c: Ctx, t: Tree): Ctx
    decreases t
  {
    if t.Leaf? || t.left.Leaf? then c else MinCtx(Under(c, L, t.node, t.color, t.right), t.left)
  }

  lemma {:induction false} MinimumAt(c: Ctx, t: Tree)
    ensures Plug(MinCtx(c, t), Minimum(t)) == Plug(c, t)
    ensures Before(MinCtx(c, t)) == Before(c)
    ensures c.Under? ==> MinCtx(c, t).Under?
    ensures c.Top? ==> (MinCtx(c, t).Top? <==> Minimum(t) == t)
    decreases t
  {
    if t.Fork? && t.left.Fork? {
      assert Before(Under(c, L, t.node, t.color, t.right)) == Before(c);
      MinimumAt(Under(c, L, t.node, t.color, t.right), t.left);
    }
  }

  lemma AppendUnder(inner: Ctx, outer: Ctx)
    ensures outer.Under? ==> Append(inner, outer).Under?
  {
  }

  lemma {:induction false} OrderAppend(inner: Ctx, outer: Ctx)
    ensures Before(Append(inner, outer)) == Before(outer) + Before(inner)
    ensures After(Append(inner, outer)) == After(inner) + After(outer)
    decreases inner
  {
    if inner.Under? {
      OrderAppend(inner.up, outer);
    }
  }

  lemma SpliceOrder(c: Ctx, f: Tree, w: Tree)
    requires f.Fork? && ((f.left.Leaf? && w == f.right) || (f.right.Leaf? && w == f.left))
    ensures Inorder(Plug(c, w)) == (Before(c) + Inorder(f.left)) + (Inorder(f.right) + After(c))
  {
    InorderPlug(c, w);
    if f.left.Leaf? {
      assert Before(c) + Inorder(f.left) == Before(c);
    } else {
      assert Inorder(f.right) + After(c) == After(c);
    }
  }

  // Where the successor of the root of f comes from, and the order once it has taken f's place.
  lemma SuccessorOrder(c: Ctx, f: Tree, y: Node)
    requires f.Fork? && f.right.Fork? && y == Minimum(f.right).node
    ensures Inorder(Plug(Append(MinCtx(Top, f.right), Under(c, R, y, f.color, f.left)), Minimum(f.right).right))
         == (Before(c) + Inorder(f.left)) + (Inorder(f.right) + After(c))
  {
    var d, m := MinCtx(Top, f.right), Minimum(f.right);
    var u := Under(c, R, y, f.color, f.left);
    MinimumAt(Top, f.right);
    InorderPlug(d, m);
    OrderAppend(d, u);
    InorderPlug(Append(d, u), m.right);
    MinimumFirst(m, y);
    FirstBefore(Before(c), Inorder(f.left), y);
    Regroup(Before(c), Inorder(f.left), [y], Inorder(m.right), After(d), After(c));
  }

  lemma MinimumFirst(m: Tree, y: Node)
    requires m.Fork? && m.left.Leaf? && m.node == y
    ensures Inorder(m) == [y] + Inorder(m.right)
  {
  }

  lemma FirstBefore(a: seq<Node>, b: seq<Node>, y: Node)
    ensures (a + (b + [y])) + [] == a + (b + [y])
  {
  }

  lemma Regroup(a: seq<Node>, b: seq<Node>, c: seq<Node>, d: seq<Node>, e: seq<Node>, f: seq<Node>)
    ensures a + (b + c) + d + (e + f) == (a + b) + (([] + (c + d) + e) + f)
  {
  }

  // ----- layout -----

  function CellOf(side: Side, color: Color, near: Node?, far: Node?, parent: Node?): Cell {
    if side == L then Cell(color, near, far, parent) else Cell(color, far, near, parent)
  }

  ghost predicate Lays(s: Store, t: Tree, parent: Node?) {
    t.Fork? ==>
      && t.node in s
      && s[t.node] == Cell(t.color, RootOf(t.left), RootOf(t.right), parent)
      && Lays(s, t.left, t.node)
      && Lays(s, t.right, t.node)
  }

  ghost predicate LaysCtx(s: Store, root: Node?, c: Ctx, hole: Node?) {
    if c.Top? then root == hole
    else
      && c.node in s
      && s[c.node] == CellOf(c.side, c.color, hole, RootOf(c.sib), CtxNode(c.up))
      && Lays(s, c.sib, c.node)
      && LaysCtx(s, root, c.up, c.node)
  }

  // The store, entered at `root`, is exactly the tree t: no sharing, every child link
  // answered by a parent link, and no parent above the root.
  ghost predicate Whole(s: Store, root: Node?, t: Tree) {
    Lays(s, t, null) && root == RootOf(t) && Apart(t)
  }

  // ----- contexts and sequences -----

  lemma LeftGroup(a: seq<Node>, b: seq<Node>, n: Node, d: seq<Node>, e: seq<Node>)
    ensures a + (b + [n] + d) + e == (a + []) + b + (([n] + d) + e)
  {
  }

  lemma RightGroup(a: seq<Node>, b: seq<Node>, n: Node, d: seq<Node>, e: seq<Node>)
    ensures a + (b + [n] + d) + e == (a + (b + [n])) + d + ([] + e)
  {
  }

  lemma {:induction false} InorderPlug(c: Ctx, t: Tree)
    ensures Inorder(Plug(c, t)) == Before(c) + Inorder(t) + After(c)
    decreases c
  {
    if c.Under? {
      var t' := Mk(c.side, t, c.node, c.color, c.sib);
      InorderPlug(c.up, t');
      if c.side == L {
        LeftGroup(Before(c.up), Inorder(t), c.node, Inorder(c.sib), After(c.up));
      } else {
        RightGroup(Before(c.up), Inorder(c.sib), c.node, Inorder(t), After(c.up));
      }
    }
  }

  lemma {:induction false} PlugUnder(c: Ctx, t: Tree)
    requires c.Under? || t.Fork?
    ensures Plug(c, t).Fork?
    decreases c
  {
    if c.Under? {
      PlugUnder(c.up, Up(c, t));
    }
  }

  lemma {:induction false} NodesPlug(c: Ctx, t: Tree)
    ensures Nodes(Plug(c, t)) == CtxNodes(c) + Nodes(t)
    ensures Apart(Plug(c, t)) <==> CtxApart(c) && Apart(t) && Nodes(t) !! CtxNodes(c)
    decreases c
  {
    if c.Under? {
      NodesPlug(c.up, Mk(c.side, t, c.node, c.color, c.sib));
    }
  }

  lemma {:induction false} NodesInorder(t: Tree)
    ensures Nodes(t) == set n | n in Inorder(t)
  {
    if t.Fork? {
      NodesInorder(t.left);
      NodesInorder(t.right);
    }
  }

  lemma SameNodes(t: Tree, t': Tree)
    requires Inorder(t) == Inorder(t')
    ensures Nodes(t) == Nodes(t')
  {
    NodesInorder(t);
    NodesInorder(t');
  }

  lemma {:induction false} PlugAppend(inner: Ctx, outer: Ctx, t: Tree)
    ensures Plug(Append(inner, outer), t) == Plug(outer, Plug(inner, t))
    decreases inner
  {
    if inner.Under? {
      PlugAppend(inner.up, outer, Mk(inner.side, t, inner.node, inner.color, inner.sib));
    }
  }

  // ----- splitting a layout at a hole, and joining it again -----

  lemma {:induction false} Split(s: Store, root: Node?, c: Ctx, t: Tree)
    requires Lays(s, Plug(c, t), null) && root == RootOf(Plug(c, t))
    ensures Lays(s, t, CtxNode(c)) && LaysCtx(s, root, c, RootOf(t))
    decreases c
  {
    if c.Under? {
      Split(s, root, c.up, Mk(c.side, t, c.node, c.color, c.sib));
    }
  }

  lemma {:induction false} Join(s: Store, root: Node?, c: Ctx, t: Tree)
    requires Lays(s, t, CtxNode(c)) && LaysCtx(s, root, c, RootOf(t))
    ensures Lays(s, Plug(c, t), null) && root == RootOf(Plug(c, t))
    decreases c
  {
    if c.Under? {
      Join(s, root, c.up, Mk(c.side, t, c.node, c.color, c.sib));
    }
  }

  // ----- what an update elsewhere leaves alone -----

  ghost predicate Same(s: Store, s': Store, m: set<Node>) {
    forall n :: n in m && n in s ==> n in s' && s'[n] == s[n]
  }

  lemma {:induction false} TreeFrame(s: Store, s': Store, t: Tree, parent: Node?)
    requires Lays(s, t, parent) && Same(s, s', Nodes(t))
    ensures Lays(s', t, parent)
  {
    if t.Fork? {
      assert t.node in Nodes(t);
      TreeFrame(s, s', t.left, t.node);
      TreeFrame(s, s', t.right, t.node);
    }
  }

  lemma {:induction false} CtxFrame(s: Store, s': Store, root: Node?, c: Ctx, hole: Node?)
    requires LaysCtx(s, root, c, hole) && Same(s, s', CtxNodes(c))
    ensures LaysCtx(s', root, c, hole)
    decreases c
  {
    if c.Under? {
      assert c.node in CtxNodes(c);
      TreeFrame(s, s', c.sib, c.node);
      CtxFrame(s, s', root, c.up, c.node);
    }
  }

  // Only the link into the hole changed.
  lemma Refill(s: Store, s': Store, root: Node?, root': Node?, c: Ctx, hole: Node?, hole': Node?)
    requires LaysCtx(s, root, c, hole) && CtxApart(c)
    requires root' == if c.Top? then hole' else root
    requires c.Under? ==> c.node in s' && s'[c.node] == CellOf(c.side, c.color, hole', RootOf(c.sib), CtxNode(c.up))
    requires c.Under? ==> Same(s, s', CtxNodes(c.up)) && Same(s, s', Nodes(c.sib))
    ensures LaysCtx(s', root', c, hole')
  {
    if c.Under? {
      TreeFrame(s, s', c.sib, c.node);
      CtxFrame(s, s', root, c.up, c.node);
    }
  }
}
