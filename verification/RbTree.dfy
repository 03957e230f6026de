// The red-black tree of moudles/test/rbtree.c: a graph of nodes that is relinked in place.
module RbTree {
  import opened RbNode
  import opened RbView
  import opened RbSteps
  import opened RbRules
  import opened RbOrder

  ghost function Cells(nodes: set<Node>): Store
    reads nodes
  {
    map n | n in nodes :: Cell(n.color, n.left, n.right, n.parent)
  }

  function Kid(n: Node, side: Side): Node?
    reads n
  {
    if side == L then n.left else n.right
  }

  // A parent's fields after its child u gave way to v.
  function Relinked(cell: Cell, u: Node?, v: Node?): Cell {
    if cell.left == u then cell.(left := v) else cell.(right := v)
  }

  class RbTree {
    var root: Node?
    ghost var repr: set<Node>
    ghost var view: Tree

    // The nodes reachable from the root form exactly the tree `view`.
    ghost predicate Linked()
      reads this, repr
    {
      Whole(Cells(repr), root, view)
    }

    // In leftRotate x moves down and its right child y moves up; p is the parent of x and
    // b the child that changes hands.
    method LeftRotate(x: Node, ghost p: Node?, ghost up: Node, ghost b: Node?)
      requires x in repr && x.right == up && x.parent == p
      requires up in repr && up.left == b && up != x && up != p && x != p
      requires b != null ==> b in repr && b != x && b != up && b != p
      requires p != null ==> p in repr && (p.left == x || p.right == x)
      modifies this`root, repr
      ensures root == if p == null then up else old(root)
      ensures Cells(repr)[x] == old(Cells(repr))[x].(right := b, parent := up)
      ensures Cells(repr)[up] == old(Cells(repr))[up].(left := x, parent := p)
      ensures b != null ==> Cells(repr)[b] == old(Cells(repr))[b].(parent := x)
      ensures p != null ==> Cells(repr)[p] == Relinked(old(Cells(repr))[p], x, up)
      ensures Elsewhere(old(Cells(repr)), Cells(repr), x, up, b, p)
    {
      var y := x.right;
      x.right := y.left;
      if x.right != null {
        x.right.parent := x;
      }
      y.parent := x.parent;
      if x.parent == null {
        root := y;
      } else if x == x.parent.left {
        x.parent.left := y;
      } else {
        x.parent.right := y;
      }
      y.left := x;
      x.parent := y;
    }

    // The mirror image: y moves down, its left child moves up.
    method RightRotate(y: Node, ghost p: Node?, ghost up: Node, ghost b: Node?)
      requires y in repr && y.left == up && y.parent == p
      requires up in repr && up.right == b && up != y && up != p && y != p
      requires b != null ==> b in repr && b != y && b != up && b != p
      requires p != null ==> p in repr && (p.left == y || p.right == y)
      modifies this`root, repr
      ensures root == if p == null then up else old(root)
      ensures Cells(repr)[y] == old(Cells(repr))[y].(left := b, parent := up)
      ensures Cells(repr)[up] == old(Cells(repr))[up].(right := y, parent := p)
      ensures b != null ==> Cells(repr)[b] == old(Cells(repr))[b].(parent := y)
      ensures p != null ==> Cells(repr)[p] == Relinked(old(Cells(repr))[p], y, up)
      ensures Elsewhere(old(Cells(repr)), Cells(repr), y, up, b, p)
    {
      var x := y.left;
      y.left := x.right;
      if x.right != null {
        x.right.parent := y;
      }
      x.parent := y.parent;
      if y.parent == null {
        root := x;
      } else if y == y.parent.left {
        y.parent.left := x;
      } else {
        y.parent.right := x;
      }
      x.right := y;
      y.parent := x;
    }

    // leftRotate as a step on the tree: x, at the root of t, moves down to the left.
    method LeftRotateAt(x: Node, ghost c: Ctx, ghost t: Tree)
      requires Linked() && view == Plug(c, t) && CanRotate(L, t) && t.node == x
      modifies this`root, this`view, repr
      ensures Linked() && view == Plug(c, Swung(L, t))
      ensures Inorder(view) == old(Inorder(view))
    {
      ghost var s, y := Cells(repr), t.right;
      RotationLinks(L, s, root, c, t.left, x, t.color, y.left, y.node, y.color, y.right);
      LeftRotate(x, CtxNode(c), y.node, RootOf(y.left));
      Rotated(L, s, Cells(repr), old(root), root, c, t.left, x, t.color, y.left, y.node, y.color, y.right);
      view := Plug(c, Swung(L, t));
    }

    method RightRotateAt(y: Node, ghost c: Ctx, ghost t: Tree)
      requires Linked() && view == Plug(c, t) && CanRotate(R, t) && t.node == y
      modifies this`root, this`view, repr
      ensures Linked() && view == Plug(c, Swung(R, t))
      ensures Inorder(view) == old(Inorder(view))
    {
      ghost var s, x := Cells(repr), t.left;
      RotationLinks(R, s, root, c, t.right, y, t.color, x.right, x.node, x.color, x.left);
      RightRotate(y, CtxNode(c), x.node, RootOf(x.right));
      Rotated(R, s, Cells(repr), old(root), root, c, t.right, y, t.color, x.right, x.node, x.color, x.left);
      view := Plug(c, Swung(R, t));
    }

    // Either rotation, for code that leftRotate and rightRotate serve in mirror image.
    method Rotate(side: Side, x: Node, ghost c: Ctx, ghost t: Tree)
      requires Linked() && view == Plug(c, t) && CanRotate(side, t) && t.node == x
      modifies this`root, this`view, repr
      ensures Linked() && view == Plug(c, Swung(side, t))
      ensures Inorder(view) == old(Inorder(view))
    {
      if side == L {
        LeftRotateAt(x, c, t);
      } else {
        RightRotateAt(x, c, t);
      }
    }

    // n->color = color, where n is the root of t.
    method Paint(n: Node, color: Color, ghost c: Ctx, ghost t: Tree)
      requires Linked() && view == Plug(c, t) && t.Fork? && t.node == n
      modifies this`view, n`color
      ensures Linked() && view == Plug(c, t.(color := color)) && n.color == color
      ensures Inorder(view) == old(Inorder(view))
    {
      ghost var s := Cells(repr);
      Focus(s, root, c, t);
      n.color := color;
      Painted(s, Cells(repr), root, c, t, color);
      view := Plug(c, t.(color := color));
    }

    // What the loop of fixInsert keeps: z is the root of t, and the only broken rule is
    // that z and its parent may both be red.
    ghost predicate Inserting(z: Node, c: Ctx, t: Tree)
      reads this, repr
    {
      Linked() && view == Plug(c, t) && t.Fork? && t.node == z && InsertGap(c, t)
    }

    // The round of the loop in which the uncle y of z is red.
    method InsertRecolor(z0: Node, y: Node, ghost c0: Ctx, ghost t0: Tree)
      returns (z: Node, ghost c: Ctx, ghost t: Tree)
      requires Inserting(z0, c0, t0)
      requires c0.Under? && c0.color == Red && c0.up.Under? && IsRed(c0.up.sib) && c0.up.sib.node == y
      modifies this`view, repr
      ensures Inserting(z, c, t) && Inorder(view) == old(Inorder(view))
      ensures c == c0.up.up
    {
      ghost var k, p := c0.up, Up(c0, t0);
      Family(Cells(repr), root, c0, t0);
      Paint(z0.parent, Black, k, p);
      Paint(y, Black, Under(k.up, Other(k.side), k.node, k.color, p.(color := Black)), k.sib);
      Paint(z0.parent.parent, Red, k.up, Mk(k.side, p.(color := Black), k.node, k.color, k.sib.(color := Black)));
      z := z0.parent.parent;
      c, t := k.up, Recolored(c0, t0);
      RecolorGap(c0, t0);
    }

    // The two recolorings and the rotation that end the loop.
    method InsertLift(side: Side, z: Node, ghost c: Ctx, ghost t: Tree)
      requires Inserting(z, c, t)
      requires c.Under? && c.color == Red && c.up.Under? && c.side == c.up.side == side && !IsRed(c.up.sib)
      modifies this`root, this`view, repr
      ensures Inserting(z, Lifted(c), t) && Inorder(view) == old(Inorder(view))
    {
      Family(Cells(repr), root, c, t);
      ghost var k, p := c.up, Up(c, t);
      Paint(z.parent, Black, k, p);
      ghost var g := Up(k, p.(color := Black));
      Paint(z.parent.parent, Red, k.up, g);
      Rotate(Other(side), z.parent.parent, k.up, g.(color := Red));
      LiftGap(c, t);
    }

    // A round of the loop of fixInsert; the parent of z is the `side` child of its own parent.
    method InsertRound(side: Side, z0: Node, ghost c0: Ctx, ghost t0: Tree)
      returns (z: Node, ghost c: Ctx, ghost t: Tree)
      requires Inserting(z0, c0, t0) && c0.Under? && c0.color == Red && c0.up.Under? && c0.up.side == side
      modifies this`root, this`view, repr
      ensures Inserting(z, c, t) && Inorder(view) == old(Inorder(view))
      ensures Depth(c) < Depth(c0) || (c.Under? && c.color == Black)
    {
      z, c, t := z0, c0, t0;
      Family(Cells(repr), root, c, t);
      var y := Kid(z.parent.parent, Other(side));
      if y != null && y.color == Red {
        z, c, t := InsertRecolor(z, y, c, t);
      } else {
        if z == Kid(z.parent, Other(side)) {
          z := z.parent;
          BendGap(c, t);
          Rotate(side, z, c.up, Up(c, t));
          c, t := Bent(c, t).0, Bent(c, t).1;
        }
        InsertLift(side, z, c, t);
        c := Lifted(c);
      }
    }

    lemma Look(z: Node, c: Ctx, t: Tree)
      requires Inserting(z, c, t)
      ensures z in repr && (z == root <==> c.Top?)
      ensures c.Under? ==> c.node in repr && z.parent == c.node && c.node.color == c.color
      ensures c.Under? && c.color == Red ==> c.up.Under? && c.up.node in repr && c.node.parent == c.up.node
      ensures c.Under? && c.color == Red ==> (c.up.node.left == c.node <==> c.up.side == L)
    {
      Focus(Cells(repr), root, c, t);
      if c.Under? && c.color == Red {
        InsertGapAbove(c, t);
        Family(Cells(repr), root, c, t);
      }
    }

    // (*root)->color = BLACK, once the loop has ended.
    method BlackenRoot(z: Node, ghost c: Ctx, ghost t: Tree)
      requires Inserting(z, c, t) && (c.Top? || c.color == Black)
      modifies this`view, repr
      ensures Linked() && RedBlack(view) && Inorder(view) == old(Inorder(view))
    {
      InsertDone(c, t);
      Focus(Cells(repr), root, Top, view);
      Paint(root, Black, Top, view);
    }

    method FixInsert(z0: Node, ghost c0: Ctx, ghost t0: Tree)
      requires Inserting(z0, c0, t0)
      modifies this`root, this`view, repr
      ensures Linked() && RedBlack(view)
      ensures Inorder(view) == old(Inorder(view))
    {
      var z: Node := z0;
      ghost var c, t := c0, t0;
      Look(z, c, t);
      while z != root && z.parent.color == Red
        invariant Inserting(z, c, t) && Inorder(view) == old(Inorder(view))
        invariant z in repr && (z == root <==> c.Top?)
        invariant c.Under? ==> z.parent == c.node && c.node in repr && c.node.color == c.color
        decreases if c.Under? && c.color == Red then Depth(c) else 0
      {
        Look(z, c, t);
        if z.parent == z.parent.parent.left {
          z, c, t := InsertRound(L, z, c, t);
        } else {
          z, c, t := InsertRound(R, z, c, t);
        }
        Look(z, c, t);
      }
      BlackenRoot(z, c, t);
    }

    ghost predicate Valid()
      reads this, repr
    {
      Linked() && repr == Nodes(view) && RedBlack(view) && Sorted(Inorder(view))
    }

    constructor ()
      ensures Valid() && Inorder(view) == [] && fresh(repr)
    {
      root := null;
      repr, view := {}, Leaf;
    }

    // Where insertNode's loop leaves y: a node to hang the new one under, on the side that key asks for.
    method FindPlace(key: int) returns (y: Node?, ghost c: Ctx)
      requires Valid()
      ensures view == Plug(c, Leaf) && y == CtxNode(c) && Aims(c, key)
      ensures c.Under? ==> (c.side == L <==> key < c.node.key)
    {
      y := null;
      var x := root;
      c := Top;
      ghost var t := view;
      while x != null
        invariant view == Plug(c, t) && x == RootOf(t) && y == CtxNode(c)
        invariant Aims(c, key) && Sorted(Inorder(t))
        invariant c.Under? ==> (c.side == L <==> key < c.node.key)
        invariant x != null ==> x in repr
        decreases t
      {
        Focus(Cells(repr), root, c, t);
        Descend(c, t, key);
        y := x;
        if key < x.key {
          x := x.left;
          c, t := Under(c, L, t.node, t.color, t.right), t.left;
        } else {
          x := x.right;
          c, t := Under(c, R, t.node, t.color, t.left), t.right;
        }
        Focus(Cells(repr), root, c, t);
      }
    }

    // Hangs the new node z where FindPlace ended.
    method Hang(z: Node, y: Node?, ghost c: Ctx)
      requires Linked() && view == Plug(c, Leaf) && y == CtxNode(c)
      requires c.Under? ==> (c.side == L <==> z.key < c.node.key)
      requires z !in repr && z !in Nodes(view) && z.color == Red && z.left == null && z.right == null
      modifies this, z, repr
      ensures Linked() && view == Plug(c, Fork(Leaf, z, Red, Leaf))
      ensures Inorder(view) == Before(c) + [z] + After(c)
      ensures repr == old(repr) + {z} && Nodes(view) == old(Nodes(view)) + {z}
    {
      ghost var s := Cells(repr);
      Focus(s, root, c, Leaf);
      z.parent := y;
      if y == null {
        root := z;
      } else if z.key < y.key {
        y.left := z;
      } else {
        y.right := z;
      }
      repr := repr + {z};
      Hung(s, Cells(repr), old(root), root, c, z);
      view := Plug(c, Fork(Leaf, z, Red, Leaf));
    }

    lemma PlaceFound(c: Ctx, z: Node)
      requires RedBlack(Plug(c, Leaf)) && Sorted(Inorder(Plug(c, Leaf))) && Aims(c, z.key)
      ensures Inorder(Plug(c, Leaf)) == Before(c) + After(c)
      ensures UpperBound(Before(c) + After(c), z.key) == |Before(c)|
      ensures Sorted(Before(c) + [z] + After(c))
      ensures InsertGap(c, Fork(Leaf, z, Red, Leaf))
    {
      InorderPlug(c, Leaf);
      assert Before(c) + Inorder(Leaf) + After(c) == Before(c) + After(c);
      UpperBoundIs(Before(c), After(c), z.key);
      SortedInsert(Before(c), z, After(c));
      RedBlackPlug(c, Leaf);
    }

    method InsertNode(key: int)
      requires Valid()
      modifies this, repr
      ensures Valid() && fresh(repr - old(repr))
      ensures var q, i := old(Inorder(view)), UpperBound(old(Inorder(view)), key);
              && |Inorder(view)| == |q| + 1
              && fresh(Inorder(view)[i]) && Inorder(view)[i].key == key
              && Inorder(view) == q[..i] + [Inorder(view)[i]] + q[i..]
    {
      var z := new Node(key);
      var y;
      ghost var c;
      y, c := FindPlace(key);
      ghost var q := Inorder(view);
      PlaceFound(c, z);
      Hang(z, y, c);
      ghost var hung := view;
      FixInsert(z, c, Fork(Leaf, z, Red, Leaf));
      SameNodes(hung, view);
    }

    // What the loop of fixDelete keeps: x is the root of t, and xp the node above the place of x.
    ghost predicate Deleting(x: Node?, xp: Node?, c: Ctx, t: Tree)
      reads this, repr
    {
      Linked() && view == Plug(c, t) && x == RootOf(t) && xp == CtxNode(c) && DeleteGap(c, t)
    }

    // The sibling w is red: it is turned black, the parent red, and w rises.
    method DeleteDrop(side: Side, xp: Node, w: Node, ghost c: Ctx, ghost t: Tree)
      requires Deleting(RootOf(t), xp, c, t)
      requires c.Under? && c.side == side && IsRed(c.sib) && c.sib.node == w
      modifies this`root, this`view, repr
      ensures Deleting(RootOf(t), xp, Dropped(c), t) && Inorder(view) == old(Inorder(view))
    {
      DropGap(c, t);
      Siblings(Cells(repr), root, c, t);
      Paint(w, Black, SibCtx(c, t), c.sib);
      ghost var p := Mk(side, t, xp, c.color, c.sib.(color := Black));
      Paint(xp, Red, c.up, p);
      Rotate(side, xp, c.up, p.(color := Red));
    }

    // The sibling w is black with a red inner child, which takes its place.
    method DeleteLean(side: Side, xp: Node, w: Node, ghost c: Ctx, ghost t: Tree)
      requires Deleting(RootOf(t), xp, c, t)
      requires c.Under? && c.side == side && c.sib.Fork? && c.sib.node == w && c.sib.color == Black
      requires IsRed(Inner(c)) && !IsRed(Outer(c))
      modifies this`root, this`view, repr
      ensures Deleting(RootOf(t), xp, Leaned(c), t) && Inorder(view) == old(Inorder(view))
    {
      LeanGap(c, t);
      Siblings(Cells(repr), root, c, t);
      ghost var d, i := SibCtx(c, t), Inner(c);
      if Kid(w, side) != null {
        Paint(Kid(w, side), Black, Under(d, side, w, c.sib.color, Outer(c)), i);
      }
      ghost var s := Mk(side, i.(color := Black), w, c.sib.color, Outer(c));
      Paint(w, Red, d, s);
      Rotate(Other(side), w, d, s.(color := Red));
    }

    // The sibling w is black with a red outer child: recoloring and a rotation at xp end the loop.
    method DeleteMend(side: Side, xp: Node, w: Node, ghost c: Ctx, ghost t: Tree)
      requires Deleting(RootOf(t), xp, c, t) && !IsRed(t)
      requires c.Under? && c.side == side && c.sib.Fork? && c.sib.node == w && c.sib.color == Black && IsRed(Outer(c))
      modifies this`root, this`view, repr
      ensures Linked() && RedBlack(view) && Inorder(view) == old(Inorder(view))
    {
      MendedRules(c, t);
      Siblings(Cells(repr), root, c, t);
      ghost var d, o := SibCtx(c, t), Outer(c);
      Paint(w, xp.color, d, c.sib);
      ghost var s := c.sib.(color := c.color);
      ghost var p := Mk(side, t, xp, c.color, s);
      Paint(xp, Black, c.up, p);
      d := Under(c.up, Other(side), xp, Black, t);
      if Kid(w, Other(side)) != null {
        Paint(Kid(w, Other(side)), Black, Under(d, Other(side), w, c.color, Inner(c)), o);
      }
      s := Mk(side, Inner(c), w, c.color, o.(color := Black));
      Rotate(side, xp, c.up, Mk(side, t, xp, Black, s));
    }

    // The sibling w is black with two black children: it turns red, and xp becomes x.
    method DeletePassUp(xp0: Node, w: Node, ghost c0: Ctx, ghost t0: Tree)
      returns (xp: Node?, ghost c: Ctx, ghost t: Tree)
      requires Deleting(RootOf(t0), xp0, c0, t0) && !IsRed(t0)
      requires c0.Under? && c0.sib.Fork? && c0.sib.node == w && c0.sib.color == Black
      requires !IsRed(c0.sib.left) && !IsRed(c0.sib.right)
      modifies this`root, this`view, repr
      ensures Deleting(xp0, xp, c, t) && Inorder(view) == old(Inorder(view))
      ensures c == c0.up && t.Fork? && t.color == c0.color
    {
      PassUpGap(c0, t0);
      Siblings(Cells(repr), root, c0, t0);
      Paint(w, Red, SibCtx(c0, t0), c0.sib);
      xp := xp0.parent;
      c, t := c0.up, Mk(c0.side, t0, c0.node, c0.color, c0.sib.(color := Red));
      Focus(Cells(repr), root, c, t);
    }

    // The sibling w is black with a red child: at most two rotations end the loop.
    method DeleteRotate(side: Side, xp: Node, w0: Node, ghost c0: Ctx, ghost t: Tree)
      requires Deleting(RootOf(t), xp, c0, t) && !IsRed(t)
      requires c0.Under? && c0.side == side && c0.sib.Fork? && c0.sib.node == w0 && c0.sib.color == Black
      requires IsRed(c0.sib.left) || IsRed(c0.sib.right)
      modifies this`root, this`view, repr
      ensures Linked() && RedBlack(view) && Inorder(view) == old(Inorder(view))
    {
      ghost var c := c0;
      var w := w0;
      Siblings(Cells(repr), root, c, t);
      if Kid(w, Other(side)) == null || Kid(w, Other(side)).color == Black {
        LeanGap(c, t);
        DeleteLean(side, xp, w, c, t);
        c := Leaned(c);
        Siblings(Cells(repr), root, c, t);
        w := Kid(xp, Other(side));
      }
      DeleteMend(side, xp, w, c, t);
    }

    // The rest of a round of the loop of fixDelete, once the sibling w is black.
    method DeleteBeside(side: Side, xp0: Node, w: Node, ghost c0: Ctx, ghost t0: Tree)
      returns (x: Node?, xp: Node?, ghost c: Ctx, ghost t: Tree)
      requires Deleting(RootOf(t0), xp0, c0, t0) && !IsRed(t0)
      requires c0.Under? && c0.side == side && c0.sib.Fork? && c0.sib.node == w && c0.sib.color == Black
      modifies this`root, this`view, repr
      ensures Deleting(x, xp, c, t) && Inorder(view) == old(Inorder(view))
      ensures c.Top? || (c == c0.up && t.Fork? && t.color == c0.color)
    {
      Siblings(Cells(repr), root, c0, t0);
      if (w.left == null || w.left.color == Black) && (w.right == null || w.right.color == Black) {
        x := xp0;
        xp, c, t := DeletePassUp(xp0, w, c0, t0);
      } else {
        DeleteRotate(side, xp0, w, c0, t0);
        x, xp := root, null;
        c, t := Top, view;
      }
    }

    // A round of the loop of fixDelete; x is the `side` child of xp.
    method DeleteRound(side: Side, xp0: Node, ghost c0: Ctx, ghost t0: Tree)
      returns (x: Node?, xp: Node?, ghost c: Ctx, ghost t: Tree)
      requires Deleting(RootOf(t0), xp0, c0, t0) && !IsRed(t0) && c0.Under? && c0.side == side
      modifies this`root, this`view, repr
      ensures Deleting(x, xp, c, t) && Inorder(view) == old(Inorder(view))
      ensures c.Top? || IsRed(t) || Depth(c) < Depth(c0)
    {
      c := c0;
      DeleteGapSibling(c, t0);
      Siblings(Cells(repr), root, c, t0);
      var w := Kid(xp0, Other(side));
      if w != null && w.color == Red {
        DropGap(c, t0);
        DeleteDrop(side, xp0, w, c, t0);
        c := Dropped(c);
        Siblings(Cells(repr), root, c, t0);
        w := Kid(xp0, Other(side));
      }
      x, xp, c, t := DeleteBeside(side, xp0, w, c, t0);
    }

    // x->color = BLACK, once the loop has ended.
    method BlackenSpliced(x: Node?, xp: Node?, ghost c: Ctx, ghost t: Tree)
      requires Deleting(x, xp, c, t) && (c.Top? || IsRed(t))
      modifies this`view, repr
      ensures Linked() && RedBlack(view) && Inorder(view) == old(Inorder(view))
    {
      DeleteDone(c, t);
      Focus(Cells(repr), root, c, t);
      if x != null {
        Paint(x, Black, c, t);
      }
    }

    lemma LookBelow(x: Node?, xp: Node?, c: Ctx, t: Tree)
      requires Deleting(x, xp, c, t)
      ensures x == root <==> c.Top?
      ensures x != null ==> x in repr && x.parent == xp && x.color == t.color
      ensures c.Under? ==> xp in repr && c.sib.Fork? && (x == xp.left <==> c.side == L)
    {
      Focus(Cells(repr), root, c, t);
      if c.Under? {
        DeleteGapSibling(c, t);
        Siblings(Cells(repr), root, c, t);
      }
    }

    // x0p stands for what the source reads as x->parent, which does not exist when x is NULL.
    method FixDelete(x0: Node?, x0p: Node?, ghost c0: Ctx, ghost t0: Tree)
      requires Deleting(x0, x0p, c0, t0)
      modifies this`root, this`view, repr
      ensures Linked() && RedBlack(view)
      ensures Inorder(view) == old(Inorder(view))
    {
      var x, xp := x0, x0p;
      ghost var c, t := c0, t0;
      LookBelow(x, xp, c, t);
      while x != root && (x == null || x.color == Black)
        invariant Deleting(x, xp, c, t) && Inorder(view) == old(Inorder(view))
        invariant x == root <==> c.Top?
        invariant x != null ==> x in repr && x.color == t.color
        invariant c.Under? ==> xp in repr && (x == xp.left <==> c.side == L)
        decreases if c.Top? || IsRed(t) then 0 else Depth(c)
      {
        if x == xp.left {
          x, xp, c, t := DeleteRound(L, xp, c, t);
        } else {
          x, xp, c, t := DeleteRound(R, xp, c, t);
        }
        LookBelow(x, xp, c, t);
      }
      BlackenSpliced(x, xp, c, t);
    }

    method Transplant(u: Node, v: Node?, ghost p: Node?)
      requires u in repr && u.parent == p && p != u
      requires p != null ==> p in repr && p != v && (p.left == u || p.right == u)
      requires v != null ==> v in repr
      modifies this`root, repr
      ensures root == if p == null then v else old(root)
      ensures p != null ==> Cells(repr)[p] == Relinked(old(Cells(repr))[p], u, v)
      ensures v != null ==> Cells(repr)[v] == old(Cells(repr))[v].(parent := p)
      ensures Elsewhere(old(Cells(repr)), Cells(repr), p, v, p, v)
    {
      if u.parent == null {
        root := v;
      } else if u == u.parent.left {
        u.parent.left := v;
      } else {
        u.parent.right := v;
      }
      if v != null {
        v.parent := u.parent;
      }
    }

    // transplant as a step on the tree: u, the root of t, gives way to its only child, if it has one.
    method SpliceOut(u: Node, v: Node?, ghost c: Ctx, ghost t: Tree, ghost w: Tree)
      requires Linked() && view == Plug(c, t) && t.Fork? && t.node == u && v == RootOf(w)
      requires (t.left.Leaf? && w == t.right) || (t.right.Leaf? && w == t.left)
      modifies this`root, this`view, repr
      ensures Linked() && view == Plug(c, w) && Nodes(view) == old(Nodes(view)) - {u}
      ensures v != null ==> v in repr && v.parent == CtxNode(c)
    {
      ghost var s := Cells(repr);
      SpliceLinks(s, root, c, t, w);
      Transplant(u, v, CtxNode(c));
      Excised(s, Cells(repr), old(root), root, c, t, w);
      view := Plug(c, w);
    }

    // y takes over from z what lies to the left and above: the last lines of the two-children case.
    method TakePlace(z: Node, y: Node, ghost p: Node?, ghost l: Node)
      requires z in repr && y in repr && z != y && z.parent == p && z.left == l && p != z && p != y
      requires l in repr && l != y && l != z && l != p
      requires p != null ==> p in repr && (p.left == z || p.right == z)
      modifies this`root, repr
      ensures root == if p == null then y else old(root)
      ensures Cells(repr)[y] == Cell(old(z.color), l, old(y.right), p)
      ensures Cells(repr)[l] == old(Cells(repr))[l].(parent := y)
      ensures p != null ==> Cells(repr)[p] == Relinked(old(Cells(repr))[p], z, y)
      ensures Elsewhere(old(Cells(repr)), Cells(repr), y, l, p, y)
    {
      Transplant(z, y, p);
      assert Cells(repr)[z] == old(Cells(repr)[z]);
      assert Cells(repr)[y] == old(Cells(repr)[y]).(parent := p);
      y.left := z.left;
      y.left.parent := y;
      y.color := z.color;
    }

    // y takes over what lies to the right as well.
    method TakeBoth(z: Node, y: Node, ghost p: Node?, ghost l: Node, ghost r: Node)
      requires z in repr && y in repr && z != y && z.parent == p && z.left == l && z.right == r && p != z && p != y
      requires l in repr && l != y && l != z && l != p && r in repr && r != y && r != z && r != p && r != l
      requires p != null ==> p in repr && (p.left == z || p.right == z)
      modifies this`root, repr
      ensures root == if p == null then y else old(root)
      ensures Cells(repr)[y] == Cell(old(z.color), l, r, p)
      ensures Cells(repr)[l] == old(Cells(repr))[l].(parent := y)
      ensures Cells(repr)[r] == old(Cells(repr))[r].(parent := y)
      ensures p != null ==> Cells(repr)[p] == Relinked(old(Cells(repr))[p], z, y)
      ensures Beyond(old(Cells(repr)), Cells(repr), y, l, r, p, z)
    {
      y.right := z.right;
      y.right.parent := y;
      TakePlace(z, y, p, l);
    }

    // y, the right child of z, keeps its own right child x.
    method TakeNear(z: Node, y: Node, x: Node?, ghost p: Node?, ghost l: Node)
      requires z in repr && y in repr && z != y && z.parent == p && z.left == l && p != z && p != y
      requires l in repr && l != y && l != z && l != p
      requires x != null ==> x in repr && x != y && x != z && x != l && x != p
      requires p != null ==> p in repr && (p.left == z || p.right == z)
      modifies this`root, repr
      ensures root == if p == null then y else old(root)
      ensures Cells(repr)[y] == Cell(old(z.color), l, old(y.right), p)
      ensures Cells(repr)[l] == old(Cells(repr))[l].(parent := y)
      ensures x != null ==> Cells(repr)[x] == old(Cells(repr))[x].(parent := y)
      ensures p != null ==> Cells(repr)[p] == Relinked(old(Cells(repr))[p], z, y)
      ensures Beyond(old(Cells(repr)), Cells(repr), y, l, x, p, z)
    {
      if x != null {
        x.parent := y;
      }
      TakePlace(z, y, p, l);
    }

    // The two-children case when the successor y of z lies deeper than z's right child. The tree
    // on z's right has already lost y.
    method ReplaceFar(z: Node, y: Node, ghost c: Ctx, ghost t: Tree)
      requires Linked() && view == Plug(c, t) && t.Fork? && t.node == z && t.left.Fork? && t.right.Fork?
      requires y in repr && y !in Nodes(view)
      modifies this`root, this`view, repr
      ensures Linked() && view == Plug(c, t.(node := y)) && Nodes(view) == old(Nodes(view)) - {z} + {y}
    {
      ghost var s := Cells(repr);
      SubstituteLinks(s, root, c, t.left, z, t.color, t.right, y);
      TakeBoth(z, y, CtxNode(c), t.left.node, t.right.node);
      Substituted(s, Cells(repr), old(root), root, c, t.left, z, t.color, t.right, y);
      view := Plug(c, t.(node := y));
    }

    // The writes of the two-children case when the successor y is z's right child itself. x is the right child of y.
    method RelinkNear(z: Node, y: Node, x: Node?, ghost c: Ctx, ghost t: Tree)
      requires Whole(Cells(repr), root, Plug(c, t)) && t.Fork? && t.node == z && t.left.Fork?
      requires t.right.Fork? && t.right.node == y && t.right.left.Leaf? && x == RootOf(t.right.right)
      modifies this`root, repr
      ensures Whole(Cells(repr), root, Plug(c, Fork(t.left, y, t.color, t.right.right)))
    {
      ghost var s := Cells(repr);
      NearLinks(s, root, c, t);
      TakeNear(z, y, x, CtxNode(c), t.left.node);
      SubstitutedNear(s, Cells(repr), old(root), root, c, t, y);
    }

    method ReplaceNear(z: Node, y: Node, x: Node?, ghost c: Ctx, ghost t: Tree)
      requires Linked() && view == Plug(c, t) && t.Fork? && t.node == z && t.left.Fork?
      requires t.right.Fork? && t.right.node == y && t.right.left.Leaf? && x == RootOf(t.right.right)
      modifies this`root, this`view, repr
      ensures Linked() && view == Plug(c, Fork(t.left, y, t.color, t.right.right))
      ensures Nodes(view) == old(Nodes(view)) - {z}
    {
      NearNodes(Cells(repr), root, c, t);
      RelinkNear(z, y, x, c, t);
      view := Plug(c, Fork(t.left, y, t.color, t.right.right));
    }

    method GetMinimumNode(n: Node, ghost t: Tree, ghost p: Node?) returns (m: Node)
      requires Lays(Cells(repr), t, p) && t.Fork? && t.node == n
      ensures m == Minimum(t).node
    {
      m := n;
      ghost var u, q := t, p;
      while m.left != null
        invariant Lays(Cells(repr), u, q) && u.Fork? && u.node == m && m in repr
        invariant Minimum(u) == Minimum(t)
        decreases u
      {
        m := m.left;
        q := u.node;
        u := u.left;
      }
    }

    lemma SuccessorLinks(c: Ctx, f: Tree)
      requires Linked() && view == Plug(c, f) && f.Fork? && f.right.Fork?
      ensures var (d, m) := (MinCtx(Top, f.right), Minimum(f.right));
              && view == Plug(Append(d, Under(c, R, f.node, f.color, f.left)), m)
              && m.node in repr && m.node.color == m.color && m.node.right == RootOf(m.right)
              && m.node.parent == (if d.Top? then f.node else d.node)
              && (m.node.parent == f.node <==> d.Top?)
              && (d.Top? <==> m == f.right)
              && m.node in Nodes(view) && m.node != f.node
    {
      var d, m := MinCtx(Top, f.right), Minimum(f.right);
      MinimumAt(Top, f.right);
      PlugAppend(d, Under(c, R, f.node, f.color, f.left), m);
      Focus(Cells(repr), root, Append(d, Under(c, R, f.node, f.color, f.left)), m);
      NodesPlug(d, m);
      NodesPlug(c, f);
      assert d.Under? ==> d.node in CtxNodes(d);
      assert m.node in Nodes(m);
    }

    // transplant(y, y->right), and then y in the place of z.
    method MoveSuccessor(z: Node, y: Node, ghost c: Ctx, ghost f: Tree)
      requires Linked() && view == Plug(c, f) && f.Fork? && f.node == z && f.left.Fork? && f.right.Fork?
      requires y == Minimum(f.right).node && y != f.right.node
      modifies this`root, this`view, repr
      ensures Linked() && view == Plug(SuccessorCtx(c, f), Minimum(f.right).right)
      ensures Nodes(view) == old(Nodes(view)) - {z}
    {
      ghost var d, m := MinCtx(Top, f.right), Minimum(f.right);
      ghost var u := Under(c, R, z, f.color, f.left);
      SuccessorLinks(c, f);
      Swap(Nodes(view), z, y);
      SpliceOut(y, y.right, Append(d, u), m, m.right);
      PlugAppend(d, u, m.right);
      PlugAppend(d, u.(node := y), m.right);
      PlugUnder(d, m.right);
      ReplaceFar(z, y, c, Fork(f.left, z, f.color, Plug(d, m.right)));
    }

    // The two-children case of deleteNode. x ends up in the place that y, the successor of z, gives
    // up, and xp above it. Unless `asMeant`, storing through a NULL x is a fault, as in the source.
    method ReplaceBySuccessor(z: Node, asMeant: bool, ghost c: Ctx, ghost f: Tree)
      returns (fault: bool, x: Node?, xp: Node?, color: Color)
      requires Linked() && view == Plug(c, f) && f.Fork? && f.node == z && f.left.Fork? && f.right.Fork?
      modifies this`root, this`view, repr
      ensures fault <==> !asMeant && f.right.left.Leaf? && f.right.right.Leaf?
      ensures color == Minimum(f.right).color
      ensures !fault ==> Linked() && view == Plug(SuccessorCtx(c, f), Minimum(f.right).right)
      ensures !fault ==> x == RootOf(Minimum(f.right).right) && xp == CtxNode(SuccessorCtx(c, f))
      ensures !fault ==> Nodes(view) == old(Nodes(view)) - {z}
    {
      ghost var d, m := MinCtx(Top, f.right), Minimum(f.right);
      Focus(Cells(repr), root, c, f);
      Split(Cells(repr), root, c, f);
      var y := GetMinimumNode(z.right, f.right, z);
      SuccessorLinks(c, f);
      color := y.color;
      x := y.right;
      fault := false;
      if y.parent == z {
        xp := y;
        if x == null && !asMeant {
          return true, x, xp, color;
        }
        ReplaceNear(z, y, x, c, f);
      } else {
        xp := y.parent;
        MoveSuccessor(z, y, c, f);
      }
    }

    // The recursion of searchNode, on the subtree t hanging from `parent`.
    static function SearchNode(n: Node?, key: int, ghost nodes: set<Node>, ghost t: Tree, ghost parent: Node?)
      : (r: Node?)
      requires Lays(Cells(nodes), t, parent) && n == RootOf(t)
      reads nodes
      ensures r == RootOf(Found(t, key))
      decreases t
    {
      if n == null || n.key == key then n
      else if key < n.key then SearchNode(n.left, key, nodes, t.left, n)
      else SearchNode(n.right, key, nodes, t.right, n)
    }

    function Search(key: int): (r: Node?)
      requires Valid()
      reads this, repr
      ensures r == RootOf(Found(view, key))
      ensures r != null <==> HasKey(Inorder(view), key)
      ensures r != null ==> r.key == key
    {
      FoundAt(Top, view, key);
      FoundIffStored(view, key);
      SearchNode(root, key, repr, view, null)
    }

    static lemma SuccessorFacts(c: Ctx, f: Tree)
      requires f.Fork? && f.right.Fork?
      ensures SuccessorCtx(c, f).Under?
      ensures Inorder(Plug(SuccessorCtx(c, f), Minimum(f.right).right))
           == (Before(c) + Inorder(f.left)) + (Inorder(f.right) + After(c))
    {
      SuccessorOrder(c, f, Minimum(f.right).node);
      AppendUnder(MinCtx(Top, f.right), Under(c, R, Minimum(f.right).node, f.color, f.left));
    }

    static lemma OwnMinimum(f: Tree)
      requires f.Fork?
      ensures Minimum(f) == f <==> f.left.Leaf?
    {
    }

    static lemma DeletePlace(t: Tree, key: int)
      requires Found(t, key).Fork? && Sorted(Inorder(t))
      ensures var (c, f, i) := (FoundCtx(Top, t, key), Found(t, key), Rank(t, key));
              && Plug(c, f) == t && f.node.key == key
              && i < |Inorder(t)| && Inorder(t)[i] == f.node
              && Inorder(t)[..i] == Before(c) + Inorder(f.left)
              && Inorder(t)[i + 1..] == Inorder(f.right) + After(c)
              && Sorted(Inorder(t)[..i] + Inorder(t)[i + 1..])
    {
      var i := Rank(t, key);
      FoundAt(Top, t, key);
      RankAt(t, key);
      SortedWithout(Inorder(t), i);
    }

    // deleteNode up to its call of fixDelete: z leaves the graph, and x comes to stand where a node of
    // color `color` is missing.
    method Unlink(z: Node, asMeant: bool, ghost c: Ctx, ghost f: Tree)
      returns (fault: bool, x: Node?, xp: Node?, color: Color, ghost d: Ctx, ghost w: Tree)
      requires Linked() && RedBlack(view) && view == Plug(c, f) && f.Fork? && f.node == z
      modifies this`root, this`view, repr
      ensures fault <==> !asMeant && f.left.Fork? && f.right.Fork? && f.right.left.Leaf? && f.right.right.Leaf?
      ensures !fault ==> (d, w, color) == Spliced(c, f)
      ensures f.left.Fork? && f.right.Fork? ==> d.Under?
      ensures !fault ==> Linked() && view == Plug(d, w) && x == RootOf(w) && xp == CtxNode(d)
      ensures !fault ==> Nodes(view) == old(Nodes(view)) - {z}
      ensures !fault ==> Inorder(view) == (Before(c) + Inorder(f.left)) + (Inorder(f.right) + After(c))
      ensures !fault ==> if color == Black then DeleteGap(d, w) else RedBlack(view)
    {
      Focus(Cells(repr), root, c, f);
      x, xp, color := z, z.parent, z.color;
      fault := false;
      d := c;
      if z.left == null {
        x := z.right;
        w := f.right;
        SpliceGap(c, f, w);
        SpliceOrder(c, f, w);
        SpliceOut(z, z.right, c, f, w);
      } else if z.right == null {
        x := z.left;
        w := f.left;
        SpliceGap(c, f, w);
        SpliceOrder(c, f, w);
        SpliceOut(z, z.left, c, f, w);
      } else {
        d, w := SuccessorCtx(c, f), Minimum(f.right).right;
        SuccessorFacts(c, f);
        SuccessorGap(c, f);
        OwnMinimum(f.right);
        fault, x, xp, color := ReplaceBySuccessor(z, asMeant, c, f);
      }
    }

    // if (yOriginalColor == BLACK) fixDelete(root, x); fixDelete first reads x->parent, unless x is the root.
    method Restore(x: Node?, xp: Node?, color: Color, asMeant: bool, ghost d: Ctx, ghost w: Tree) returns (fault: bool)
      requires Linked() && view == Plug(d, w) && x == RootOf(w) && xp == CtxNode(d)
      requires if color == Black then DeleteGap(d, w) else RedBlack(view)
      modifies this`root, this`view, repr
      ensures fault <==> !asMeant && color == Black && w.Leaf? && d.Under?
      ensures !fault ==> Linked() && RedBlack(view)
      ensures !fault ==> Inorder(view) == old(Inorder(view)) && Nodes(view) == old(Nodes(view))
    {
      Focus(Cells(repr), root, d, w);
      ghost var spliced := view;
      if color == Black {
        if x == null && x != root && !asMeant {
          return true;
        }
        FixDelete(x, xp, d, w);
      }
      SameNodes(spliced, view);
      fault := false;
    }

    method Free(z: Node)
      requires Linked() && RedBlack(view) && Nodes(view) == repr - {z}
      modifies this`repr
      ensures Linked() && RedBlack(view) && repr == Nodes(view)
    {
      Forgotten(Cells(repr), Cells(repr - {z}), root, view);
      repr := repr - {z};
    }

    // deleteNode once it has found z.
    method Remove(z: Node, asMeant: bool, ghost c: Ctx, ghost f: Tree) returns (fault: bool)
      requires Linked() && RedBlack(view) && repr == Nodes(view) && view == Plug(c, f) && f.Fork? && f.node == z
      modifies this, repr
      ensures fault <==> !asMeant && !NullSafeAt(c, f)
      ensures !fault ==> Linked() && RedBlack(view) && repr == Nodes(view) == old(repr) - {z}
      ensures !fault ==> Inorder(view) == (Before(c) + Inorder(f.left)) + (Inorder(f.right) + After(c))
    {
      var x, xp, color;
      ghost var d, w;
      fault, x, xp, color, d, w := Unlink(z, asMeant, c, f);
      if fault {
        return;
      }
      fault := Restore(x, xp, color, asMeant, d, w);
      if fault {
        return;
      }
      Free(z);
    }

    // deleteNode. With `asMeant`, the parent of a NULL x is remembered in xp. Without it, the text is
    // taken literally: reading or writing through a NULL x is a fault, and nothing is said about what follows.
    method DeleteNode(key: int, asMeant: bool) returns (fault: bool)
      requires Valid()
      modifies this, repr
      ensures asMeant ==> !fault
      ensures !asMeant ==> (fault <==> !NullSafe(old(view), key))
      ensures !fault ==> Valid()
      ensures !fault && !HasKey(old(Inorder(view)), key) ==>
                root == old(root) && view == old(view) && repr == old(repr) && Cells(repr) == old(Cells(repr))
      ensures !fault && HasKey(old(Inorder(view)), key) ==>
                var q, i := old(Inorder(view)), Rank(old(view), key);
                && i < |q| && q[i].key == key && q[i] == old(Search(key))
                && Inorder(view) == q[..i] + q[i + 1..] && repr == old(repr) - {q[i]}
    {
      var z := Search(key);
      fault := false;
      if z == null {
        return;
      }
      ghost var c, f := FoundCtx(Top, view, key), Found(view, key);
      DeletePlace(view, key);
      Focus(Cells(repr), root, c, f);
      fault := Remove(z, asMeant, c, f);
    }
  }
}
