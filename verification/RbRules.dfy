// The red-black rules, on trees and on contexts, and what they say about height.
module RbRules {
  import opened RbNode
  import opened RbView

  predicate IsRed(t: Tree) {
    t.Fork? && t.color == Red
  }

  function Weight(color: Color): nat {
    if color == Black then 1 else 0
  }

  // Black nodes on the leftmost way down; on every way down, when Balanced.
  function BlackHeight(t: Tree): nat {
    if t.Leaf? then 0 else BlackHeight(t.left) + Weight(t.color)
  }

  predicate Balanced(t: Tree) {
    t.Fork? ==> BlackHeight(t.left) == BlackHeight(t.right) && Balanced(t.left) && Balanced(t.right)
  }

  // Filling the hole with a balanced tree of black height h gives a balanced tree.
  predicate CtxBalanced(c: Ctx, h: nat) {
    c.Under? ==> Balanced(c.sib) && BlackHeight(c.sib) == h && CtxBalanced(c.up, h + Weight(c.color))
  }

  // No red node has a red child.
  predicate Fine(t: Tree) {
    t.Fork? ==> (t.color == Red ==> !IsRed(t.left) && !IsRed(t.right)) && Fine(t.left) && Fine(t.right)
  }

  predicate CtxFine(c: Ctx, red: bool) {
    c.Under? ==>
      && (c.color == Red ==> !red && !IsRed(c.sib))
      && Fine(c.sib)
      && CtxFine(c.up, c.color == Red)
  }

  // The node farthest from the hole is black.
  predicate Rooted(c: Ctx) {
    c.Under? ==> if c.up.Top? then c.color == Black else Rooted(c.up)
  }

  predicate RedBlack(t: Tree) {
    Balanced(t) && Fine(t) && !IsRed(t)
  }

  // Everything holds, except that the red root of t may have a red parent.
  predicate InsertGap(c: Ctx, t: Tree) {
    && t.Fork? && t.color == Red
    && Balanced(t) && CtxBalanced(c, BlackHeight(t))
    && Fine(t) && CtxFine(c, false) && Rooted(c)
  }

  // Everything holds, except that t is one black node short, and that its root, if red, may
  // have a red parent or red children. Blackening a red root makes all of that good.
  predicate DeleteGap(c: Ctx, t: Tree) {
    && Balanced(t) && CtxBalanced(c, BlackHeight(t) + 1)
    && (t.Fork? ==> Fine(t.left) && Fine(t.right))
    && CtxFine(c, false) && Rooted(c)
  }

  function Depth(c: Ctx): nat {
    if c.Top? then 0 else 1 + Depth(c.up)
  }

  lemma {:induction false} BalancedPlug(c: Ctx, t: Tree)
    ensures Balanced(Plug(c, t)) <==> Balanced(t) && CtxBalanced(c, BlackHeight(t))
    decreases c
  {
    if c.Under? {
      BalancedPlug(c.up, Mk(c.side, t, c.node, c.color, c.sib));
    }
  }

  lemma {:induction false} FinePlug(c: Ctx, t: Tree)
    ensures Fine(Plug(c, t)) <==> Fine(t) && CtxFine(c, IsRed(t))
    decreases c
  {
    if c.Under? {
      FinePlug(c.up, Mk(c.side, t, c.node, c.color, c.sib));
    }
  }

  lemma {:induction false} RootedPlug(c: Ctx, t: Tree)
    ensures c.Under? ==> (IsRed(Plug(c, t)) <==> !Rooted(c))
    decreases c
  {
    if c.Under? {
      RootedPlug(c.up, Mk(c.side, t, c.node, c.color, c.sib));
    }
  }

  lemma RedBlackPlug(c: Ctx, t: Tree)
    ensures RedBlack(Plug(c, t)) <==>
            Balanced(t) && CtxBalanced(c, BlackHeight(t)) && Fine(t) && CtxFine(c, IsRed(t))
            && if c.Top? then !IsRed(t) else Rooted(c)
  {
    BalancedPlug(c, t);
    FinePlug(c, t);
    RootedPlug(c, t);
  }

  // ----- one round of fixInsert -----

  lemma InsertGapAbove(c: Ctx, t: Tree)
    requires InsertGap(c, t) && c.Under? && c.color == Red
    ensures c.up.Under? && c.up.color == Black && !IsRed(c.sib) && Fine(c.sib)
    ensures Balanced(c.sib) && BlackHeight(c.sib) == BlackHeight(t)
    ensures Fine(c.up.sib) && Balanced(c.up.sib) && BlackHeight(c.up.sib) == BlackHeight(t)
    ensures CtxFine(c.up.up, false) && CtxBalanced(c.up.up, BlackHeight(t) + 1)
    ensures Rooted(c.up.up)
  {
    assert CtxFine(c.up, true) && CtxBalanced(c.up, BlackHeight(t)) && Rooted(c.up);
  }

  function Recolored(c: Ctx, t: Tree): Tree
    requires c.Under? && c.up.Under? && c.up.sib.Fork?
  {
    var p := Up(c, t);
    Mk(c.up.side, p.(color := Black), c.up.node, Red, c.up.sib.(color := Black))
  }

  lemma RecolorGap(c: Ctx, t: Tree)
    requires InsertGap(c, t) && c.Under? && c.color == Red && c.up.Under? && IsRed(c.up.sib)
    ensures InsertGap(c.up.up, Recolored(c, t))
  {
    InsertGapAbove(c, t);
  }

  // z, an inner grandchild, changes places with its parent.
  lemma BendGap(c: Ctx, t: Tree)
    requires InsertGap(c, t) && c.Under? && c.color == Red && c.up.Under? && c.side != c.up.side
    ensures var (c', t') := Bent(c, t); InsertGap(c', t')
  {
    InsertGapAbove(c, t);
  }

  function Bent(c: Ctx, t: Tree): (Ctx, Tree)
    requires c.Under? && t.Fork?
  {
    if c.side == R then (Under(c.up, L, t.node, t.color, t.right), Fork(c.sib, c.node, c.color, t.left))
    else (Under(c.up, R, t.node, t.color, t.left), Fork(t.right, c.node, c.color, c.sib))
  }

  // z, an outer grandchild, and its parent rise over its grandparent.
  function Lifted(c: Ctx): Ctx
    requires c.Under? && c.up.Under?
  {
    Under(c.up.up, c.side, c.node, Black, Mk(c.side, c.sib, c.up.node, Red, c.up.sib))
  }

  lemma LiftGap(c: Ctx, t: Tree)
    requires InsertGap(c, t) && c.Under? && c.color == Red && c.up.Under? && c.side == c.up.side && !IsRed(c.up.sib)
    ensures InsertGap(Lifted(c), t)
  {
    InsertGapAbove(c, t);
  }

  // Blackening the root, once z is the root or its parent is black, mends the last broken rule.
  lemma InsertDone(c: Ctx, t: Tree)
    requires InsertGap(c, t) && (c.Top? || c.color == Black)
    ensures Plug(c, t).Fork? && RedBlack(Plug(c, t).(color := Black))
  {
    PlugUnder(c, t);
    RedBlackPlug(c, t);
  }

  // ----- one round of fixDelete -----

  // The sibling of a hole that is one black node short exists, and a red one has black children.
  lemma DeleteGapSibling(c: Ctx, t: Tree)
    requires DeleteGap(c, t) && c.Under?
    ensures c.sib.Fork?
    ensures IsRed(c.sib) ==> c.color == Black && c.sib.left.Fork? && c.sib.right.Fork?
    ensures IsRed(c.sib) ==> !IsRed(c.sib.left) && !IsRed(c.sib.right)
    ensures Balanced(c.sib.left) && Balanced(c.sib.right) && Fine(c.sib.left) && Fine(c.sib.right)
    ensures BlackHeight(c.sib.left) == BlackHeight(c.sib.right) == BlackHeight(t) + 1 - Weight(c.sib.color)
    ensures CtxFine(c.up, c.color == Red) && CtxBalanced(c.up, BlackHeight(t) + 1 + Weight(c.color))
    ensures if c.up.Top? then c.color == Black else Rooted(c.up)
  {
    assert Balanced(c.sib) && Fine(c.sib) && BlackHeight(c.sib) == BlackHeight(t) + 1;
  }

  // The node on the hole's side of the sibling, and the one away from it.
  function Inner(c: Ctx): Tree
    requires c.Under? && c.sib.Fork?
  {
    if c.side == L then c.sib.left else c.sib.right
  }

  function Outer(c: Ctx): Tree
    requires c.Under? && c.sib.Fork?
  {
    if c.side == L then c.sib.right else c.sib.left
  }

  // A red sibling rises over the parent, which it leaves red with a black child.
  function Dropped(c: Ctx): Ctx
    requires c.Under? && c.sib.Fork?
  {
    Under(Under(c.up, c.side, c.sib.node, Black, Outer(c)), c.side, c.node, Red, Inner(c))
  }

  lemma DropGap(c: Ctx, t: Tree)
    requires DeleteGap(c, t) && c.Under? && IsRed(c.sib)
    ensures DeleteGap(Dropped(c), t) && Dropped(c).sib.Fork? && Dropped(c).sib.color == Black
  {
    DeleteGapSibling(c, t);
  }

  // A sibling with two black children turns red, and the shortage moves up to the parent.
  lemma PassUpGap(c: Ctx, t: Tree)
    requires DeleteGap(c, t) && c.Under? && !IsRed(t) && c.sib.Fork? && c.sib.color == Black
    requires !IsRed(c.sib.left) && !IsRed(c.sib.right)
    ensures DeleteGap(c.up, Mk(c.side, t, c.node, c.color, c.sib.(color := Red)))
  {
    DeleteGapSibling(c, t);
    var sib := c.sib.(color := Red);
    assert Balanced(sib) && BlackHeight(sib) == BlackHeight(t) && Fine(sib);
  }

  // A red inner child of a black sibling takes the sibling's place.
  function Leaned(c: Ctx): Ctx
    requires c.Under? && c.sib.Fork? && Inner(c).Fork?
  {
    var w, i := c.sib, Inner(c);
    c.(sib := if c.side == L then Fork(i.left, i.node, Black, Fork(i.right, w.node, Red, w.right))
              else Fork(Fork(w.left, w.node, Red, i.left), i.node, Black, i.right))
  }

  lemma LeanGap(c: Ctx, t: Tree)
    requires DeleteGap(c, t) && c.Under? && c.sib.Fork? && c.sib.color == Black && IsRed(Inner(c)) && !IsRed(Outer(c))
    ensures DeleteGap(Leaned(c), t) && IsRed(Outer(Leaned(c)))
  {
    DeleteGapSibling(c, t);
  }

  // With a red outer child, one rotation makes good the shortage.
  function Mended(c: Ctx, t: Tree): Tree
    requires c.Under? && c.sib.Fork? && Outer(c).Fork?
  {
    Mk(c.side, Mk(c.side, t, c.node, Black, Inner(c)), c.sib.node, c.color, Outer(c).(color := Black))
  }

  lemma MendedRules(c: Ctx, t: Tree)
    requires DeleteGap(c, t) && c.Under? && !IsRed(t) && c.sib.Fork? && c.sib.color == Black && IsRed(Outer(c))
    ensures RedBlack(Plug(c.up, Mended(c, t)))
  {
    DeleteGapSibling(c, t);
    var near, far := Mk(c.side, t, c.node, Black, Inner(c)), Outer(c).(color := Black);
    assert Balanced(near) && BlackHeight(near) == BlackHeight(t) + 1 && Fine(near);
    assert Balanced(far) && BlackHeight(far) == BlackHeight(t) + 1 && Fine(far);
    RedBlackPlug(c.up, Mk(c.side, near, c.sib.node, c.color, far));
  }

  // Blackening x, once x is red or the root.
  lemma DeleteDone(c: Ctx, t: Tree)
    requires DeleteGap(c, t) && (c.Top? || IsRed(t))
    ensures RedBlack(Plug(c, if t.Fork? then t.(color := Black) else t))
  {
    RedBlackPlug(c, if t.Fork? then t.(color := Black) else t);
  }

  // ----- what deleteNode leaves for fixDelete -----

  // Taking out a node with at most one child.
  lemma SpliceGap(c: Ctx, t: Tree, w: Tree)
    requires RedBlack(Plug(c, t)) && t.Fork?
    requires (t.left.Leaf? && w == t.right) || (t.right.Leaf? && w == t.left)
    ensures if t.color == Black then DeleteGap(c, w) else RedBlack(Plug(c, w)) && w.Leaf?
    ensures w.Fork? ==> w.color == Red
  {
    RedBlackPlug(c, t);
    RedBlackPlug(c, w);
  }

  // The rules do not depend on which node stands where.
  lemma {:induction false} RenamedRules(d: Ctx, c: Ctx, z: Node, y: Node, color: Color, a: Tree, h: nat, red: bool)
    ensures var (e, e') := (Append(d, Under(c, R, z, color, a)), Append(d, Under(c, R, y, color, a)));
            && (CtxBalanced(e, h) <==> CtxBalanced(e', h))
            && (CtxFine(e, red) <==> CtxFine(e', red))
            && (Rooted(e) <==> Rooted(e'))
            && e.Under? && e'.Under?
    decreases d
  {
    if d.Under? {
      RenamedRules(d.up, c, z, y, color, a, h + Weight(d.color), d.color == Red);
    }
  }

  // Taking out a node z with two children: its successor leaves its own place and takes z's.
  function SuccessorCtx(c: Ctx, f: Tree): Ctx
    requires f.Fork? && f.right.Fork?
  {
    Append(MinCtx(Top, f.right), Under(c, R, Minimum(f.right).node, f.color, f.left))
  }

  lemma SuccessorGap(c: Ctx, f: Tree)
    requires RedBlack(Plug(c, f)) && f.Fork? && f.right.Fork?
    ensures var (d, m) := (SuccessorCtx(c, f), Minimum(f.right));
            && (if m.color == Black then DeleteGap(d, m.right) else RedBlack(Plug(d, m.right)) && m.right.Leaf?)
            && (m.right.Fork? ==> m.right.color == Red)
  {
    var d, m := MinCtx(Top, f.right), Minimum(f.right);
    var e := Append(d, Under(c, R, f.node, f.color, f.left));
    MinimumAt(Top, f.right);
    PlugAppend(d, Under(c, R, f.node, f.color, f.left), m);
    SpliceGap(e, m, m.right);
    RenamedRules(d, c, f.node, m.node, f.color, f.left, BlackHeight(m.right) + Weight(m.color), false);
    RedBlackPlug(e, m.right);
    RedBlackPlug(SuccessorCtx(c, f), m.right);
  }

  // When taking the root of f out of the tree Plug(c, f) never goes through a NULL x, however literally
  // the text is taken: it has at most one child, and is red, or has one child, or is all there is; or
  // its successor has a right child, or is red and not its own right child.
  predicate NullSafeAt(c: Ctx, f: Tree)
    requires f.Fork?
  {
    if f.left.Leaf? || f.right.Leaf? then
      f.color == Red || f.left.Fork? || f.right.Fork? || c.Top?
    else
      var m := Minimum(f.right);
      m.right.Fork? || (m.color == Red && m != f.right)
  }

  // What taking the root of f out of Plug(c, f) hands to fixDelete: a context, what now fills its hole,
  // and the color of the node that left that place.
  function Spliced(c: Ctx, f: Tree): (Ctx, Tree, Color)
    requires f.Fork?
  {
    if f.left.Leaf? then (c, f.right, f.color)
    else if f.right.Leaf? then (c, f.left, f.color)
    else (SuccessorCtx(c, f), Minimum(f.right).right, Minimum(f.right).color)
  }

  // Taken literally, deletion never rebalances: whenever no NULL x gets in its way, fixDelete is either
  // not called or called with a red node or the root, and its loop ends before its first round.
  lemma LiteralDeleteNeverRebalances(c: Ctx, f: Tree)
    requires RedBlack(Plug(c, f)) && f.Fork? && NullSafeAt(c, f)
    ensures var (d, w, color) := Spliced(c, f); color == Black ==> d.Top? || IsRed(w)
  {
    if f.left.Leaf? {
      SpliceGap(c, f, f.right);
    } else if f.right.Leaf? {
      SpliceGap(c, f, f.left);
    } else {
      SuccessorGap(c, f);
    }
  }

  // The smallest failing family: in a tree of three keys, taking out the middle one goes through NULL.
  lemma LiteralDeleteFaults(n1: Node, n2: Node, n3: Node, color: Color)
    requires n1.key == 1 && n2.key == 2 && n3.key == 3
    ensures var t := Fork(Fork(Leaf, n1, color, Leaf), n2, Black, Fork(Leaf, n3, color, Leaf));
            RedBlack(t) && !NullSafe(t, 2)
  {
    var t := Fork(Fork(Leaf, n1, color, Leaf), n2, Black, Fork(Leaf, n3, color, Leaf));
    assert Found(t, 2) == t && FoundCtx(Top, t, 2) == Top;
    assert Minimum(t.right) == t.right;
  }

  // The same of deleting `key` from t; an absent key is always safe.
  predicate NullSafe(t: Tree, key: int) {
    Found(t, key).Fork? ==> NullSafeAt(FoundCtx(Top, t, key), Found(t, key))
  }

  // ----- height -----

  function Height(t: Tree): nat {
    if t.Leaf? then 0 else 1 + if Height(t.left) < Height(t.right) then Height(t.right) else Height(t.left)
  }

  function Size(t: Tree): nat {
    if t.Leaf? then 0 else Size(t.left) + 1 + Size(t.right)
  }

  function Pow2(n: nat): (p: nat)
    ensures p >= 1
  {
    if n == 0 then 1 else 2 * Pow2(n - 1)
  }

  lemma {:induction false} HeightAtMostTwiceBlack(t: Tree)
    requires Balanced(t) && Fine(t)
    ensures Height(t) <= 2 * BlackHeight(t) + if IsRed(t) then 1 else 0
  {
    if t.Fork? {
      HeightAtMostTwiceBlack(t.left);
      HeightAtMostTwiceBlack(t.right);
    }
  }

  lemma {:induction false} BlackFloor(t: Tree)
    requires Balanced(t)
    ensures Pow2(BlackHeight(t)) <= Size(t) + 1
  {
    if t.Fork? {
      BlackFloor(t.left);
      BlackFloor(t.right);
    }
  }

  lemma {:induction false} Pow2Grows(m: nat, n: nat)
    requires m <= n
    ensures Pow2(m) <= Pow2(n)
    decreases n
  {
    if m < n {
      Pow2Grows(m, n - 1);
    }
  }

  lemma {:induction false} Pow2Double(n: nat)
    ensures Pow2(2 * n) == Pow2(n) * Pow2(n)
  {
    if n > 0 {
      Pow2Double(n - 1);
      var p := Pow2(n - 1);
      assert Pow2(2 * n) == 2 * Pow2(2 * n - 1) == 4 * Pow2(2 * (n - 1));
      assert (2 * p) * (2 * p) == 4 * (p * p);
    }
  }

  lemma {:induction false} SizeInorder(t: Tree)
    ensures Size(t) == |Inorder(t)|
  {
    if t.Fork? {
      SizeInorder(t.left);
      SizeInorder(t.right);
    }
  }

  // Height at most 2 * log2(n + 1), for n stored keys.
  lemma HeightBound(t: Tree)
    requires RedBlack(t)
    ensures Pow2(Height(t)) <= (|Inorder(t)| + 1) * (|Inorder(t)| + 1)
  {
    HeightAtMostTwiceBlack(t);
    BlackFloor(t);
    SizeInorder(t);
    var p, n := Pow2(BlackHeight(t)), Size(t) + 1;
    Pow2Grows(Height(t), 2 * BlackHeight(t));
    Pow2Double(BlackHeight(t));
    TimesGrows(p, n, p);
    TimesGrows(p, n, n);
  }

  lemma TimesGrows(p: nat, n: nat, k: nat)
    requires p <= n
    ensures p * k <= n * k
  {
    assert n * k == p * k + (n - p) * k;
  }

  lemma {:induction false} SearchCallsBound(t: Tree, key: int)
    ensures SearchCalls(t, key) <= Height(t) + 1
  {
    if t.Fork? {
      SearchCallsBound(t.left, key);
      SearchCallsBound(t.right, key);
    }
  }

  // searchNode calls itself at most 2 * log2(n + 1) times.
  lemma SearchIsLogarithmic(t: Tree, key: int)
    requires RedBlack(t)
    ensures Pow2(SearchCalls(t, key) - 1) <= (|Inorder(t)| + 1) * (|Inorder(t)| + 1)
  {
    HeightBound(t);
    SearchCallsBound(t, key);
    Pow2Grows(SearchCalls(t, key) - 1, Height(t));
  }
}
