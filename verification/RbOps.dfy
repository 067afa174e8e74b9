/** `lib/rbtree/rb.c`: searching, inserting and removing, with their repairs, as the source walks. */
module RbOps {
  import opened WaitQueue
  import opened RunQueue
  import opened RbTree
  import opened RbDepth
  import T = TreeQueue

  /** `fix_extra_red`. */
  method FixExtraRed(node: Tree, path: Path, ghost h: int) returns (r: Tree)
    requires ExtraRed(node, path, h)
    ensures Valid(r) && Inorder(r) == Inorder(Plug(node, path))
    ensures Depth(r) <= Max(Depth(Plug(node, path)), Len(path) + 1 + 2 * h)
    ensures BlackHeight(r) == h + Dark(path) || 2 * BlackHeight(r) == Len(path) + 2 + 2 * h
  {
    hide ExtraRed, Inorder, Mended, Recolored, Valid, Depth, BlackHeight, Plug;
    var t, p := node, path;
    ghost var k := h;
    while p.In?
      invariant ExtraRed(t, p, k) && Inorder(Plug(t, p)) == Inorder(Plug(node, path))
      invariant Len(p) + 2 * k == Len(path) + 2 * h && k + Dark(p) == h + Dark(path)
      invariant Depth(Plug(t, p)) == Depth(Plug(node, path))
      decreases p
    {
      ExtraRedParts(t, p, k);
      if p.color == Black {
        PlugValid(t, p, k);
        PlugHeight(t, p, k);
        return Plug(t, p);
      }
      var up := p.up.up;
      PlugUp(t, p);
      PlugUp(Parent(t, p), p.up);
      if IsRed(p.up.other) {
        RecolorOk(t, p, k);
        RecolorDepth(t, p);
        PlugSame(Recolored(t, p), Grandparent(t, p), up);
        t, p, k := Recolored(t, p), up, k + 1;
      } else {
        MendOk(t, p, k);
        AuntDepth(t, p, k);
        MendDepth(t, p, k);
        PlugHeight(Mended(t, p), up, k + 1);
        PlugSame(Mended(t, p), Grandparent(t, p), up);
        return Plug(Mended(t, p), up);
      }
    }
    ExtraRedParts(t, p, k);
    PlugTop(t);
    PaintOrder(t, Black);
    PaintDepth(t, Black);
    RootBlack(t, k);
    RootMeasures(t, k);
    r := Paint(t, Black);
  }

  /** `find_and_stack`: walk down to `w` itself or to the empty place where it belongs. */
  method FindAndStack(tree: Tree, w: Elem) returns (t: Tree, p: Path, ghost h: int)
    requires Valid(tree) && InOrder(Inorder(tree))
    ensures At(tree, t, p, h) && (t.Leaf? || t.elem == w)
    ensures Splits(w, p)
    ensures w in Inorder(tree) ==> t.Node?
  {
    ghost var h0 :| Blacks(tree, h0);
    t, p, h := tree, Top, h0;
    assert At(tree, t, p, h) && Splits(w, p);
    hide At, Splits, Valid, InOrder, T.LessThan, Inorder, Blacks;
    while t.Node? && t.elem != w
      invariant At(tree, t, p, h) && Splits(w, p) && InOrder(Inorder(t))
      invariant w in Inorder(tree) ==> w in Inorder(t)
      decreases t
    {
      var side := if T.LessThan(w, t.elem) then L else R;
      SplitsDown(w, t, p);
      AtDown(tree, t, p, h, side);
      NodeOrder(t);
      if w in Inorder(t) {
        FoundBelow(w, t);
      }
      t, p, h := Child(t, side), Down(t, side, p), if t.color == Black then h - 1 else h;
    }
    NothingIn();
  }

  /** `rb_insert`: the result is a valid tree with `w` where the comparator puts it.  The new recorded
      depth bounds it, and `stack`, the number of nodes that were stacked, stays within the array. */
  method InsertNode(tree: Tree, w: Elem, maxDepth: int) returns (r: Tree, newDepth: int, ghost stack: nat)
    requires Valid(tree) && InOrder(Inorder(tree)) && w !in Inorder(tree) && Roomy(tree, maxDepth)
    ensures Valid(r) && Inorder(r) == T.Insert(Inorder(tree), w)
    ensures Roomy(r, newDepth) && stack <= maxDepth + 1
    ensures tree.Node? ==> newDepth == Max(maxDepth, stack)
  {
    hide Valid, Inorder, InOrder, Ahead, Behind, At, T.Insert, Depth, BlackHeight, Plug, ExtraRed, Splits;
    if tree.Leaf? {
      r, newDepth, stack := Node(Black, Leaf, w, Leaf), 1, 0;
      SingleNode(w);
      RoomyLeaf(maxDepth);
      return;
    }
    var t, p;
    ghost var h;
    t, p, h := FindAndStack(tree, w);
    NotFound(tree, t, p, h, w);
    SplitMeasures(tree, t, p, h);
    NewNode(tree, p, h, w);
    var node := Node(Red, Leaf, w, Leaf);
    r := FixExtraRed(node, p, h);
    InsertRoomy(tree, p, w, maxDepth, r);
    stack := Len(p) + 1;
    newDepth := if Len(p) + 1 > maxDepth then Len(p) + 1 else maxDepth;
  }

  /** `rb_get_min`. */
  method GetMin(tree: Tree) returns (r: Choice)
    ensures r == Best(Inorder(tree))
  {
    if tree.Leaf? {
      return None;
    }
    var t := tree;
    while t.left.Node?
      invariant t.Node? && Inorder(t) != [] && Inorder(t)[0] == Inorder(tree)[0]
      decreases t
    {
      t := t.left;
    }
    r := Some(t.elem.tid);
  }

  /** `fix_missing_black`. */
  method FixMissingBlack(node: Tree, path: Path, ghost h: int, ghost cap: int) returns (r: Tree, ghost stack: nat)
    requires MissingBlack(node, path, h) && Fits(node, path, h, cap) && Len(path) + 1 <= cap
    ensures Valid(r) && Inorder(r) == Inorder(Plug(node, path))
    ensures Depth(r) <= cap && BlackHeight(r) <= h + 1 + Dark(path) && stack <= cap
  {
    hide Fits, Depth, BlackHeight, MissingBlack, Inorder, Valid, Plug, RedOk, Blacks, PathRed, PathBlacks;
    hide Lowered, Outward, Restored, SiblingRed;
    var n, p := node, path;
    ghost var k := h;
    while p.In?
      invariant MissingBlack(n, p, k) && Inorder(Plug(n, p)) == Inorder(Plug(node, path))
      invariant Fits(n, p, k, cap) && Len(p) <= Len(path) && k + Dark(p) == h + Dark(path)
      decreases p
    {
      SiblingOk(n, p, k);
      if IsRed(p.other) {
        LowerOk(n, p, k);
        LowerOrder(n, p);
        LowerFits(n, p, k, cap);
        r, stack := FinishFix(n, Lowered(p), k, cap);
        return;
      }
      if p.color == Black && BlackNephews(p) {
        SiblingRedOk(n, p, k);
        PlugUp(n, p);
        PlugSame(SiblingRed(n, p, Black), Parent(n, p), p.up);
        SiblingRedMissing(n, p, k);
        ClimbFits(n, p, k, cap);
        n, p, k := SiblingRed(n, p, Black), p.up, k + 1;
      } else {
        r, stack := FinishFix(n, p, k, cap);
        return;
      }
    }
    NothingMissing(n, p, k);
    TopMeasures(n, p, k, cap);
    r, stack := n, Len(path) + 1;
  }

  /** The cases that end the repair: the parent is red, or a nephew is. */
  method FinishFix(n: Tree, p: Path, ghost h: int, ghost cap: int) returns (r: Tree, ghost stack: nat)
    requires MissingBlack(n, p, h) && p.In? && p.other.Node? && !IsRed(p.other)
    requires (p.color == Red || !BlackNephews(p)) && Fits(n, p, h, cap) && Len(p) + 1 <= cap
    ensures Valid(r) && Inorder(r) == Inorder(Plug(n, p))
    ensures Depth(r) <= cap && BlackHeight(r) == h + 1 + Dark(p) && stack <= cap
  {
    SiblingOk(n, p, h);
    PlugUp(n, p);
    hide Fits, Depth, BlackHeight, MissingBlack, Inorder, Valid, Plug, RedOk, Blacks, PathRed, PathBlacks;
    hide Outward, Restored, SiblingRed;
    if BlackNephews(p) {
      SiblingRedOk(n, p, h);
      SiblingRedBlack(n, p);
      PlugSame(SiblingRed(n, p, Black), Parent(n, p), p.up);
      PlugValid(SiblingRed(n, p, Black), p.up, h + 1);
      PlugHeight(SiblingRed(n, p, Black), p.up, h + 1);
      SettleFits(n, p, h, cap);
      r, stack := Plug(SiblingRed(n, p, Black), p.up), Len(p) + 1;
    } else {
      var sib := Outward(p.other, p.side);
      OutwardOk(p.other, p.side, h);
      RestoreOk(n, p, sib, h);
      RestoreOrder(n, p, sib);
      PlugSame(Restored(n, p, sib), Parent(n, p), p.up);
      PlugValid(Restored(n, p, sib), p.up, if p.color == Black then h + 2 else h + 1);
      PlugHeight(Restored(n, p, sib), p.up, if p.color == Black then h + 2 else h + 1);
      RoomBelow(n, p, h, cap);
      RestoreFits(n, p, h, cap);
      r, stack := Plug(Restored(n, p, sib), p.up), Len(p) + 2;
    }
  }

  /** Splicing a node with at most one child out of the tree. */
  method TakeOut(t: Tree, p: Path, ghost h: int, ghost cap: int) returns (r: Tree, ghost stack: nat)
    requires Removable(t, p, h) && Fits(t, p, h - 1, cap)
    ensures Valid(r) && Inorder(r) == Ahead(p) + Inorder(OnlyChild(t)) + Behind(p)
    ensures Depth(r) <= cap && BlackHeight(r) <= h + Dark(p) && stack <= cap
  {
    var child := OnlyChild(t);
    ChildOk(t, L, h);
    ChildOk(t, R, h);
    ghost var k := if t.color == Black then h - 1 else h;
    PlugOrder(child, p);
    PlugOrder(Paint(child, Black), p);
    PaintOrder(child, Black);
    PaintOk(child, k);
    ChildHeight(t, h);
    hide Inorder, Ahead, Behind, Valid, Fits, Depth, BlackHeight, Plug;
    ChildDepth(t);
    SpliceFits(t, child, p, h, cap);
    SpliceFits(t, Paint(child, Black), p, h, cap);
    stack := Len(p) + 1;
    if p.Top? {
      RootBlack(child, k);
      return Paint(child, Black), stack;
    }
    if child.Leaf? {
      if t.color == Black {
        r, stack := FixMissingBlack(child, p, k, cap);
      } else {
        PlugValid(child, p, k);
        PlugHeight(child, p, k);
        r := Plug(child, p);
      }
    } else if t.color == Red || IsRed(child) {
      OnlyChildRed(t, h);
      PlugValid(Paint(child, Black), p, h);
      PlugHeight(Paint(child, Black), p, h);
      r := Plug(Paint(child, Black), p);
    } else {
      r, stack := FixMissingBlack(child, p, k, cap);
    }
  }

  /** Down the right side of the left subtree, to its greatest element. */
  method WalkRight(start: Tree, path: Path, ghost h: int, ghost cap: int) returns (t: Tree, p: Path, ghost k: int)
    requires start.Node? && Descending(start, path, h) && Fits(start, path, h - 1, cap)
    ensures Removable(t, p, k) && t.right.Leaf? && t.elem == Greatest(start)
    ensures Ahead(p) + Inorder(t) == Ahead(path) + Inorder(start) && Behind(p) == Behind(path)
    ensures Fits(t, p, k - 1, cap) && k + Dark(p) == h + Dark(path)
  {
    hide Descending, Inorder, Ahead, Behind, Fits;
    t, p, k := start, path, h;
    while t.right.Node?
      invariant t.Node? && Descending(t, p, k) && Greatest(t) == Greatest(start)
      invariant Ahead(p) + Inorder(t) == Ahead(path) + Inorder(start) && Behind(p) == Behind(path)
      invariant Fits(t, p, k - 1, cap) && k + Dark(p) == h + Dark(path)
      decreases t
    {
      DescendRight(t, p, k);
      DescendFits(t, R, p, k, cap);
      t, p, k := t.right, Down(t, R, p), if t.color == Black then k - 1 else k;
    }
    EndsRemovable(t, p, k);
  }

  /** `rb_remove`: a node with two children first trades places with its predecessor; a node that is
      not in the tree leaves it alone.  The recorded depth still bounds the tree, and `stack`, the
      number of nodes that were stacked at most, stays within the array. */
  method RemoveNode(tree: Tree, w: Elem, maxDepth: int) returns (r: Tree, newDepth: int, ghost stack: nat)
    requires tree.Node? && Valid(tree) && InOrder(Inorder(tree)) && Distinct(Inorder(tree)) && Roomy(tree, maxDepth)
    ensures Valid(r) && Inorder(r) == if w in Inorder(tree) then Without(Inorder(tree), w.tid) else Inorder(tree)
    ensures newDepth == (if r.Leaf? then 0 else maxDepth) && Roomy(r, newDepth) && stack <= maxDepth
  {
    var t, p;
    ghost var h;
    t, p, h := FindAndStack(tree, w);
    SplitMeasures(tree, t, p, h);
    PlugOrder(t, p);
    newDepth, stack := maxDepth, Len(p);
    if t.Leaf? {
      return tree, newDepth, stack;
    }
    AroundNode(t, p);
    WithoutOne(Ahead(p) + Inorder(t.left), w, Inorder(t.right) + Behind(p));
    if t.left.Node? && t.right.Node? {
      r, stack := TakeTraded(t, p, h, maxDepth);
    } else {
      AloneNode(t, p);
      r, stack := TakeOut(t, p, h, maxDepth);
    }
    if r.Leaf? {
      newDepth := 0;
    }
  }

  /** The predecessor's element stands in for the node's, and its own node is taken out. */
  method TakeTraded(t: Tree, p: Path, ghost h: int, ghost cap: int) returns (r: Tree, ghost stack: nat)
    requires t.Node? && t.left.Node? && t.right.Node? && Descending(t, p, h) && Fits(t, p, h - 1, cap)
    ensures Valid(r) && Inorder(r) == (Ahead(p) + Inorder(t.left)) + (Inorder(t.right) + Behind(p))
    ensures Depth(r) <= cap && BlackHeight(r) <= h + Dark(p) && stack <= cap
  {
    var last := Greatest(t.left);
    var frame := In(L, t.color, last, t.right, p);
    ghost var k := if t.color == Black then h - 1 else h;
    FramesDown(t, L, p, h);
    DescendFits(t, L, p, h, cap);
    assert Descending(t.left, frame, k) && Fits(t.left, frame, k - 1, cap);
    hide Valid, Descending, Blacks, RedOk, PathRed, PathBlacks, Fits, Depth, BlackHeight;
    var t2, p2;
    ghost var k2;
    t2, p2, k2 := WalkRight(t.left, frame, k, cap);
    Traded(t, p, t2, p2);
    r, stack := TakeOut(t2, p2, k2, cap);
  }
}
