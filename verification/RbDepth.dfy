/** How deep the red-black tree gets, against the depth that `struct rbtree` records and sizes its
    stacks by.  Insertion records the depth at which it adds a node, before repairing the colours, and
    removal records nothing, although both repairs can move whole subtrees down. */
module RbDepth {
  import opened RbTree
  import T = TreeQueue

  function Max(a: int, b: int): int {
    if a < b then b else a
  }

  /** The number of nodes on the stack above the hole, and of black ones among them. */
  function Len(p: Path): nat {
    if p.Top? then 0 else 1 + Len(p.up)
  }

  function Dark(p: Path): nat {
    if p.Top? then 0 else Dark(p.up) + if p.color == Black then 1 else 0
  }

  /** How deep the tree reaches beside the hole. */
  function Reach(p: Path): int {
    if p.Top? then 0 else Max(Len(p) + Depth(p.other), Reach(p.up))
  }

  /** The number of black nodes on the way down. */
  function BlackHeight(t: Tree): nat {
    if t.Leaf? then 0 else BlackHeight(t.left) + if t.color == Black then 1 else 0
  }

  /** The recorded depth bounds the tree; and it bounds how deep the tree could get without gaining
      a black node, but for one level. */
  predicate Roomy(t: Tree, maxDepth: int) {
    Depth(t) <= maxDepth && 2 * BlackHeight(t) <= maxDepth + 1
  }

  lemma {:induction false} PlugDepth(t: Tree, p: Path)
    ensures Depth(Plug(t, p)) == Max(Len(p) + Depth(t), Reach(p))
    decreases p
  {
    if p.In? {
      PlugDepth(Make(p.side, p.color, t, p.elem, p.other), p.up);
    }
  }

  lemma {:induction false} HeightOf(t: Tree, h: int)
    requires Blacks(t, h)
    ensures BlackHeight(t) == h
  {
    if t.Node? {
      HeightOf(t.left, if t.color == Black then h - 1 else h);
    }
  }

  lemma {:induction false} PlugHeight(t: Tree, p: Path, h: int)
    requires Blacks(t, h) && PathBlacks(p, h)
    ensures BlackHeight(Plug(t, p)) == h + Dark(p)
    decreases p
  {
    BlacksNonNegative(t, h);
    if p.In? {
      PlugHeight(Make(p.side, p.color, t, p.elem, p.other), p.up, if p.color == Black then h + 1 else h);
    } else {
      HeightOf(t, h);
    }
  }

  /** At most every other node on the stack is red, and the first is not. */
  lemma {:induction false} FewReds(p: Path)
    requires PathRed(p)
    ensures Len(p) <= 2 * Dark(p) - (if p.In? && p.color == Black then 1 else 0)
  {
    if p.In? {
      FewReds(p.up);
    }
  }

  lemma PaintDepth(t: Tree, c: Color)
    ensures Depth(Paint(t, c)) == Depth(t)
  {
  }

  // ------------------------------------------------------------ inserting

  lemma MakeDepth(side: Side, c: Color, a: Tree, e: Elem, b: Tree)
    ensures Depth(Make(side, c, a, e, b)) == 1 + Max(Depth(a), Depth(b))
  {
  }

  lemma SplitDepth(t: Tree, side: Side)
    requires t.Node?
    ensures Depth(t) == 1 + Max(Depth(Child(t, side)), Depth(Child(t, Opposite(side))))
  {
  }

  lemma RotateDepth(t: Tree, side: Side)
    requires t.Node? && Child(t, side).Node?
    ensures var c := Child(t, side);
            Depth(Rotate(t, side)) == 1 + Max(Depth(Child(c, side)),
                                              1 + Max(Depth(Child(c, Opposite(side))), Depth(Child(t, Opposite(side)))))
  {
    hide Depth;
    var c := Child(t, side);
    var low := Make(side, t.color, Child(c, Opposite(side)), t.elem, Child(t, Opposite(side)));
    MakeDepth(side, t.color, Child(c, Opposite(side)), t.elem, Child(t, Opposite(side)));
    MakeDepth(side, c.color, Child(c, side), c.elem, low);
  }

  lemma RecoloredDepth(t: Tree, p: Path)
    requires p.In? && p.up.In?
    ensures Depth(Recolored(t, p)) == Depth(Grandparent(t, p))
  {
    hide Depth, Paint;
    var g := p.up;
    PaintDepth(Parent(t, p), Black);
    PaintDepth(g.other, Black);
    MakeDepth(g.side, Red, Paint(Parent(t, p), Black), g.elem, Paint(g.other, Black));
    MakeDepth(g.side, g.color, Parent(t, p), g.elem, g.other);
  }

  lemma TwoUpDepth(t: Tree, u: Tree, p: Path)
    requires p.In? && p.up.In?
    ensures Depth(Plug(u, p.up.up)) <= Max(Depth(Plug(t, p)), Len(p) - 2 + Depth(u))
    ensures Depth(u) == Depth(Grandparent(t, p)) ==> Depth(Plug(u, p.up.up)) == Depth(Plug(t, p))
  {
    hide Plug, Depth, Grandparent, Parent;
    PlugDepth(u, p.up.up);
    PlugDepth(Grandparent(t, p), p.up.up);
    GrandparentPlug(t, p);
  }

  lemma GrandparentPlug(t: Tree, p: Path)
    requires p.In? && p.up.In?
    ensures Plug(t, p) == Plug(Grandparent(t, p), p.up.up)
  {
    PlugUp(t, p);
    PlugUp(Parent(t, p), p.up);
  }

  lemma RecolorDepth(t: Tree, p: Path)
    requires p.In? && p.up.In?
    ensures Depth(Plug(Recolored(t, p), p.up.up)) == Depth(Plug(t, p))
  {
    hide *;
    RecoloredDepth(t, p);
    TwoUpDepth(t, Recolored(t, p), p);
  }

  /** The last rotation moves only the aunt down, one level. */
  lemma MendedDepth(t: Tree, p: Path)
    requires p.In? && p.up.In? && t.Node?
    ensures Depth(Mended(t, p)) <= Max(Depth(Grandparent(t, p)), 2 + Depth(p.up.other))
  {
    hide Depth, Rotate;
    GrandparentDepth(t, p);
    if p.side == p.up.side {
      TopDepth(Parent(t, p), p);
    } else {
      TurnedDepth(t, p);
      TopDepth(Rotate(Parent(t, p), p.side), p);
    }
  }

  lemma GrandparentDepth(t: Tree, p: Path)
    requires p.In? && p.up.In?
    ensures Depth(Grandparent(t, p)) == 1 + Max(1 + Max(Depth(t), Depth(p.other)), Depth(p.up.other))
  {
    MakeDepth(p.side, p.color, t, p.elem, p.other);
    MakeDepth(p.up.side, p.up.color, Parent(t, p), p.up.elem, p.up.other);
    hide Depth;
  }

  /** Rotating the grandparent down from above `parent`. */
  lemma TopDepth(parent: Tree, p: Path)
    requires p.In? && p.up.In? && parent.Node?
    ensures var s := p.up.side;
            var top := Rotate(Make(s, Red, Paint(parent, Black), p.up.elem, p.up.other), s);
            var inner := Child(parent, Opposite(s));
            Depth(top) == 1 + Max(Depth(Child(parent, s)), 1 + Max(Depth(inner), Depth(p.up.other)))
  {
    RotateDepth(Make(p.up.side, Red, Paint(parent, Black), p.up.elem, p.up.other), p.up.side);
    hide Depth;
  }

  /** A node on the inside is rotated above its parent first. */
  lemma TurnedDepth(t: Tree, p: Path)
    requires p.In? && t.Node?
    ensures var u := Rotate(Parent(t, p), p.side);
            && u.Node? && Depth(Child(u, p.side)) < Depth(t)
            && Depth(Child(u, Opposite(p.side))) <= 1 + Max(Depth(t) - 1, Depth(p.other))
  {
    SplitDepth(t, p.side);
    MakeDepth(p.side, p.color, Child(t, Opposite(p.side)), p.elem, p.other);
    hide Depth;
  }

  /** The aunt has as many black nodes as the tree in the hole. */
  lemma AuntDepth(t: Tree, p: Path, h: int)
    requires ExtraRed(t, p, h) && RedFrame(p) && p.up.In? && !IsRed(p.up.other)
    ensures t.Node? && Depth(p.up.other) <= 2 * h
  {
    TwoUp(p, h);
    DepthBound(p.up.other, h);
  }

  /** So it ends above the new node's level. */
  lemma MendDepth(t: Tree, p: Path, h: int)
    requires p.In? && p.up.In? && t.Node? && Depth(p.up.other) <= 2 * h
    ensures Depth(Plug(Mended(t, p), p.up.up)) <= Max(Depth(Plug(t, p)), Len(p) + 2 * h)
  {
    hide Plug, Mended, Depth, Len, Grandparent;
    MendedDepth(t, p);
    TwoUpDepth(t, Mended(t, p), p);
    TwoUpDepth(t, Grandparent(t, p), p);
    PlugDeeper(Grandparent(t, p), p.up.up);
    GrandparentPlug(t, p);
    LenUp(p);
  }

  lemma LenUp(p: Path)
    requires p.In? && p.up.In?
    ensures Len(p) == Len(p.up.up) + 2
  {
  }

  lemma PlugDeeper(t: Tree, p: Path)
    ensures Depth(Plug(t, p)) >= Len(p) + Depth(t)
  {
    PlugDepth(t, p);
  }

  /** What a search finds out about a tree it has split. */
  lemma SplitMeasures(tree: Tree, t: Tree, p: Path, h: int)
    requires At(tree, t, p, h)
    ensures Len(p) + Depth(t) <= Depth(tree) && Reach(p) <= Depth(tree) && h + Dark(p) == BlackHeight(tree)
  {
    PlugDepth(t, p);
    PlugHeight(t, p, h);
  }

  lemma SingleNode(w: Elem)
    ensures Valid(Node(Black, Leaf, w, Leaf)) && Roomy(Node(Black, Leaf, w, Leaf), 1)
    ensures Inorder(Node(Black, Leaf, w, Leaf)) == T.Insert(Inorder(Leaf), w)
  {
    assert Blacks(Node(Black, Leaf, w, Leaf), 1);
    assert Inorder(Node(Black, Leaf, w, Leaf)) == [] + [w] + [];
  }

  lemma RoomyLeaf(maxDepth: int)
    requires Roomy(Leaf, maxDepth)
    ensures maxDepth >= 0
  {
  }

  /** A new node at the end of the stack. */
  lemma InsertRoomy(tree: Tree, p: Path, w: Elem, maxDepth: int, r: Tree)
    requires Roomy(tree, maxDepth) && Reach(p) <= Depth(tree) && Dark(p) == BlackHeight(tree)
    requires Depth(r) <= Max(Depth(Plug(Node(Red, Leaf, w, Leaf), p)), Len(p) + 1)
    requires BlackHeight(r) == Dark(p) || 2 * BlackHeight(r) == Len(p) + 2
    ensures Roomy(r, Max(maxDepth, Len(p) + 1))
  {
    hide Plug, Depth, BlackHeight, Reach, Dark, Len;
    SingleDepth(w);
    PlugDepth(Node(Red, Leaf, w, Leaf), p);
  }

  lemma SingleDepth(w: Elem)
    ensures Depth(Node(Red, Leaf, w, Leaf)) == 1
  {
  }

  // ------------------------------------------------------------- removing

  /** Room for a tree that has one black too few in its hole. */
  ghost predicate Fits(n: Tree, p: Path, h: int, cap: int) {
    Len(p) + Depth(n) <= cap && Reach(p) <= cap && 2 * (h + 1 + Dark(p)) <= cap + 1
  }

  lemma ClimbFits(n: Tree, p: Path, h: int, cap: int)
    requires Fits(n, p, h, cap) && p.In? && p.color == Black
    ensures Fits(SiblingRed(n, p, Black), p.up, h + 1, cap)
  {
    PaintDepth(p.other, Red);
  }

  /** Going down a level, the tree comes to lie under as many nodes as a valid tree may have there. */
  lemma LowerFits(n: Tree, p: Path, h: int, cap: int)
    requires MissingBlack(n, p, h) && p.In? && IsRed(p.other) && Fits(n, p, h, cap)
    ensures Fits(n, Lowered(p), h, cap) && Len(Lowered(p)) + 1 <= cap && Dark(Lowered(p)) == Dark(p)
  {
    LowerOk(n, p, h);
    SiblingOk(n, p, h);
    FewReds(Lowered(p));
    DepthBound(n, h);
    assert Depth(p.other) >= 2 by {
      assert Child(p.other, p.side) == Lowered(p).other;
    }
  }

  lemma SettleFits(n: Tree, p: Path, h: int, cap: int)
    requires Fits(n, p, h, cap) && p.In?
    ensures Depth(Plug(SiblingRed(n, p, Black), p.up)) <= cap
  {
    PaintDepth(p.other, Red);
    MakeDepth(p.side, Black, n, p.elem, Paint(p.other, Red));
    hide Plug, Depth, Paint;
    UpFits(SiblingRed(n, p, Black), p, cap);
  }

  lemma ReachOther(p: Path)
    requires p.In?
    ensures Len(p) + Depth(p.other) <= Reach(p)
  {
  }

  /** A tree that takes the place of the hole's parent. */
  lemma UpFits(u: Tree, p: Path, cap: int)
    requires p.In? && Reach(p) <= cap && Len(p) - 1 + Depth(u) <= cap
    ensures Depth(Plug(u, p.up)) <= cap
  {
    hide Depth;
    PlugDepth(u, p.up);
  }

  lemma OutwardDepth(sib: Tree, side: Side)
    requires sib.Node? && (IsRed(Child(sib, side)) || IsRed(Child(sib, Opposite(side))))
    ensures var o := Outward(sib, side);
            o.Node? && 1 + Depth(Child(o, side)) <= Depth(sib) && Depth(Child(o, Opposite(side))) <= Depth(sib)
    ensures Depth(sib) >= 2
  {
  }

  lemma RestoredDepth(n: Tree, p: Path, sib: Tree)
    requires p.In? && sib.Node?
    ensures Depth(Restored(n, p, sib))
         == 1 + Max(1 + Max(Depth(n), Depth(Child(sib, p.side))), Depth(Child(sib, Opposite(p.side))))
  {
    PaintDepth(Child(sib, Opposite(p.side)), Black);
  }

  /** Below a black node there is room for one level more than a black tree needs. */
  lemma RoomBelow(n: Tree, p: Path, h: int, cap: int)
    requires MissingBlack(n, p, h) && Fits(n, p, h, cap)
    ensures Len(p) + 1 + Depth(n) <= cap
  {
    FewReds(p);
    DepthBound(n, h);
  }

  /** Only the tree in the hole moves down, and it is black and comes to hang below a black node. */
  lemma RestoreFits(n: Tree, p: Path, h: int, cap: int)
    requires p.In? && p.other.Node? && !BlackNephews(p) && Fits(n, p, h, cap) && Len(p) + 1 + Depth(n) <= cap
    ensures Outward(p.other, p.side).Node?
    ensures Depth(Plug(Restored(n, p, Outward(p.other, p.side)), p.up)) <= cap
    ensures Len(p) + 2 <= cap
  {
    hide Plug, Depth, Outward, Restored;
    OutwardDepth(p.other, p.side);
    var sib := Outward(p.other, p.side);
    RestoredDepth(n, p, sib);
    ReachOther(p);
    hide Reach, Len;
    UpFits(Restored(n, p, sib), p, cap);
  }

  lemma RootMeasures(t: Tree, h: int)
    requires IsRed(t) && Blacks(t, h)
    ensures BlackHeight(Paint(t, Black)) == h + 1
  {
    HeightOf(t, h);
  }

  lemma TopMeasures(n: Tree, p: Path, h: int, cap: int)
    requires MissingBlack(n, p, h) && p.Top? && Fits(n, p, h, cap)
    ensures Depth(n) <= cap && BlackHeight(n) == h
  {
    HeightOf(n, h);
  }

  /** A subtree takes its node's place. */
  lemma SpliceFits(t: Tree, c: Tree, p: Path, h: int, cap: int)
    requires Fits(t, p, h - 1, cap) && Depth(c) < Depth(t)
    ensures Len(p) + 1 <= cap && Depth(c) <= cap && Depth(Plug(c, p)) <= cap && Fits(c, p, h - 1, cap)
  {
    hide Plug, Depth, Reach, Len, Dark;
    PlugDepth(c, p);
  }

  lemma ChildDepth(t: Tree)
    requires t.Node?
    ensures Depth(OnlyChild(t)) < Depth(t) && Depth(Paint(OnlyChild(t), Black)) < Depth(t)
  {
    PaintDepth(OnlyChild(t), Black);
    SplitDepth(t, L);
    hide Depth;
  }

  lemma ChildHeight(t: Tree, h: int)
    requires t.Node? && RedOk(t) && Blacks(t, h) && (t.left.Leaf? || t.right.Leaf?)
    ensures h >= 0 && BlackHeight(Paint(OnlyChild(t), Black)) <= h
  {
    BlacksNonNegative(t, h);
    if OnlyChild(t).Node? {
      OnlyChildRed(t, h);
      RootMeasures(OnlyChild(t), h - 1);
    }
  }

  /** Going down one side of a node. */
  lemma DescendFits(t: Tree, side: Side, p: Path, h: int, cap: int)
    requires t.Node? && Fits(t, p, h - 1, cap)
    ensures var k := if t.color == Black then h - 1 else h;
            && Fits(Child(t, side), Down(t, side, p), k - 1, cap)
            && k + Dark(Down(t, side, p)) == h + Dark(p)
  {
  }
}
