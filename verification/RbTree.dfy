/** The red-black tree under the tree queue.  The stack of nodes that the source keeps while walking
    down is a `Path`: the frames between the root and the place being worked on. */
module RbTree {
  import opened WaitQueue
  import opened RunQueue
  import T = TreeQueue

  type Elem = Waiter<nat>

  datatype Color = Red | Black

  datatype Tree = Leaf | Node(color: Color, left: Tree, elem: Elem, right: Tree)

  datatype Side = L | R

  /** One frame: the hole is the `side` child of a node with this colour and element, whose other
      child is `other`. */
  datatype Path = Top | In(side: Side, color: Color, elem: Elem, other: Tree, up: Path)

  function Opposite(s: Side): Side {
    if s == L then R else L
  }

  /** A node with `a` on its `side`. */
  function Make(side: Side, color: Color, a: Tree, e: Elem, b: Tree): Tree {
    if side == L then Node(color, a, e, b) else Node(color, b, e, a)
  }

  function Child(t: Tree, side: Side): Tree
    requires t.Node?
  {
    if side == L then t.left else t.right
  }

  function Plug(t: Tree, p: Path): Tree
    decreases p
  {
    if p.Top? then t else Plug(Make(p.side, p.color, t, p.elem, p.other), p.up)
  }

  // --------------------------------------------------------------- order

  function Inorder(t: Tree): seq<Elem> {
    if t.Leaf? then [] else Inorder(t.left) + [t.elem] + Inorder(t.right)
  }

  /** What stands before the hole, and after it. */
  function Ahead(p: Path): seq<Elem> {
    if p.Top? then []
    else if p.side == L then Ahead(p.up)
    else Ahead(p.up) + (Inorder(p.other) + [p.elem])
  }

  function Behind(p: Path): seq<Elem> {
    if p.Top? then []
    else if p.side == L then [p.elem] + Inorder(p.other) + Behind(p.up)
    else Behind(p.up)
  }

  lemma {:induction false} PlugOrder(t: Tree, p: Path)
    ensures Inorder(Plug(t, p)) == Ahead(p) + Inorder(t) + Behind(p)
    decreases p
  {
    if p.Top? {
      assert Ahead(p) + Inorder(t) + Behind(p) == Inorder(t);
    } else {
      PlugOrder(Make(p.side, p.color, t, p.elem, p.other), p.up);
      RegroupLeft(Ahead(p.up), Inorder(t), p.elem, Inorder(p.other), Behind(p.up));
      RegroupRight(Ahead(p.up), Inorder(p.other), p.elem, Inorder(t), Behind(p.up));
    }
  }

  lemma RegroupLeft(a: seq<Elem>, m: seq<Elem>, x: Elem, o: seq<Elem>, b: seq<Elem>)
    ensures a + (m + [x] + o) + b == a + m + ([x] + o + b)
  {
  }

  lemma RegroupRight(a: seq<Elem>, o: seq<Elem>, x: Elem, m: seq<Elem>, b: seq<Elem>)
    ensures a + (o + [x] + m) + b == (a + (o + [x])) + m + b
  {
  }

  /** Two trees with the same elements in the same order are interchangeable in a hole. */
  lemma PlugSame(t: Tree, u: Tree, p: Path)
    requires Inorder(t) == Inorder(u)
    ensures Inorder(Plug(t, p)) == Inorder(Plug(u, p))
  {
    PlugOrder(t, p);
    PlugOrder(u, p);
  }

  // -------------------------------------------------------------- balance

  predicate IsRed(t: Tree) {
    t.Node? && t.color == Red
  }

  predicate RedFrame(p: Path) {
    p.In? && p.color == Red
  }

  /** No red node has a red child. */
  predicate RedOk(t: Tree) {
    t.Node? ==>
      && RedOk(t.left) && RedOk(t.right)
      && (t.color == Red ==> !IsRed(t.left) && !IsRed(t.right))
  }

  /** Every way down passes `h` black nodes. */
  predicate Blacks(t: Tree, h: int) {
    if t.Leaf? then h == 0
    else
      var k := if t.color == Black then h - 1 else h;
      k >= 0 && Blacks(t.left, k) && Blacks(t.right, k)
  }

  ghost predicate Valid(t: Tree) {
    RedOk(t) && !IsRed(t) && exists h :: Blacks(t, h)
  }

  /** The frames are as in a valid tree whose hole has `h` blacks. */
  predicate PathBlacks(p: Path, h: int)
    decreases p
  {
    p.In? ==> Blacks(p.other, h) && PathBlacks(p.up, if p.color == Black then h + 1 else h)
  }

  predicate PathRed(p: Path) {
    p.In? ==>
      && RedOk(p.other) && PathRed(p.up)
      && (p.color == Red ==> !IsRed(p.other) && p.up.In? && !RedFrame(p.up))
  }

  /** A tree that suits the hole completes a valid tree. */
  lemma {:induction false} PlugValid(t: Tree, p: Path, h: int)
    requires RedOk(t) && Blacks(t, h) && PathRed(p) && PathBlacks(p, h)
    requires IsRed(t) ==> p.In? && !RedFrame(p)
    ensures Valid(Plug(t, p))
    decreases p
  {
    if p.In? {
      PlugValid(Make(p.side, p.color, t, p.elem, p.other), p.up, if p.color == Black then h + 1 else h);
    }
  }

  // ------------------------------------------------------------- rotation

  /** `rotate`: the `side` child of a node takes its place, colours staying with the elements. */
  function Rotate(t: Tree, side: Side): Tree
    requires t.Node? && Child(t, side).Node?
  {
    var c := Child(t, side);
    Make(side, c.color, Child(c, side), c.elem,
         Make(side, t.color, Child(c, Opposite(side)), t.elem, Child(t, Opposite(side))))
  }

  lemma RotateOrder(t: Tree, side: Side)
    requires t.Node? && Child(t, side).Node?
    ensures Inorder(Rotate(t, side)) == Inorder(t)
  {
    var c := Child(t, side);
    if side == L {
      Reassociate(Inorder(c.left), c.elem, Inorder(c.right), t.elem, Inorder(t.right));
    } else {
      Reassociate(Inorder(t.left), t.elem, Inorder(c.left), c.elem, Inorder(c.right));
    }
  }

  lemma Reassociate(a: seq<Elem>, x: Elem, b: seq<Elem>, y: Elem, c: seq<Elem>)
    ensures (a + [x] + b) + [y] + c == a + [x] + (b + [y] + c)
  {
  }

  lemma MakeOrder(side: Side, c: Color, d: Color, a: Tree, a': Tree, e: Elem, b: Tree)
    requires Inorder(a) == Inorder(a')
    ensures Inorder(Make(side, c, a, e, b)) == Inorder(Make(side, d, a', e, b))
    ensures Inorder(Make(side, c, b, e, a)) == Inorder(Make(side, d, b, e, a'))
  {
  }

  function Paint(t: Tree, c: Color): Tree {
    if t.Leaf? then t else t.(color := c)
  }

  lemma PaintOrder(t: Tree, c: Color)
    ensures Inorder(Paint(t, c)) == Inorder(t)
  {
  }

  // ------------------------------------------------------------ extra red

  /** The parent of the hole's tree, and the parent's parent. */
  function Parent(t: Tree, p: Path): Tree
    requires p.In?
  {
    Make(p.side, p.color, t, p.elem, p.other)
  }

  function Grandparent(t: Tree, p: Path): Tree
    requires p.In? && p.up.In?
  {
    Parent(Parent(t, p), p.up)
  }

  /** A red aunt: grandparent red, parent and aunt black. */
  function Recolored(t: Tree, p: Path): Tree
    requires p.In? && p.up.In?
  {
    Make(p.up.side, Red, Paint(Parent(t, p), Black), p.up.elem, Paint(p.up.other, Black))
  }

  /** No red aunt: bring the red node to the outside, then rotate the grandparent down. */
  function Mended(t: Tree, p: Path): Tree
    requires p.In? && p.up.In? && t.Node?
  {
    var g := p.up;
    var parent := if p.side == g.side then Parent(t, p) else Rotate(Parent(t, p), p.side);
    var up := Rotate(Make(g.side, Red, Paint(parent, Black), g.elem, g.other), g.side);
    up
  }

  /** A red tree in a hole below a red node: the one flaw an insertion can leave. */
  ghost predicate ExtraRed(t: Tree, p: Path, h: int) {
    IsRed(t) && RedOk(t) && Blacks(t, h) && PathRed(p) && PathBlacks(p, h)
  }

  lemma MakeOk(side: Side, c: Color, a: Tree, e: Elem, b: Tree, k: int)
    requires RedOk(a) && RedOk(b) && (c == Red ==> !IsRed(a) && !IsRed(b))
    requires k >= 0 && Blacks(a, k) && Blacks(b, k)
    ensures RedOk(Make(side, c, a, e, b)) && Blacks(Make(side, c, a, e, b), if c == Black then k + 1 else k)
  {
  }

  lemma ChildOk(t: Tree, side: Side, h: int)
    requires t.Node? && RedOk(t) && Blacks(t, h)
    ensures var k := if t.color == Black then h - 1 else h;
            k >= 0 && RedOk(Child(t, side)) && Blacks(Child(t, side), k) && (IsRed(t) ==> !IsRed(Child(t, side)))
  {
  }

  lemma BlacksNonNegative(t: Tree, h: int)
    requires Blacks(t, h)
    ensures h >= 0
  {
  }

  lemma PaintOk(t: Tree, h: int)
    requires RedOk(t) && Blacks(t, h)
    ensures RedOk(Paint(t, Black)) && !IsRed(Paint(t, Black))
    ensures Blacks(Paint(t, Black), if IsRed(t) then h + 1 else h)
  {
  }

  /** What the frames say about a hole two levels down. */
  lemma TwoUp(p: Path, h: int)
    requires PathRed(p) && PathBlacks(p, h) && RedFrame(p)
    ensures p.up.In? && p.up.color == Black
    ensures RedOk(p.other) && !IsRed(p.other) && Blacks(p.other, h)
    ensures RedOk(p.up.other) && Blacks(p.up.other, h)
    ensures PathRed(p.up.up) && PathBlacks(p.up.up, h + 1)
  {
    assert PathRed(p.up) && PathBlacks(p.up, h);
  }

  lemma RecolorOk(t: Tree, p: Path, h: int)
    requires ExtraRed(t, p, h) && RedFrame(p) && IsRed(p.up.other)
    ensures ExtraRed(Recolored(t, p), p.up.up, h + 1)
    ensures Inorder(Recolored(t, p)) == Inorder(Grandparent(t, p))
  {
    TwoUp(p, h);
    BlacksNonNegative(t, h);
    var g := p.up;
    var a, b := Paint(Parent(t, p), Black), Paint(g.other, Black);
    MakeOk(p.side, Black, t, p.elem, p.other, h);
    PaintOk(g.other, h);
    MakeOk(g.side, Red, a, g.elem, b, h + 1);
    PaintOrder(Parent(t, p), Black);
    PaintOrder(g.other, Black);
    hide Inorder, Blacks, RedOk, PathRed, PathBlacks;
    MakeOrder(g.side, Red, g.color, a, Parent(t, p), g.elem, b);
    MakeOrder(g.side, g.color, g.color, b, g.other, g.elem, Parent(t, p));
  }

  /** The red node stands on the outside. */
  lemma MendOutside(t: Tree, p: Path, h: int)
    requires ExtraRed(t, p, h) && RedFrame(p) && !IsRed(p.up.other) && p.side == p.up.side
    ensures RedOk(Mended(t, p)) && !IsRed(Mended(t, p)) && Blacks(Mended(t, p), h + 1)
    ensures Inorder(Mended(t, p)) == Inorder(Grandparent(t, p))
  {
    TwoUp(p, h);
    BlacksNonNegative(t, h);
    var g, s := p.up, p.side;
    MakeOk(s, Red, p.other, g.elem, g.other, h);
    MakeOk(s, Black, t, p.elem, Make(s, Red, p.other, g.elem, g.other), h);
    var parent := Parent(t, p);
    PaintOrder(parent, Black);
    MakeOrder(s, Red, g.color, Paint(parent, Black), parent, g.elem, g.other);
    RotateOrder(Make(s, Red, Paint(parent, Black), g.elem, g.other), s);
  }

  /** The red node stands on the inside and is brought out first. */
  lemma MendInside(t: Tree, p: Path, h: int)
    requires ExtraRed(t, p, h) && RedFrame(p) && !IsRed(p.up.other) && p.side != p.up.side
    ensures RedOk(Mended(t, p)) && !IsRed(Mended(t, p)) && Blacks(Mended(t, p), h + 1)
  {
    TwoUp(p, h);
    BlacksNonNegative(t, h);
    var g, s := p.up, p.side;
    ChildOk(t, L, h);
    ChildOk(t, R, h);
    var a, b := Child(t, s), Child(t, Opposite(s));
    MakeOk(s, Red, b, p.elem, p.other, h);
    MakeOk(g.side, Red, a, g.elem, g.other, h);
    MakeOk(g.side, Black, Make(s, Red, b, p.elem, p.other), t.elem, Make(g.side, Red, a, g.elem, g.other), h);
    hide Blacks, RedOk, PathRed, PathBlacks;
  }

  lemma MendInsideOrder(t: Tree, p: Path)
    requires p.In? && p.up.In? && t.Node? && p.side != p.up.side
    ensures Inorder(Mended(t, p)) == Inorder(Grandparent(t, p))
  {
    hide Inorder;
    var g, s := p.up, p.side;
    var parent := Rotate(Parent(t, p), s);
    RotateOrder(Parent(t, p), s);
    PaintOrder(parent, Black);
    MakeOrder(g.side, Red, g.color, Paint(parent, Black), Parent(t, p), g.elem, g.other);
    RotateOrder(Make(g.side, Red, Paint(parent, Black), g.elem, g.other), g.side);
  }

  lemma MendOk(t: Tree, p: Path, h: int)
    requires ExtraRed(t, p, h) && RedFrame(p) && !IsRed(p.up.other)
    ensures Valid(Plug(Mended(t, p), p.up.up)) && Blacks(Mended(t, p), h + 1) && PathBlacks(p.up.up, h + 1)
    ensures Inorder(Mended(t, p)) == Inorder(Grandparent(t, p))
  {
    hide Mended, Inorder;
    if p.side == p.up.side {
      MendOutside(t, p, h);
    } else {
      MendInside(t, p, h);
      MendInsideOrder(t, p);
    }
    TwoUp(p, h);
    PlugValid(Mended(t, p), p.up.up, h + 1);
  }

  lemma ExtraRedParts(t: Tree, p: Path, h: int)
    requires ExtraRed(t, p, h)
    ensures IsRed(t) && RedOk(t) && Blacks(t, h) && PathRed(p) && PathBlacks(p, h)
    ensures RedFrame(p) ==> p.up.In?
  {
  }

  lemma RootBlack(t: Tree, h: int)
    requires RedOk(t) && Blacks(t, h)
    ensures Valid(Paint(t, Black))
  {
    PaintOk(t, h);
  }

  // ------------------------------------------------------------ searching

  /** The frame left behind on going down to one side of a node. */
  function Down(t: Tree, side: Side, p: Path): Path
    requires t.Node?
  {
    In(side, t.color, t.elem, Child(t, Opposite(side)), p)
  }

  /** The hole is where the comparator wants `w`. */
  ghost predicate Splits(w: Elem, p: Path) {
    && (forall x | x in Ahead(p) :: !T.LessThan(w, x))
    && (forall x | x in Behind(p) :: T.LessThan(w, x))
  }

  lemma DownOrder(t: Tree, p: Path)
    requires t.Node?
    ensures Ahead(Down(t, L, p)) == Ahead(p) && Behind(Down(t, L, p)) == [t.elem] + Inorder(t.right) + Behind(p)
    ensures Ahead(Down(t, R, p)) == Ahead(p) + (Inorder(t.left) + [t.elem]) && Behind(Down(t, R, p)) == Behind(p)
  {
  }

  /** A node's element separates its two sides. */
  lemma NodeOrder(t: Tree)
    requires t.Node? && InOrder(Inorder(t))
    ensures InOrder(Inorder(t.left)) && InOrder(Inorder(t.right))
    ensures forall x | x in Inorder(t.left) :: Before(x, t.elem)
    ensures forall x | x in Inorder(t.right) :: Before(t.elem, x)
  {
    MiddleOrder(Inorder(t.left), t.elem, Inorder(t.right));
  }

  lemma MiddleOrder(a: seq<Elem>, e: Elem, b: seq<Elem>)
    requires InOrder(a + [e] + b)
    ensures InOrder(a) && InOrder(b)
    ensures forall x | x in a :: Before(x, e)
    ensures forall x | x in b :: Before(e, x)
  {
    hide Before;
    var q := a + [e] + b;
    assert forall i | 0 <= i < |a| :: q[i] == a[i];
    assert forall i | 0 <= i < |b| :: q[|a| + 1 + i] == b[i];
    assert q[|a|] == e;
  }

  lemma SplitsDown(w: Elem, t: Tree, p: Path)
    requires t.Node? && InOrder(Inorder(t)) && Splits(w, p)
    ensures Splits(w, Down(t, if T.LessThan(w, t.elem) then L else R, p))
  {
    NodeOrder(t);
    DownOrder(t, p);
    hide Inorder, Ahead, Behind, InOrder;
    if T.LessThan(w, t.elem) {
      forall x | x in Inorder(t.right) ensures T.LessThan(w, x) {
        T.LessThanTotal(w, t.elem, x);
        T.LessThanTotal(t.elem, x, x);
      }
    } else {
      forall x | x in Inorder(t.left) ensures !T.LessThan(w, x) {
        T.LessThanTotal(w, x, t.elem);
        T.LessThanTotal(x, t.elem, t.elem);
      }
    }
  }

  /** An element of the tree lies on the side the comparator sends its search to. */
  lemma FoundBelow(w: Elem, t: Tree)
    requires t.Node? && InOrder(Inorder(t)) && w in Inorder(t) && t.elem != w
    ensures w in Inorder(Child(t, if T.LessThan(w, t.elem) then L else R))
  {
    NodeOrder(t);
    hide InOrder;
    T.LessThanTotal(w, t.elem, w);
    T.LessThanTotal(t.elem, w, w);
  }

  lemma FramesDown(t: Tree, side: Side, p: Path, h: int)
    requires t.Node? && RedOk(t) && Blacks(t, h) && PathRed(p) && PathBlacks(p, h)
    requires IsRed(t) ==> p.In? && !RedFrame(p)
    ensures var k := if t.color == Black then h - 1 else h;
            && PathRed(Down(t, side, p)) && PathBlacks(Down(t, side, p), k)
            && RedOk(Child(t, side)) && Blacks(Child(t, side), k)
            && (IsRed(Child(t, side)) ==> t.color == Black)
  {
  }

  /** The state of a search: the tree is split at a place where everything is in order. */
  ghost predicate At(tree: Tree, t: Tree, p: Path, h: int) {
    && Plug(t, p) == tree
    && RedOk(t) && Blacks(t, h) && PathRed(p) && PathBlacks(p, h)
    && (IsRed(t) ==> p.In? && !RedFrame(p))
  }

  lemma AtDown(tree: Tree, t: Tree, p: Path, h: int, side: Side)
    requires At(tree, t, p, h) && t.Node?
    ensures At(tree, Child(t, side), Down(t, side, p), if t.color == Black then h - 1 else h)
  {
    FramesDown(t, side, p, h);
    hide RedOk, Blacks, PathRed, PathBlacks;
    assert Make(side, t.color, Child(t, side), t.elem, Child(t, Opposite(side))) == t;
  }

  lemma NothingIn()
    ensures Inorder(Leaf) == []
  {
  }

  // ------------------------------------------------------------ inserting

  lemma {:induction false} PlaceUnique(q: seq<Elem>, w: Elem, k: nat)
    requires k <= |q| && forall i | 0 <= i < k :: !T.LessThan(w, q[i])
    requires k < |q| ==> T.LessThan(w, q[k])
    ensures T.Place(q, w) == k
  {
    if k > 0 {
      PlaceUnique(q[1..], w, k - 1);
    }
  }

  lemma SplitsPlace(a: seq<Elem>, b: seq<Elem>, w: Elem)
    requires forall x | x in a :: !T.LessThan(w, x)
    requires forall x | x in b :: T.LessThan(w, x)
    ensures T.Insert(a + b, w) == a + [w] + b
  {
    assert forall i | 0 <= i < |a| :: a[i] in a;
    if b != [] {
      assert b[0] in b;
    }
    PlaceUnique(a + b, w, |a|);
    assert (a + b)[..|a|] == a && (a + b)[|a|..] == b;
  }

  /** A red node in an empty place. */
  lemma NewNode(tree: Tree, p: Path, h: int, w: Elem)
    requires At(tree, Leaf, p, h) && Splits(w, p)
    ensures h == 0 && ExtraRed(Node(Red, Leaf, w, Leaf), p, h)
    ensures Inorder(Plug(Node(Red, Leaf, w, Leaf), p)) == T.Insert(Inorder(tree), w)
  {
    var node := Node(Red, Leaf, w, Leaf);
    assert ExtraRed(node, p, h);
    assert Inorder(node) == [w] && Inorder(Leaf) == [];
    PlugOrder(Leaf, p);
    PlugOrder(node, p);
    hide Inorder, Ahead, Behind, ExtraRed, T.Insert;
    SplitsPlace(Ahead(p), Behind(p), w);
    assert Ahead(p) + [] + Behind(p) == Ahead(p) + Behind(p);
  }

  /** The search for an element that is not in the tree ends in an empty place. */
  lemma NotFound(tree: Tree, t: Tree, p: Path, h: int, w: Elem)
    requires At(tree, t, p, h) && (t.Leaf? || t.elem == w) && w !in Inorder(tree)
    ensures t.Leaf?
  {
    PlugOrder(t, p);
  }

  // -------------------------------------------------------- missing black

  /** The tree in the hole has one black too few: the one flaw a removal can leave. */
  ghost predicate MissingBlack(n: Tree, p: Path, h: int) {
    RedOk(n) && !IsRed(n) && Blacks(n, h) && PathRed(p) && PathBlacks(p, h + 1)
  }

  /** The sibling of a tree with a black missing is a node. */
  lemma SiblingOk(n: Tree, p: Path, h: int)
    requires MissingBlack(n, p, h) && p.In?
    ensures h >= 0 && p.other.Node? && RedOk(p.other) && Blacks(p.other, h + 1)
    ensures IsRed(p.other) ==> p.color == Black
    ensures PathRed(p.up) && PathBlacks(p.up, if p.color == Black then h + 2 else h + 1)
    ensures p.color == Red ==> p.up.In? && !RedFrame(p.up)
  {
    BlacksNonNegative(n, h);
  }

  /** A red sibling is rotated above the parent, so that the tree gets a black one. */
  function Lowered(p: Path): Path
    requires p.In? && p.other.Node?
  {
    In(p.side, Red, p.elem, Child(p.other, p.side),
       In(p.side, Black, p.other.elem, Child(p.other, Opposite(p.side)), p.up))
  }

  lemma LowerOk(n: Tree, p: Path, h: int)
    requires MissingBlack(n, p, h) && p.In? && IsRed(p.other)
    ensures MissingBlack(n, Lowered(p), h) && Lowered(p).In? && Lowered(p).color == Red
    ensures Lowered(p).other.Node? && !IsRed(Lowered(p).other)
  {
    SiblingOk(n, p, h);
    ChildOk(p.other, L, h + 1);
    ChildOk(p.other, R, h + 1);
    hide RedOk, Blacks;
    assert PathRed(Lowered(p).up) && PathBlacks(Lowered(p).up, h + 1);
    SiblingOk(n, Lowered(p), h);
  }

  lemma LowerOrder(n: Tree, p: Path)
    requires p.In? && p.other.Node?
    ensures Inorder(Plug(n, Lowered(p))) == Inorder(Plug(n, p))
  {
    var s, sib := p.side, p.other;
    var inner := Make(s, Red, n, p.elem, Child(sib, s));
    var t := Make(s, Black, inner, sib.elem, Child(sib, Opposite(s)));
    assert Plug(n, Lowered(p)) == Plug(inner, Lowered(p).up) == Plug(t, p.up);
    assert Inorder(t) == Inorder(Parent(n, p)) by {
      if s == L {
        Reassociate(Inorder(n), p.elem, Inorder(sib.left), sib.elem, Inorder(sib.right));
      } else {
        Reassociate(Inorder(sib.left), sib.elem, Inorder(sib.right), p.elem, Inorder(n));
      }
    }
    hide Inorder;
    PlugSame(t, Parent(n, p), p.up);
  }

  /** Black nephews: the sibling turns red. */
  function SiblingRed(n: Tree, p: Path, c: Color): Tree
    requires p.In?
  {
    Make(p.side, c, n, p.elem, Paint(p.other, Red))
  }

  predicate BlackNephews(p: Path)
    requires p.In? && p.other.Node?
  {
    !IsRed(p.other.left) && !IsRed(p.other.right)
  }

  lemma SiblingRedOk(n: Tree, p: Path, h: int)
    requires MissingBlack(n, p, h) && p.In? && !IsRed(p.other) && p.other.Node? && BlackNephews(p)
    ensures RedOk(SiblingRed(n, p, Black)) && Blacks(SiblingRed(n, p, Black), h + 1)
    ensures Inorder(SiblingRed(n, p, Black)) == Inorder(Parent(n, p))
  {
    SiblingOk(n, p, h);
    ChildOk(p.other, L, h + 1);
    ChildOk(p.other, R, h + 1);
    var sib := Paint(p.other, Red);
    assert RedOk(sib) && Blacks(sib, h);
    MakeOk(p.side, Black, n, p.elem, sib, h);
    PaintOrder(p.other, Red);
    hide RedOk, Blacks, Inorder;
    MakeOrder(p.side, Black, p.color, sib, p.other, p.elem, n);
  }

  /** The sibling with a red child on the far side of the hole. */
  function Outward(sib: Tree, side: Side): Tree
    requires sib.Node? && (IsRed(Child(sib, side)) || IsRed(Child(sib, Opposite(side))))
  {
    if IsRed(Child(sib, Opposite(side))) then sib
    else
      var up := Rotate(sib, side);
      Make(side, Black, Child(up, side), up.elem, Paint(Child(up, Opposite(side)), Red))
  }

  lemma OutwardOk(sib: Tree, side: Side, h: int)
    requires sib.Node? && sib.color == Black && RedOk(sib) && Blacks(sib, h + 1)
    requires IsRed(Child(sib, side)) || IsRed(Child(sib, Opposite(side)))
    ensures var o := Outward(sib, side);
            && o.Node? && RedOk(o) && Blacks(o, h + 1) && o.color == Black && IsRed(Child(o, Opposite(side)))
            && Inorder(o) == Inorder(sib)
  {
    if !IsRed(Child(sib, Opposite(side))) {
      var inner, far := Child(sib, side), Child(sib, Opposite(side));
      ChildOk(sib, L, h + 1);
      ChildOk(sib, R, h + 1);
      ChildOk(inner, L, h);
      ChildOk(inner, R, h);
      MakeOk(side, Red, Child(inner, Opposite(side)), sib.elem, far, h);
      var low := Make(side, Red, Child(inner, Opposite(side)), sib.elem, far);
      MakeOk(side, Black, Child(inner, side), inner.elem, low, h);
      RotateOrder(sib, side);
      var up := Rotate(sib, side);
      var outer := Child(up, Opposite(side));
      PaintOrder(outer, Red);
      hide RedOk, Blacks, Inorder;
      MakeOrder(side, Black, up.color, Paint(outer, Red), outer, up.elem, Child(up, side));
    }
  }

  /** With a red child on the far side, one rotation makes up for the missing black. */
  function Restored(n: Tree, p: Path, sib: Tree): Tree
    requires p.In? && sib.Node?
  {
    Make(p.side, p.color, Make(p.side, Black, n, p.elem, Child(sib, p.side)), sib.elem,
         Paint(Child(sib, Opposite(p.side)), Black))
  }

  lemma RestoreOk(n: Tree, p: Path, sib: Tree, h: int)
    requires MissingBlack(n, p, h) && p.In?
    requires sib.Node? && RedOk(sib) && Blacks(sib, h + 1) && sib.color == Black && IsRed(Child(sib, Opposite(p.side)))
    ensures RedOk(Restored(n, p, sib)) && Blacks(Restored(n, p, sib), if p.color == Black then h + 2 else h + 1)
    ensures IsRed(Restored(n, p, sib)) <==> p.color == Red
  {
    SiblingOk(n, p, h);
    ChildOk(sib, L, h + 1);
    ChildOk(sib, R, h + 1);
    MakeOk(p.side, Black, n, p.elem, Child(sib, p.side), h);
    PaintOk(Child(sib, Opposite(p.side)), h);
    MakeOk(p.side, p.color, Make(p.side, Black, n, p.elem, Child(sib, p.side)), sib.elem,
           Paint(Child(sib, Opposite(p.side)), Black), h + 1);
  }

  lemma RestoreOrder(n: Tree, p: Path, sib: Tree)
    requires p.In? && sib.Node? && Inorder(sib) == Inorder(p.other)
    ensures Inorder(Restored(n, p, sib)) == Inorder(Parent(n, p))
  {
    var s := p.side;
    var near, far := Child(sib, s), Child(sib, Opposite(s));
    PaintOrder(far, Black);
    if s == L {
      Reassociate(Inorder(n), p.elem, Inorder(near), sib.elem, Inorder(far));
    } else {
      Reassociate(Inorder(far), sib.elem, Inorder(near), p.elem, Inorder(n));
    }
  }

  lemma PlugTop(n: Tree)
    ensures Plug(n, Top) == n
  {
  }

  lemma PlugUp(n: Tree, p: Path)
    requires p.In?
    ensures Plug(n, p) == Plug(Parent(n, p), p.up)
  {
  }

  lemma SiblingRedBlack(n: Tree, p: Path)
    requires p.In?
    ensures !IsRed(SiblingRed(n, p, Black))
  {
  }

  lemma SiblingRedMissing(n: Tree, p: Path, h: int)
    requires MissingBlack(n, p, h) && p.In? && p.color == Black
    requires RedOk(SiblingRed(n, p, Black)) && Blacks(SiblingRed(n, p, Black), h + 1)
    ensures MissingBlack(SiblingRed(n, p, Black), p.up, h + 1)
  {
    SiblingOk(n, p, h);
  }

  lemma NothingMissing(n: Tree, p: Path, h: int)
    requires MissingBlack(n, p, h) && p.Top?
    ensures Valid(n) && Plug(n, p) == n
  {
  }

  // ------------------------------------------------------------- removing

  /** The greatest element. */
  function Greatest(t: Tree): Elem
    requires t.Node?
  {
    if t.right.Leaf? then t.elem else Greatest(t.right)
  }

  lemma WithoutOne(a: seq<Elem>, w: Elem, b: seq<Elem>)
    requires Distinct(a + [w] + b)
    ensures Without(a + [w] + b, w.tid) == a + b
  {
    var q := a + [w] + b;
    forall i | 0 <= i < |a| ensures a[i].tid != w.tid {
      assert q[i] == a[i] && q[|a|] == w;
    }
    forall i | 0 <= i < |b| ensures b[i].tid != w.tid {
      assert q[|a| + 1 + i] == b[i] && q[|a|] == w;
    }
    LeavesMiddle(a, w, b);
  }

  lemma {:induction false} LeavesMiddle(a: seq<Elem>, w: Elem, b: seq<Elem>)
    requires forall i | 0 <= i < |a| :: a[i].tid != w.tid
    requires forall i | 0 <= i < |b| :: b[i].tid != w.tid
    ensures Without(a + [w] + b, w.tid) == a + b
  {
    if a == [] {
      assert a + [w] + b == [w] + b && a + b == b;
      WithoutAbsent(b, w.tid);
    } else {
      assert (a + [w] + b)[1..] == a[1..] + [w] + b;
      LeavesMiddle(a[1..], w, b);
      assert a + b == [a[0]] + (a[1..] + b);
    }
  }

  /** A place to take a node out of: it has at most one child. */
  ghost predicate Removable(t: Tree, p: Path, h: int) {
    && t.Node? && (t.left.Leaf? || t.right.Leaf?)
    && RedOk(t) && Blacks(t, h) && PathRed(p) && PathBlacks(p, h)
    && (IsRed(t) ==> p.In? && !RedFrame(p))
  }

  /** The only child, if any. */
  function OnlyChild(t: Tree): Tree
    requires t.Node?
  {
    if t.left.Node? then t.left else t.right
  }

  /** A node's single child is red and the node black: the other side has no black below it. */
  lemma OnlyChildRed(t: Tree, h: int)
    requires t.Node? && RedOk(t) && Blacks(t, h) && (t.left.Leaf? || t.right.Leaf?) && OnlyChild(t).Node?
    ensures t.color == Black && IsRed(OnlyChild(t))
  {
  }

  /** A search that has come to a node not to be removed itself: its frames are in order. */
  ghost predicate Descending(t: Tree, p: Path, h: int) {
    && RedOk(t) && Blacks(t, h) && PathRed(p) && PathBlacks(p, h)
    && (IsRed(t) ==> p.In? && !RedFrame(p))
  }

  lemma DescendRight(t: Tree, p: Path, h: int)
    requires t.Node? && Descending(t, p, h)
    ensures Descending(t.right, Down(t, R, p), if t.color == Black then h - 1 else h)
    ensures Ahead(Down(t, R, p)) + Inorder(t.right) == Ahead(p) + Inorder(t) && Behind(Down(t, R, p)) == Behind(p)
  {
    FramesDown(t, R, p, h);
    DownOrder(t, p);
    var a, l, r := Ahead(p), Inorder(t.left), Inorder(t.right);
    assert (a + (l + [t.elem])) + r == a + (l + [t.elem] + r);
  }

  lemma EndsRemovable(t: Tree, p: Path, h: int)
    requires t.Node? && t.right.Leaf? && Descending(t, p, h)
    ensures Removable(t, p, h) && t.elem == Greatest(t)
  {
  }

  lemma AroundNode(t: Tree, p: Path)
    requires t.Node?
    ensures Ahead(p) + Inorder(t) + Behind(p)
         == (Ahead(p) + Inorder(t.left)) + [t.elem] + (Inorder(t.right) + Behind(p))
  {
    RegroupAround(Ahead(p), Inorder(t.left), t.elem, Inorder(t.right), Behind(p));
  }

  lemma RegroupAround(a: seq<Elem>, l: seq<Elem>, x: Elem, r: seq<Elem>, b: seq<Elem>)
    ensures a + (l + [x] + r) + b == (a + l) + [x] + (r + b)
  {
  }

  lemma AloneNode(t: Tree, p: Path)
    requires t.Node? && (t.left.Leaf? || t.right.Leaf?)
    ensures Ahead(p) + Inorder(OnlyChild(t)) + Behind(p)
         == (Ahead(p) + Inorder(t.left)) + (Inorder(t.right) + Behind(p))
  {
    var a, l, r, b := Ahead(p), Inorder(t.left), Inorder(t.right), Behind(p);
    if t.left.Leaf? {
      assert a + r + b == (a + []) + (r + b);
    } else {
      assert a + l + b == (a + l) + ([] + b);
    }
  }

  /** Taking the predecessor out of its place, with its element standing in for the node's, removes
      exactly the node. */
  lemma Traded(t: Tree, p: Path, t2: Tree, p2: Path)
    requires t.Node? && t.left.Node? && t2.Node? && t2.right.Leaf?
    requires var frame := In(L, t.color, t2.elem, t.right, p);
             Ahead(p2) + Inorder(t2) == Ahead(frame) + Inorder(t.left) && Behind(p2) == Behind(frame)
    ensures Ahead(p2) + Inorder(OnlyChild(t2)) + Behind(p2)
         == (Ahead(p) + Inorder(t.left)) + (Inorder(t.right) + Behind(p))
  {
    var a, l, r, b := Ahead(p), Inorder(t.left), Inorder(t.right), Behind(p);
    var a2, l2 := Ahead(p2), Inorder(t2.left);
    assert Inorder(OnlyChild(t2)) == l2;
    assert Inorder(t2) == l2 + [t2.elem] + [] == l2 + [t2.elem];
    assert a2 + (l2 + [t2.elem]) == a + l;
    assert Behind(p2) == [t2.elem] + r + b;
    assert a2 + l2 + ([t2.elem] + r + b) == (a2 + (l2 + [t2.elem])) + (r + b);
  }

  // ---------------------------------------------------------------- depth

  function Depth(t: Tree): nat {
    if t.Leaf? then 0
    else 1 + (if Depth(t.left) > Depth(t.right) then Depth(t.left) else Depth(t.right))
  }

  function Pow2(n: nat): nat {
    if n == 0 then 1 else 2 * Pow2(n - 1)
  }

  lemma {:induction false} DepthBound(t: Tree, h: int)
    requires RedOk(t) && Blacks(t, h)
    ensures h >= 0 && Depth(t) <= 2 * h + (if IsRed(t) then 1 else 0)
    ensures Pow2(h) <= |Inorder(t)| + 1
  {
    if t.Node? {
      var k := if t.color == Black then h - 1 else h;
      DepthBound(t.left, k);
      DepthBound(t.right, k);
    }
  }

  /** A valid tree is at most twice as deep as the logarithm of its size. */
  lemma Balanced(t: Tree)
    requires Valid(t)
    ensures Pow2((Depth(t) + 1) / 2) <= |Inorder(t)| + 1
  {
    var h :| Blacks(t, h);
    DepthBound(t, h);
    Pow2Mono((Depth(t) + 1) / 2, h);
  }

  lemma {:induction false} Pow2Mono(a: nat, b: nat)
    requires a <= b
    ensures Pow2(a) <= Pow2(b)
  {
    if a < b {
      Pow2Mono(a, b - 1);
    }
  }
}
