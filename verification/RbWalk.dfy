/** `RB_FOR_EACH`: walking a tree in order, with a stack that holds the way down to the current node. */
module RbWalk {
  import opened RbTree
  import opened RbDepth
  import T = TreeQueue

  // ---------------------------------------------------------------- shape

  /** Nodes in the same places, of the same colours. */
  ghost predicate SameShape(t: Tree, u: Tree) {
    if t.Leaf? || u.Leaf? then t.Leaf? && u.Leaf?
    else t.color == u.color && SameShape(t.left, u.left) && SameShape(t.right, u.right)
  }

  lemma {:induction false} ShapeBalance(t: Tree, u: Tree, h: int)
    requires SameShape(t, u)
    ensures RedOk(u) == RedOk(t) && Blacks(u, h) == Blacks(t, h)
    ensures Depth(u) == Depth(t) && BlackHeight(u) == BlackHeight(t)
  {
    if t.Node? {
      var k := if t.color == Black then h - 1 else h;
      ShapeBalance(t.left, u.left, k);
      ShapeBalance(t.right, u.right, k);
    }
  }

  /** So the tree stays as balanced as it was. */
  lemma ShapeValid(t: Tree, u: Tree, maxDepth: int)
    requires SameShape(t, u) && Valid(t) && Roomy(t, maxDepth)
    ensures Valid(u) && Roomy(u, maxDepth)
  {
    var h :| Blacks(t, h);
    ShapeBalance(t, u, h);
  }

  lemma {:induction false} ShapeSame(t: Tree)
    ensures SameShape(t, t)
  {
    if t.Node? {
      ShapeSame(t.left);
      ShapeSame(t.right);
    }
  }

  lemma {:induction false} ShapeTransitive(t: Tree, u: Tree, v: Tree)
    requires SameShape(t, u) && SameShape(u, v)
    ensures SameShape(t, v)
  {
    if t.Node? {
      ShapeTransitive(t.left, u.left, v.left);
      ShapeTransitive(t.right, u.right, v.right);
    }
  }

  lemma {:induction false} PlugShape(t: Tree, u: Tree, p: Path)
    requires SameShape(t, u)
    ensures SameShape(Plug(t, p), Plug(u, p))
    decreases p
  {
    if p.In? {
      ShapeSame(p.other);
      PlugShape(Parent(t, p), Parent(u, p), p.up);
    }
  }

  // -------------------------------------------------------------- walking

  /** At a node: `done` comes before it, and it is the first of `todo`. */
  ghost predicate Here(done: seq<Elem>, todo: seq<Elem>, t: Tree, p: Path) {
    t.Node? && Ahead(p) + Inorder(t.left) == done && [t.elem] + (Inorder(t.right) + Behind(p)) == todo
  }

  /** Above a subtree not walked yet, and one that has been walked. */
  ghost predicate Before(done: seq<Elem>, todo: seq<Elem>, t: Tree, p: Path) {
    Ahead(p) == done && Inorder(t) + Behind(p) == todo
  }

  ghost predicate After(done: seq<Elem>, todo: seq<Elem>, t: Tree, p: Path) {
    Ahead(p) + Inorder(t) == done && Behind(p) == todo
  }

  lemma HereNode(done: seq<Elem>, todo: seq<Elem>, t: Tree, p: Path)
    requires Here(done, todo, t, p)
    ensures t.Node? && todo != [] && todo[0] == t.elem
  {
  }

  lemma BeforeLeft(done: seq<Elem>, todo: seq<Elem>, t: Tree, p: Path)
    requires Before(done, todo, t, p) && t.Node?
    ensures t.left.Node? ==> Before(done, todo, t.left, Down(t, L, p))
    ensures t.left.Leaf? ==> Here(done, todo, t, p)
  {
    DownOrder(t, p);
    var l, r, b := Inorder(t.left), Inorder(t.right), Behind(p);
    assert l + [t.elem] + r + b == l + ([t.elem] + r + b);
    assert [] + [t.elem] + r + b == [t.elem] + (r + b);
    assert Ahead(p) + [] == Ahead(p);
  }

  /** The current node is done with, and its right side is next or empty. */
  lemma HereRight(done: seq<Elem>, todo: seq<Elem>, t: Tree, p: Path)
    requires Here(done, todo, t, p)
    ensures Before(done + [t.elem], todo[1..], t.right, Down(t, R, p))
    ensures t.right.Leaf? ==> After(done + [t.elem], todo[1..], t, p)
  {
    DownOrder(t, p);
    var a, l := Ahead(p), Inorder(t.left);
    assert (a + l) + [t.elem] == a + (l + [t.elem]);
    assert todo[1..] == Inorder(t.right) + Behind(p);
    assert t.right.Leaf? ==> a + (l + [t.elem] + []) == a + (l + [t.elem]) && [] + Behind(p) == Behind(p);
  }

  /** One step up: out of a right subtree it goes on, out of a left one the parent is next. */
  lemma AfterUp(done: seq<Elem>, todo: seq<Elem>, t: Tree, p: Path)
    requires After(done, todo, t, p) && p.In?
    ensures p.side == R ==> After(done, todo, Parent(t, p), p.up)
    ensures p.side == L ==> Here(done, todo, Parent(t, p), p.up)
  {
    var a, o := Ahead(p.up), Inorder(p.other);
    if p.side == R {
      assert a + (o + [p.elem]) + Inorder(t) == a + (o + [p.elem] + Inorder(t));
    } else {
      assert [p.elem] + o + Behind(p.up) == [p.elem] + (o + Behind(p.up));
    }
  }

  lemma PlugDown(t: Tree, side: Side, p: Path)
    requires t.Node?
    ensures Plug(Child(t, side), Down(t, side, p)) == Plug(t, p)
  {
    PlugUp(Child(t, side), Down(t, side, p));
  }

  /** `stack_left_limb`. */
  method LeftLimb(start: Tree, path: Path, ghost done: seq<Elem>, ghost todo: seq<Elem>) returns (t: Tree, p: Path)
    requires start.Node? && Before(done, todo, start, path)
    ensures Here(done, todo, t, p) && Plug(t, p) == Plug(start, path)
  {
    hide Before, Here, Plug;
    t, p := start, path;
    BeforeLeft(done, todo, t, p);
    while t.left.Node?
      invariant t.Node? && Before(done, todo, t, p) && Plug(t, p) == Plug(start, path)
      invariant t.left.Leaf? ==> Here(done, todo, t, p)
      decreases t
    {
      BeforeLeft(done, todo, t, p);
      PlugDown(t, L, p);
      t, p := t.left, Down(t, L, p);
      BeforeLeft(done, todo, t, p);
    }
  }

  /** `_rb_foreach_next` from a node: on to the next one in order, as long as there is one. */
  method Next(t0: Tree, p0: Path, ghost done: seq<Elem>, ghost todo: seq<Elem>) returns (more: bool, t: Tree, p: Path)
    requires Here(done, todo, t0, p0)
    ensures Plug(t, p) == Plug(t0, p0) && (more <==> |todo| > 1)
    ensures more ==> Here(done + [t0.elem], todo[1..], t, p)
    ensures !more ==> p.Top? && Inorder(t) == done + [t0.elem]
  {
    HereRight(done, todo, t0, p0);
    assert todo[0] == t0.elem;
    ghost var seen, rest := done + [t0.elem], todo[1..];
    assert |todo| > 1 <==> rest != [];
    hide Before, After, Plug, Here;
    if t0.right.Node? {
      PlugDown(t0, R, p0);
      t, p := LeftLimb(t0.right, Down(t0, R, p0), seen, rest);
      HereNode(seen, rest, t, p);
      return true, t, p;
    }
    t, p := t0, p0;
    while p.In? && p.side == R
      invariant After(seen, rest, t, p) && Plug(t, p) == Plug(t0, p0)
      decreases p
    {
      AfterUp(seen, rest, t, p);
      PlugUp(t, p);
      t, p := Parent(t, p), p.up;
    }
    if p.Top? {
      AfterTop(seen, rest, t);
      return false, t, p;
    }
    AfterUp(seen, rest, t, p);
    PlugUp(t, p);
    more, t, p := true, Parent(t, p), p.up;
    HereNode(seen, rest, t, p);
  }

  lemma AfterTop(done: seq<Elem>, todo: seq<Elem>, t: Tree)
    requires After(done, todo, t, Top)
    ensures Inorder(t) == done && todo == []
  {
    assert [] + Inorder(t) == Inorder(t);
  }

  // ---------------------------------------------------------- renumbering

  function Keyed(t: Tree, key: nat): Tree
    requires t.Node?
  {
    Node(t.color, t.left, t.elem.(data := key), t.right)
  }

  lemma KeyedHere(q: seq<Elem>, k: nat, t: Tree, p: Path)
    requires k < |q| && Here(T.Renumbered(q)[..k], q[k..], t, p)
    ensures Here(T.Renumbered(q)[..k], [t.elem.(data := k)] + q[k + 1..], Keyed(t, k), p)
    ensures T.Renumbered(q)[..k] + [t.elem.(data := k)] == T.Renumbered(q)[..k + 1]
    ensures ([t.elem.(data := k)] + q[k + 1..])[1..] == q[k + 1..]
  {
    assert q[k] == t.elem && q[k + 1..] == q[k..][1..] == Inorder(t.right) + Behind(p);
  }

  lemma KeyedShape(t: Tree, p: Path, key: nat)
    requires t.Node?
    ensures SameShape(Plug(t, p), Plug(Keyed(t, key), p))
  {
    ShapeSame(t.left);
    ShapeSame(t.right);
    PlugShape(t, Keyed(t, key), p);
  }

  lemma StackedDepth(tree: Tree, t: Tree, p: Path)
    requires SameShape(tree, Plug(t, p)) && t.Node?
    ensures Len(p) + 1 <= Depth(tree)
  {
    ShapeBalance(tree, Plug(t, p), 0);
    PlugDepth(t, p);
  }

  /** The loop of `_priq_rb_add`: the nodes' keys become their positions, and the tree's shape stays.
      `stack`, the number of nodes that were stacked at most, stays within the tree's depth. */
  method Renumber(tree: Tree) returns (r: Tree, n: nat, ghost stack: nat)
    ensures SameShape(tree, r) && Inorder(r) == T.Renumbered(Inorder(tree)) && n == |Inorder(tree)|
    ensures stack <= Depth(tree)
  {
    ghost var q := Inorder(tree);
    n, stack := 0, 0;
    if tree.Leaf? {
      return tree, n, stack;
    }
    assert Before([], q, tree, Top) by {
      assert q + [] == q;
    }
    ShapeSame(tree);
    assert T.Renumbered(q)[..0] == [] && q[0..] == q && q != [];
    PlugTop(tree);
    hide Before, Here, Plug, SameShape, Inorder, Depth, T.Renumbered, Keyed;
    var t, p := LeftLimb(tree, Top, [], q);
    var more := true;
    while more
      invariant SameShape(tree, Plug(t, p)) && stack <= Depth(tree) && n <= |q|
      invariant more ==> n < |q| && Here(T.Renumbered(q)[..n], q[n..], t, p)
      invariant !more ==> n == |q| && p.Top? && Inorder(t) == T.Renumbered(q)[..n]
      decreases |q| - n
    {
      HereNode(T.Renumbered(q)[..n], q[n..], t, p);
      StackedDepth(tree, t, p);
      stack := if stack < Len(p) + 1 then Len(p) + 1 else stack;
      KeyedHere(q, n, t, p);
      KeyedShape(t, p, n);
      ShapeTransitive(tree, Plug(t, p), Plug(Keyed(t, n), p));
      more, t, p := Next(Keyed(t, n), p, T.Renumbered(q)[..n], [t.elem.(data := n)] + q[n + 1..]);
      n := n + 1;
    }
    PlugTop(t);
    r := t;
  }
}
