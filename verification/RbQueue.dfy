/** `struct _priq_rb`: the tree queue in its red-black tree. */
module RbQueue {
  import opened WaitQueue
  import opened RunQueue
  import opened RbTree
  import opened RbDepth
  import opened RbOps
  import opened RbWalk
  import T = TreeQueue

  /** A queued thread's own node: its priority and key. */
  function NodeOf(q: seq<Elem>, tid: Tid): (w: Elem)
    requires Has(q, tid)
    ensures w in q && w.tid == tid
  {
    if q[0].tid == tid then q[0]
    else
      assert q == [q[0]] + q[1..];
      NodeOf(q[1..], tid)
  }

  class RbQueue {
    var root: Tree
    var maxDepth: int
    var nextOrderKey: nat

    ghost function View(): T.State
      reads this
    {
      T.State(Inorder(root), nextOrderKey)
    }

    /** The tree is balanced and no deeper than recorded. */
    ghost predicate Sound()
      reads this
    {
      Valid(root) && Roomy(root, maxDepth) && T.Valid(View())
    }

    constructor ()
      ensures View() == T.State([], 0) && Sound()
    {
      root, maxDepth, nextOrderKey := Leaf, 0, 0;
      new;
      assert Blacks(root, 0);
    }

    /** `_priq_rb_add`. */
    method AddThread(tid: Tid, prio: int)
      requires Sound() && !Has(View().tree, tid) && |View().tree| < T.KEYS - 1
      modifies this
      ensures View() == T.Joined(old(View()), tid, prio) && Sound()
    {
      T.JoinedValid(View(), tid, prio);
      T.ReadyKeeps(View());
      assert nextOrderKey < T.KEYS;
      hide T.Valid, T.Insert, Valid, Roomy, Inorder, InOrder, Distinct, SameShape;
      var key := nextOrderKey;
      nextOrderKey := T.NextKey(nextOrderKey);
      if nextOrderKey == 0 {
        ghost var tree, stack := root, 0;
        root, nextOrderKey, stack := Renumber(root);
        ShapeValid(tree, root, maxDepth);
      }
      ghost var stack;
      root, maxDepth, stack := InsertNode(root, Waiter(tid, prio, key), maxDepth);
    }

    /** `_priq_rb_remove` of a queued thread. */
    method RemoveThread(tid: Tid)
      requires Sound() && Has(View().tree, tid)
      modifies this
      ensures View() == T.Left(old(View()), tid) && Sound()
    {
      T.LeftValid(View(), tid);
      var w := NodeOf(Inorder(root), tid);
      ghost var stack;
      root, maxDepth, stack := RemoveNode(root, w, maxDepth);
      EmptyTree(root);
      if root.Leaf? {
        nextOrderKey := 0;
      }
    }

    /** `_priq_rb_best`. */
    method BestThread() returns (r: Choice)
      ensures r == Best(T.Strip(View().tree))
    {
      r := GetMin(root);
    }
  }

  lemma EmptyTree(t: Tree)
    ensures t.Leaf? <==> Inorder(t) == []
  {
  }
}
