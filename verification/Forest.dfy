/**
 The trees of the scheduler in their shared node pool, updated in place.
 */
module Forest {
  import opened BmwTree
  import opened Pool

  /** The cell has a vacant slot. */
  predicate HasRoom(node: seq<Cell>, i: nat)
    requires i < |node|
  {
    Vacant(node[i].min0) || Vacant(node[i].min1)
  }

  class Forest {
    /** The pool; the source's allocation counter `tot` is the last index in use. */
    var node: seq<Cell>
    const m: nat

    ghost predicate Valid()
      reads this
    {
      Sound(node, m)
    }

    ghost function Tree(i: nat): BmwTree.Tree
      requires Valid() && i < |node|
      reads this
    {
      Abs(node, i)
    }

    /** The trees, one for each root. */
    ghost function Trees(): (ts: seq<BmwTree.Tree>)
      requires Valid()
      reads this
      ensures |ts| == m && forall k | 0 <= k < m :: ts[k].Node?
    {
      var pool := node;
      seq(m, k requires 0 <= k < m => Abs(pool, k + 1))
    }

    constructor (m: nat)
      ensures Valid() && this.m == m
      ensures Trees() == seq(m, _ => FRESH)
      ensures |node| == m + 1
    {
      this.m := m;
      node := seq(m + 1, _ => FRESH_CELL);
      new;
      forall i | 0 < i <= m ensures Abs(node, i) == FRESH {
        assert node[i] == FRESH_CELL;
      }
    }

    method GetSon(root: nat, d: bool) returns (s: nat)
      requires Valid() && 0 < root < |node|
      modifies this`node
      ensures Valid() && root < |node| && s == Link(node, root, d) && root < s < |node|
      ensures node == WithSon(old(node), root, d)
    {
      s := if d then node[root].son1 else node[root].son0;
      if s != 0 {
        return;
      }
      HangSound(node, m, root, d);
      s := |node|;
      node := Hang(node, root, d);
    }

    /** Pushing into the subtree at `root` pushes into the tree it stands for and touches nothing else. */
    method Push(root: nat, v: Pair)
      requires Valid() && 0 < root < |node|
      modifies this`node
      ensures Valid() && OnlyBelow(old(node), node, root)
      ensures Tree(root) == BmwTree.Push(old(Tree(root)), v)
      ensures |node| <= |old(node)| + (if HasRoom(old(node), root) then 0 else 1)
      decreases if HasRoom(node, root) then 0 else 1 + |node| - root
    {
      hide Reach, Sound, Abs;
      Unfold(node, m, root);
      var c := node[root];
      if Vacant(c.min0) {
        SetRoot(node, m, root, c.(min0 := v));
        node := node[root := c.(min0 := v)];
        return;
      }
      if Vacant(c.min1) {
        SetRoot(node, m, root, c.(min1 := v));
        node := node[root := c.(min1 := v)];
        return;
      }
      var d := c.num0 > c.num1;
      var slot := if d then c.min1 else c.min0;
      WithSonAbs(node, m, root, d);
      var s := GetSon(root, d);
      ghost var grown := node;
      Push(s, if Less(v, slot) then slot else v);
      ChangeBelowSon(grown, node, m, root, d);
      c := node[root];
      var kept := if Less(v, slot) then v else slot;
      c := if d then c.(min1 := kept, num1 := c.num1 + 1) else c.(min0 := kept, num0 := c.num0 + 1);
      AfterSon(old(node), node, m, root, d, c);
      node := node[root := c];
    }

    /** Popping the subtree at `root` returns its top and pops the tree it stands for. */
    method Pop(root: nat) returns (ret: Pair)
      requires Valid() && 0 < root < |node|
      modifies this`node
      ensures Valid() && OnlyBelow(old(node), node, root) && |node| == |old(node)|
      ensures ret == BmwTree.Top(old(Tree(root)))
      ensures Tree(root) == BmwTree.Pop(old(Tree(root)))
      decreases |node| - root
    {
      hide Reach, Sound, Abs;
      Unfold(node, m, root);
      var c := node[root];
      var d := Less(c.min1, c.min0);
      ret := if d then c.min1 else c.min0;
      var vacated := ret.(rank := INF);
      c := if d then c.(min1 := vacated) else c.(min0 := vacated);
      var s := if d then c.son1 else c.son0;
      SetRoot(node, m, root, c);
      node := node[root := c];
      if s != 0 {
        ghost var emptied := node;
        Unfold(emptied, m, root);
        WithSonAbs(node, m, root, d);
        Unfold(emptied, m, s);
        var below := Pop(s);
        ChangeBelowSon(emptied, node, m, root, d);
        c := node[root];
        c := if d then c.(min1 := below, num1 := c.num1 - 1) else c.(min0 := below, num0 := c.num0 - 1);
        AfterSon(emptied, node, m, root, d, c);
        node := node[root := c];
      }
    }

    /** The top of the subtree at `root`. */
    method Top(root: nat) returns (ret: Pair)
      requires Valid() && 0 < root < |node|
      ensures ret == BmwTree.Top(Tree(root))
    {
      var c := node[root];
      ret := if Less(c.min1, c.min0) then c.min1 else c.min0;
    }

    // ---------- the operations on whole trees ----------

    method PushTree(k: nat, v: Pair)
      requires Valid() && k < m
      modifies this`node
      ensures Valid() && Trees() == old(Trees())[k := BmwTree.Push(old(Trees())[k], v)]
    {
      hide Reach, Abs, Sound;
      assert Sound(node, m) && m < |node| by { InPool(); }
      Push(k + 1, v);
      OtherTrees(old(node), k);
    }

    method PopTree(k: nat) returns (ret: Pair)
      requires Valid() && k < m
      modifies this`node
      ensures Valid() && ret == BmwTree.Top(old(Trees())[k])
      ensures Trees() == old(Trees())[k := BmwTree.Pop(old(Trees())[k])]
    {
      hide Reach, Abs, Sound;
      assert Sound(node, m) && m < |node| by { InPool(); }
      ret := Pop(k + 1);
      OtherTrees(old(node), k);
    }

    method TopTree(k: nat) returns (ret: Pair)
      requires Valid() && k < m
      ensures ret == BmwTree.Top(Trees()[k])
    {
      ret := Top(k + 1);
    }

    lemma InPool()
      requires Valid()
      ensures m < |node|
    {
    }

    lemma OtherTrees(before: seq<Cell>, k: nat)
      requires Valid() && Sound(before, m) && k < m && OnlyBelow(before, node, k + 1)
      ensures forall j | 0 <= j < m && j != k :: Trees()[j] == Abs(before, j + 1)
    {
      hide Reach, Abs, OnlyBelow;
      forall j | 0 <= j < m && j != k ensures Trees()[j] == Abs(before, j + 1) {
        ChangeBelowRoot(before, node, m, k + 1, j + 1);
      }
    }
  }
}
