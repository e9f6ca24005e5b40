/**
 How many cells the pool can come to hold.
 */
module PoolBound {
  import opened BmwTree
  import opened BmwDepth
  import opened Pool

  lemma {:induction false} ReachClosed(node: seq<Cell>, a: nat, j: nat, d: bool)
    requires Ordered(node) && a < |node| && j in Reach(node, a)
    ensures 0 < j < |node|
    ensures Link(node, j, d) != 0 ==> Link(node, j, d) in Reach(node, a)
    decreases if a == 0 then 0 else |node| - a
  {
    ReachBounds(node, a, j);
    assert Link(node, a, false) == node[a].son0 && Link(node, a, true) == node[a].son1;
    if j == a {
      var s := Link(node, a, d);
      if s != 0 {
        assert s in Reach(node, s);
      }
    } else if j in Reach(node, node[a].son0) {
      ReachClosed(node, node[a].son0, j, d);
    } else {
      ReachClosed(node, node[a].son1, j, d);
    }
  }

  lemma {:induction false} InSomeTree(node: seq<Cell>, m: nat, i: nat) returns (k: nat)
    requires Sound(node, m) && 0 < i < |node|
    ensures 0 < k <= m && i in Reach(node, k)
    decreases i
  {
    if i <= m {
      k := i;
    } else {
      assert HasParent(node, i);
      var j, d :| 0 < j < |node| && j < i && Link(node, j, d) == i;
      hide Reach;
      k := InSomeTree(node, m, j);
      ReachClosed(node, k, j, d);
    }
  }

  lemma {:induction false} ReachSize(node: seq<Cell>, m: nat, i: nat)
    requires Sound(node, m) && i < |node|
    ensures |Reach(node, i)| == Nodes(Abs(node, i))
    decreases if i == 0 then 0 else |node| - i
  {
    if i != 0 {
      var a, b := Link(node, i, false), Link(node, i, true);
      assert Reach(node, i) == {i} + (Reach(node, a) + Reach(node, b));
      assert Abs(node, i) == Rooted(node[i], Abs(node, a), Abs(node, b));
      hide HasParent, Reach, Abs;
      ReachSize(node, m, a);
      ReachSize(node, m, b);
      SonsDisjoint(node, i, false);
      if i in Reach(node, a) {
        ReachBounds(node, a, i);
      }
      if i in Reach(node, b) {
        ReachBounds(node, b, i);
      }
    }
  }

  ghost function ReachUpTo(node: seq<Cell>, k: nat): set<nat>
    requires Ordered(node) && k < |node|
  {
    if k == 0 then {} else ReachUpTo(node, k - 1) + Reach(node, k)
  }

  lemma {:induction false} ReachUpToHas(node: seq<Cell>, k: nat, r: nat, x: nat)
    requires Ordered(node) && 0 < r <= k < |node| && x in Reach(node, r)
    ensures x in ReachUpTo(node, k)
  {
    if r < k {
      ReachUpToHas(node, k - 1, r, x);
    }
  }

  lemma UnionSize(a: set<nat>, b: set<nat>)
    ensures |a + b| <= |a| + |b|
  {
    assert a + b == a + (b - a);
  }

  lemma {:induction false} ReachUpToSize(node: seq<Cell>, m: nat, k: nat, h: nat)
    requires Sound(node, m) && k <= m
    requires forall r | 0 < r <= m :: Depth(Abs(node, r)) <= h
    ensures |ReachUpTo(node, k)| <= k * (Pow2(h) - 1)
  {
    hide Reach, Abs, Depth;
    if k > 0 {
      ReachUpToSize(node, m, k - 1, h);
      ReachSize(node, m, k);
      NodesBelow(Abs(node, k), h);
      UnionSize(ReachUpTo(node, k - 1), Reach(node, k));
      assert k * (Pow2(h) - 1) == (k - 1) * (Pow2(h) - 1) + (Pow2(h) - 1);
    }
  }

  lemma {:induction false} Interval(n: nat, s: set<nat>)
    requires forall x | 0 < x <= n :: x in s
    ensures n <= |s|
  {
    if n > 0 {
      Interval(n - 1, s - {n});
    }
  }

  /** While no tree is deeper than `h`, every index the allocator ever gave out is below m * 2^h. */
  lemma AllocatorStaysInside(node: seq<Cell>, m: nat, h: nat)
    requires Sound(node, m) && m > 0
    requires forall r | 0 < r <= m :: Depth(Abs(node, r)) <= h
    ensures |node| - 1 <= m * (Pow2(h) - 1)
    ensures |node| <= m * Pow2(h)
  {
    hide Reach, Abs, Depth;
    ReachUpToSize(node, m, m, h);
    forall x | 0 < x <= |node| - 1 ensures x in ReachUpTo(node, m) {
      var k := InSomeTree(node, m, x);
      ReachUpToHas(node, m, k, x);
    }
    Interval(|node| - 1, ReachUpTo(node, m));
    assert m * Pow2(h) == m * (Pow2(h) - 1) + m;
  }
}
