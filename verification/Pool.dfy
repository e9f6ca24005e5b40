/**
 The node pool that all trees of the scheduler share.

 A pool is a sequence of cells addressed by index; index 0 stands for "no son".  Sons
 have larger indices than their parents and no cell has two parents, so the subtree
 under an index is a tree of its own and subtrees that do not contain each other
 share no cell.
 */
module Pool {
  import opened BmwTree

  datatype Cell = Cell(min0: Pair, min1: Pair, num0: int, num1: int, son0: nat, son1: nat)

  const FRESH_CELL := Cell(VACANT_PAIR, VACANT_PAIR, 0, 0, 0, 0)

  function Link(node: seq<Cell>, i: nat, d: bool): nat
    requires i < |node|
  {
    if d then node[i].son1 else node[i].son0
  }

  /** A son's index always exceeds its parent's. */
  ghost predicate Ordered(node: seq<Cell>) {
    |node| > 0 &&
    forall i, d | 0 < i < |node| :: Link(node, i, d) == 0 || i < Link(node, i, d) < |node|
  }

  ghost predicate SingleParent(node: seq<Cell>) {
    forall i, d, j, e | 0 < i < |node| && 0 < j < |node| && Link(node, i, d) == Link(node, j, e) != 0 ::
      i == j && d == e
  }

  /** The first `m` cells after index 0 are roots: nothing links to them. */
  ghost predicate RootsFree(node: seq<Cell>, m: nat) {
    |node| > m &&
    forall i, d | 0 < i < |node| :: Link(node, i, d) == 0 || Link(node, i, d) > m
  }

  ghost function Abs(node: seq<Cell>, i: nat): Tree
    requires Ordered(node) && i < |node|
    decreases if i == 0 then 0 else |node| - i
  {
    if i == 0 then Nil
    else
      var c := node[i];
      assert Link(node, i, false) == c.son0 && Link(node, i, true) == c.son1;
      Node(c.min0, c.min1, c.num0, c.num1, Abs(node, c.son0), Abs(node, c.son1))
  }

  ghost function Reach(node: seq<Cell>, i: nat): set<nat>
    requires Ordered(node) && i < |node|
    decreases if i == 0 then 0 else |node| - i
  {
    if i == 0 then {}
    else
      assert Link(node, i, false) == node[i].son0 && Link(node, i, true) == node[i].son1;
      {i} + Reach(node, node[i].son0) + Reach(node, node[i].son1)
  }

  lemma {:induction false} ReachBounds(node: seq<Cell>, i: nat, x: nat)
    requires Ordered(node) && i < |node| && x in Reach(node, i)
    ensures 0 < i <= x < |node|
    decreases if i == 0 then 0 else |node| - i
  {
    assert Link(node, i, false) == node[i].son0 && Link(node, i, true) == node[i].son1;
    if x in Reach(node, node[i].son0) {
      ReachBounds(node, node[i].son0, x);
    } else if x in Reach(node, node[i].son1) {
      ReachBounds(node, node[i].son1, x);
    }
  }

  /** Whatever is reached below `a` is linked from something reached below `a`. */
  lemma {:induction false} ReachParent(node: seq<Cell>, a: nat, x: nat) returns (y: nat, d: bool)
    requires Ordered(node) && a < |node| && x in Reach(node, a) && x != a
    ensures y in Reach(node, a) && 0 < y < x && y < |node| && Link(node, y, d) == x
    decreases if a == 0 then 0 else |node| - a
  {
    assert Link(node, a, false) == node[a].son0 && Link(node, a, true) == node[a].son1;
    d := x !in Reach(node, node[a].son0);
    var s := Link(node, a, d);
    ReachBounds(node, s, x);
    if x == s {
      y := a;
    } else {
      y, d := ReachParent(node, s, x);
    }
  }

  lemma {:induction false} CommonMeansNested(node: seq<Cell>, a: nat, b: nat, x: nat)
    requires Ordered(node) && SingleParent(node) && a < |node| && b < |node|
    requires x in Reach(node, a) && x in Reach(node, b)
    ensures a in Reach(node, b) || b in Reach(node, a)
    decreases x
  {
    hide Reach;
    if x != a && x != b {
      var y, d := ReachParent(node, a, x);
      var z, e := ReachParent(node, b, x);
      CommonMeansNested(node, a, b, y);
    }
  }

  lemma {:induction false} SonsDisjoint(node: seq<Cell>, i: nat, d: bool)
    requires Ordered(node) && SingleParent(node) && 0 < i < |node|
    ensures Reach(node, Link(node, i, d)) !! Reach(node, Link(node, i, !d))
  {
    hide Reach;
    var s, o := Link(node, i, d), Link(node, i, !d);
    forall x | x in Reach(node, s) && x in Reach(node, o) ensures false {
      ReachBounds(node, s, x);
      ReachBounds(node, o, x);
      CommonMeansNested(node, s, o, x);
      NotBelowSibling(node, i, d);
      NotBelowSibling(node, i, !d);
    }
  }

  lemma NotBelowSibling(node: seq<Cell>, i: nat, d: bool)
    requires Ordered(node) && SingleParent(node) && 0 < i < |node|
    requires Link(node, i, d) != 0 && Link(node, i, !d) != 0
    ensures Link(node, i, d) !in Reach(node, Link(node, i, !d))
  {
    hide Reach;
    var s, o := Link(node, i, d), Link(node, i, !d);
    assert s != o;
    if s in Reach(node, o) {
      var y, e := ReachParent(node, o, s);
      ReachBounds(node, o, y);
      assert false;
    }
  }

  lemma {:induction false} RootsDisjoint(node: seq<Cell>, m: nat, a: nat, b: nat)
    requires Ordered(node) && SingleParent(node) && RootsFree(node, m)
    requires 0 < a <= m && 0 < b <= m && a != b
    ensures Reach(node, a) !! Reach(node, b)
  {
    hide Reach;
    forall x | x in Reach(node, a) && x in Reach(node, b) ensures false {
      CommonMeansNested(node, a, b, x);
      if a in Reach(node, b) {
        var y, e := ReachParent(node, b, a);
        assert false;
      } else {
        var y, e := ReachParent(node, a, b);
        assert false;
      }
    }
  }

  /** A subtree depends only on the cells it reaches. */
  lemma {:induction false} Frame(node: seq<Cell>, other: seq<Cell>, i: nat)
    requires Ordered(node) && Ordered(other) && i < |node| && i < |other|
    requires forall x | x in Reach(node, i) :: x < |node| && x < |other| && other[x] == node[x]
    ensures Abs(other, i) == Abs(node, i) && Reach(other, i) == Reach(node, i)
    decreases if i == 0 then 0 else |node| - i
  {
    if i != 0 {
      assert i in Reach(node, i);
      assert Link(node, i, false) == node[i].son0 && Link(node, i, true) == node[i].son1;
      assert Link(other, i, false) == node[i].son0 && Link(other, i, true) == node[i].son1;
      Frame(node, other, node[i].son0);
      Frame(node, other, node[i].son1);
    }
  }

  ghost predicate HasParent(node: seq<Cell>, i: nat) {
    exists j, d | 0 < j < |node| && j < i :: Link(node, j, d) == i
  }

  /** Every cell that is not a root hangs somewhere. */
  ghost predicate NoOrphans(node: seq<Cell>, m: nat) {
    forall i | m < i < |node| :: HasParent(node, i)
  }

  ghost predicate Sound(node: seq<Cell>, m: nat) {
    Ordered(node) && SingleParent(node) && RootsFree(node, m) && NoOrphans(node, m)
  }

  lemma KeepsParent(node: seq<Cell>, after: seq<Cell>, i: nat)
    requires HasParent(node, i) && i != 0 && |node| <= |after|
    requires forall x, e | 0 < x < |node| && Link(node, x, e) != 0 :: Link(after, x, e) == Link(node, x, e)
    ensures HasParent(after, i)
  {
    var j, d :| 0 < j < |node| && j < i && Link(node, j, d) == i;
    assert Link(after, j, d) == i;
  }

  /** `after` differs from `before` only in what `i` reaches, and in new cells. */
  ghost predicate OnlyBelow(before: seq<Cell>, after: seq<Cell>, i: nat)
    requires Ordered(before) && i < |before|
  {
    |before| <= |after| &&
    forall x | 0 < x < |before| && x !in Reach(before, i) :: after[x] == before[x]
  }

  /** Changing the slots and counters of one cell keeps every link. */
  ghost predicate SameLinks(c: Cell, d: Cell) {
    c.son0 == d.son0 && c.son1 == d.son1
  }

  lemma SetCell(node: seq<Cell>, m: nat, i: nat, c: Cell)
    requires Sound(node, m) && 0 < i < |node| && SameLinks(c, node[i])
    ensures Sound(node[i := c], m)
    ensures forall x, d | 0 < x < |node| :: Link(node[i := c], x, d) == Link(node, x, d)
  {
    var after := node[i := c];
    forall x, d | 0 < x < |node| ensures Link(after, x, d) == Link(node, x, d) {
    }
    assert NoOrphans(after, m) by {
      hide HasParent;
      forall x | m < x < |node| ensures HasParent(after, x) {
        KeepsParent(node, after, x);
      }
    }
  }

  /** Replacing a cell by one with the same links changes nothing below it. */
  lemma SetCellBelow(node: seq<Cell>, m: nat, i: nat, c: Cell, s: nat)
    requires Sound(node, m) && 0 < i < |node| && SameLinks(c, node[i])
    requires s < |node| && (s == 0 || i < s)
    ensures Sound(node[i := c], m)
    ensures Abs(node[i := c], s) == Abs(node, s) && Reach(node[i := c], s) == Reach(node, s)
  {
    hide Reach, Abs;
    SetCell(node, m, i, c);
    forall x | x in Reach(node, s) ensures x < |node| && x != i {
      ReachBounds(node, s, x);
    }
    Frame(node, node[i := c], s);
  }

  /** The tree at a cell, given what hangs under its links. */
  ghost function Rooted(c: Cell, t0: Tree, t1: Tree): Tree {
    Node(c.min0, c.min1, c.num0, c.num1, t0, t1)
  }

  lemma Unfold(node: seq<Cell>, m: nat, i: nat)
    requires Sound(node, m) && 0 < i < |node|
    ensures Link(node, i, false) < |node| && Link(node, i, true) < |node|
    ensures Abs(node, i) == Rooted(node[i], Abs(node, Link(node, i, false)), Abs(node, Link(node, i, true)))
    ensures Abs(node, 0) == Nil
  {
  }

  lemma SetRoot(node: seq<Cell>, m: nat, i: nat, c: Cell)
    requires Sound(node, m) && 0 < i < |node| && SameLinks(c, node[i])
    ensures Sound(node[i := c], m) && c.son0 < |node| && c.son1 < |node|
    ensures Abs(node[i := c], i) == Rooted(c, Abs(node, c.son0), Abs(node, c.son1))
    ensures OnlyBelow(node, node[i := c], i) && Reach(node[i := c], i) == Reach(node, i)
  {
    assert Link(node, i, false) == c.son0 && Link(node, i, true) == c.son1;
    SetCellBelow(node, m, i, c, c.son0);
    SetCellBelow(node, m, i, c, c.son1);
    assert i in Reach(node, i);
  }

  /** A change below one son leaves the cell itself and the other son alone. */
  lemma ChangeBelowSon(before: seq<Cell>, after: seq<Cell>, m: nat, i: nat, d: bool)
    requires Sound(before, m) && Sound(after, m) && 0 < i < |before|
    requires Link(before, i, d) != 0 && OnlyBelow(before, after, Link(before, i, d))
    ensures after[i] == before[i]
    ensures Abs(after, Link(before, i, !d)) == Abs(before, Link(before, i, !d))
    ensures OnlyBelow(before, after, i)
  {
    var s, o := Link(before, i, d), Link(before, i, !d);
    assert Reach(before, s) <= Reach(before, i);
    hide Reach, Abs;
    if i in Reach(before, s) {
      ReachBounds(before, s, i);
    }
    SonsDisjoint(before, i, d);
    forall x | x in Reach(before, o) ensures 0 < x < |before| && after[x] == before[x] {
      ReachBounds(before, o, x);
    }
    Frame(before, after, o);
  }

  /** A change below one root leaves every other tree alone. */
  lemma ChangeBelowRoot(before: seq<Cell>, after: seq<Cell>, m: nat, a: nat, b: nat)
    requires Sound(before, m) && Sound(after, m) && 0 < a <= m && 0 < b <= m && a != b
    requires OnlyBelow(before, after, a)
    ensures Abs(after, b) == Abs(before, b)
  {
    hide Reach, Abs;
    RootsDisjoint(before, m, a, b);
    forall x | x in Reach(before, b) ensures 0 < x < |before| && after[x] == before[x] {
      ReachBounds(before, b, x);
    }
    Frame(before, after, b);
  }

  /** Hanging a new cell under a vacant link. */
  function Hang(node: seq<Cell>, i: nat, d: bool): seq<Cell>
    requires 0 < i < |node|
  {
    var c := node[i];
    node[i := if d then c.(son1 := |node|) else c.(son0 := |node|)] + [FRESH_CELL]
  }

  lemma HangSound(node: seq<Cell>, m: nat, i: nat, d: bool)
    requires Sound(node, m) && 0 < i < |node| && Link(node, i, d) == 0
    ensures Sound(Hang(node, i, d), m)
  {
    var after := Hang(node, i, d);
    forall x, e | 0 < x < |after|
      ensures Link(after, x, e) == (if x == |node| then 0 else if x == i && e == d then |node| else Link(node, x, e))
    {
    }
    forall x, e | 0 < x < |node| ensures Link(node, x, e) < |node| {
    }
    assert NoOrphans(after, m) by {
      assert Link(after, i, d) == |node|;
      assert HasParent(after, |node|);
      hide HasParent;
      forall x | m < x < |node| ensures HasParent(after, x) {
        KeepsParent(node, after, x);
      }
    }
  }

  lemma HangAbs(node: seq<Cell>, m: nat, i: nat, d: bool)
    requires Sound(node, m) && 0 < i < |node| && Link(node, i, d) == 0
    ensures Sound(Hang(node, i, d), m)
    ensures Abs(Hang(node, i, d), |node|) == FRESH
    ensures Abs(Hang(node, i, d), Link(node, i, !d)) == Abs(node, Link(node, i, !d))
    ensures OnlyBelow(node, Hang(node, i, d), i)
  {
    HangSound(node, m, i, d);
    var after := Hang(node, i, d);
    assert after[|node|] == FRESH_CELL;
    assert Abs(after, |node|) == FRESH;
    assert i in Reach(node, i);
    hide Reach, Abs;
    var o := Link(node, i, !d);
    forall x | x in Reach(node, o) ensures x < |node| && after[x] == node[x] {
      ReachBounds(node, o, x);
    }
    Frame(node, after, o);
  }

  /** The pool once cell `i` has a son under link `d`. */
  function WithSon(node: seq<Cell>, i: nat, d: bool): seq<Cell>
    requires 0 < i < |node|
  {
    if Link(node, i, d) != 0 then node else Hang(node, i, d)
  }

  lemma WithSonAbs(node: seq<Cell>, m: nat, i: nat, d: bool)
    requires Sound(node, m) && 0 < i < |node|
    ensures var n1 := WithSon(node, i, d);
            && Sound(n1, m)
            && i < Link(n1, i, d) < |n1|
            && (|n1| > |node| ==> n1[Link(n1, i, d)] == FRESH_CELL)
            && Abs(n1, Link(n1, i, d)) == (if Link(node, i, d) != 0 then Abs(node, Link(node, i, d)) else FRESH)
  {
    hide Abs;
    if Link(node, i, d) == 0 {
      HangAbs(node, m, i, d);
    }
  }

  /** From the pool `n0`: give `i` a son, change the pool to `n2` below that son, then set cell `i`. */
  lemma AfterSon(n0: seq<Cell>, n2: seq<Cell>, m: nat, i: nat, d: bool, c: Cell)
    requires Sound(n0, m) && Sound(n2, m) && 0 < i < |n0|
    requires var n1 := WithSon(n0, i, d);
             Sound(n1, m) && OnlyBelow(n1, n2, Link(n1, i, d)) && SameLinks(c, n1[i])
    ensures var s := Link(WithSon(n0, i, d), i, d);
            && n2[i] == WithSon(n0, i, d)[i]
            && Sound(n2[i := c], m)
            && OnlyBelow(n0, n2[i := c], i)
            && Abs(n2[i := c], i) == (if d then Rooted(c, Abs(n0, Link(n0, i, false)), Abs(n2, s))
                                      else Rooted(c, Abs(n2, s), Abs(n0, Link(n0, i, true))))
  {
    var n1 := WithSon(n0, i, d);
    ghost var s := Link(n1, i, d);
    assert i in Reach(n0, i);
    hide Reach, Abs;
    ChangeBelowSon(n1, n2, m, i, d);
    SetRoot(n2, m, i, c);
    if Link(n0, i, d) == 0 {
      HangAbs(n0, m, i, d);
      forall x | 0 < x < |n0| && x !in Reach(n0, i) ensures n2[i := c][x] == n0[x] {
        if x in Reach(n1, s) {
          ReachBounds(n1, s, x);
        }
      }
    }
  }
}
