/**
 The balance counters of a tree and the depth they buy.

 A counter never exceeds the number of elements under it.  It is exact until a pop
 goes down into a son that exists but holds nothing; while it is exact, a tree that
 never holds more than 2^(h+1) - 2 elements never grows deeper than h.  Once it is
 no longer exact the depth bound fails, with a ten-operation run to show it.
 */
module BmwDepth {
  import opened BmwTree

  ghost function Size(t: Tree): nat {
    |Elems(t)|
  }

  function Max(a: nat, b: nat): nat {
    if a < b then b else a
  }

  function Depth(t: Tree): nat {
    match t
    case Nil => 0
    case Node(_, _, _, _, s0, s1) => 1 + Max(Depth(s0), Depth(s1))
  }

  function Nodes(t: Tree): nat {
    match t
    case Nil => 0
    case Node(_, _, _, _, s0, s1) => 1 + Nodes(s0) + Nodes(s1)
  }

  function Pow2(h: nat): (p: nat)
    ensures p >= 1
  {
    if h == 0 then 1 else 2 * Pow2(h - 1)
  }

  /** The number of elements that fit in `h` levels. */
  function Capacity(h: nat): nat {
    2 * Pow2(h) - 2
  }

  /** Every counter is at most the size of the son it counts. */
  ghost predicate CountersBelow(t: Tree) {
    match t
    case Nil => true
    case Node(_, _, n0, n1, s0, s1) =>
      n0 <= Size(s0) && n1 <= Size(s1) && CountersBelow(s0) && CountersBelow(s1)
  }

  ghost predicate CountersExact(t: Tree) {
    match t
    case Nil => true
    case Node(_, _, n0, n1, s0, s1) =>
      n0 == Size(s0) && n1 == Size(s1) && CountersExact(s0) && CountersExact(s1)
  }

  /** The son a pop goes down into, `Nil` when it stays. */
  function PopsInto(t: Tree): Tree
    requires t.Node?
  {
    if Less(t.min1, t.min0) then t.son1 else t.son0
  }

  /** The pop never enters a son that exists and holds nothing. */
  ghost predicate CleanPop(t: Tree)
    requires t.Node?
    decreases t
  {
    PopsInto(t).Node? ==> Elems(PopsInto(t)) != multiset{} && CleanPop(PopsInto(t))
  }

  // ---------- sizes ----------

  lemma PushSize(t: Tree, v: Pair)
    requires !Vacant(v)
    ensures Size(Push(t, v)) == Size(t) + 1
  {
    hide Elems, Push;
    PushElems(t, v);
  }

  lemma PopSize(t: Tree)
    requires Heap(t) && t.Node?
    ensures Elems(t) != multiset{} ==> Size(Pop(t)) == Size(t) - 1
    ensures Elems(t) == multiset{} ==> Size(Pop(t)) == 0
  {
    hide Elems, Pop, Heap, Top;
    PopLeast(t);
  }

  lemma NilSize()
    ensures Size(Nil) == 0
  {
  }

  lemma FullNodeSize(t: Tree)
    requires t.Node? && !Vacant(t.min0) && !Vacant(t.min1)
    ensures Size(t) == 2 + Size(t.son0) + Size(t.son1)
  {
  }

  // ---------- counters ----------

  lemma {:induction false} PushCountersBelow(t: Tree, v: Pair)
    requires CountersBelow(t) && !Vacant(v)
    ensures CountersBelow(Push(t, v))
  {
    hide Elems;
    match t
    case Nil =>
    case Node(m0, m1, n0, n1, s0, s1) =>
      if Vacant(m0) || Vacant(m1) {
      } else if n0 > n1 {
        PushCountersBelow(s1, Sinks(m1, v));
        PushSize(s1, Sinks(m1, v));
      } else {
        PushCountersBelow(s0, Sinks(m0, v));
        PushSize(s0, Sinks(m0, v));
      }
  }

  lemma {:induction false} PopCountersBelow(t: Tree)
    requires CountersBelow(t) && Heap(t) && t.Node?
    ensures CountersBelow(Pop(t))
  {
    hide Elems, Top;
    if PopsInto(t).Node? {
      PopCountersBelow(PopsInto(t));
      PopSize(PopsInto(t));
    }
  }

  lemma {:induction false} PushCountersExact(t: Tree, v: Pair)
    requires CountersExact(t) && !Vacant(v)
    ensures CountersExact(Push(t, v))
  {
    hide Elems;
    match t
    case Nil =>
      NilSize();
    case Node(m0, m1, n0, n1, s0, s1) =>
      if Vacant(m0) || Vacant(m1) {
      } else if n0 > n1 {
        PushCountersExact(s1, Sinks(m1, v));
        PushSize(s1, Sinks(m1, v));
      } else {
        PushCountersExact(s0, Sinks(m0, v));
        PushSize(s0, Sinks(m0, v));
      }
  }

  /** A pop leaves exact counters exact if and only if it is clean. */
  lemma {:induction false} PopCountersExact(t: Tree)
    requires CountersExact(t) && Heap(t) && t.Node?
    ensures CountersExact(Pop(t)) <==> CleanPop(t)
  {
    hide Elems, Top;
    if PopsInto(t).Node? {
      PopCountersExact(PopsInto(t));
      PopSize(PopsInto(t));
    }
  }

  // ---------- depth ----------

  /** With exact counters a push that keeps the tree within the capacity of `h` levels stays within them. */
  lemma {:induction false} PushDepth(t: Tree, v: Pair, h: nat)
    requires CountersExact(t) && !Vacant(v)
    requires Depth(t) <= h && Size(t) < Capacity(h)
    ensures Depth(Push(t, v)) <= h
  {
    hide Elems;
    match t
    case Nil =>
    case Node(m0, m1, n0, n1, s0, s1) =>
      if Vacant(m0) || Vacant(m1) {
      } else {
        FullNodeSize(t);
        hide Size;
        if n0 > n1 {
          PushDepth(s1, Sinks(m1, v), h - 1);
        } else {
          PushDepth(s0, Sinks(m0, v), h - 1);
        }
      }
  }

  lemma {:induction false} PopDepth(t: Tree)
    requires t.Node?
    ensures Depth(Pop(t)) == Depth(t)
    ensures Nodes(Pop(t)) == Nodes(t)
  {
    if PopsInto(t).Node? {
      PopDepth(PopsInto(t));
    }
  }

  /** Every operation of the run keeps the size within `cap` and every pop in it is clean. */
  ghost predicate Disciplined(t: Tree, ops: seq<Op>, cap: nat)
    requires t.Node?
    decreases |ops|
  {
    ops != [] ==>
      && (ops[0].DoPush? ==> ops[0].v.rank < INF && Size(t) < cap)
      && (ops[0].DoPop? ==> CleanPop(t))
      && Disciplined(Apply(t, ops[0]), ops[1..], cap)
  }

  /** Over any disciplined run the counters stay exact and the tree keeps to `h` levels. */
  lemma {:induction false} RunDepth(t: Tree, ops: seq<Op>, h: nat)
    requires t.Node? && Heap(t) && CountersExact(t) && Depth(t) <= h
    requires Disciplined(t, ops, Capacity(h))
    ensures CountersExact(Run(t, ops)) && Heap(Run(t, ops)) && Depth(Run(t, ops)) <= h
    decreases |ops|
  {
    hide Elems, Heap, CountersExact, CleanPop, Push, Pop, Depth;
    if ops != [] {
      match ops[0] {
        case DoPush(v) =>
          PushHeap(t, v);
          PushCountersExact(t, v);
          PushDepth(t, v, h);
        case DoPop =>
          PopHeap(t);
          PopCountersExact(t);
          PopDepth(t);
      }
      RunDepth(Apply(t, ops[0]), ops[1..], h);
    }
  }

  /** Over any run whatever, the counters never exceed what they count. */
  lemma {:induction false} RunCountersBelow(t: Tree, ops: seq<Op>)
    requires t.Node? && Heap(t) && CountersBelow(t)
    requires forall o | o in ops && o.DoPush? :: o.v.rank < INF
    ensures Heap(Run(t, ops)) && CountersBelow(Run(t, ops))
    decreases |ops|
  {
    hide Elems, Heap, CountersBelow, Push, Pop;
    if ops != [] {
      assert ops[0] in ops;
      match ops[0] {
        case DoPush(v) =>
          PushHeap(t, v);
          PushCountersBelow(t, v);
        case DoPop =>
          PopHeap(t);
          PopCountersBelow(t);
      }
      RunCountersBelow(Apply(t, ops[0]), ops[1..]);
    }
  }

  /** A tree of `h` levels has fewer than 2^h nodes. */
  lemma {:induction false} NodesBelow(t: Tree, h: nat)
    requires Depth(t) <= h
    ensures Nodes(t) < Pow2(h)
  {
    if t.Node? {
      NodesBelow(t.son0, h - 1);
      NodesBelow(t.son1, h - 1);
    }
  }

  // ---------- the bound needs the discipline ----------

  lemma {:induction false} RunAppend(t: Tree, a: seq<Op>, b: seq<Op>)
    requires t.Node?
    ensures Run(t, a + b) == Run(Run(t, a), b)
    decreases |a|
  {
    hide Push, Pop;
    if a == [] {
      assert a + b == b;
    } else {
      assert (a + b)[0] == a[0] && (a + b)[1..] == a[1..] + b;
      RunAppend(Apply(t, a[0]), a[1..], b);
    }
  }

  const ONE := Pair(1, 0)
  const LEAF := FRESH.(min0 := ONE)
  const FULL := LEAF.(min1 := ONE)

  /** Three pushes and two pops leave a counter at -1 over a son that is empty. */
  const SKEWING: seq<Op> := [DoPush(ONE), DoPush(ONE), DoPush(ONE), DoPop, DoPop]
  const FILLING: seq<Op> := [DoPush(ONE), DoPush(ONE), DoPush(ONE), DoPush(ONE), DoPush(ONE)]

  lemma ThreePushes()
    ensures PushMany(FRESH, 3) == FULL.(son0 := LEAF, num0 := 1)
  {
    assert Push(FRESH, ONE) == LEAF && Push(LEAF, ONE) == FULL;
    assert Push(FULL, ONE) == FULL.(son0 := LEAF, num0 := 1);
    assert PushMany(FULL, 1) == Push(FULL, ONE);
    hide Push;
    assert PushMany(LEAF, 2) == PushMany(FULL, 1);
  }

  const SKEWED := Node(ONE.(rank := INF), ONE, -1, 0, FRESH.(min0 := ONE.(rank := INF)), Nil)

  lemma TwoPops()
    ensures Run(FULL.(son0 := LEAF, num0 := 1), [DoPop, DoPop]) == SKEWED
  {
    var t := FULL.(son0 := LEAF, num0 := 1);
    assert Pop(LEAF) == FRESH.(min0 := ONE.(rank := INF));
    var u := Pop(t);
    assert Pop(u) == SKEWED;
    hide Pop;
    assert [DoPop, DoPop][1..] == [DoPop] && [DoPop][1..] == [];
    assert Run(u, [DoPop]) == SKEWED;
  }

  lemma CounterGoesNegative()
    ensures Run(FRESH, SKEWING).num0 == -1 && Elems(Run(FRESH, SKEWING).son0) == multiset{}
    ensures Run(FRESH, SKEWING) == SKEWED
  {
    assert Elems(Nil) == multiset{};
    assert Elems(SKEWED.son0) == multiset{};
    hide Run, Elems, PushMany;
    ThreePushes();
    TwoPops();
    var pushes := [DoPush(ONE), DoPush(ONE), DoPush(ONE)];
    RunPushes(FRESH, 3, pushes);
    RunAppend(FRESH, pushes, [DoPop, DoPop]);
    assert SKEWING == pushes + [DoPop, DoPop];
  }

  function PushMany(t: Tree, n: nat): (r: Tree)
    requires t.Node?
    ensures r.Node?
    decreases n
  {
    if n == 0 then t else PushMany(Push(t, ONE), n - 1)
  }

  lemma {:induction false} RunPushes(t: Tree, n: nat, ops: seq<Op>)
    requires t.Node? && |ops| == n && forall i | 0 <= i < n :: ops[i] == DoPush(ONE)
    ensures Run(t, ops) == PushMany(t, n)
    decreases n
  {
    if n > 0 {
      assert Apply(t, ops[0]) == Push(t, ONE);
      RunPushes(Push(t, ONE), n - 1, ops[1..]);
    }
  }

  /**
   After that, five pushes reach a third level although the tree never held more than
   the six elements that fit in two: the pops were not clean.
   */
  lemma DepthBoundNeedsCleanPops()
    ensures Capacity(2) == 6 && Size(Run(FRESH, SKEWING + FILLING)) == 6
    ensures Depth(Run(FRESH, SKEWING + FILLING)) == 3
  {
    CounterGoesNegative();
    var s := Run(FRESH, SKEWING);
    RunAppend(FRESH, SKEWING, FILLING);
    RunPushes(s, 5, FILLING);
    var a := Push(Push(Push(s, ONE), ONE), ONE);
    var b := Push(Push(a, ONE), ONE);
    assert PushMany(s, 5) == b;
    assert a == Node(ONE, ONE, 1, 0, FULL, Nil);
    assert b == Node(ONE, ONE, 2, 1, FULL.(son0 := LEAF, num0 := 1), LEAF);
  }
}
