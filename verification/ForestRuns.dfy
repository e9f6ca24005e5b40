/**
 Runs that interleave operations on many trees.  Each tree goes through its own operations
 only, and as long as those are disciplined the shared pool never runs out.
 */
module ForestRuns {
  import opened BmwTree
  import opened BmwDepth
  import opened Pool
  import opened PoolBound
  import F = Forest

  /** An operation on tree `k`. */
  datatype TreeOp = On(k: nat, op: Op)

  ghost predicate AllNodes(ts: seq<Tree>) {
    forall k | 0 <= k < |ts| :: ts[k].Node?
  }

  function RunAll(ts: seq<Tree>, ops: seq<TreeOp>): (r: seq<Tree>)
    requires forall k | 0 <= k < |ts| :: ts[k].Node?
    ensures |r| == |ts| && forall k | 0 <= k < |r| :: r[k].Node?
    decreases |ops|
  {
    if ops == [] then ts
    else
      var o := ops[0];
      RunAll(if o.k < |ts| then ts[o.k := Apply(ts[o.k], o.op)] else ts, ops[1..])
  }

  /** The operations on tree `k`, in order. */
  function Project(ops: seq<TreeOp>, k: nat): seq<Op> {
    if ops == [] then []
    else (if ops[0].k == k then [ops[0].op] else []) + Project(ops[1..], k)
  }

  /** What a pop of tree `k` returned. */
  datatype Popped = Popped(k: nat, pair: Pair)

  /** What the pops of a run return, in order. */
  function Returns(ts: seq<Tree>, ops: seq<TreeOp>): seq<Popped>
    requires forall k | 0 <= k < |ts| :: ts[k].Node?
    decreases |ops|
  {
    if ops == [] then []
    else
      var o := ops[0];
      (if o.k < |ts| && o.op.DoPop? then [Popped(o.k, Top(ts[o.k]))] else []) +
      Returns(if o.k < |ts| then ts[o.k := Apply(ts[o.k], o.op)] else ts, ops[1..])
  }

  /** What the pops of tree `k` returned. */
  function From(rets: seq<Popped>, k: nat): seq<Pair> {
    if rets == [] then [] else (if rets[0].k == k then [rets[0].pair] else []) + From(rets[1..], k)
  }

  /** What the pops in a run of one tree return. */
  function Answers(t: Tree, ops: seq<Op>): seq<Pair>
    requires t.Node?
    decreases |ops|
  {
    if ops == [] then []
    else (if ops[0].DoPop? then [Top(t)] else []) + Answers(Apply(t, ops[0]), ops[1..])
  }

  /** However the operations are interleaved, each tree answers as it does to its own operations. */
  lemma {:induction false} AnswersIndependent(ts: seq<Tree>, ops: seq<TreeOp>, k: nat)
    requires AllNodes(ts) && k < |ts|
    ensures From(Returns(ts, ops), k) == Answers(ts[k], Project(ops, k))
    decreases |ops|
  {
    hide Push, Pop, Top;
    if ops != [] {
      var o := ops[0];
      var next := if o.k < |ts| then ts[o.k := Apply(ts[o.k], o.op)] else ts;
      AnswersIndependent(next, ops[1..], k);
      var rest := Returns(next, ops[1..]);
      if o.k < |ts| && o.op.DoPop? {
        var head := Popped(o.k, Top(ts[o.k]));
        assert ([head] + rest)[0] == head && ([head] + rest)[1..] == rest;
      } else {
        assert [] + rest == rest;
      }
      if o.k == k {
        assert Project(ops, k)[0] == o.op && Project(ops, k)[1..] == Project(ops[1..], k);
      } else {
        assert Project(ops, k) == Project(ops[1..], k);
      }
    }
  }

  /** The elements among what was returned; a pop of an empty tree returns none. */
  ghost function Elements(ps: seq<Pair>): multiset<Pair> {
    if ps == [] then multiset{} else One(ps[0]) + Elements(ps[1..])
  }

  ghost function Pushed(ops: seq<Op>): multiset<Pair> {
    if ops == [] then multiset{}
    else (if ops[0].DoPush? then multiset{ops[0].v} else multiset{}) + Pushed(ops[1..])
  }

  ghost predicate RanksBelow(ops: seq<Op>) {
    forall o | o in ops && o.DoPush? :: o.v.rank < INF
  }

  lemma StepConserves(t: Tree, op: Op)
    requires t.Node? && Heap(t) && (op.DoPush? ==> op.v.rank < INF)
    ensures Heap(Apply(t, op))
    ensures Elems(Apply(t, op)) + (if op.DoPop? then One(Top(t)) else multiset{}) ==
            Elems(t) + (if op.DoPush? then multiset{op.v} else multiset{})
  {
    hide Elems, Heap, Push, Pop, Top, One;
    match op
    case DoPush(v) =>
      PushHeap(t, v);
      assert !Vacant(v);
      PushElems(t, v);
    case DoPop =>
      PopHeap(t);
  }

  lemma Rearrange(now: multiset<Pair>, next: multiset<Pair>, out: multiset<Pair>, put: multiset<Pair>,
                  last: multiset<Pair>, outs: multiset<Pair>, puts: multiset<Pair>)
    requires next + out == now + put && last + outs == next + puts
    ensures last + (out + outs) == now + (put + puts)
  {
    assert last + (out + outs) == (last + outs) + out == next + puts + out == now + put + puts;
  }

  /** What pops returned and what is left is what was held and what was pushed. */
  lemma {:induction false} AnswersConserve(t: Tree, ops: seq<Op>)
    requires t.Node? && Heap(t) && RanksBelow(ops)
    ensures Heap(Run(t, ops))
    ensures Elems(Run(t, ops)) + Elements(Answers(t, ops)) == Elems(t) + Pushed(ops)
    decreases |ops|
  {
    hide Elems, Heap, Push, Pop, Top, One, Apply;
    if ops != [] {
      assert ops[0] in ops;
      StepConserves(t, ops[0]);
      var next := Apply(t, ops[0]);
      AnswersConserve(next, ops[1..]);
      var rest := Answers(next, ops[1..]);
      if ops[0].DoPop? {
        assert ([Top(t)] + rest)[0] == Top(t) && ([Top(t)] + rest)[1..] == rest;
      } else {
        assert [] + rest == rest;
      }
      Rearrange(Elems(t), Elems(next), if ops[0].DoPop? then One(Top(t)) else multiset{},
                if ops[0].DoPush? then multiset{ops[0].v} else multiset{},
                Elems(Run(t, ops)), Elements(rest), Pushed(ops[1..]));
    }
  }

  /** What a pop returns is a least element of what the tree holds then, or vacant if it holds nothing. */
  lemma {:induction false} AnswerIsLeast(t: Tree, before: seq<Op>, after: seq<Op>)
    requires t.Node? && Heap(t) && RanksBelow(before)
    ensures var now := Run(t, before);
            var all := Answers(t, before + [DoPop] + after);
            && |Answers(t, before)| < |all| && all[|Answers(t, before)|] == Top(now)
            && (Vacant(Top(now)) <==> Elems(now) == multiset{})
            && (Elems(now) != multiset{} ==> Top(now) in Elems(now) && AllGeq(Top(now), Elems(now)))
    decreases |before|
  {
    hide Elems, Heap, Push, Pop, Top, AllGeq;
    var ops := before + [DoPop] + after;
    if before == [] {
      assert ops[0] == DoPop;
      TopLeast(t);
    } else {
      assert before[0] in before;
      assert ops[0] == before[0] && ops[1..] == before[1..] + [DoPop] + after;
      StepConserves(t, before[0]);
      AnswerIsLeast(Apply(t, before[0]), before[1..], after);
    }
  }

  /** However the operations are interleaved, each tree is what its own operations make of it. */
  lemma {:induction false} TreesIndependent(ts: seq<Tree>, ops: seq<TreeOp>, k: nat)
    requires AllNodes(ts) && k < |ts|
    ensures RunAll(ts, ops)[k] == Run(ts[k], Project(ops, k))
    decreases |ops|
  {
    hide Push, Pop;
    if ops != [] {
      var o := ops[0];
      var next := if o.k < |ts| then ts[o.k := Apply(ts[o.k], o.op)] else ts;
      TreesIndependent(next, ops[1..], k);
      if o.k == k {
        assert Project(ops, k)[0] == o.op && Project(ops, k)[1..] == Project(ops[1..], k);
      } else {
        assert Project(ops, k) == Project(ops[1..], k);
      }
    }
  }

  lemma FreshIsExact()
    ensures Heap(FRESH) && CountersExact(FRESH) && Depth(FRESH) == 1
  {
    assert Elems(Nil) == multiset{};
  }

  /**
   A pool whose trees result from any interleaved run, in which each tree stays within the
   capacity of `h` levels and every pop is clean, lies within m * 2^h cells.
   */
  lemma PoolNeverOverflows(node: seq<Cell>, m: nat, ops: seq<TreeOp>, h: nat)
    requires Sound(node, m) && m > 0 && h >= 1
    requires forall r | 0 < r <= m :: Abs(node, r) == RunAll(seq(m, _ => FRESH), ops)[r - 1]
    requires forall k | 0 <= k < m :: Disciplined(FRESH, Project(ops, k), Capacity(h))
    ensures |node| <= m * Pow2(h)
  {
    var start := seq(m, _ => FRESH);
    forall r | 0 < r <= m ensures Depth(Abs(node, r)) <= h {
      hide Abs, RunAll, Run, Project, Disciplined, Depth, CountersExact, Heap;
      var k := r - 1;
      assert Abs(node, r) == RunAll(start, ops)[k];
      TreesIndependent(start, ops, k);
      FreshIsExact();
      assert Disciplined(FRESH, Project(ops, k), Capacity(h));
      RunDepth(FRESH, Project(ops, k), h);
    }
    hide Abs;
    AllocatorStaysInside(node, m, h);
  }

  // ---------- runs on the shared pool ----------

  lemma RunAllStep(ts: seq<Tree>, ops: seq<TreeOp>, j: nat)
    requires AllNodes(ts) && j < |ops|
    ensures var o := ops[j];
            var next := if o.k < |ts| then ts[o.k := Apply(ts[o.k], o.op)] else ts;
            && AllNodes(next)
            && RunAll(ts, ops[j..]) == RunAll(next, ops[j + 1..])
            && Returns(ts, ops[j..]) ==
               (if o.k < |ts| && o.op.DoPop? then [Popped(o.k, Top(ts[o.k]))] else []) + Returns(next, ops[j + 1..])
  {
    hide Push, Pop;
    assert ops[j..][0] == ops[j] && ops[j..][1..] == ops[j + 1..];
  }

  /** One operation in the pool; a tree that does not exist has none. */
  method RunOp(f: F.Forest, o: TreeOp) returns (rets: seq<Popped>)
    requires f.Valid()
    modifies f
    ensures f.Valid()
    ensures var ts := old(f.Trees());
            && f.Trees() == (if o.k < |ts| then ts[o.k := Apply(ts[o.k], o.op)] else ts)
            && rets == if o.k < |ts| && o.op.DoPop? then [Popped(o.k, Top(ts[o.k]))] else []
  {
    hide Push, Pop, Top, Sound, Abs;
    rets := [];
    if o.k < f.m {
      match o.op {
        case DoPush(v) => f.PushTree(o.k, v);
        case DoPop =>
          var ret := f.PopTree(o.k);
          rets := [Popped(o.k, ret)];
      }
    }
  }

  /**
   Any interleaving of pushes and pops, carried out in the pool, does to each tree and returns
   from each pop what the run says.
   */
  method RunOps(f: F.Forest, ops: seq<TreeOp>) returns (rets: seq<Popped>)
    requires f.Valid()
    modifies f
    ensures f.Valid() && f.Trees() == RunAll(old(f.Trees()), ops)
    ensures rets == Returns(old(f.Trees()), ops)
  {
    hide Push, Pop, Top, Apply, RunAll, Returns, Sound, Abs;
    ghost var start := f.Trees();
    rets := [];
    var j := 0;
    assert ops[0..] == ops;
    while j < |ops|
      invariant 0 <= j <= |ops| && f.Valid() && AllNodes(start) && AllNodes(f.Trees())
      invariant RunAll(f.Trees(), ops[j..]) == RunAll(start, ops)
      invariant rets + Returns(f.Trees(), ops[j..]) == Returns(start, ops)
    {
      ghost var before := rets + Returns(f.Trees(), ops[j..]);
      RunAllStep(f.Trees(), ops, j);
      var more := RunOp(f, ops[j]);
      Regroup(rets, more, Returns(f.Trees(), ops[j + 1..]));
      rets := rets + more;
      assert rets + Returns(f.Trees(), ops[j + 1..]) == before;
      j := j + 1;
    }
    assert ops[j..] == [];
    RunAllNone(f.Trees());
  }

  lemma Regroup(a: seq<Popped>, b: seq<Popped>, c: seq<Popped>)
    ensures a + (b + c) == (a + b) + c
  {
  }

  lemma RunAllNone(ts: seq<Tree>)
    requires AllNodes(ts)
    ensures RunAll(ts, []) == ts && Returns(ts, []) == []
  {
  }

  /**
   A whole run on a new pool: each tree is what its own operations make of it, and while every
   tree keeps within the capacity of `h` levels with clean pops the pool fits in m * 2^h cells.
   */
  method RunFresh(m: nat, ops: seq<TreeOp>, ghost h: nat) returns (f: F.Forest)
    requires m > 0
    ensures fresh(f) && f.m == m && f.Valid()
    ensures forall k | 0 <= k < m :: f.Trees()[k] == Run(FRESH, Project(ops, k))
    ensures h >= 1 && (forall k | 0 <= k < m :: Disciplined(FRESH, Project(ops, k), Capacity(h))) ==>
              |f.node| <= m * Pow2(h)
  {
    f := new F.Forest(m);
    var rets := RunOps(f, ops);
    ghost var start := seq(m, _ => FRESH);
    hide Sound, RunAll, Run, Project, Disciplined;
    forall k | 0 <= k < m ensures f.Trees()[k] == Run(FRESH, Project(ops, k)) {
      TreesIndependent(start, ops, k);
    }
    if h >= 1 && forall k | 0 <= k < m :: Disciplined(FRESH, Project(ops, k), Capacity(h)) {
      forall r | 0 < r <= m ensures Abs(f.node, r) == RunAll(start, ops)[r - 1] {
        assert f.Trees()[r - 1] == Abs(f.node, r - 1 + 1);
      }
      PoolNeverOverflows(f.node, m, ops, h);
    }
  }
}
