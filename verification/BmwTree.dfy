/**
 The priority tree of the reference scheduler, as a value.

 Every node carries two element slots, two sons and two balance counters.  A slot
 whose rank is `INF` is vacant.  `Push` and `Pop` follow the recursion of the
 source; a son that exists but holds nothing is a `Node` with two vacant slots and
 is different from `Nil`, a son that was never allocated.
 */
module BmwTree {
  /** The rank that marks a vacant slot. */
  const INF: int := 1_000_000_007

  datatype Pair = Pair(rank: int, val: int)

  datatype Tree =
    | Nil
    | Node(min0: Pair, min1: Pair, num0: int, num1: int, son0: Tree, son1: Tree)

  /** The lexicographic order of pairs. */
  predicate Less(a: Pair, b: Pair) {
    a.rank < b.rank || (a.rank == b.rank && a.val < b.val)
  }

  predicate Leq(a: Pair, b: Pair) {
    !Less(b, a)
  }

  predicate Vacant(p: Pair) {
    p.rank == INF
  }

  /** What a freshly allocated node holds. */
  const VACANT_PAIR := Pair(INF, 0)
  const FRESH := Node(VACANT_PAIR, VACANT_PAIR, 0, 0, Nil, Nil)

  // ---------- operations ----------

  function Push(t: Tree, v: Pair): (r: Tree)
    ensures r.Node?
  {
    match t
    case Nil => FRESH.(min0 := v)
    case Node(m0, m1, n0, n1, s0, s1) =>
      if Vacant(m0) then t.(min0 := v)
      else if Vacant(m1) then t.(min1 := v)
      else if n0 > n1 then
        if Less(v, m1) then t.(min1 := v, son1 := Push(s1, m1), num1 := n1 + 1)
        else t.(son1 := Push(s1, v), num1 := n1 + 1)
      else
        if Less(v, m0) then t.(min0 := v, son0 := Push(s0, m0), num0 := n0 + 1)
        else t.(son0 := Push(s0, v), num0 := n0 + 1)
  }

  function Top(t: Tree): Pair
    requires t.Node?
  {
    if Less(t.min1, t.min0) then t.min1 else t.min0
  }

  /** The tree that is left after the top element was taken; `Top` is what was taken. */
  function Pop(t: Tree): (r: Tree)
    requires t.Node?
    ensures r.Node?
  {
    if Less(t.min1, t.min0) then
      if t.son1.Nil? then t.(min1 := t.min1.(rank := INF))
      else t.(min1 := Top(t.son1), son1 := Pop(t.son1), num1 := t.num1 - 1)
    else
      if t.son0.Nil? then t.(min0 := t.min0.(rank := INF))
      else t.(min0 := Top(t.son0), son0 := Pop(t.son0), num0 := t.num0 - 1)
  }

  // ---------- what a tree holds ----------

  ghost function One(p: Pair): multiset<Pair> {
    if Vacant(p) then multiset{} else multiset{p}
  }

  ghost function Elems(t: Tree): multiset<Pair> {
    match t
    case Nil => multiset{}
    case Node(m0, m1, _, _, s0, s1) => (One(m0) + Elems(s0)) + (One(m1) + Elems(s1))
  }

  ghost predicate AllGeq(m: Pair, s: multiset<Pair>) {
    forall e | e in s :: Leq(m, e)
  }

  /** A slot bounds its son from below, and a vacant slot has nothing under it. */
  ghost predicate SlotOk(m: Pair, s: multiset<Pair>) {
    m.rank <= INF && (if Vacant(m) then s == multiset{} else AllGeq(m, s))
  }

  ghost predicate Heap(t: Tree) {
    match t
    case Nil => true
    case Node(m0, m1, _, _, s0, s1) =>
      SlotOk(m0, Elems(s0)) && SlotOk(m1, Elems(s1)) && Heap(s0) && Heap(s1)
  }

  // ---------- push and pop are a priority multiset ----------

  /** The element that stays in a slot, and the one that goes down, when `v` meets it. */
  function Stays(m: Pair, v: Pair): Pair {
    if Less(v, m) then v else m
  }

  function Sinks(m: Pair, v: Pair): Pair {
    if Less(v, m) then m else v
  }

  function Is(p: Pair, e: Pair): nat {
    if !Vacant(p) && p == e then 1 else 0
  }

  /** How often a tree holds `e`. */
  function Count(t: Tree, e: Pair): nat {
    match t
    case Nil => 0
    case Node(m0, m1, _, _, s0, s1) => Is(m0, e) + Count(s0, e) + Is(m1, e) + Count(s1, e)
  }

  lemma {:induction false} CountElems(t: Tree, e: Pair)
    ensures Elems(t)[e] == Count(t, e)
  {
    if t.Node? {
      CountElems(t.son0, e);
      CountElems(t.son1, e);
    }
  }

  lemma {:induction false} PushCount(t: Tree, v: Pair, e: Pair)
    ensures Count(Push(t, v), e) == Count(t, e) + Is(v, e)
  {
    match t
    case Nil =>
    case Node(m0, m1, n0, n1, s0, s1) =>
      if Vacant(m0) || Vacant(m1) {
      } else if n0 > n1 {
        PushCount(s1, Sinks(m1, v), e);
      } else {
        PushCount(s0, Sinks(m0, v), e);
      }
  }

  /** A push adds its element, and exactly that, if and only if its rank is not the sentinel. */
  lemma PushElems(t: Tree, v: Pair)
    ensures Elems(Push(t, v)) == Elems(t) + One(v)
    ensures Elems(Push(t, v)) == Elems(t) + multiset{v} <==> !Vacant(v)
  {
    hide Elems, Push, Count;
    forall e ensures Elems(Push(t, v))[e] == (Elems(t) + One(v))[e] {
      CountElems(t, e);
      CountElems(Push(t, v), e);
      PushCount(t, v, e);
    }
    assert (Elems(t) + multiset{v})[v] == Elems(t)[v] + 1;
  }

  lemma SlotOverNothing(v: Pair)
    requires v.rank <= INF
    ensures SlotOk(v, multiset{})
  {
  }

  lemma SlotAfterPush(m: Pair, v: Pair, s: multiset<Pair>)
    requires SlotOk(m, s) && !Vacant(m) && v.rank <= INF
    ensures SlotOk(Stays(m, v), s + One(Sinks(m, v)))
  {
  }

  lemma {:induction false} PushKeepsHeap(t: Tree, v: Pair)
    requires Heap(t) && v.rank <= INF
    ensures Heap(Push(t, v))
  {
    assert Elems(Nil) == multiset{};
    hide AllGeq, Elems;
    SlotOverNothing(v);
    SlotOverNothing(VACANT_PAIR);
    match t
    case Nil =>
    case Node(m0, m1, n0, n1, s0, s1) =>
      if Vacant(m0) || Vacant(m1) {
      } else if n0 > n1 {
        PushKeepsHeap(s1, Sinks(m1, v));
        PushElems(s1, Sinks(m1, v));
        SlotAfterPush(m1, v, Elems(s1));
      } else {
        PushKeepsHeap(s0, Sinks(m0, v));
        PushElems(s0, Sinks(m0, v));
        SlotAfterPush(m0, v, Elems(s0));
      }
  }

  lemma {:induction false} HeapRanks(t: Tree, e: Pair)
    requires Heap(t) && e.rank > INF
    ensures Count(t, e) == 0
  {
    hide Elems, AllGeq;
    if t.Node? {
      HeapRanks(t.son0, e);
      HeapRanks(t.son1, e);
    }
  }

  /** A push keeps the heap order if and only if its rank does not exceed the sentinel. */
  lemma PushHeap(t: Tree, v: Pair)
    requires Heap(t)
    ensures Heap(Push(t, v)) <==> v.rank <= INF
  {
    hide Heap, Push, Count;
    if v.rank <= INF {
      PushKeepsHeap(t, v);
    } else {
      PushCount(t, v, v);
      if Heap(Push(t, v)) {
        HeapRanks(Push(t, v), v);
      }
    }
  }

  lemma LeqTransitive(a: Pair, b: Pair, s: multiset<Pair>)
    requires Leq(a, b) && AllGeq(b, s)
    ensures AllGeq(a, s)
  {
  }

  /** A slot together with everything under it. */
  ghost function Side(m: Pair, s: Tree): multiset<Pair> {
    One(m) + Elems(s)
  }

  lemma SideLeast(m: Pair, s: Tree)
    requires SlotOk(m, Elems(s))
    ensures AllGeq(m, Side(m, s))
    ensures Vacant(m) <==> Side(m, s) == multiset{}
  {
  }

  /** In a heap the top is vacant exactly when nothing is held, and otherwise it is the least element. */
  lemma TopLeast(t: Tree)
    requires Heap(t) && t.Node?
    ensures Vacant(Top(t)) <==> Elems(t) == multiset{}
    ensures !Vacant(Top(t)) ==> Top(t) in Elems(t)
    ensures AllGeq(Top(t), Elems(t))
    ensures Top(t).rank <= INF
  {
    SideLeast(t.min0, t.son0);
    SideLeast(t.min1, t.son1);
    var a, b := Side(t.min0, t.son0), Side(t.min1, t.son1);
    assert Elems(t) == a + b;
    LeqTransitive(Top(t), t.min0, a);
    LeqTransitive(Top(t), t.min1, b);
  }

  /** What a pop leaves of the side it takes from. */
  function Refill(m: Pair, s: Tree): Pair {
    if s.Nil? then m.(rank := INF) else Top(s)
  }

  function Shrunk(s: Tree): Tree {
    if s.Nil? then Nil else Pop(s)
  }

  lemma TakeFromSide(taken: multiset<Pair>, side: multiset<Pair>, other: multiset<Pair>)
    ensures taken <= (taken + side) + other && taken <= other + (taken + side)
    ensures side + other == ((taken + side) + other) - taken
    ensures other + side == (other + (taken + side)) - taken
  {
  }

  lemma {:induction false} SideAfterPop(m: Pair, s: Tree)
    requires SlotOk(m, Elems(s)) && Heap(s)
    ensures SlotOk(Refill(m, s), Elems(Shrunk(s))) && Heap(Shrunk(s))
    ensures Side(Refill(m, s), Shrunk(s)) == Elems(s)
    decreases s, 1
  {
    if s.Node? {
      TopLeast(s);
      PopHeap(s);
    }
  }

  lemma {:induction false} PopHeap(t: Tree)
    requires Heap(t) && t.Node?
    ensures Heap(Pop(t)) && Pop(t).Node?
    ensures One(Top(t)) <= Elems(t)
    ensures Elems(Pop(t)) == Elems(t) - One(Top(t))
    decreases t, 0
  {
    if Less(t.min1, t.min0) {
      SideAfterPop(t.min1, t.son1);
      TakeFromSide(One(t.min1), Elems(t.son1), Side(t.min0, t.son0));
    } else {
      SideAfterPop(t.min0, t.son0);
      TakeFromSide(One(t.min0), Elems(t.son0), Side(t.min1, t.son1));
    }
  }

  /** A pop takes one least element and nothing else; on an empty tree it takes nothing. */
  lemma {:induction false} PopLeast(t: Tree)
    requires Heap(t) && t.Node?
    ensures Heap(Pop(t)) && Pop(t).Node?
    ensures Elems(t) == multiset{} ==> Vacant(Top(t)) && Elems(Pop(t)) == multiset{}
    ensures Elems(t) != multiset{} ==>
              && Top(t).rank < INF
              && Top(t) in Elems(t)
              && AllGeq(Top(t), Elems(t))
              && Elems(Pop(t)) == Elems(t) - multiset{Top(t)}
              && |Elems(Pop(t))| == |Elems(t)| - 1
  {
    TopLeast(t);
    PopHeap(t);
  }

  // ---------- elements by value ----------

  function IsVal(p: Pair, v: int): nat {
    if !Vacant(p) && p.val == v then 1 else 0
  }

  /** How many elements of a tree carry the value `v`. */
  function CountVal(t: Tree, v: int): nat {
    match t
    case Nil => 0
    case Node(m0, m1, _, _, s0, s1) => IsVal(m0, v) + CountVal(s0, v) + IsVal(m1, v) + CountVal(s1, v)
  }

  lemma {:induction false} PushCountVal(t: Tree, p: Pair, v: int)
    requires !Vacant(p)
    ensures CountVal(Push(t, p), v) == CountVal(t, v) + IsVal(p, v)
  {
    match t
    case Nil =>
    case Node(m0, m1, n0, n1, s0, s1) =>
      if Vacant(m0) || Vacant(m1) {
      } else if n0 > n1 {
        PushCountVal(s1, Sinks(m1, p), v);
      } else {
        PushCountVal(s0, Sinks(m0, p), v);
      }
  }

  lemma {:induction false} PopCountVal(t: Tree, v: int)
    requires t.Node?
    ensures CountVal(Pop(t), v) + IsVal(Top(t), v) == CountVal(t, v)
  {
    if Less(t.min1, t.min0) {
      if t.son1.Node? {
        PopCountVal(t.son1, v);
      }
    } else if t.son0.Node? {
      PopCountVal(t.son0, v);
    }
  }

  // ---------- the sentinel rank ----------

  /** An element pushed with the sentinel rank is not held: the slot it took still reads as vacant. */
  lemma SentinelRankIsLost(v: int)
    ensures Elems(Push(FRESH, Pair(INF, v))) == multiset{}
  {
  }

  /** An element whose rank exceeds the sentinel hides behind the vacant slot beside it. */
  lemma RankAboveSentinelHides(v: int)
    ensures var t := Push(FRESH, Pair(INF + 1, v));
            Elems(t) == multiset{Pair(INF + 1, v)} && Vacant(Top(t))
  {
    assert Elems(Nil) == multiset{};
  }

  // ---------- whole runs ----------

  datatype Op = DoPush(v: Pair) | DoPop

  function Apply(t: Tree, op: Op): (r: Tree)
    requires t.Node?
    ensures r.Node?
  {
    match op
    case DoPush(v) => Push(t, v)
    case DoPop => Pop(t)
  }

  function Run(t: Tree, ops: seq<Op>): (r: Tree)
    requires t.Node?
    ensures r.Node?
    decreases |ops|
  {
    if ops == [] then t else Run(Apply(t, ops[0]), ops[1..])
  }

  /** The values returned by the next `n` pops. */
  function Drain(t: Tree, n: nat): (r: seq<Pair>)
    requires t.Node?
    ensures |r| == n
    decreases n
  {
    if n == 0 then [] else [Top(t)] + Drain(Pop(t), n - 1)
  }

  function After(t: Tree, n: nat): (r: Tree)
    requires t.Node?
    ensures r.Node?
    decreases n
  {
    if n == 0 then t else After(Pop(t), n - 1)
  }

  lemma Recombine(x: Pair, out: seq<Pair>, left: multiset<Pair>, all: multiset<Pair>)
    requires x in all && multiset(out) + left == all - multiset{x}
    ensures multiset([x] + out) + left == all
  {
    assert multiset([x] + out) == multiset{x} + multiset(out);
  }

  /** What came out plus what is left is what was held. */
  lemma {:induction false} DrainConserves(t: Tree, n: nat)
    requires Heap(t) && t.Node? && n <= |Elems(t)|
    ensures Heap(After(t, n))
    ensures multiset(Drain(t, n)) + Elems(After(t, n)) == Elems(t)
    decreases n
  {
    hide Elems, Heap, Pop, Top, AllGeq;
    if n > 0 {
      PopLeast(t);
      DrainConserves(Pop(t), n - 1);
      Recombine(Top(t), Drain(Pop(t), n - 1), Elems(After(t, n)), Elems(t));
    }
  }

  lemma PartsGeq(m: Pair, a: multiset<Pair>, b: multiset<Pair>)
    requires AllGeq(m, a + b)
    ensures AllGeq(m, a) && AllGeq(m, b)
  {
    forall e | e in a || e in b ensures Leq(m, e) {
      assert e in a + b;
    }
  }

  /** Draining sorts: whatever came out precedes all that came out later and all that is left. */
  lemma {:induction false} DrainSorted(t: Tree, n: nat, i: nat)
    requires Heap(t) && t.Node? && i < n <= |Elems(t)|
    ensures AllGeq(Drain(t, n)[i], multiset(Drain(t, n)[i..]))
    ensures AllGeq(Drain(t, n)[i], Elems(After(t, n)))
    decreases n
  {
    hide Elems, Heap, Pop, Top, AllGeq;
    PopLeast(t);
    if i == 0 {
      DrainConserves(t, n);
      assert Drain(t, n)[0..] == Drain(t, n);
      PartsGeq(Top(t), multiset(Drain(t, n)), Elems(After(t, n)));
    } else {
      DrainSorted(Pop(t), n - 1, i - 1);
      assert Drain(t, n)[i..] == Drain(Pop(t), n - 1)[i - 1..];
    }
  }
}
