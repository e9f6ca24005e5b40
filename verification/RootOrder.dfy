/**
 What the root tree gets and what it asks for.

 The root holds (p1, leaf) for every packet whose root Push was issued.  Over any run each
 such pair is in one place, and an executing root Pop asks the leaf with the least pair.
 */
module RootOrder {
  import B = BmwTree
  import opened Ring
  import opened RingCounts
  import opened Scheduler
  import opened SchedulerTyped
  import opened SchedulerSafety
  import opened Conservation

  // ---------- what the lists are given ----------

  /** What the heads of the first `k` flows give to list `i`, flow by flow, the leaf's Push before the root's. */
  function Given(qs: seq<seq<Packet>>, l: nat, n: nat, k: nat, i: nat): seq<Task>
    requires k <= |qs| && n > 0
  {
    if k == 0 then []
    else if qs[k - 1] == [] then Given(qs, l, n, k - 1, i)
    else
      var p := qs[k - 1][0];
      Given(qs, l, n, k - 1, i)
      + (if p.tree % n == i then [Task(Push, p.tree, l, p.p0, p.meta)] else [])
      + (if i == 0 then [Task(Push, 0, l, p.p1, p.tree)] else [])
  }

  lemma EnqueueAt(s: State, cfg: Config, t: Task, i: nat)
    requires Shape(s, cfg) && i < N(s)
    ensures Enqueue(s, cfg, t).board.lists[i] == s.board.lists[i] + (if t.root % N(s) == i then [t] else [])
  {
  }

  lemma {:induction false} TakenSoFar(s: State, cfg: Config, k: nat, f: nat)
    requires Shape(s, cfg) && k <= |s.pushQ| && f < |s.pushQ|
    ensures EnqueueFlows(s, cfg, k).pushQ[f] == if f < k && s.pushQ[f] != [] then s.pushQ[f][1..] else s.pushQ[f]
  {
    if k > 0 {
      TakenSoFar(s, cfg, k - 1, f);
      TakenSoFar(s, cfg, k - 1, k - 1);
    }
  }

  /** Every flow gives its head, in the order of the flows, to its leaf's list and to the root's. */
  lemma {:induction false} ListsGiven(s: State, cfg: Config, k: nat, i: nat)
    requires Shape(s, cfg) && k <= |s.pushQ| && i < N(s)
    ensures EnqueueFlows(s, cfg, k).board.lists[i] == s.board.lists[i] + Given(s.pushQ, cfg.l, N(s), k, i)
  {
    hide Enqueue;
    if k > 0 {
      ListsGiven(s, cfg, k - 1, i);
      TakenSoFar(s, cfg, k - 1, k - 1);
      ZeroMod(N(s));
      var a := EnqueueFlows(s, cfg, k - 1);
      if s.pushQ[k - 1] != [] {
        var p := a.pushQ[k - 1][0];
        var a1 := a.(pushQ := a.pushQ[k - 1 := a.pushQ[k - 1][1..]]);
        EnqueueAt(a1, cfg, LeafPush(cfg, p), i);
        EnqueueAt(Enqueue(a1, cfg, LeafPush(cfg, p)), cfg, RootPush(cfg, p), i);
      }
    }
  }

  lemma ZeroMod(n: nat)
    requires n > 0
    ensures 0 % n == 0
  {
  }

  // ---------- how often the pair `e` occurs at the root ----------

  function RootPairOf(p: Packet): B.Pair {
    B.Pair(p.p1, p.tree)
  }

  function QueuedFor(q: seq<Packet>, e: B.Pair): nat {
    if q == [] then 0 else (if RootPairOf(q[0]) == e then 1 else 0) + QueuedFor(q[1..], e)
  }

  function AllQueuedFor(qs: seq<seq<Packet>>, e: B.Pair): nat {
    Sum(seq(|qs|, f requires 0 <= f < |qs| => QueuedFor(qs[f], e)))
  }

  ghost function AtRoot(s: State, cfg: Config, e: B.Pair): nat
    requires Shape(s, cfg)
  {
    AllQueuedFor(s.pushQ, e) + InList(s.board.lists[0], 0, e) + B.Elems(s.trees[0])[e]
  }

  lemma QueueTaken(qs: seq<seq<Packet>>, f: nat, e: B.Pair)
    requires f < |qs| && qs[f] != []
    ensures AllQueuedFor(qs, e) == AllQueuedFor(qs[f := qs[f][1..]], e) + (if RootPairOf(qs[f][0]) == e then 1 else 0)
  {
    var xs := seq(|qs|, g requires 0 <= g < |qs| => QueuedFor(qs[g], e));
    var after := qs[f := qs[f][1..]];
    var ys := seq(|qs|, g requires 0 <= g < |qs| => QueuedFor(after[g], e));
    SumUpdate(xs, f, QueuedFor(qs[f][1..], e));
    assert ys == xs[f := QueuedFor(qs[f][1..], e)];
  }

  lemma EnqueueAtRoot(s: State, cfg: Config, t: Task, e: B.Pair)
    requires Shape(s, cfg)
    ensures AtRoot(Enqueue(s, cfg, t), cfg, e) == AtRoot(s, cfg, e) + Carries(t, 0, e)
  {
    hide InList, AllQueuedFor, B.Elems;
    ZeroMod(N(s));
    InListAppend(s.board.lists[0], t, 0, e);
  }

  lemma EnqueueFlowAtRoot(s: State, cfg: Config, f: nat, e: B.Pair)
    requires Shape(s, cfg) && Typed(s, cfg) && f < |s.pushQ|
    ensures AtRoot(EnqueueFlow(s, cfg, f), cfg, e) == AtRoot(s, cfg, e)
  {
    if s.pushQ[f] != [] {
      assert PacketOk(s.pushQ[f][0], cfg);
      hide InList, AllQueuedFor, B.Elems, Enqueue, Typed;
      var p := s.pushQ[f][0];
      var s1 := s.(pushQ := s.pushQ[f := s.pushQ[f][1..]]);
      QueueTaken(s.pushQ, f, e);
      EnqueueAtRoot(s1, cfg, LeafPush(cfg, p), e);
      EnqueueAtRoot(Enqueue(s1, cfg, LeafPush(cfg, p)), cfg, RootPush(cfg, p), e);
    }
  }

  lemma {:induction false} EnqueueFlowsAtRoot(s: State, cfg: Config, k: nat, e: B.Pair)
    requires Shape(s, cfg) && Typed(s, cfg) && k <= |s.pushQ|
    ensures AtRoot(EnqueueFlows(s, cfg, k), cfg, e) == AtRoot(s, cfg, e)
  {
    hide AtRoot, Typed, EnqueueFlow;
    if k > 0 {
      EnqueueFlowsAtRoot(s, cfg, k - 1, e);
      EnqueueFlowsTyped(s, cfg, k - 1);
      EnqueueFlowAtRoot(EnqueueFlows(s, cfg, k - 1), cfg, k - 1, e);
    }
  }

  lemma IntakeAtRoot(s: State, cfg: Config, e: B.Pair)
    requires Shape(s, cfg) && Typed(s, cfg)
    ensures AtRoot(Intake(s, cfg), cfg, e) == AtRoot(s, cfg, e)
  {
    hide EnqueueFlows, CreditFlow, Typed, InList, AllQueuedFor, B.Elems, Enqueue;
    EnqueueFlowsAtRoot(s, cfg, |s.pushQ|, e);
    var a := EnqueueFlows(s, cfg, |s.pushQ|);
    var f := CreditFlow(a, cfg);
    if f != -1 {
      EnqueueAtRoot(a.(popQ := a.popQ[f := a.popQ[f] - 1]), cfg, PopOf(cfg, 0), e);
    }
  }

  // ---------- what the root answers ----------

  /** What the root Pop that executes in a cycle takes, the intake being done. */
  function Answer(s: State, cfg: Config): seq<B.Pair>
    requires Shape(s, cfg)
  {
    var c := s.board.rpu[0];
    if c.kind == Pop && c.ttl == cfg.l && c.root == 0 then [B.Top(s.trees[0])] else []
  }

  function Occurs(ps: seq<B.Pair>, e: B.Pair): nat {
    if ps == [] then 0 else Occurs(ps[..|ps| - 1], e) + (if ps[|ps| - 1] == e then 1 else 0)
  }

  lemma OccursAppend(ps: seq<B.Pair>, p: B.Pair, e: B.Pair)
    ensures Occurs(ps + [p], e) == Occurs(ps, e) + (if p == e then 1 else 0)
    ensures Occurs(ps + [], e) == Occurs(ps, e)
  {
    assert (ps + [p])[..|ps|] == ps && ps + [] == ps;
  }

  lemma ExecAtRoot(s: State, cfg: Config, i: nat, e: B.Pair)
    requires Shape(s, cfg) && SafeState(s, cfg, i) && i < N(s)
    ensures AtRoot(s, cfg, e) == AtRoot(ExecAt(s, cfg, i), cfg, e) + (if i == 0 then Occurs(Answer(s, cfg), e) else 0)
  {
    hide SafeState, InList, AllQueuedFor, B.Elems, B.Top, B.Pop, B.Heap, Enqueue;
    SafeIsTyped(s, cfg, i);
    OccursAppend([], B.Top(s.trees[0]), e);
    assert [] + [B.Top(s.trees[0])] == [B.Top(s.trees[0])];
    if Executes(s, cfg, i) {
      ExecutesAtHome(s, cfg, i);
      ExecutesOnElement(s, cfg, i);
      ZeroMod(N(s));
      var q := s.board.rpu[i].root;
      if q == 0 {
        HeapAt(s, cfg, 0);
        B.PopLeast(s.trees[0]);
        EnqueueAtRoot(s.(trees := s.trees[0 := B.Pop(s.trees[0])]), cfg, PopOf(cfg, B.Top(s.trees[0]).val), e);
      }
    } else if i == 0 {
      RootInRange(s, cfg);
    }
  }

  lemma RootInRange(s: State, cfg: Config)
    requires Shape(s, cfg) && Typed(s, cfg) && !Executes(s, cfg, 0)
    ensures Answer(s, cfg) == []
  {
  }

  lemma {:induction false} StatsAtRoot(s: State, cfg: Config, k: nat, e: B.Pair)
    requires Shape(s, cfg) && SafeState(s, cfg, 0) && k <= N(s)
    ensures AtRoot(s, cfg, e) == AtRoot(Stats(s, cfg, k), cfg, e) + (if k > 0 then Occurs(Answer(s, cfg), e) else 0)
  {
    hide SafeState, AtRoot, ExecAt, Occurs, Answer;
    if k > 0 {
      StatsAtRoot(s, cfg, k - 1, e);
      StatsSafe(s, cfg, k - 1);
      ExecAtRoot(Stats(s, cfg, k - 1), cfg, k - 1, e);
    }
  }

  lemma DispatchAtRoot(s: State, cfg: Config, i: nat, locked: bool, e: B.Pair)
    requires Shape(s, cfg) && Typed(s, cfg) && i < N(s)
    ensures AtRoot(Dispatch(s, cfg, i, locked), cfg, e) == AtRoot(s, cfg, e)
  {
    if Issues(s.board, i, locked) {
      var t := s.board.lists[i][0];
      HeadOk(s, cfg, i);
      hide Typed, AllQueuedFor, B.Elems, B.Push, B.Heap;
      ZeroMod(N(s));
      if t.kind == Push {
        B.PushElems(s.trees[t.root], B.Pair(t.rank, t.val));
      }
    }
  }

  lemma {:induction false} DispatchAllAtRoot(s: State, cfg: Config, locked: seq<bool>, k: nat, e: B.Pair)
    requires Shape(s, cfg) && Typed(s, cfg) && |locked| == N(s) && k <= N(s)
    ensures AtRoot(DispatchAll(s, cfg, locked, k), cfg, e) == AtRoot(s, cfg, e)
  {
    hide Typed, AtRoot, Dispatch;
    if k > 0 {
      DispatchAllAtRoot(s, cfg, locked, k - 1, e);
      DispatchAllTyped(s, cfg, locked, k - 1);
      DispatchAtRoot(DispatchAll(s, cfg, locked, k - 1), cfg, k - 1, locked[k - 1], e);
    }
  }

  lemma ShiftAtRoot(s: State, cfg: Config, e: B.Pair)
    requires Shape(s, cfg)
    ensures AtRoot(ShiftRing(s, cfg), cfg, e) == AtRoot(s, cfg, e)
  {
  }

  lemma CycleAtRoot(s: State, cfg: Config, locked: seq<bool>, e: B.Pair)
    requires Shape(s, cfg) && SafeState(s, cfg, 0) && |locked| == N(s)
    ensures AtRoot(s, cfg, e) == AtRoot(Cycle(s, cfg, locked), cfg, e) + Occurs(Answer(Intake(s, cfg), cfg), e)
  {
    hide SafeState, AtRoot, Intake, Stats, ShiftRing, DispatchAll, Occurs, Answer, Typed;
    var s1 := Intake(s, cfg);
    SafeIsTyped(s, cfg, 0);
    IntakeAtRoot(s, cfg, e);
    IntakeSafe(s, cfg);
    StatsAtRoot(s1, cfg, N(s), e);
    StatsSafe(s1, cfg, N(s));
    var s2 := Stats(s1, cfg, N(s));
    ShiftAtRoot(s2, cfg, e);
    ShiftRingSafe(s2, cfg);
    SafeIsTyped(ShiftRing(s2, cfg), cfg, 0);
    DispatchAllAtRoot(ShiftRing(s2, cfg), cfg, locked, N(s), e);
  }

  /** What the root Pops of a run took, in order. */
  function Answers(s: State, cfg: Config, locks: seq<seq<bool>>): seq<B.Pair>
    requires Shape(s, cfg) && forall t | 0 <= t < |locks| :: |locks[t]| == N(s)
    decreases |locks|
  {
    if locks == [] then []
    else
      var last := |locks| - 1;
      Answers(s, cfg, locks[..last]) + Answer(Intake(Cycles(s, cfg, locks[..last]), cfg), cfg)
  }

  lemma OccursJoin(ps: seq<B.Pair>, a: seq<B.Pair>, e: B.Pair)
    requires |a| <= 1
    ensures Occurs(ps + a, e) == Occurs(ps, e) + Occurs(a, e)
  {
    if |a| == 1 {
      OccursAppend(ps, a[0], e);
      OccursAppend([], a[0], e);
      assert a == [a[0]] && [] + [a[0]] == [a[0]];
    } else {
      assert ps + a == ps;
    }
  }

  /**
   In every reachable state each packet's (p1, leaf) is in exactly one of its flow's queue, the
   root's Pushes, the root tree and what root Pops have taken.
   */
  lemma {:induction false} RootKept(s: State, cfg: Config, locks: seq<seq<bool>>, e: B.Pair)
    requires Initial(s, cfg) && TraceOk(s, cfg) && Sum(s.popQ) <= Waiting(s)
    requires forall t | 0 <= t < |locks| :: |locks[t]| == N(s)
    ensures AtRoot(Cycles(s, cfg, locks), cfg, e) + Occurs(Answers(s, cfg, locks), e) == AllQueuedFor(s.pushQ, e)
    decreases |locks|
  {
    if locks == [] {
      assert B.Elems(B.FRESH) == multiset{} by { assert B.Elems(B.Nil) == multiset{}; }
    } else {
      var last := |locks| - 1;
      RootKept(s, cfg, locks[..last], e);
      RunSafe(s, cfg, locks[..last]);
      hide SafeState, AtRoot, Intake, Cycle, Occurs, TraceOk, Sum, Waiting, AllQueuedFor;
      CycleAtRoot(Cycles(s, cfg, locks[..last]), cfg, locks[last], e);
      OccursJoin(Answers(s, cfg, locks[..last]), Answer(Intake(Cycles(s, cfg, locks[..last]), cfg), cfg), e);
    }
  }

  /**
   A root Pop that executes takes the least (p1, leaf) of the root tree, and a Pop of just that
   leaf joins the leaf's list.
   */
  lemma RootAsksLeast(s: State, cfg: Config, x: B.Pair)
    requires Shape(s, cfg) && SafeState(s, cfg, 0) && Answer(Intake(s, cfg), cfg) == [x]
    ensures var now := Intake(s, cfg);
            && x in B.Elems(now.trees[0]) && B.AllGeq(x, B.Elems(now.trees[0]))
            && 1 <= x.val < cfg.m
            && B.Elems(ExecAt(now, cfg, 0).trees[0]) == B.Elems(now.trees[0]) - multiset{x}
            && ExecAt(now, cfg, 0).board.lists ==
               now.board.lists[x.val % N(s) := now.board.lists[x.val % N(s)] + [Task(Pop, x.val, cfg.l, 0, 0)]]
  {
    hide SafeState, Intake, B.Elems, B.Top, B.Pop, B.Heap, B.AllGeq;
    var now := Intake(s, cfg);
    IntakeSafe(s, cfg);
    ExecutesOnElement(now, cfg, 0);
    SafeIsTyped(now, cfg, 0);
    HeapAt(now, cfg, 0);
    B.PopLeast(now.trees[0]);
  }
}
