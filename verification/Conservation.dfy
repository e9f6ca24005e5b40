/**
 No packet is lost, duplicated or invented: over any run, for any trace, each packet is
 in exactly one of its flow's queue, its leaf's task list, its leaf tree and the output.
 */
module Conservation {
  import B = BmwTree
  import opened Ring
  import opened RingCounts
  import opened Scheduler
  import opened SchedulerTyped
  import opened SchedulerSafety

  function PairOf(p: Packet): B.Pair {
    B.Pair(p.p0, p.meta)
  }

  // ---------- how often rank and meta `e` of leaf `r` occurs ----------

  function InQueue(q: seq<Packet>, r: nat, e: B.Pair): nat {
    if q == [] then 0 else (if q[0].tree == r && PairOf(q[0]) == e then 1 else 0) + InQueue(q[1..], r, e)
  }

  function InQueues(qs: seq<seq<Packet>>, r: nat, e: B.Pair): nat {
    Sum(seq(|qs|, f requires 0 <= f < |qs| => InQueue(qs[f], r, e)))
  }

  function Carries(t: Task, r: nat, e: B.Pair): nat {
    if t.kind == Push && t.root == r && B.Pair(t.rank, t.val) == e then 1 else 0
  }

  function InList(list: seq<Task>, r: nat, e: B.Pair): nat {
    if list == [] then 0 else Carries(list[0], r, e) + InList(list[1..], r, e)
  }

  function InOut(out: seq<Departure>, r: nat, e: B.Pair): nat {
    if out == [] then 0 else InOut(out[..|out| - 1], r, e) + (if out[|out| - 1] == Departure(r, e) then 1 else 0)
  }

  ghost function Kept(s: State, cfg: Config, r: nat, e: B.Pair): nat
    requires Shape(s, cfg) && r < cfg.m
  {
    InQueues(s.pushQ, r, e) + InList(ListOf(s, cfg, r), r, e) + B.Elems(s.trees[r])[e] + InOut(s.out, r, e)
  }

  // ---------- every step keeps the count ----------

  lemma {:induction false} InListAppend(list: seq<Task>, t: Task, r: nat, e: B.Pair)
    ensures InList(list + [t], r, e) == InList(list, r, e) + Carries(t, r, e)
  {
    if list == [] {
      assert list + [t] == [t] && [t][1..] == [];
    } else {
      assert (list + [t])[1..] == list[1..] + [t];
      InListAppend(list[1..], t, r, e);
    }
  }

  lemma EnqueueKept(s: State, cfg: Config, t: Task, r: nat, e: B.Pair)
    requires Shape(s, cfg) && r < cfg.m
    ensures Kept(Enqueue(s, cfg, t), cfg, r, e) == Kept(s, cfg, r, e) + Carries(t, r, e)
  {
    hide InList, InQueues, InOut, B.Elems;
    InListAppend(ListOf(s, cfg, r), t, r, e);
  }

  lemma TakeFromQueue(qs: seq<seq<Packet>>, f: nat, r: nat, e: B.Pair)
    requires f < |qs| && qs[f] != []
    ensures InQueues(qs, r, e) ==
            InQueues(qs[f := qs[f][1..]], r, e) + (if qs[f][0].tree == r && PairOf(qs[f][0]) == e then 1 else 0)
  {
    var xs := seq(|qs|, g requires 0 <= g < |qs| => InQueue(qs[g], r, e));
    var after := qs[f := qs[f][1..]];
    var ys := seq(|qs|, g requires 0 <= g < |qs| => InQueue(after[g], r, e));
    SumUpdate(xs, f, InQueue(qs[f][1..], r, e));
    assert ys == xs[f := InQueue(qs[f][1..], r, e)];
  }

  lemma EnqueueFlowKept(s: State, cfg: Config, f: nat, r: nat, e: B.Pair)
    requires Shape(s, cfg) && f < |s.pushQ| && 1 <= r < cfg.m
    ensures Kept(EnqueueFlow(s, cfg, f), cfg, r, e) == Kept(s, cfg, r, e)
  {
    if s.pushQ[f] != [] {
      hide InList, InQueues, InOut, B.Elems, Enqueue;
      var p := s.pushQ[f][0];
      var s1 := s.(pushQ := s.pushQ[f := s.pushQ[f][1..]]);
      TakeFromQueue(s.pushQ, f, r, e);
      EnqueueKept(s1, cfg, LeafPush(cfg, p), r, e);
      EnqueueKept(Enqueue(s1, cfg, LeafPush(cfg, p)), cfg, RootPush(cfg, p), r, e);
    }
  }

  lemma TryPopKept(s: State, cfg: Config, r: nat, e: B.Pair)
    requires Shape(s, cfg) && 1 <= r < cfg.m
    ensures Kept(TryPop(s, cfg), cfg, r, e) == Kept(s, cfg, r, e)
  {
    hide InList, InQueues, InOut, B.Elems, Enqueue, CreditFlow;
    var f := CreditFlow(s, cfg);
    if f != -1 {
      EnqueueKept(s.(popQ := s.popQ[f := s.popQ[f] - 1]), cfg, PopOf(cfg, 0), r, e);
    }
  }

  /** Sending a packet moves it from its leaf to the output. */
  lemma LeafExecKept(s: State, cfg: Config, i: nat, r: nat, e: B.Pair)
    requires Shape(s, cfg) && i < N(s) && Executes(s, cfg, i) && s.board.rpu[i].root != 0 && 1 <= r < cfg.m
    requires B.Heap(s.trees[s.board.rpu[i].root]) && B.Elems(s.trees[s.board.rpu[i].root]) != multiset{}
    ensures Kept(ExecAt(s, cfg, i), cfg, r, e) == Kept(s, cfg, r, e)
  {
    hide InList, InQueues, B.Elems, B.Top, B.Pop, B.Heap;
    var q := s.board.rpu[i].root;
    B.PopLeast(s.trees[q]);
    var d := Departure(q, B.Top(s.trees[q]));
    assert (s.out + [d])[..|s.out|] == s.out;
  }

  lemma RootExecKept(s: State, cfg: Config, i: nat, r: nat, e: B.Pair)
    requires Shape(s, cfg) && i < N(s) && Executes(s, cfg, i) && s.board.rpu[i].root == 0 && 1 <= r < cfg.m
    ensures Kept(ExecAt(s, cfg, i), cfg, r, e) == Kept(s, cfg, r, e)
  {
    hide InList, InQueues, InOut, B.Elems, B.Top, B.Pop, Enqueue;
    var top := B.Top(s.trees[0]);
    var s1 := s.(trees := s.trees[0 := B.Pop(s.trees[0])]);
    if 0 <= top.val < cfg.m {
      EnqueueKept(s1, cfg, PopOf(cfg, top.val), r, e);
    }
  }

  lemma HeapAt(s: State, cfg: Config, r: nat)
    requires Typed(s, cfg) && r < cfg.m
    ensures B.Heap(s.trees[r])
  {
  }

  lemma ExecAtKept(s: State, cfg: Config, i: nat, r: nat, e: B.Pair)
    requires Shape(s, cfg) && SafeState(s, cfg, i) && i < N(s) && 1 <= r < cfg.m
    ensures Kept(ExecAt(s, cfg, i), cfg, r, e) == Kept(s, cfg, r, e)
  {
    hide Typed, Safe, Covered, Kept, B.Elems, B.Heap, B.Top, B.Pop, Enqueue;
    if Executes(s, cfg, i) {
      if s.board.rpu[i].root == 0 {
        RootExecKept(s, cfg, i, r, e);
      } else {
        ExecutesOnElement(s, cfg, i);
        HeapAt(s, cfg, s.board.rpu[i].root);
        LeafExecKept(s, cfg, i, r, e);
      }
    }
  }

  lemma DispatchKept(s: State, cfg: Config, i: nat, locked: bool, r: nat, e: B.Pair)
    requires Shape(s, cfg) && Typed(s, cfg) && i < N(s) && 1 <= r < cfg.m
    ensures Kept(Dispatch(s, cfg, i, locked), cfg, r, e) == Kept(s, cfg, r, e)
  {
    hide Typed, InQueues, InOut, B.Elems, B.Push, IssueAt;
    if Issues(s.board, i, locked) {
      HeadOk(s, cfg, i);
      DispatchList(s, cfg, i, locked, r);
      var t := s.board.lists[i][0];
      if t.kind == Push {
        B.PushElems(s.trees[t.root], B.Pair(t.rank, t.val));
      }
    }
  }

  // ---------- whole cycles and runs ----------

  lemma {:induction false} EnqueueFlowsKept(s: State, cfg: Config, f: nat, r: nat, e: B.Pair)
    requires Shape(s, cfg) && f <= |s.pushQ| && 1 <= r < cfg.m
    ensures Kept(EnqueueFlows(s, cfg, f), cfg, r, e) == Kept(s, cfg, r, e)
  {
    hide Kept, EnqueueFlow;
    if f > 0 {
      EnqueueFlowsKept(s, cfg, f - 1, r, e);
      EnqueueFlowKept(EnqueueFlows(s, cfg, f - 1), cfg, f - 1, r, e);
    }
  }

  lemma {:induction false} StatsKept(s: State, cfg: Config, k: nat, r: nat, e: B.Pair)
    requires Shape(s, cfg) && SafeState(s, cfg, 0) && k <= N(s) && 1 <= r < cfg.m
    ensures Kept(Stats(s, cfg, k), cfg, r, e) == Kept(s, cfg, r, e)
  {
    hide Kept, SafeState, ExecAt;
    if k > 0 {
      StatsKept(s, cfg, k - 1, r, e);
      StatsSafe(s, cfg, k - 1);
      ExecAtKept(Stats(s, cfg, k - 1), cfg, k - 1, r, e);
    }
  }

  lemma {:induction false} DispatchAllKept(s: State, cfg: Config, locked: seq<bool>, k: nat, r: nat, e: B.Pair)
    requires Shape(s, cfg) && Typed(s, cfg) && |locked| == N(s) && k <= N(s) && 1 <= r < cfg.m
    ensures Kept(DispatchAll(s, cfg, locked, k), cfg, r, e) == Kept(s, cfg, r, e)
  {
    hide Kept, Typed, Dispatch;
    if k > 0 {
      DispatchAllKept(s, cfg, locked, k - 1, r, e);
      DispatchAllTyped(s, cfg, locked, k - 1);
      DispatchKept(DispatchAll(s, cfg, locked, k - 1), cfg, k - 1, locked[k - 1], r, e);
    }
  }

  lemma SameKept(s: State, t: State, cfg: Config, r: nat, e: B.Pair)
    requires Shape(s, cfg) && Shape(t, cfg) && r < cfg.m
    requires s.pushQ == t.pushQ && s.board.lists == t.board.lists && s.trees == t.trees && s.out == t.out
    ensures Kept(s, cfg, r, e) == Kept(t, cfg, r, e)
  {
  }

  lemma IntakeKept(s: State, cfg: Config, r: nat, e: B.Pair)
    requires Shape(s, cfg) && 1 <= r < cfg.m
    ensures Kept(Intake(s, cfg), cfg, r, e) == Kept(s, cfg, r, e)
  {
    hide Kept, EnqueueFlows, TryPop;
    var a := EnqueueFlows(s, cfg, |s.pushQ|);
    EnqueueFlowsKept(s, cfg, |s.pushQ|, r, e);
    TryPopKept(a, cfg, r, e);
    SameKept(a, a.(cycle := s.cycle + 1), cfg, r, e);
    SameKept(TryPop(a, cfg), TryPop(a, cfg).(cycle := s.cycle + 1), cfg, r, e);
  }

  lemma CycleKept(s: State, cfg: Config, locked: seq<bool>, r: nat, e: B.Pair)
    requires Shape(s, cfg) && SafeState(s, cfg, 0) && |locked| == N(s) && 1 <= r < cfg.m
    ensures Kept(Cycle(s, cfg, locked), cfg, r, e) == Kept(s, cfg, r, e)
  {
    hide Kept, SafeState, Intake, Stats, DispatchAll;
    var s1 := Intake(s, cfg);
    IntakeKept(s, cfg, r, e);
    IntakeSafe(s, cfg);
    var s2 := Stats(s1, cfg, N(s));
    StatsKept(s1, cfg, N(s), r, e);
    StatsSafe(s1, cfg, N(s));
    var s3 := ShiftRing(s2, cfg);
    ShiftRingSafe(s2, cfg);
    SameKept(s2, s3, cfg, r, e);
    SafeIsTyped(s3, cfg, 0);
    DispatchAllKept(s3, cfg, locked, N(s), r, e);
  }

  lemma InitialKept(s: State, cfg: Config, r: nat, e: B.Pair)
    requires Initial(s, cfg) && r < cfg.m
    ensures Kept(s, cfg, r, e) == InQueues(s.pushQ, r, e)
  {
    hide InQueues;
    assert B.Elems(B.FRESH) == multiset{};
    assert s.board.lists[r % N(s)] == [];
  }

  /** In every reachable state each packet of the trace is in exactly one place. */
  lemma {:induction false} RunKept(s: State, cfg: Config, locks: seq<seq<bool>>, r: nat, e: B.Pair)
    requires Initial(s, cfg) && TraceOk(s, cfg) && Sum(s.popQ) <= Waiting(s)
    requires forall t | 0 <= t < |locks| :: |locks[t]| == N(s)
    requires 1 <= r < cfg.m
    ensures Kept(Cycles(s, cfg, locks), cfg, r, e) == InQueues(s.pushQ, r, e)
    decreases |locks|
  {
    if locks == [] {
      InitialKept(s, cfg, r, e);
    } else {
      hide SafeState, Cycle, Initial, TraceOk, Waiting, Kept;
      var last := |locks| - 1;
      RunSafe(s, cfg, locks[..last]);
      RunKept(s, cfg, locks[..last], r, e);
      CycleKept(Cycles(s, cfg, locks[..last]), cfg, locks[last], r, e);
    }
  }
}
