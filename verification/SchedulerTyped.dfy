/**
 What kind of thing every part of the scheduler's state holds, in every reachable state.
 */
module SchedulerTyped {
  import B = BmwTree
  import opened Ring
  import opened Scheduler

  predicate TaskOk(t: Task, cfg: Config) {
    && t.root < cfg.m && t.ttl == cfg.l
    && (t.kind == Push || t.kind == Pop)
    && (t.kind == Push ==> t.rank < B.INF && (t.root == 0 ==> 1 <= t.val < cfg.m))
  }

  ghost predicate ListsTyped(s: State, cfg: Config) {
    forall i, k | 0 <= i < |s.board.lists| && 0 <= k < |s.board.lists[i]| :: TaskOk(s.board.lists[i][k], cfg)
  }

  ghost predicate CellsTyped(s: State, cfg: Config) {
    forall i | 0 <= i < N(s) :: Active(s.board.rpu[i]) ==> s.board.rpu[i].root < cfg.m
  }

  /** Elements of the root tree name leaves. */
  ghost predicate RootNames(t: B.Tree, m: nat) {
    forall v :: B.CountVal(t, v) > 0 ==> 1 <= v < m
  }

  ghost predicate TreesTyped(s: State, cfg: Config)
    requires Shape(s, cfg)
  {
    (forall r | 0 <= r < cfg.m :: B.Heap(s.trees[r])) && RootNames(s.trees[0], cfg.m)
  }

  ghost predicate Typed(s: State, cfg: Config) {
    && Shape(s, cfg)
    && RingOk(s.board.rpu, cfg.l) && ListsOk(s.board.lists, cfg.l)
    && ListsTyped(s, cfg) && CellsTyped(s, cfg) && TreesTyped(s, cfg) && TraceOk(s, cfg)
  }

  lemma EnqueueTyped(s: State, cfg: Config, t: Task)
    requires Typed(s, cfg) && TaskOk(t, cfg)
    ensures Typed(Enqueue(s, cfg, t), cfg)
  {
    hide RingOk, TreesTyped;
    var i := t.root % N(s);
    var r := Enqueue(s, cfg, t);
    forall j, k | 0 <= j < |r.board.lists| && 0 <= k < |r.board.lists[j]|
      ensures TaskOk(r.board.lists[j][k], cfg) && ListTaskOk(r.board.lists[j][k], j, cfg.l, N(s))
    {
      if j == i && k == |s.board.lists[i]| {
        assert r.board.lists[j][k] == t;
      } else {
        assert r.board.lists[j][k] == s.board.lists[j][k];
      }
    }
    SameTrees(s, r, cfg);
  }

  lemma TakePacketTyped(s: State, cfg: Config, f: nat)
    requires Typed(s, cfg) && f < |s.pushQ| && s.pushQ[f] != []
    ensures Typed(s.(pushQ := s.pushQ[f := s.pushQ[f][1..]]), cfg)
    ensures PacketOk(s.pushQ[f][0], cfg)
  {
    hide RingOk, ListsOk, ListsTyped, CellsTyped, TreesTyped;
    var r := s.(pushQ := s.pushQ[f := s.pushQ[f][1..]]);
    assert ListsTyped(r, cfg) by { SameBoard(s, r, cfg); }
    assert CellsTyped(r, cfg) by { SameBoard(s, r, cfg); }
    assert TreesTyped(r, cfg) by { SameBoard(s, r, cfg); }
  }

  lemma SameBoard(s: State, r: State, cfg: Config)
    requires Shape(s, cfg) && Shape(r, cfg) && r.board == s.board && r.trees == s.trees
    ensures ListsTyped(s, cfg) ==> ListsTyped(r, cfg)
    ensures CellsTyped(s, cfg) ==> CellsTyped(r, cfg)
    ensures TreesTyped(s, cfg) ==> TreesTyped(r, cfg)
  {
  }

  lemma EnqueueFlowTyped(s: State, cfg: Config, f: nat)
    requires Shape(s, cfg) && Typed(s, cfg) && f < |s.pushQ|
    ensures Typed(EnqueueFlow(s, cfg, f), cfg)
  {
    hide Typed, Enqueue;
    if s.pushQ[f] != [] {
      TakePacketTyped(s, cfg, f);
      var p := s.pushQ[f][0];
      var s1 := s.(pushQ := s.pushQ[f := s.pushQ[f][1..]]);
      EnqueueTyped(s1, cfg, LeafPush(cfg, p));
      EnqueueTyped(Enqueue(s1, cfg, LeafPush(cfg, p)), cfg, RootPush(cfg, p));
    }
  }

  lemma TryPopTyped(s: State, cfg: Config)
    requires Typed(s, cfg)
    ensures Typed(TryPop(s, cfg), cfg)
  {
    hide RingOk, ListsOk, ListsTyped, CellsTyped, TreesTyped, CreditFlow, Enqueue;
    var f := CreditFlow(s, cfg);
    if f != -1 {
      var r := s.(popQ := s.popQ[f := s.popQ[f] - 1]);
      SameBoard(s, r, cfg);
      EnqueueTyped(r, cfg, PopOf(cfg, 0));
    }
  }

  lemma PoppedTreeTyped(s: State, cfg: Config, r: nat)
    requires Typed(s, cfg) && r < cfg.m
    ensures Typed(s.(trees := s.trees[r := B.Pop(s.trees[r])]), cfg)
  {
    hide RingOk, ListsOk, ListsTyped, CellsTyped, B.Pop, B.Heap, B.CountVal, B.Top;
    B.PopLeast(s.trees[r]);
    forall v ensures B.CountVal(B.Pop(s.trees[r]), v) <= B.CountVal(s.trees[r], v) {
      B.PopCountVal(s.trees[r], v);
    }
    var after := s.(trees := s.trees[r := B.Pop(s.trees[r])]);
    SameLists(s, after, cfg);
  }

  lemma SameLists(s: State, r: State, cfg: Config)
    requires r.board == s.board
    ensures ListsTyped(s, cfg) ==> ListsTyped(r, cfg)
    ensures CellsTyped(s, cfg) ==> CellsTyped(r, cfg)
  {
  }

  lemma ExecAtTyped(s: State, cfg: Config, i: nat)
    requires Typed(s, cfg) && i < N(s)
    ensures Typed(ExecAt(s, cfg, i), cfg)
  {
    hide Enqueue, RingOk, ListsOk, ListsTyped, CellsTyped, B.Top, B.Pop;
    if Executes(s, cfg, i) {
      var r := s.board.rpu[i].root;
      var top := B.Top(s.trees[r]);
      PoppedTreeTyped(s, cfg, r);
      var s1 := s.(trees := s.trees[r := B.Pop(s.trees[r])]);
      if r == 0 {
        if 0 <= top.val < cfg.m {
          EnqueueTyped(s1, cfg, PopOf(cfg, top.val));
        }
      } else {
        SameBoard(s1, s1.(out := s.out + [Departure(r, top)]), cfg);
      }
    }
  }

  lemma ShiftRingTyped(s: State, cfg: Config)
    requires Typed(s, cfg)
    ensures Typed(ShiftRing(s, cfg), cfg)
  {
    ShiftOk(s.board.rpu, cfg.l);
    var r := ShiftRing(s, cfg);
    assert CellsTyped(r, cfg) by {
      forall i | 0 <= i < N(s) && Active(r.board.rpu[i]) ensures r.board.rpu[i].root < cfg.m {
        ShiftedCell(s.board.rpu, cfg.l, i);
      }
    }
    hide RingOk, ListsOk, TreesTyped, CellsTyped;
    assert TreesTyped(r, cfg) by { SameTrees(s, r, cfg); }
  }

  lemma SameTrees(s: State, r: State, cfg: Config)
    requires Shape(s, cfg) && Shape(r, cfg) && r.trees == s.trees
    ensures TreesTyped(s, cfg) ==> TreesTyped(r, cfg)
  {
  }

  lemma PushedTreeTyped(s: State, cfg: Config, r: nat, p: B.Pair)
    requires Shape(s, cfg) && TreesTyped(s, cfg) && r < cfg.m && p.rank < B.INF
    requires r == 0 ==> 1 <= p.val < cfg.m
    ensures B.Heap(B.Push(s.trees[r], p))
    ensures r == 0 ==> RootNames(B.Push(s.trees[0], p), cfg.m)
  {
    hide B.Push, B.Heap, B.CountVal;
    B.PushHeap(s.trees[r], p);
    forall v ensures B.CountVal(B.Push(s.trees[r], p), v) == B.CountVal(s.trees[r], v) + B.IsVal(p, v) {
      B.PushCountVal(s.trees[r], p, v);
    }
  }

  lemma IssuedTyped(s: State, cfg: Config, i: nat, locked: bool)
    requires Shape(s, cfg) && i < N(s) && ListsTyped(s, cfg) && CellsTyped(s, cfg) && Issues(s.board, i, locked)
    ensures ListsTyped(Dispatch(s, cfg, i, locked), cfg) && CellsTyped(Dispatch(s, cfg, i, locked), cfg)
  {
    hide B.Push;
    var r := Dispatch(s, cfg, i, locked);
    assert TaskOk(s.board.lists[i][0], cfg);
    forall j, k | 0 <= j < |r.board.lists| && 0 <= k < |r.board.lists[j]|
      ensures TaskOk(r.board.lists[j][k], cfg)
    {
      if j == i {
        assert r.board.lists[j][k] == s.board.lists[j][k + 1];
      } else {
        assert r.board.lists[j][k] == s.board.lists[j][k];
      }
    }
  }

  lemma HeadOk(s: State, cfg: Config, i: nat)
    requires Typed(s, cfg) && i < N(s) && s.board.lists[i] != []
    ensures TaskOk(s.board.lists[i][0], cfg) && ListTaskOk(s.board.lists[i][0], i, cfg.l, N(s))
  {
  }

  lemma DispatchTyped(s: State, cfg: Config, i: nat, locked: bool)
    requires Typed(s, cfg) && i < N(s)
    ensures Typed(Dispatch(s, cfg, i, locked), cfg)
  {
    hide RingOk, ListsOk, ListsTyped, CellsTyped, IssueAt, B.Push, B.Heap;
    if Issues(s.board, i, locked) {
      var t := s.board.lists[i][0];
      HeadOk(s, cfg, i);
      IssueAtOk(s.board, cfg.l, i, locked);
      IssuedTyped(s, cfg, i, locked);
      if t.kind == Push {
        PushedTreeTyped(s, cfg, t.root, B.Pair(t.rank, t.val));
      }
    }
  }

  // ---------- whole cycles ----------

  lemma {:induction false} EnqueueFlowsTyped(s: State, cfg: Config, k: nat)
    requires Shape(s, cfg) && Typed(s, cfg) && k <= |s.pushQ|
    ensures Typed(EnqueueFlows(s, cfg, k), cfg)
  {
    hide Typed, EnqueueFlow;
    if k > 0 {
      EnqueueFlowsTyped(s, cfg, k - 1);
      EnqueueFlowTyped(EnqueueFlows(s, cfg, k - 1), cfg, k - 1);
    }
  }

  lemma {:induction false} StatsTyped(s: State, cfg: Config, k: nat)
    requires Shape(s, cfg) && Typed(s, cfg) && k <= N(s)
    ensures Typed(Stats(s, cfg, k), cfg)
  {
    hide Typed, ExecAt;
    if k > 0 {
      StatsTyped(s, cfg, k - 1);
      ExecAtTyped(Stats(s, cfg, k - 1), cfg, k - 1);
    }
  }

  lemma {:induction false} DispatchAllTyped(s: State, cfg: Config, locked: seq<bool>, k: nat)
    requires Shape(s, cfg) && Typed(s, cfg) && |locked| == N(s) && k <= N(s)
    ensures Typed(DispatchAll(s, cfg, locked, k), cfg)
  {
    hide Typed, Dispatch;
    if k > 0 {
      DispatchAllTyped(s, cfg, locked, k - 1);
      DispatchTyped(DispatchAll(s, cfg, locked, k - 1), cfg, k - 1, locked[k - 1]);
    }
  }

  lemma ClockTyped(s: State, cfg: Config, c: nat)
    requires Shape(s, cfg) && Typed(s, cfg)
    ensures Typed(s.(cycle := c), cfg)
  {
    hide RingOk, ListsOk, ListsTyped, CellsTyped, TreesTyped;
    SameBoard(s, s.(cycle := c), cfg);
  }

  lemma IntakeTyped(s: State, cfg: Config)
    requires Shape(s, cfg) && Typed(s, cfg)
    ensures Typed(Intake(s, cfg), cfg)
  {
    hide Typed, EnqueueFlows, TryPop;
    var a := EnqueueFlows(s, cfg, |s.pushQ|);
    EnqueueFlowsTyped(s, cfg, |s.pushQ|);
    TryPopTyped(a, cfg);
    ClockTyped(a, cfg, s.cycle + 1);
    ClockTyped(TryPop(a, cfg), cfg, s.cycle + 1);
  }

  lemma InitialTyped(s: State, cfg: Config)
    requires Initial(s, cfg) && TraceOk(s, cfg)
    ensures Typed(s, cfg)
  {
  }

  lemma CycleTyped(s: State, cfg: Config, locked: seq<bool>)
    requires Shape(s, cfg) && Typed(s, cfg) && |locked| == N(s)
    ensures Typed(Cycle(s, cfg, locked), cfg)
  {
    hide Typed, Intake, Stats, ShiftRing, DispatchAll;
    IntakeTyped(s, cfg);
    var s1 := Intake(s, cfg);
    StatsTyped(s1, cfg, N(s));
    ShiftRingTyped(Stats(s1, cfg, N(s)), cfg);
    DispatchAllTyped(ShiftRing(Stats(s1, cfg, N(s)), cfg), cfg, locked, N(s));
  }

  lemma {:induction false} RunTyped(s: State, cfg: Config, locks: seq<seq<bool>>)
    requires Initial(s, cfg) && TraceOk(s, cfg)
    requires forall t | 0 <= t < |locks| :: |locks[t]| == N(s)
    ensures Typed(Cycles(s, cfg, locks), cfg)
    decreases |locks|
  {
    hide Typed, Cycle, TraceOk;
    if locks == [] {
      InitialTyped(s, cfg);
    } else {
      var last := |locks| - 1;
      RunTyped(s, cfg, locks[..last]);
      CycleTyped(Cycles(s, cfg, locks[..last]), cfg, locks[last]);
    }
  }
}
