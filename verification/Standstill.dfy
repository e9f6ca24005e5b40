/**
 When the scheduler waits for good.

 A credit is looked for under the flow of the current top packet.  When nothing is under way
 and that flow has none, nothing ever changes again, even if other flows still have credits.
 */
module Standstill {
  import B = BmwTree
  import opened Ring
  import opened RingCounts
  import opened Scheduler
  import opened SchedulerTyped
  import opened SchedulerSafety
  import opened CreditUse

  /** Nothing is in the ring, in the task lists or in the queues of packets. */
  ghost predicate AtRest(s: State) {
    && (forall i | 0 <= i < |s.board.rpu| :: s.board.rpu[i].kind == Empty && s.board.rpu[i].ttl == 0)
    && (forall i | 0 <= i < |s.board.lists| :: s.board.lists[i] == [])
    && (forall f | 0 <= f < |s.pushQ| :: s.pushQ[f] == [])
  }

  lemma {:induction false} NothingToEnqueue(s: State, cfg: Config, k: nat)
    requires Shape(s, cfg) && AtRest(s) && k <= |s.pushQ|
    ensures EnqueueFlows(s, cfg, k) == s
  {
    if k > 0 {
      NothingToEnqueue(s, cfg, k - 1);
    }
  }

  lemma {:induction false} NothingExecutes(s: State, cfg: Config, k: nat)
    requires Shape(s, cfg) && AtRest(s) && k <= N(s)
    ensures Stats(s, cfg, k) == s
  {
    if k > 0 {
      NothingExecutes(s, cfg, k - 1);
    }
  }

  lemma {:induction false} NothingIssues(s: State, cfg: Config, locked: seq<bool>, k: nat)
    requires Shape(s, cfg) && AtRest(s) && |locked| == N(s) && k <= N(s)
    ensures DispatchAll(s, cfg, locked, k) == s
  {
    if k > 0 {
      NothingIssues(s, cfg, locked, k - 1);
    }
  }

  lemma NothingMoves(s: State, cfg: Config)
    requires Shape(s, cfg) && AtRest(s)
    ensures ShiftRing(s, cfg) == s
  {
    assert Shift(s.board.rpu) == s.board.rpu;
  }

  lemma {:induction false} StatsKeepCredits(s: State, cfg: Config, k: nat)
    requires Shape(s, cfg) && k <= N(s)
    ensures Stats(s, cfg, k).popQ == s.popQ
  {
    hide ExecAt;
    if k > 0 {
      StatsKeepCredits(s, cfg, k - 1);
      ExecAtQueues(Stats(s, cfg, k - 1), cfg, k - 1);
    }
  }

  lemma DispatchKeepsCredits(s: State, cfg: Config, i: nat, locked: bool)
    requires Shape(s, cfg) && i < N(s)
    ensures Dispatch(s, cfg, i, locked).popQ == s.popQ
  {
    hide B.Push, IssueAt;
  }

  lemma {:induction false} DispatchAllKeepsCredits(s: State, cfg: Config, locked: seq<bool>, k: nat)
    requires Shape(s, cfg) && |locked| == N(s) && k <= N(s)
    ensures DispatchAll(s, cfg, locked, k).popQ == s.popQ
  {
    hide Dispatch;
    if k > 0 {
      DispatchAllKeepsCredits(s, cfg, locked, k - 1);
      DispatchKeepsCredits(DispatchAll(s, cfg, locked, k - 1), cfg, k - 1, locked[k - 1]);
    }
  }

  lemma CycleKeepsCredits(s: State, cfg: Config, locked: seq<bool>)
    requires Shape(s, cfg) && |locked| == N(s)
    ensures Cycle(s, cfg, locked).popQ == Intake(s, cfg).popQ
  {
    hide Intake, Stats, DispatchAll;
    var s1 := Intake(s, cfg);
    StatsKeepCredits(s1, cfg, N(s));
    DispatchAllKeepsCredits(ShiftRing(Stats(s1, cfg, N(s)), cfg), cfg, locked, N(s));
  }

  lemma IdleSteps(s: State, cfg: Config, locked: seq<bool>)
    requires Shape(s, cfg) && AtRest(s) && |locked| == N(s)
    ensures Cycle(s, cfg, locked) == s.(cycle := s.cycle + 1) <==> s.cycle <= WARM_UP || TryPop(s, cfg).popQ == s.popQ
  {
    hide Stats, DispatchAll, EnqueueFlows, CreditFlow, Enqueue, ShiftRing;
    NothingToEnqueue(s, cfg, |s.pushQ|);
    CycleKeepsCredits(s, cfg, locked);
    if CreditFlow(s, cfg) != -1 {
      SpendsOne(s, cfg);
    } else {
      var t := s.(cycle := s.cycle + 1);
      NothingExecutes(t, cfg, N(s));
      NothingMoves(t, cfg);
      NothingIssues(t, cfg, locked, N(s));
    }
    if s.cycle <= WARM_UP {
      var t := s.(cycle := s.cycle + 1);
      NothingExecutes(t, cfg, N(s));
      NothingMoves(t, cfg);
      NothingIssues(t, cfg, locked, N(s));
    }
  }

  /**
   At rest a cycle changes nothing but the clock if and only if it is one of the first fifty, or
   the packet that would go next is of a flow without credit, or there is no such packet.
   */
  lemma IdleCycle(s: State, cfg: Config, locked: seq<bool>)
    requires Shape(s, cfg) && Typed(s, cfg) && AtRest(s) && |locked| == N(s)
    ensures Cycle(s, cfg, locked) == s.(cycle := s.cycle + 1) <==> s.cycle <= 50 || !HasCredit(s, cfg)
  {
    hide Typed, AtRest, Cycle, TryPop, HasCredit;
    IdleSteps(s, cfg, locked);
    TryPopSpends(s, cfg);
  }

  lemma SameCredit(s: State, cfg: Config, c: nat)
    requires Shape(s, cfg) && Typed(s, cfg)
    ensures Shape(s.(cycle := c), cfg) && Typed(s.(cycle := c), cfg)
    ensures HasCredit(s.(cycle := c), cfg) <==> HasCredit(s, cfg)
    ensures AtRest(s) ==> AtRest(s.(cycle := c))
  {
    ClockTyped(s, cfg, c);
    hide Typed;
    assert forall e, p :: Affords(s.(cycle := c), cfg, e, p) <==> Affords(s, cfg, e, p);
  }

  /** Without such a credit nothing but the clock ever changes again, under any locks. */
  lemma {:induction false} WaitsForGood(s: State, cfg: Config, locks: seq<seq<bool>>)
    requires Shape(s, cfg) && Typed(s, cfg) && AtRest(s) && !HasCredit(s, cfg)
    requires forall t | 0 <= t < |locks| :: |locks[t]| == N(s)
    ensures Cycles(s, cfg, locks) == s.(cycle := s.cycle + |locks|)
    decreases |locks|
  {
    hide AtRest, HasCredit, Cycle, Typed;
    if locks != [] {
      var last := |locks| - 1;
      WaitsForGood(s, cfg, locks[..last]);
      SameCredit(s, cfg, s.cycle + last);
      IdleCycle(s.(cycle := s.cycle + last), cfg, locks[last]);
    }
  }

  /** One packet, of flow 1, is held, and the one credit is flow 0's. */
  lemma CreditOfAnotherFlow()
    ensures var cfg := Config(2, 2, map[7 := 1]);
            var idle := Task(Empty, 0, 0, 0, 0);
            var s := State(Board([idle, idle], [[], []]), [B.Push(B.FRESH, B.Pair(0, 1)), B.Push(B.FRESH, B.Pair(3, 7))],
                           [[], []], [1, 0], WARM_UP + 1, []);
            && Shape(s, cfg) && Typed(s, cfg) && AtRest(s) && !HasCredit(s, cfg)
            && Sum(s.popQ) == 1 && B.Elems(s.trees[1]) == multiset{B.Pair(3, 7)}
  {
    assert B.Elems(B.Nil) == multiset{};
    assert [1, 0][1..] == [0] && [0][1..] == [];
    assert Sum([0]) == 0;
    var cfg := Config(2, 2, map[7 := 1]);
    var idle := Task(Empty, 0, 0, 0, 0);
    var s := State(Board([idle, idle], [[], []]), [B.Push(B.FRESH, B.Pair(0, 1)), B.Push(B.FRESH, B.Pair(3, 7))],
                   [[], []], [1, 0], WARM_UP + 1, []);
    assert CreditFlow(s, cfg) == -1;
    ExampleTyped(s, cfg);
    hide Typed;
    NoneAfforded(s, cfg);
  }

  lemma ExampleTyped(s: State, cfg: Config)
    requires cfg == Config(2, 2, map[7 := 1])
    requires var idle := Task(Empty, 0, 0, 0, 0);
             s == State(Board([idle, idle], [[], []]), [B.Push(B.FRESH, B.Pair(0, 1)), B.Push(B.FRESH, B.Pair(3, 7))],
                        [[], []], [1, 0], WARM_UP + 1, [])
    ensures Typed(s, cfg)
  {
    assert TreesTyped(s, cfg) by { ExampleTrees(s, cfg); }
    hide TreesTyped, B.Push;
  }

  lemma ExampleTrees(s: State, cfg: Config)
    requires Shape(s, cfg) && cfg.m == 2
    requires s.trees == [B.Push(B.FRESH, B.Pair(0, 1)), B.Push(B.FRESH, B.Pair(3, 7))]
    ensures TreesTyped(s, cfg)
  {
    assert B.Heap(B.FRESH) by { assert B.Elems(B.Nil) == multiset{}; }
    hide B.Push, B.Heap;
    B.PushHeap(B.FRESH, B.Pair(0, 1));
    B.PushHeap(B.FRESH, B.Pair(3, 7));
    forall v ensures B.CountVal(s.trees[0], v) > 0 ==> 1 <= v < cfg.m {
      B.PushCountVal(B.FRESH, B.Pair(0, 1), v);
    }
  }

  lemma NoneAfforded(s: State, cfg: Config)
    requires Typed(s, cfg) && Shape(s, cfg) && CreditFlow(s, cfg) == -1
    ensures !HasCredit(s, cfg)
  {
    hide Typed, CreditFlow, Affords;
    forall e, p | Affords(s, cfg, e, p) ensures false {
      AffordedIsCredit(s, cfg, e, p);
    }
  }
}
