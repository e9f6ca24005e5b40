/**
 The scheduler as the source runs it: arrays, queues and trees updated in place, one
 cycle after another.  Each method does to the state exactly what the state machine says.
 */
module Machine {
  import B = BmwTree
  import Forests = Forest
  import P = Pipeline
  import RR = RingRuns
  import X = Execution
  import opened Ring
  import opened RingCounts
  import opened Scheduler
  import opened SchedulerTyped
  import opened SchedulerSafety

  class Machine {
    const cfg: Config
    const n: nat
    const rpu: array<Task>
    const forest: Forests.Forest
    var lists: seq<seq<Task>>
    var pushQ: seq<seq<Packet>>
    var popQ: seq<nat>
    var cycle: nat
    var out: seq<Departure>

    ghost predicate Valid()
      reads this, rpu, forest
    {
      && forest.Valid() && forest.m == cfg.m >= 1
      && rpu.Length == n == |lists| >= 2
      && |pushQ| == |popQ| > 0 && InRange(cfg.flowOf, |popQ|)
      && cfg.l >= 2
    }

    ghost function St(): (s: State)
      requires Valid()
      reads this, rpu, forest
      ensures Shape(s, cfg) && N(s) == n
    {
      State(Board(rpu[..], lists), forest.Trees(), pushQ, popQ, cycle, out)
    }

    /** The machine once the whole trace was read. */
    constructor (cfg: Config, n: nat, packets: seq<seq<Packet>>, credits: seq<nat>)
      requires cfg.l >= 2 && cfg.m >= 1 && n >= 2 && |packets| == |credits| > 0 && InRange(cfg.flowOf, |credits|)
      ensures Valid() && this.cfg == cfg && this.n == n && fresh(rpu) && fresh(forest)
      ensures Initial(St(), cfg) && pushQ == packets && popQ == credits && cycle == 1
    {
      this.cfg := cfg;
      this.n := n;
      rpu := new Task[n](_ => Task(Empty, 0, 0, 0, 0));
      forest := new Forests.Forest(cfg.m);
      lists := seq(n, _ => []);
      pushQ := packets;
      popQ := credits;
      cycle := 1;
      out := [];
    }

    method PushTask(t: Task)
      requires Valid()
      modifies this`lists
      ensures Valid() && St() == Enqueue(old(St()), cfg, t)
    {
      var i := t.root % n;
      lists := lists[i := lists[i] + [t]];
    }

    method TryPushPushTask()
      requires Valid()
      modifies this`lists, this`pushQ
      ensures Valid() && St() == EnqueueFlows(old(St()), cfg, |old(pushQ)|)
    {
      ghost var start := St();
      var f := 0;
      while f < |pushQ|
        invariant 0 <= f <= |pushQ| == |old(pushQ)| && Valid()
        invariant St() == EnqueueFlows(start, cfg, f)
      {
        if pushQ[f] != [] {
          var p := pushQ[f][0];
          pushQ := pushQ[f := pushQ[f][1..]];
          PushTask(LeafPush(cfg, p));
          PushTask(RootPush(cfg, p));
        }
        f := f + 1;
      }
    }

    method TryPushPopTask()
      requires Valid() && Typed(St(), cfg)
      modifies this`lists, this`popQ
      ensures Valid() && St() == TryPop(old(St()), cfg)
    {
      hide B.Heap, B.Elems, B.CountVal;
      var top := forest.TopTree(0);
      if !B.Vacant(top) {
        RootNamesLeaf(St(), cfg);
        var pkt := forest.TopTree(top.val);
        if !B.Vacant(pkt) {
          var f := FlowOf(cfg, pkt.val);
          if popQ[f] > 0 {
            popQ := popQ[f := popQ[f] - 1];
            PushTask(PopOf(cfg, 0));
          }
        }
      }
    }

    /** Every Pop in the first cycle after its issue takes its tree's top. */
    method Statistics()
      requires Valid() && SafeState(St(), cfg, 0)
      modifies this`lists, this`out, forest
      ensures Valid() && St() == Stats(old(St()), cfg, n)
    {
      hide SafeState, ExecAt;
      ghost var start := St();
      var i := 0;
      while i < n
        invariant 0 <= i <= n && Valid()
        invariant St() == Stats(start, cfg, i)
      {
        StatsSafe(start, cfg, i);
        if rpu[i].ttl == cfg.l && rpu[i].kind == Pop {
          ExecuteAt(i);
        } else {
          IdleCell(St(), cfg, i);
        }
        i := i + 1;
      }
    }

    method ExecuteAt(i: nat)
      requires Valid() && i < n && SafeState(St(), cfg, i)
      requires rpu[i].ttl == cfg.l && rpu[i].kind == Pop
      modifies this`lists, this`out, forest
      ensures Valid() && St() == ExecAt(old(St()), cfg, i)
    {
      hide SafeState, B.Top, B.Pop;
      CellInRange(St(), cfg, i);
      ExecutesOnElement(St(), cfg, i);
      var r := rpu[i].root;
      var pa := forest.PopTree(r);
      if r == 0 {
        PushTask(PopOf(cfg, pa.val));
      } else {
        out := out + [Departure(r, pa)];
      }
    }

    /** Each free cell takes the head of its list; a Push goes into its tree at once. */
    method SendTasks(locked: seq<bool>)
      requires Valid() && |locked| == n && Typed(St(), cfg)
      modifies this`lists, rpu, forest
      ensures Valid() && St() == DispatchAll(old(St()), cfg, locked, n)
    {
      hide Typed, Dispatch;
      ghost var start := St();
      var i := 0;
      while i < n
        invariant 0 <= i <= n && Valid()
        invariant St() == DispatchAll(start, cfg, locked, i)
      {
        DispatchAllTyped(start, cfg, locked, i);
        SendTask(i, locked[i]);
        i := i + 1;
      }
    }

    method SendTask(i: nat, locked: bool)
      requires Valid() && i < n && Typed(St(), cfg)
      modifies this`lists, rpu, forest
      ensures Valid() && St() == Dispatch(old(St()), cfg, i, locked)
    {
      hide Typed, B.Push;
      if rpu[i].kind == Empty && !locked {
        if lists[i] != [] {
          HeadOk(St(), cfg, i);
          var t := lists[i][0];
          if t.kind == Push {
            rpu[i] := t;
            forest.PushTree(t.root, B.Pair(t.rank, t.val));
            lists := lists[i := lists[i][1..]];
          } else {
            var j := (i - 1 + n) % n;
            P.PredMod(i, n);
            if rpu[j].ttl <= 1 {
              rpu[i] := t;
              lists := lists[i := lists[i][1..]];
              if rpu[j].kind == Empty {
                rpu[j] := rpu[j].(kind := Locked);
              }
              rpu[j] := rpu[j].(ttl := 1);
            }
          }
        }
      }
    }

    /** One cycle of the main loop keeps the state safe and is one cycle of the state machine. */
    method RunCycle(locked: seq<bool>)
      requires Valid() && |locked| == n && SafeState(St(), cfg, 0)
      modifies this`lists, this`pushQ, this`popQ, this`cycle, this`out, rpu, forest
      ensures Valid() && SafeState(St(), cfg, 0)
      ensures St() == Cycle(old(St()), cfg, locked)
    {
      hide SafeState, EnqueueFlows, TryPop, Stats, Shift, DispatchAll, Total, Waiting;
      ghost var start := St();
      CycleSafe(start, cfg, locked);
      FilledEnough(start, cfg);
      IntakeSafe(start, cfg);
      TryPushPushTask();
      if cycle > WARM_UP {
        SafeIsTyped(St(), cfg, 0);
        TryPushPopTask();
      }
      cycle := cycle + 1;
      assert St() == Intake(start, cfg);
      StatsSafe(St(), cfg, n);
      Statistics();
      ShiftRingSafe(St(), cfg);
      ShiftInPlace(rpu);
      SafeIsTyped(St(), cfg, 0);
      SendTasks(locked);
    }

    /** Any number of cycles, under any locks. */
    method RunCycles(locks: seq<seq<bool>>)
      requires Valid() && SafeState(St(), cfg, 0) && forall t | 0 <= t < |locks| :: |locks[t]| == n
      modifies this`lists, this`pushQ, this`popQ, this`cycle, this`out, rpu, forest
      ensures Valid() && SafeState(St(), cfg, 0)
      ensures St() == Cycles(old(St()), cfg, locks)
    {
      hide SafeState, Cycle;
      ghost var start := St();
      var t := 0;
      while t < |locks|
        invariant 0 <= t <= |locks| && Valid() && SafeState(St(), cfg, 0)
        invariant St() == Cycles(start, cfg, locks[..t])
      {
        RunCycle(locks[t]);
        assert locks[..t + 1][..t] == locks[..t];
        t := t + 1;
      }
      assert locks[..|locks|] == locks;
    }
  }

  /** The ring of the scheduler makes exactly the step that the ring makes on its own, fed with the lists of the moment. */
  lemma {:induction false} DispatchAllRing(s: State, cfg: Config, locked: seq<bool>, k: nat)
    requires Shape(s, cfg) && |locked| == N(s) && k <= N(s)
    ensures DispatchAll(s, cfg, locked, k).board == Send(s.board, locked, k)
  {
    hide B.Push;
    if k > 0 {
      DispatchAllRing(s, cfg, locked, k - 1);
    }
  }

  lemma {:induction false} EnqueueFlowsKeepRing(s: State, cfg: Config, k: nat)
    requires Shape(s, cfg) && k <= |s.pushQ|
    ensures EnqueueFlows(s, cfg, k).board.rpu == s.board.rpu
  {
    if k > 0 {
      EnqueueFlowsKeepRing(s, cfg, k - 1);
    }
  }

  lemma CycleIsRingStep(s: State, cfg: Config, locked: seq<bool>)
    requires Shape(s, cfg) && |locked| == N(s)
    ensures Cycle(s, cfg, locked).board.rpu ==
            RR.Next(s.board.rpu, Stats(Intake(s, cfg), cfg, N(s)).board.lists, locked)
  {
    hide Stats, DispatchAll, EnqueueFlows, CreditFlow, Send, Shift;
    EnqueueFlowsKeepRing(s, cfg, |s.pushQ|);
    X.StatsRing(Intake(s, cfg), cfg, N(s));
    var s2 := ShiftRing(Stats(Intake(s, cfg), cfg, N(s)), cfg);
    DispatchAllRing(s2, cfg, locked, N(s));
  }

  lemma RootNamesLeaf(s: State, cfg: Config)
    requires Typed(s, cfg) && !B.Vacant(B.Top(s.trees[0]))
    ensures 1 <= B.Top(s.trees[0]).val < cfg.m
  {
    B.PopCountVal(s.trees[0], B.Top(s.trees[0]).val);
  }

  lemma IdleCell(s: State, cfg: Config, i: nat)
    requires Shape(s, cfg) && i < N(s)
    requires s.board.rpu[i].ttl != cfg.l || s.board.rpu[i].kind != Pop
    ensures ExecAt(s, cfg, i) == s
  {
  }

  lemma CellInRange(s: State, cfg: Config, i: nat)
    requires SafeState(s, cfg, i) && i < N(s) && s.board.rpu[i].kind == Pop
    ensures s.board.rpu[i].root < cfg.m
  {
  }
}
