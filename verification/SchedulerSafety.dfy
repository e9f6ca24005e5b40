/**
 No Pop ever executes on an empty tree.

 For each tree count what it holds, less a Pop that is issued and has not executed, and
 read the tree's task list from the front: Pushes add one, Pops take one.  The count
 never goes below zero anywhere along the list.  For a leaf the count at the end of the
 list equals the number of times the root names that leaf, in the root tree or in root
 Pushes still waiting, so a root Pop that returns the leaf can afford a leaf Pop.
 */
module SchedulerSafety {
  import B = BmwTree
  import opened Ring
  import opened RingCounts
  import opened Scheduler
  import opened SchedulerTyped

  // ---------- counting along a list ----------

  function Delta(t: Task, r: nat): int {
    if t.root != r then 0 else if t.kind == Push then 1 else -1
  }

  function Net(list: seq<Task>, r: nat): int {
    if list == [] then 0 else Delta(list[0], r) + Net(list[1..], r)
  }

  /** From `base` the count never goes below zero along the list. */
  predicate Bal(base: int, list: seq<Task>, r: nat)
    decreases list
  {
    base >= 0 && (list != [] ==> Bal(base + Delta(list[0], r), list[1..], r))
  }

  /** A root Push that names leaf `v`. */
  function Names(t: Task, v: int): nat {
    if t.kind == Push && t.root == 0 && t.val == v then 1 else 0
  }

  function Naming(list: seq<Task>, v: int): nat {
    if list == [] then 0 else Names(list[0], v) + Naming(list[1..], v)
  }

  lemma {:induction false} NetAppend(list: seq<Task>, t: Task, r: nat)
    ensures Net(list + [t], r) == Net(list, r) + Delta(t, r)
  {
    if list == [] {
      assert list + [t] == [t] && [t][1..] == [];
    } else {
      assert (list + [t])[1..] == list[1..] + [t];
      NetAppend(list[1..], t, r);
    }
  }

  lemma {:induction false} NamingAppend(list: seq<Task>, t: Task, v: int)
    ensures Naming(list + [t], v) == Naming(list, v) + Names(t, v)
  {
    if list == [] {
      assert list + [t] == [t] && [t][1..] == [];
    } else {
      assert (list + [t])[1..] == list[1..] + [t];
      NamingAppend(list[1..], t, v);
    }
  }

  /** Appending a task keeps the count above zero exactly when the end of the list can afford it. */
  lemma {:induction false} BalAppend(base: int, list: seq<Task>, t: Task, r: nat)
    ensures Bal(base, list + [t], r) <==> Bal(base, list, r) && base + Net(list, r) + Delta(t, r) >= 0
    decreases list
  {
    if list == [] {
      assert list + [t] == [t] && [t][1..] == [];
    } else {
      assert (list + [t])[1..] == list[1..] + [t] && (list + [t])[0] == list[0];
      BalAppend(base + Delta(list[0], r), list[1..], t, r);
    }
  }

  lemma {:induction false} BalEnd(base: int, list: seq<Task>, r: nat)
    requires Bal(base, list, r)
    ensures base + Net(list, r) >= 0
    decreases list
  {
    if list != [] {
      BalEnd(base + Delta(list[0], r), list[1..], r);
    }
  }

  lemma HeadStep(base: int, list: seq<Task>, r: nat, v: int)
    requires list != []
    ensures Net(list, r) == Delta(list[0], r) + Net(list[1..], r)
    ensures Naming(list, v) == Names(list[0], v) + Naming(list[1..], v)
    ensures Bal(base, list, r) ==> Bal(base + Delta(list[0], r), list[1..], r)
  {
  }

  // ---------- the counts of a state ----------

  ghost function Held(s: State, r: nat): nat
    requires r < |s.trees|
  {
    |B.Elems(s.trees[r])|
  }

  /** A Pop of tree `r` is issued and has not executed, the first `k` cells having executed in this cycle. */
  function InFlight(s: State, cfg: Config, k: nat, r: nat): nat
    requires Shape(s, cfg)
  {
    var c := s.board.rpu[r % N(s)];
    if r % N(s) >= k && c.kind == Pop && c.ttl == cfg.l && c.root == r then 1 else 0
  }

  function ListOf(s: State, cfg: Config, r: nat): seq<Task>
    requires Shape(s, cfg)
  {
    s.board.lists[r % N(s)]
  }

  ghost function Base(s: State, cfg: Config, k: nat, r: nat): int
    requires Shape(s, cfg) && r < cfg.m
  {
    Held(s, r) - InFlight(s, cfg, k, r)
  }

  ghost function Total(s: State, cfg: Config, k: nat, r: nat): int
    requires Shape(s, cfg) && r < cfg.m
  {
    Base(s, cfg, k, r) + Net(ListOf(s, cfg, r), r)
  }

  /** How often the root names leaf `r`. */
  function Named(s: State, cfg: Config, r: nat): nat
    requires Shape(s, cfg)
  {
    B.CountVal(s.trees[0], r) + Naming(s.board.lists[0], r)
  }

  ghost predicate TreeSafe(s: State, cfg: Config, k: nat, r: nat)
    requires Shape(s, cfg) && r < cfg.m
  {
    && Bal(Base(s, cfg, k, r), ListOf(s, cfg, r), r)
    && (r >= 1 ==> Total(s, cfg, k, r) == Named(s, cfg, r))
  }

  ghost predicate Safe(s: State, cfg: Config, k: nat)
    requires Shape(s, cfg)
  {
    forall r | 0 <= r < cfg.m :: TreeSafe(s, cfg, k, r)
  }

  function Lens(q: seq<seq<Packet>>): (xs: seq<nat>)
    ensures |xs| == |q| && forall f | 0 <= f < |q| :: xs[f] == |q[f]|
  {
    seq(|q|, f requires 0 <= f < |q| => |q[f]|)
  }

  /** The packets that have not been given to the lists yet. */
  function Waiting(s: State): nat {
    Sum(Lens(s.pushQ))
  }

  /** There are at least as many packets, queued or already in the root's account, as credits for Pops. */
  ghost predicate Covered(s: State, cfg: Config, k: nat)
    requires Shape(s, cfg)
  {
    Total(s, cfg, k, 0) + Waiting(s) >= Sum(s.popQ)
  }

  ghost predicate SafeState(s: State, cfg: Config, k: nat) {
    Typed(s, cfg) && Safe(s, cfg, k) && Covered(s, cfg, k)
  }

  lemma SafeIsTyped(s: State, cfg: Config, k: nat)
    requires SafeState(s, cfg, k)
    ensures Typed(s, cfg)
  {
  }

  // ---------- adding a task to a list ----------

  lemma EnqueueCounts(s: State, cfg: Config, t: Task, k: nat, r: nat)
    requires Shape(s, cfg) && r < cfg.m
    ensures var e := Enqueue(s, cfg, t);
            && Base(e, cfg, k, r) == Base(s, cfg, k, r)
            && Total(e, cfg, k, r) == Total(s, cfg, k, r) + Delta(t, r)
            && Named(e, cfg, r) == Named(s, cfg, r) + Names(t, r)
            && (Bal(Base(s, cfg, k, r), ListOf(s, cfg, r), r) && Total(s, cfg, k, r) + Delta(t, r) >= 0 ==>
                  Bal(Base(e, cfg, k, r), ListOf(e, cfg, r), r))
  {
    hide Net, Naming, Bal, B.CountVal, B.Elems;
    var list := ListOf(s, cfg, r);
    NetAppend(list, t, r);
    BalAppend(Base(s, cfg, k, r), list, t, r);
    NamingAppend(s.board.lists[0], t, r);
    if Bal(Base(s, cfg, k, r), list, r) {
      BalEnd(Base(s, cfg, k, r), list, r);
    }
    ModUnique(0, 0, 0, N(s));
  }

  lemma EnqueueFlowTree(s: State, cfg: Config, k: nat, f: nat, r: nat)
    requires Shape(s, cfg) && f < |s.pushQ| && s.pushQ[f] != [] && PacketOk(s.pushQ[f][0], cfg)
    requires r < cfg.m && TreeSafe(s, cfg, k, r)
    ensures TreeSafe(EnqueueFlow(s, cfg, f), cfg, k, r)
    ensures r == 0 ==> Total(EnqueueFlow(s, cfg, f), cfg, k, 0) == Total(s, cfg, k, 0) + 1
  {
    hide Enqueue, Bal, Total, Base, Named;
    var p := s.pushQ[f][0];
    var s1 := s.(pushQ := s.pushQ[f := s.pushQ[f][1..]]);
    SameCounts(s, s1, cfg, k, r);
    EndSafe(s, cfg, k, r);
    EnqueueCounts(s1, cfg, LeafPush(cfg, p), k, r);
    EnqueueCounts(Enqueue(s1, cfg, LeafPush(cfg, p)), cfg, RootPush(cfg, p), k, r);
  }

  lemma EnqueueFlowWaiting(s: State, cfg: Config, f: nat)
    requires Shape(s, cfg) && f < |s.pushQ| && s.pushQ[f] != []
    ensures Waiting(EnqueueFlow(s, cfg, f)) == Waiting(s) - 1
    ensures EnqueueFlow(s, cfg, f).popQ == s.popQ
  {
    SumUpdate(Lens(s.pushQ), f, |s.pushQ[f]| - 1);
    assert Lens(s.pushQ[f := s.pushQ[f][1..]]) == Lens(s.pushQ)[f := |s.pushQ[f]| - 1];
  }

  /** Giving a packet to its leaf's list and to the root's list keeps every count safe. */
  lemma EnqueueFlowSafe(s: State, cfg: Config, k: nat, f: nat)
    requires Shape(s, cfg) && SafeState(s, cfg, k) && f < |s.pushQ|
    ensures SafeState(EnqueueFlow(s, cfg, f), cfg, k)
    ensures s.pushQ[f] != [] ==>
              Total(EnqueueFlow(s, cfg, f), cfg, k, 0) == Total(s, cfg, k, 0) + 1
    ensures s.pushQ[f] == [] ==> EnqueueFlow(s, cfg, f) == s
  {
    if s.pushQ[f] != [] {
      assert PacketOk(s.pushQ[f][0], cfg);
      hide Typed, TreeSafe, EnqueueFlow, Total, Waiting;
      EnqueueFlowTyped(s, cfg, f);
      forall r | 0 <= r < cfg.m ensures TreeSafe(EnqueueFlow(s, cfg, f), cfg, k, r) {
        EnqueueFlowTree(s, cfg, k, f, r);
      }
      EnqueueFlowTree(s, cfg, k, f, 0);
      EnqueueFlowWaiting(s, cfg, f);
    }
  }

  lemma EndSafe(s: State, cfg: Config, k: nat, r: nat)
    requires Shape(s, cfg) && r < cfg.m && Bal(Base(s, cfg, k, r), ListOf(s, cfg, r), r)
    ensures Total(s, cfg, k, r) >= 0
  {
    BalEnd(Base(s, cfg, k, r), ListOf(s, cfg, r), r);
  }

  lemma SameCounts(s: State, t: State, cfg: Config, k: nat, r: nat)
    requires Shape(s, cfg) && Shape(t, cfg) && s.board == t.board && s.trees == t.trees && r < cfg.m
    ensures Base(s, cfg, k, r) == Base(t, cfg, k, r) && Total(s, cfg, k, r) == Total(t, cfg, k, r)
    ensures Named(s, cfg, r) == Named(t, cfg, r) && ListOf(s, cfg, r) == ListOf(t, cfg, r)
    ensures TreeSafe(s, cfg, k, r) <==> TreeSafe(t, cfg, k, r)
  {
  }

  lemma {:induction false} EnqueueFlowsSafe(s: State, cfg: Config, k: nat, f: nat)
    requires Shape(s, cfg) && SafeState(s, cfg, k) && f <= |s.pushQ|
    ensures SafeState(EnqueueFlows(s, cfg, f), cfg, k)
    ensures Total(EnqueueFlows(s, cfg, f), cfg, k, 0) >= Total(s, cfg, k, 0)
    ensures Total(EnqueueFlows(s, cfg, f), cfg, k, 0) > Total(s, cfg, k, 0) ||
            (EnqueueFlows(s, cfg, f) == s && forall g | 0 <= g < f :: s.pushQ[g] == [])
  {
    hide SafeState, EnqueueFlow, Total;
    if f > 0 {
      EnqueueFlowsSafe(s, cfg, k, f - 1);
      EnqueueFlowSafe(EnqueueFlows(s, cfg, f - 1), cfg, k, f - 1);
    }
  }

  lemma CreditSpent(s: State, cfg: Config)
    requires Shape(s, cfg) && CreditFlow(s, cfg) != -1
    ensures var f := CreditFlow(s, cfg);
            Sum(s.popQ) >= 1 && Sum(s.popQ[f := s.popQ[f] - 1]) == Sum(s.popQ) - 1
  {
    var f := CreditFlow(s, cfg);
    SumUpdate(s.popQ, f, s.popQ[f] - 1);
    SumSplit(s.popQ, f);
  }

  /** A Pop that the root can afford goes to the end of the root's list. */
  lemma RootPopTree(s: State, cfg: Config, k: nat, r: nat)
    requires Shape(s, cfg) && r < cfg.m && TreeSafe(s, cfg, k, r) && (r == 0 ==> Total(s, cfg, k, 0) >= 1)
    ensures TreeSafe(Enqueue(s, cfg, PopOf(cfg, 0)), cfg, k, r)
    ensures Total(Enqueue(s, cfg, PopOf(cfg, 0)), cfg, k, r) == Total(s, cfg, k, r) - (if r == 0 then 1 else 0)
  {
    hide Enqueue, Bal, Total, Base, Named;
    EndSafe(s, cfg, k, r);
    EnqueueCounts(s, cfg, PopOf(cfg, 0), k, r);
  }

  /** After the intake of packets a Pop credit is only ever spent when the root can afford a Pop. */
  lemma TryPopSafe(s: State, cfg: Config, k: nat)
    requires Shape(s, cfg) && SafeState(s, cfg, k) && (Total(s, cfg, k, 0) >= 1 || Waiting(s) == 0)
    ensures SafeState(TryPop(s, cfg), cfg, k)
  {
    hide Typed, TreeSafe, Sum, Total, CreditFlow;
    var f := CreditFlow(s, cfg);
    TryPopTyped(s, cfg);
    if f != -1 {
      CreditSpent(s, cfg);
      var s1 := s.(popQ := s.popQ[f := s.popQ[f] - 1]);
      forall r | 0 <= r < cfg.m
        ensures TreeSafe(TryPop(s, cfg), cfg, k, r)
        ensures Total(TryPop(s, cfg), cfg, k, r) == Total(s, cfg, k, r) - (if r == 0 then 1 else 0)
      {
        SameCounts(s, s1, cfg, k, r);
        RootPopTree(s1, cfg, k, r);
      }
    }
  }

  // ---------- executing a Pop ----------

  /** A Pop that executes sits at its tree's own RPU. */
  lemma ExecutesAtHome(s: State, cfg: Config, i: nat)
    requires Typed(s, cfg) && i < N(s) && Executes(s, cfg, i)
    ensures s.board.rpu[i].root % N(s) == i
  {
    assert CellOk(s.board.rpu[i], i, cfg.l, N(s));
  }

  /**
   Where the state machine compares before it indexes, the comparison holds: the root tree
   names leaf trees, the flow of any packet has a credit count, and the tasks in the ring and
   in the lists are of trees that exist.
   */
  lemma BoundsHold(s: State, cfg: Config, k: nat)
    requires SafeState(s, cfg, k) && s.popQ != [] && InRange(cfg.flowOf, |s.popQ|)
    ensures !B.Vacant(B.Top(s.trees[0])) ==> 1 <= B.Top(s.trees[0]).val < cfg.m
    ensures forall meta :: FlowOf(cfg, meta) < |s.popQ|
    ensures forall i | 0 <= i < N(s) && Active(s.board.rpu[i]) :: s.board.rpu[i].root < cfg.m
    ensures forall i | 0 <= i < N(s) && s.board.lists[i] != [] :: s.board.lists[i][0].root < cfg.m
  {
    B.PopCountVal(s.trees[0], B.Top(s.trees[0]).val);
    forall i | 0 <= i < N(s) && s.board.lists[i] != [] ensures s.board.lists[i][0].root < cfg.m {
      assert TaskOk(s.board.lists[i][0], cfg);
    }
  }

  /** The tree a Pop executes on is not empty, so what it returns is an element of the tree. */
  lemma ExecutesOnElement(s: State, cfg: Config, i: nat)
    requires Shape(s, cfg) && SafeState(s, cfg, i) && i < N(s) && Executes(s, cfg, i)
    ensures B.Elems(s.trees[s.board.rpu[i].root]) != multiset{}
    ensures !B.Vacant(B.Top(s.trees[s.board.rpu[i].root]))
    ensures s.board.rpu[i].root == 0 ==> 1 <= B.Top(s.trees[0]).val < cfg.m
  {
    var r := s.board.rpu[i].root;
    ExecutesAtHome(s, cfg, i);
    assert TreeSafe(s, cfg, i, r);
    assert InFlight(s, cfg, i, r) == 1;
    assert Held(s, r) >= 1;
    hide B.Elems, B.CountVal, B.Top, B.Heap;
    B.TopLeast(s.trees[r]);
    if r == 0 {
      var v := B.Top(s.trees[0]).val;
      B.PopCountVal(s.trees[0], v);
      assert B.CountVal(s.trees[0], v) > 0;
    }
  }

  lemma PoppedCounts(s: State, cfg: Config, i: nat, r: nat)
    requires Shape(s, cfg) && Typed(s, cfg) && i < N(s) && Executes(s, cfg, i) && r < cfg.m
    requires B.Elems(s.trees[s.board.rpu[i].root]) != multiset{}
    ensures var q := s.board.rpu[i].root;
            var s1 := s.(trees := s.trees[q := B.Pop(s.trees[q])]);
            && Base(s1, cfg, i + 1, r) == Base(s, cfg, i, r)
            && Total(s1, cfg, i + 1, r) == Total(s, cfg, i, r)
            && ListOf(s1, cfg, r) == ListOf(s, cfg, r)
            && Named(s1, cfg, r) == Named(s, cfg, r) - (if q == 0 then B.IsVal(B.Top(s.trees[0]), r) else 0)
  {
    hide B.Elems, B.CountVal, B.Top, B.Pop, B.Heap, Net, Naming, RingOk, ListsOk, ListsTyped, CellsTyped, TraceOk;
    var q := s.board.rpu[i].root;
    ExecutesAtHome(s, cfg, i);
    B.PopLeast(s.trees[q]);
    B.PopCountVal(s.trees[0], r);
  }

  lemma IdleCounts(s: State, cfg: Config, i: nat, r: nat)
    requires Shape(s, cfg) && Typed(s, cfg) && i < N(s) && !Executes(s, cfg, i) && r < cfg.m
    ensures Base(s, cfg, i + 1, r) == Base(s, cfg, i, r)
    ensures Total(s, cfg, i + 1, r) == Total(s, cfg, i, r)
  {
  }

  lemma ExecIdleTree(s: State, cfg: Config, i: nat, r: nat)
    requires Shape(s, cfg) && Typed(s, cfg) && i < N(s) && r < cfg.m && TreeSafe(s, cfg, i, r)
    requires !Executes(s, cfg, i)
    ensures TreeSafe(s, cfg, i + 1, r) && Total(s, cfg, i + 1, r) == Total(s, cfg, i, r)
  {
    hide Bal, Typed, InFlight, Net, Named;
    IdleCounts(s, cfg, i, r);
  }

  lemma ExecRootTree(s: State, cfg: Config, i: nat, r: nat)
    requires Shape(s, cfg) && Typed(s, cfg) && i < N(s) && r < cfg.m && TreeSafe(s, cfg, i, r)
    requires Executes(s, cfg, i) && s.board.rpu[i].root == 0 && B.Elems(s.trees[0]) != multiset{}
    requires !B.Vacant(B.Top(s.trees[0])) && 1 <= B.Top(s.trees[0]).val < cfg.m
    ensures TreeSafe(ExecAt(s, cfg, i), cfg, i + 1, r)
    ensures r == 0 ==> Total(ExecAt(s, cfg, i), cfg, i + 1, 0) == Total(s, cfg, i, 0)
  {
    hide Typed, Bal, Enqueue, Base, Total, Named, B.Top, B.Pop, B.Elems;
    var v := B.Top(s.trees[0]).val;
    var s1 := s.(trees := s.trees[0 := B.Pop(s.trees[0])]);
    EndSafe(s, cfg, i, r);
    PoppedCounts(s, cfg, i, r);
    EnqueueCounts(s1, cfg, PopOf(cfg, v), i + 1, r);
  }

  lemma ExecLeafTree(s: State, cfg: Config, i: nat, r: nat)
    requires Shape(s, cfg) && Typed(s, cfg) && i < N(s) && r < cfg.m && TreeSafe(s, cfg, i, r)
    requires Executes(s, cfg, i) && s.board.rpu[i].root != 0
    requires B.Elems(s.trees[s.board.rpu[i].root]) != multiset{}
    ensures TreeSafe(ExecAt(s, cfg, i), cfg, i + 1, r)
    ensures Total(ExecAt(s, cfg, i), cfg, i + 1, r) == Total(s, cfg, i, r)
  {
    hide Typed, Bal, Enqueue, Base, Total, Named, B.Top, B.Pop, B.Elems;
    var q := s.board.rpu[i].root;
    PoppedCounts(s, cfg, i, r);
    SameCounts(s.(trees := s.trees[q := B.Pop(s.trees[q])]), ExecAt(s, cfg, i), cfg, i + 1, r);
  }

  lemma ExecAtTree(s: State, cfg: Config, i: nat, r: nat)
    requires Shape(s, cfg) && SafeState(s, cfg, i) && i < N(s) && r < cfg.m
    ensures TreeSafe(ExecAt(s, cfg, i), cfg, i + 1, r)
    ensures r == 0 ==> Total(ExecAt(s, cfg, i), cfg, i + 1, 0) == Total(s, cfg, i, 0)
  {
    hide Typed, TreeSafe, Total, B.Elems, B.Top, B.Pop, Enqueue;
    assert TreeSafe(s, cfg, i, r);
    if !Executes(s, cfg, i) {
      ExecIdleTree(s, cfg, i, r);
    } else {
      ExecutesOnElement(s, cfg, i);
      if s.board.rpu[i].root == 0 {
        ExecRootTree(s, cfg, i, r);
      } else {
        ExecLeafTree(s, cfg, i, r);
      }
    }
  }

  lemma ExecAtQueues(s: State, cfg: Config, i: nat)
    requires Shape(s, cfg) && i < N(s)
    ensures ExecAt(s, cfg, i).pushQ == s.pushQ && ExecAt(s, cfg, i).popQ == s.popQ
  {
  }

  lemma ExecAtSafe(s: State, cfg: Config, i: nat)
    requires Shape(s, cfg) && SafeState(s, cfg, i) && i < N(s)
    ensures SafeState(ExecAt(s, cfg, i), cfg, i + 1)
  {
    hide Typed, TreeSafe, Total, ExecAt;
    ExecAtTyped(s, cfg, i);
    ExecAtQueues(s, cfg, i);
    var next := i + 1;
    forall r | 0 <= r < cfg.m ensures TreeSafe(ExecAt(s, cfg, i), cfg, next, r) {
      ExecAtTree(s, cfg, i, r);
    }
    ExecAtTree(s, cfg, i, 0);
  }

  lemma {:induction false} StatsSafe(s: State, cfg: Config, k: nat)
    requires Shape(s, cfg) && SafeState(s, cfg, 0) && k <= N(s)
    ensures SafeState(Stats(s, cfg, k), cfg, k)
  {
    hide SafeState, ExecAt;
    if k > 0 {
      StatsSafe(s, cfg, k - 1);
      ExecAtSafe(Stats(s, cfg, k - 1), cfg, k - 1);
    }
  }

  // ---------- the shift ----------

  lemma ShiftCountsSafe(s: State, cfg: Config, r: nat)
    requires Shape(s, cfg) && Typed(s, cfg) && r < cfg.m
    ensures Base(ShiftRing(s, cfg), cfg, 0, r) == Base(s, cfg, N(s), r)
    ensures TreeSafe(s, cfg, N(s), r) ==> TreeSafe(ShiftRing(s, cfg), cfg, 0, r)
    ensures Total(ShiftRing(s, cfg), cfg, 0, r) == Total(s, cfg, N(s), r)
  {
    hide Bal, Net, Naming, B.Elems, B.CountVal, Typed, Shift;
    NonePopsFresh(s, cfg, r % N(s));
  }

  lemma NonePopsFresh(s: State, cfg: Config, c: nat)
    requires Shape(s, cfg) && Typed(s, cfg) && c < N(s)
    ensures !(Shift(s.board.rpu)[c].kind == Pop && Shift(s.board.rpu)[c].ttl == cfg.l)
  {
    ShiftOk(s.board.rpu, cfg.l);
    var rpu := Shift(s.board.rpu);
    if rpu[c].kind == Pop {
      assert CellOk(rpu[Pred(c, N(s))], Pred(c, N(s)), cfg.l, N(s));
    }
  }

  lemma ShiftRingSafe(s: State, cfg: Config)
    requires Shape(s, cfg) && SafeState(s, cfg, N(s))
    ensures SafeState(ShiftRing(s, cfg), cfg, 0)
  {
    ShiftRingTyped(s, cfg);
    hide Typed, TreeSafe, Total;
    forall r | 0 <= r < cfg.m ensures TreeSafe(ShiftRing(s, cfg), cfg, 0, r) {
      assert TreeSafe(s, cfg, N(s), r);
      ShiftCountsSafe(s, cfg, r);
    }
    ShiftCountsSafe(s, cfg, 0);
  }

  // ---------- issuing ----------

  lemma DispatchHeld(s: State, cfg: Config, i: nat, locked: bool, r: nat)
    requires Shape(s, cfg) && i < N(s) && r < cfg.m && Issues(s.board, i, locked)
    requires TaskOk(s.board.lists[i][0], cfg)
    ensures var d := Dispatch(s, cfg, i, locked);
            var t := s.board.lists[i][0];
            && Held(d, r) == Held(s, r) + (if t.kind == Push && t.root == r then 1 else 0)
            && B.CountVal(d.trees[0], r) == B.CountVal(s.trees[0], r) + Names(t, r)
  {
    hide B.Elems, B.Push, B.CountVal, IssueAt;
    var t := s.board.lists[i][0];
    if t.kind == Push {
      B.PushElems(s.trees[t.root], B.Pair(t.rank, t.val));
      B.PushCountVal(s.trees[t.root], B.Pair(t.rank, t.val), r);
    }
  }

  lemma DispatchList(s: State, cfg: Config, i: nat, locked: bool, r: nat)
    requires Shape(s, cfg) && i < N(s) && Issues(s.board, i, locked)
    ensures var d := Dispatch(s, cfg, i, locked);
            && ListOf(d, cfg, r) == (if r % N(s) == i then ListOf(s, cfg, r)[1..] else ListOf(s, cfg, r))
            && d.board.lists[0] == (if i == 0 then s.board.lists[0][1..] else s.board.lists[0])
  {
    hide B.Push;
  }

  /** Issuing a task moves it from the list into the tree or into flight and changes no count. */
  lemma DispatchCounts(s: State, cfg: Config, i: nat, locked: bool, r: nat)
    requires Shape(s, cfg) && Typed(s, cfg) && i < N(s) && r < cfg.m && Issues(s.board, i, locked)
    ensures var d := Dispatch(s, cfg, i, locked);
            && Total(d, cfg, 0, r) == Total(s, cfg, 0, r)
            && Named(d, cfg, r) == Named(s, cfg, r)
            && (Bal(Base(s, cfg, 0, r), ListOf(s, cfg, r), r) ==> Bal(Base(d, cfg, 0, r), ListOf(d, cfg, r), r))
  {
    hide Typed, Dispatch, Held, InFlight, B.CountVal, Net, Naming, Bal, ListOf;
    HeadOk(s, cfg, i);
    DispatchInFlight(s, cfg, i, locked, r);
    DispatchHeld(s, cfg, i, locked, r);
    DispatchList(s, cfg, i, locked, r);
    HeadStep(Base(s, cfg, 0, r), s.board.lists[i], r, r);
    assert r % N(s) == i ==> ListOf(s, cfg, r) == s.board.lists[i] by { AtHome(s, cfg, r); }
    ModUnique(0, 0, 0, N(s));
  }

  lemma AtHome(s: State, cfg: Config, r: nat)
    requires Shape(s, cfg)
    ensures ListOf(s, cfg, r) == s.board.lists[r % N(s)]
  {
  }

  lemma DispatchInFlight(s: State, cfg: Config, i: nat, locked: bool, r: nat)
    requires Shape(s, cfg) && Typed(s, cfg) && i < N(s) && r < cfg.m && Issues(s.board, i, locked)
    ensures var d := Dispatch(s, cfg, i, locked);
            var t := s.board.lists[i][0];
            InFlight(d, cfg, 0, r) == InFlight(s, cfg, 0, r) + (if t.kind == Pop && t.root == r then 1 else 0)
  {
    hide Typed, B.Push;
    HeadOk(s, cfg, i);
  }

  lemma DispatchSafe(s: State, cfg: Config, i: nat, locked: bool)
    requires Shape(s, cfg) && SafeState(s, cfg, 0) && i < N(s)
    ensures SafeState(Dispatch(s, cfg, i, locked), cfg, 0)
  {
    if Issues(s.board, i, locked) {
      DispatchTyped(s, cfg, i, locked);
      var d := Dispatch(s, cfg, i, locked);
      assert d.pushQ == s.pushQ && d.popQ == s.popQ;
      hide Typed, Bal, Base, Named, Total, Dispatch;
      forall r | 0 <= r < cfg.m ensures TreeSafe(d, cfg, 0, r) {
        assert TreeSafe(s, cfg, 0, r);
        DispatchCounts(s, cfg, i, locked, r);
      }
      DispatchCounts(s, cfg, i, locked, 0);
    }
  }

  lemma {:induction false} DispatchAllSafe(s: State, cfg: Config, locked: seq<bool>, k: nat)
    requires Shape(s, cfg) && SafeState(s, cfg, 0) && |locked| == N(s) && k <= N(s)
    ensures SafeState(DispatchAll(s, cfg, locked, k), cfg, 0)
  {
    hide SafeState, Dispatch;
    if k > 0 {
      DispatchAllSafe(s, cfg, locked, k - 1);
      DispatchSafe(DispatchAll(s, cfg, locked, k - 1), cfg, k - 1, locked[k - 1]);
    }
  }

  // ---------- whole runs ----------

  lemma ClockSafe(s: State, cfg: Config, c: nat)
    requires Shape(s, cfg) && SafeState(s, cfg, 0)
    ensures SafeState(s.(cycle := c), cfg, 0)
  {
    ClockTyped(s, cfg, c);
    hide Typed, TreeSafe, Total;
    forall r | 0 <= r < cfg.m ensures TreeSafe(s.(cycle := c), cfg, 0, r) {
      assert TreeSafe(s, cfg, 0, r);
      SameCounts(s, s.(cycle := c), cfg, 0, r);
    }
    SameCounts(s, s.(cycle := c), cfg, 0, 0);
  }

  /** Once every flow has given a packet, the root can afford a Pop unless no packets are left. */
  lemma FilledEnough(s: State, cfg: Config)
    requires Shape(s, cfg) && SafeState(s, cfg, 0)
    ensures var a := EnqueueFlows(s, cfg, |s.pushQ|);
            SafeState(a, cfg, 0) && (Total(a, cfg, 0, 0) >= 1 || Waiting(a) == 0)
  {
    EnqueueFlowsSafe(s, cfg, 0, |s.pushQ|);
    assert Total(s, cfg, 0, 0) >= 0 by {
      assert TreeSafe(s, cfg, 0, 0);
      EndSafe(s, cfg, 0, 0);
    }
    hide SafeState, EnqueueFlows, Total, Sum;
    SumZero(Lens(s.pushQ));
  }

  lemma IntakeSafe(s: State, cfg: Config)
    requires Shape(s, cfg) && SafeState(s, cfg, 0)
    ensures SafeState(Intake(s, cfg), cfg, 0)
  {
    hide SafeState, EnqueueFlows, TryPop, Total, Waiting;
    var a := EnqueueFlows(s, cfg, |s.pushQ|);
    FilledEnough(s, cfg);
    TryPopSafe(a, cfg, 0);
    ClockSafe(a, cfg, s.cycle + 1);
    ClockSafe(TryPop(a, cfg), cfg, s.cycle + 1);
  }

  lemma CycleSafe(s: State, cfg: Config, locked: seq<bool>)
    requires Shape(s, cfg) && SafeState(s, cfg, 0) && |locked| == N(s)
    ensures SafeState(Cycle(s, cfg, locked), cfg, 0)
  {
    hide SafeState, Intake, Stats, ShiftRing, DispatchAll;
    IntakeSafe(s, cfg);
    var s1 := Intake(s, cfg);
    StatsSafe(s1, cfg, N(s));
    ShiftRingSafe(Stats(s1, cfg, N(s)), cfg);
    DispatchAllSafe(ShiftRing(Stats(s1, cfg, N(s)), cfg), cfg, locked, N(s));
  }

  lemma InitialSafe(s: State, cfg: Config)
    requires Initial(s, cfg) && TraceOk(s, cfg) && Sum(s.popQ) <= Waiting(s)
    ensures SafeState(s, cfg, 0)
  {
    InitialTyped(s, cfg);
    forall r | 0 <= r < cfg.m ensures TreeSafe(s, cfg, 0, r) && Total(s, cfg, 0, r) == 0 {
      assert B.CountVal(B.FRESH, r) == 0;
      assert B.Elems(B.FRESH) == multiset{};
    }
  }

  /** Every reachable state is safe, whatever the locks, if the trace has no more Pop credits than packets. */
  lemma {:induction false} RunSafe(s: State, cfg: Config, locks: seq<seq<bool>>)
    requires Initial(s, cfg) && TraceOk(s, cfg) && Sum(s.popQ) <= Waiting(s)
    requires forall t | 0 <= t < |locks| :: |locks[t]| == N(s)
    ensures SafeState(Cycles(s, cfg, locks), cfg, 0)
    decreases |locks|
  {
    if locks == [] {
      InitialSafe(s, cfg);
    } else {
      hide SafeState, Cycle, Initial, TraceOk, Waiting;
      var last := |locks| - 1;
      RunSafe(s, cfg, locks[..last]);
      CycleSafe(Cycles(s, cfg, locks[..last]), cfg, locks[last]);
    }
  }

  /**
   In every cycle of every run, each Pop that executes, at its turn among the cells, finds
   its tree non-empty: the root tree when it asks for a leaf, a leaf when it sends a packet.
   */
  lemma NoEmptyPop(s: State, cfg: Config, locks: seq<seq<bool>>, i: nat)
    requires Initial(s, cfg) && TraceOk(s, cfg) && Sum(s.popQ) <= Waiting(s)
    requires forall t | 0 <= t < |locks| :: |locks[t]| == N(s)
    requires i < N(s)
    ensures var now := Stats(Intake(Cycles(s, cfg, locks), cfg), cfg, i);
            Executes(now, cfg, i) ==>
              && B.Elems(now.trees[now.board.rpu[i].root]) != multiset{}
              && !B.Vacant(B.Top(now.trees[now.board.rpu[i].root]))
              && (now.board.rpu[i].root == 0 ==> 1 <= B.Top(now.trees[0]).val < cfg.m)
  {
    assert Shape(s, cfg);
    hide SafeState, Cycles, Intake, Stats, Initial, TraceOk, Waiting, Executes, B.Elems, B.Top;
    RunSafe(s, cfg, locks);
    var before := Cycles(s, cfg, locks);
    IntakeSafe(before, cfg);
    StatsSafe(Intake(before, cfg), cfg, i);
    var now := Stats(Intake(before, cfg), cfg, i);
    if Executes(now, cfg, i) {
      ExecutesOnElement(now, cfg, i);
    }
  }
}
