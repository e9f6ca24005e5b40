/**
 Packets of one flow depart in the order in which they arrived.

 A flow's packets have increasing (rank, meta) and go to one leaf.  In every reachable
 state the flow's arrival sequence is cut into four consecutive pieces: what departed, in
 order; what its leaf tree holds; what waits in the leaf's task list, in order; and what
 is left of the flow's queue.
 */
module FlowOrder {
  import B = BmwTree
  import opened Ring
  import opened RingCounts
  import opened Scheduler
  import opened SchedulerTyped
  import opened SchedulerSafety
  import opened Conservation

  /** A flow: its number, its leaf and its arrivals. */
  datatype Flow = Flow(id: nat, leaf: nat, arrivals: seq<B.Pair>)

  predicate OfFlow(cfg: Config, w: Flow, e: B.Pair) {
    FlowOf(cfg, e.val) == w.id
  }

  function Pairs(q: seq<Packet>): (r: seq<B.Pair>)
    ensures |r| == |q| && forall k | 0 <= k < |q| :: r[k] == PairOf(q[k])
  {
    seq(|q|, k requires 0 <= k < |q| => PairOf(q[k]))
  }

  /** The flow's packets in a task list. */
  function Listed(list: seq<Task>, cfg: Config, w: Flow): seq<B.Pair> {
    if list == [] then []
    else (if IsListed(list[0], cfg, w) then [B.Pair(list[0].rank, list[0].val)] else []) + Listed(list[1..], cfg, w)
  }

  predicate IsListed(t: Task, cfg: Config, w: Flow) {
    t.kind == Push && t.root == w.leaf && OfFlow(cfg, w, B.Pair(t.rank, t.val))
  }

  /** The flow's packets in the output. */
  function Departed(out: seq<Departure>, cfg: Config, w: Flow): seq<B.Pair> {
    if out == [] then []
    else
      var d := out[|out| - 1];
      Departed(out[..|out| - 1], cfg, w) + (if d.tree == w.leaf && OfFlow(cfg, w, d.pkt) then [d.pkt] else [])
  }

  /** The leaf tree holds, of this flow, exactly the packets of `part`. */
  ghost predicate Holds(t: B.Tree, cfg: Config, w: Flow, part: seq<B.Pair>) {
    forall e | OfFlow(cfg, w, e) :: B.Elems(t)[e] == multiset(part)[e]
  }

  ghost predicate Increasing(a: seq<B.Pair>) {
    forall i, j | 0 <= i < j < |a| :: B.Less(a[i], a[j])
  }

  /** Every queue holds packets of its own flow only, and this flow's packets go to its leaf. */
  ghost predicate QueuesSorted(s: State, cfg: Config, w: Flow) {
    && w.id < |s.pushQ|
    && (forall g, k | 0 <= g < |s.pushQ| && 0 <= k < |s.pushQ[g]| ::
          FlowOf(cfg, s.pushQ[g][k].meta) == g && (g == w.id ==> s.pushQ[g][k].tree == w.leaf))
  }

  ghost predicate FlowFacts(cfg: Config, w: Flow) {
    && 1 <= w.leaf < cfg.m && Increasing(w.arrivals)
    && (forall k | 0 <= k < |w.arrivals| :: OfFlow(cfg, w, w.arrivals[k]))
  }

  /** The four pieces: departed, held, listed, queued. */
  ghost predicate Cut(s: State, cfg: Config, w: Flow)
    requires Shape(s, cfg) && w.leaf < cfg.m && w.id < |s.pushQ|
  {
    var a := w.arrivals;
    var d := |Departed(s.out, cfg, w)|;
    var k := |a| - |s.pushQ[w.id]|;
    var t := k - |Listed(ListOf(s, cfg, w.leaf), cfg, w)|;
    && 0 <= d <= t <= k <= |a|
    && Departed(s.out, cfg, w) == a[..d]
    && Holds(s.trees[w.leaf], cfg, w, a[d..t])
    && Listed(ListOf(s, cfg, w.leaf), cfg, w) == a[t..k]
    && Pairs(s.pushQ[w.id]) == a[k..]
  }

  ghost predicate InOrder(s: State, cfg: Config, w: Flow) {
    Shape(s, cfg) && FlowFacts(cfg, w) && QueuesSorted(s, cfg, w) && Cut(s, cfg, w)
  }

  lemma LeafInRange(s: State, cfg: Config, w: Flow)
    requires InOrder(s, cfg, w)
    ensures 1 <= w.leaf < cfg.m
  {
  }

  // ---------- lists ----------

  lemma {:induction false} ListedAppend(list: seq<Task>, t: Task, cfg: Config, w: Flow)
    ensures Listed(list + [t], cfg, w) ==
            Listed(list, cfg, w) + (if IsListed(t, cfg, w) then [B.Pair(t.rank, t.val)] else [])
  {
    if list == [] {
      assert list + [t] == [t] && [t][1..] == [];
    } else {
      assert (list + [t])[1..] == list[1..] + [t];
      ListedAppend(list[1..], t, cfg, w);
    }
  }

  lemma EnqueueListed(s: State, cfg: Config, t: Task, w: Flow)
    requires Shape(s, cfg)
    ensures Listed(ListOf(Enqueue(s, cfg, t), cfg, w.leaf), cfg, w) ==
            Listed(ListOf(s, cfg, w.leaf), cfg, w) + (if IsListed(t, cfg, w) then [B.Pair(t.rank, t.val)] else [])
  {
    hide Listed;
    ListedAppend(ListOf(s, cfg, w.leaf), t, cfg, w);
  }

  /** A task that carries no packet of the flow does not change the cut. */
  lemma EnqueueOther(s: State, cfg: Config, t: Task, w: Flow)
    requires InOrder(s, cfg, w) && !IsListed(t, cfg, w)
    ensures InOrder(Enqueue(s, cfg, t), cfg, w)
  {
    hide Listed, Departed, Holds, FlowFacts, IsListed;
    EnqueueListed(s, cfg, t, w);
  }

  // ---------- a packet goes to the lists ----------

  lemma OwnPacket(s: State, cfg: Config, w: Flow)
    requires InOrder(s, cfg, w) && s.pushQ[w.id] != []
    ensures var p := s.pushQ[w.id][0];
            var s1 := s.(pushQ := s.pushQ[w.id := s.pushQ[w.id][1..]]);
            Shape(s1, cfg) && InOrder(Enqueue(s1, cfg, LeafPush(cfg, p)), cfg, w)
  {
    hide Listed, Departed, Holds, FlowFacts, Increasing, OfFlow;
    var p := s.pushQ[w.id][0];
    var s1 := s.(pushQ := s.pushQ[w.id := s.pushQ[w.id][1..]]);
    assert ListOf(s1, cfg, w.leaf) == ListOf(s, cfg, w.leaf);
    EnqueueListed(s1, cfg, LeafPush(cfg, p), w);
    OwnHead(s, cfg, w);
    NextPiece(w.arrivals, |w.arrivals| - |s.pushQ[w.id]|, |Listed(ListOf(s, cfg, w.leaf), cfg, w)|);
    assert Pairs(s1.pushQ[w.id]) == Pairs(s.pushQ[w.id])[1..];
  }

  /** The head of the flow's queue is the flow's next arrival, and counts as the flow's in a list. */
  lemma OwnHead(s: State, cfg: Config, w: Flow)
    requires InOrder(s, cfg, w) && s.pushQ[w.id] != []
    ensures w.arrivals[|w.arrivals| - |s.pushQ[w.id]|] == PairOf(s.pushQ[w.id][0])
    ensures IsListed(LeafPush(cfg, s.pushQ[w.id][0]), cfg, w)
  {
    hide Listed, Departed, Holds;
    assert Pairs(s.pushQ[w.id])[0] == PairOf(s.pushQ[w.id][0]);
  }

  lemma NextPiece(a: seq<B.Pair>, k: nat, m: nat)
    requires m <= k < |a|
    ensures a[k - m..k] + [a[k]] == a[k - m..k + 1] && a[k..][1..] == a[k + 1..]
  {
  }

  lemma OtherPacket(s: State, cfg: Config, w: Flow, f: nat)
    requires InOrder(s, cfg, w) && f < |s.pushQ| && f != w.id && s.pushQ[f] != []
    ensures var p := s.pushQ[f][0];
            var s1 := s.(pushQ := s.pushQ[f := s.pushQ[f][1..]]);
            InOrder(s1, cfg, w) && !IsListed(LeafPush(cfg, p), cfg, w)
  {
    hide Listed, Departed, Holds, FlowFacts;
  }

  lemma EnqueueFlowOrder(s: State, cfg: Config, w: Flow, f: nat)
    requires InOrder(s, cfg, w) && f < |s.pushQ|
    ensures InOrder(EnqueueFlow(s, cfg, f), cfg, w)
  {
    if s.pushQ[f] != [] {
      var p := s.pushQ[f][0];
      assert !IsListed(RootPush(cfg, p), cfg, w);
      assert Shape(s, cfg);
      hide InOrder, Enqueue, IsListed;
      var s1 := s.(pushQ := s.pushQ[f := s.pushQ[f][1..]]);
      if f == w.id {
        OwnPacket(s, cfg, w);
      } else {
        OtherPacket(s, cfg, w, f);
        EnqueueOther(s1, cfg, LeafPush(cfg, p), w);
      }
      EnqueueOther(Enqueue(s1, cfg, LeafPush(cfg, p)), cfg, RootPush(cfg, p), w);
    }
  }

  /** A state that differs only in what the cut does not look at. */
  lemma SameCut(s: State, t: State, cfg: Config, w: Flow)
    requires InOrder(s, cfg, w) && Shape(t, cfg)
    requires t.pushQ == s.pushQ && t.out == s.out && t.trees[w.leaf] == s.trees[w.leaf]
    requires t.board.lists == s.board.lists
    ensures InOrder(t, cfg, w)
  {
    hide Listed, Departed, Holds, FlowFacts;
  }

  lemma TryPopOrder(s: State, cfg: Config, w: Flow)
    requires InOrder(s, cfg, w)
    ensures InOrder(TryPop(s, cfg), cfg, w)
  {
    assert Shape(s, cfg) && w.leaf < |s.trees|;
    hide InOrder, Enqueue, CreditFlow;
    var f := CreditFlow(s, cfg);
    if f != -1 {
      var s1 := s.(popQ := s.popQ[f := s.popQ[f] - 1]);
      SameCut(s, s1, cfg, w);
      EnqueueOther(s1, cfg, PopOf(cfg, 0), w);
    }
  }

  // ---------- a Pop executes ----------

  /** The least element of the leaf, when it is of this flow, is the flow's oldest packet there. */
  lemma LeastIsOldest(t: B.Tree, cfg: Config, w: Flow, d: nat, n: nat)
    requires FlowFacts(cfg, w) && d <= n <= |w.arrivals| && Holds(t, cfg, w, w.arrivals[d..n])
    requires t.Node? && B.Heap(t) && B.Elems(t) != multiset{} && OfFlow(cfg, w, B.Top(t))
    ensures d < n && B.Top(t) == w.arrivals[d]
  {
    hide B.Elems, B.Heap, B.Top;
    B.PopLeast(t);
    var part := w.arrivals[d..n];
    var e := B.Top(t);
    assert e in multiset(part);
    assert e in part;
    var i :| 0 <= i < |part| && part[i] == e;
    assert part[0] == w.arrivals[d] && part[0] in multiset(part);
    assert OfFlow(cfg, w, part[0]);
    assert part[0] in B.Elems(t);
    assert B.Leq(e, part[0]);
    if i > 0 {
      assert B.Less(w.arrivals[d], w.arrivals[d + i]);
    }
  }

  lemma HeldAfterPop(t: B.Tree, cfg: Config, w: Flow, d: nat, n: nat)
    requires FlowFacts(cfg, w) && d <= n <= |w.arrivals| && Holds(t, cfg, w, w.arrivals[d..n])
    requires t.Node? && B.Heap(t) && B.Elems(t) != multiset{}
    ensures OfFlow(cfg, w, B.Top(t)) ==> d < n && B.Top(t) == w.arrivals[d] && Holds(B.Pop(t), cfg, w, w.arrivals[d + 1..n])
    ensures !OfFlow(cfg, w, B.Top(t)) ==> Holds(B.Pop(t), cfg, w, w.arrivals[d..n])
  {
    hide B.Elems, B.Heap, B.Top, B.Pop, FlowFacts;
    B.PopLeast(t);
    if OfFlow(cfg, w, B.Top(t)) {
      LeastIsOldest(t, cfg, w, d, n);
      assert w.arrivals[d..n] == [w.arrivals[d]] + w.arrivals[d + 1..n];
    }
  }

  lemma DepartedAppend(out: seq<Departure>, d: Departure, cfg: Config, w: Flow)
    ensures Departed(out + [d], cfg, w) ==
            Departed(out, cfg, w) + (if d.tree == w.leaf && OfFlow(cfg, w, d.pkt) then [d.pkt] else [])
  {
    assert (out + [d])[..|out|] == out;
  }

  lemma LeafExecOrder(s: State, cfg: Config, w: Flow, i: nat)
    requires InOrder(s, cfg, w) && i < N(s) && Executes(s, cfg, i) && s.board.rpu[i].root != 0
    requires B.Heap(s.trees[s.board.rpu[i].root]) && B.Elems(s.trees[s.board.rpu[i].root]) != multiset{}
    ensures InOrder(ExecAt(s, cfg, i), cfg, w)
  {
    hide Listed, Departed, Holds, FlowFacts, B.Elems, B.Heap, B.Top, B.Pop;
    LeafInRange(s, cfg, w);
    var q := s.board.rpu[i].root;
    var r := ExecAt(s, cfg, i);
    var a := w.arrivals;
    DepartedAppend(s.out, Departure(q, B.Top(s.trees[q])), cfg, w);
    if q == w.leaf {
      var d := |Departed(s.out, cfg, w)|;
      var k := |a| - |s.pushQ[w.id]|;
      var t := k - |Listed(ListOf(s, cfg, w.leaf), cfg, w)|;
      HeldAfterPop(s.trees[q], cfg, w, d, t);
      if OfFlow(cfg, w, B.Top(s.trees[q])) {
        assert a[..d] + [a[d]] == a[..d + 1];
      }
    }
  }

  lemma ExecAtOrder(s: State, cfg: Config, w: Flow, i: nat)
    requires Shape(s, cfg) && InOrder(s, cfg, w) && SafeState(s, cfg, i) && i < N(s)
    ensures InOrder(ExecAt(s, cfg, i), cfg, w)
  {
    hide InOrder, SafeState, Typed, Safe, Covered, Enqueue, B.Elems, B.Heap, B.Top, B.Pop;
    if Executes(s, cfg, i) {
      LeafInRange(s, cfg, w);
      SafeIsTyped(s, cfg, i);
      var q := s.board.rpu[i].root;
      if q == 0 {
        var s1 := s.(trees := s.trees[0 := B.Pop(s.trees[0])]);
        SameCut(s, s1, cfg, w);
        if 0 <= B.Top(s.trees[0]).val < cfg.m {
          EnqueueOther(s1, cfg, PopOf(cfg, B.Top(s.trees[0]).val), w);
        }
      } else {
        ExecutesOnElement(s, cfg, i);
        HeapAt(s, cfg, q);
        LeafExecOrder(s, cfg, w, i);
      }
    }
  }

  // ---------- a Push is issued ----------

  lemma HeldAfterPush(t: B.Tree, cfg: Config, w: Flow, d: nat, n: nat, e: B.Pair)
    requires d <= n <= |w.arrivals| && Holds(t, cfg, w, w.arrivals[d..n]) && !B.Vacant(e)
    ensures OfFlow(cfg, w, e) && n < |w.arrivals| && w.arrivals[n] == e ==>
              Holds(B.Push(t, e), cfg, w, w.arrivals[d..n + 1])
    ensures !OfFlow(cfg, w, e) ==> Holds(B.Push(t, e), cfg, w, w.arrivals[d..n])
  {
    hide B.Elems, B.Push;
    B.PushElems(t, e);
    if n < |w.arrivals| {
      assert w.arrivals[d..n + 1] == w.arrivals[d..n] + [w.arrivals[n]];
    }
  }

  lemma IssueOrder(s: State, cfg: Config, w: Flow, i: nat, locked: bool)
    requires InOrder(s, cfg, w) && i < N(s) && Issues(s.board, i, locked)
    requires TaskOk(s.board.lists[i][0], cfg) && s.board.lists[i][0].root % N(s) == i
    ensures InOrder(Dispatch(s, cfg, i, locked), cfg, w)
  {
    hide Departed, Holds, FlowFacts, B.Push, IssueAt;
    LeafInRange(s, cfg, w);
    var x := s.board.lists[i][0];
    var e := B.Pair(x.rank, x.val);
    var a := w.arrivals;
    var d := |Departed(s.out, cfg, w)|;
    var k := |a| - |s.pushQ[w.id]|;
    var t := k - |Listed(ListOf(s, cfg, w.leaf), cfg, w)|;
    DispatchList(s, cfg, i, locked, w.leaf);
    if x.kind == Push && x.root == w.leaf {
      if IsListed(x, cfg, w) {
        assert Listed(ListOf(s, cfg, w.leaf), cfg, w)[0] == e == a[t];
        assert a[t..k][1..] == a[t + 1..k];
      }
      HeldAfterPush(s.trees[w.leaf], cfg, w, d, t, e);
    }
  }

  lemma DispatchOrder(s: State, cfg: Config, w: Flow, i: nat, locked: bool)
    requires InOrder(s, cfg, w) && Typed(s, cfg) && i < N(s)
    ensures InOrder(Dispatch(s, cfg, i, locked), cfg, w)
  {
    assert Shape(s, cfg);
    hide InOrder, Typed;
    if Issues(s.board, i, locked) {
      HeadOk(s, cfg, i);
      IssueOrder(s, cfg, w, i, locked);
    }
  }

  // ---------- whole cycles and runs ----------

  lemma {:induction false} EnqueueFlowsOrder(s: State, cfg: Config, w: Flow, f: nat)
    requires Shape(s, cfg) && InOrder(s, cfg, w) && f <= |s.pushQ|
    ensures InOrder(EnqueueFlows(s, cfg, f), cfg, w)
  {
    hide InOrder, EnqueueFlow;
    if f > 0 {
      EnqueueFlowsOrder(s, cfg, w, f - 1);
      EnqueueFlowOrder(EnqueueFlows(s, cfg, f - 1), cfg, w, f - 1);
    }
  }

  lemma {:induction false} StatsOrder(s: State, cfg: Config, w: Flow, k: nat)
    requires Shape(s, cfg) && InOrder(s, cfg, w) && SafeState(s, cfg, 0) && k <= N(s)
    ensures InOrder(Stats(s, cfg, k), cfg, w)
  {
    hide InOrder, SafeState, ExecAt;
    if k > 0 {
      StatsOrder(s, cfg, w, k - 1);
      StatsSafe(s, cfg, k - 1);
      ExecAtOrder(Stats(s, cfg, k - 1), cfg, w, k - 1);
    }
  }

  lemma {:induction false} DispatchAllOrder(s: State, cfg: Config, w: Flow, locked: seq<bool>, k: nat)
    requires Shape(s, cfg) && InOrder(s, cfg, w) && Typed(s, cfg) && |locked| == N(s) && k <= N(s)
    ensures InOrder(DispatchAll(s, cfg, locked, k), cfg, w)
  {
    hide InOrder, Typed, Dispatch;
    if k > 0 {
      DispatchAllOrder(s, cfg, w, locked, k - 1);
      DispatchAllTyped(s, cfg, locked, k - 1);
      DispatchOrder(DispatchAll(s, cfg, locked, k - 1), cfg, w, k - 1, locked[k - 1]);
    }
  }

  lemma IntakeOrder(s: State, cfg: Config, w: Flow)
    requires Shape(s, cfg) && InOrder(s, cfg, w)
    ensures InOrder(Intake(s, cfg), cfg, w)
  {
    hide InOrder, EnqueueFlows, TryPop;
    LeafInRange(s, cfg, w);
    var a := EnqueueFlows(s, cfg, |s.pushQ|);
    EnqueueFlowsOrder(s, cfg, w, |s.pushQ|);
    TryPopOrder(a, cfg, w);
    SameCut(a, a.(cycle := s.cycle + 1), cfg, w);
    SameCut(TryPop(a, cfg), TryPop(a, cfg).(cycle := s.cycle + 1), cfg, w);
  }

  lemma CycleOrder(s: State, cfg: Config, w: Flow, locked: seq<bool>)
    requires Shape(s, cfg) && InOrder(s, cfg, w) && SafeState(s, cfg, 0) && |locked| == N(s)
    ensures InOrder(Cycle(s, cfg, locked), cfg, w)
  {
    hide InOrder, SafeState, Intake, Stats, DispatchAll;
    LeafInRange(s, cfg, w);
    var s1 := Intake(s, cfg);
    IntakeOrder(s, cfg, w);
    IntakeSafe(s, cfg);
    var s2 := Stats(s1, cfg, N(s));
    StatsOrder(s1, cfg, w, N(s));
    StatsSafe(s1, cfg, N(s));
    var s3 := ShiftRing(s2, cfg);
    SameCut(s2, s3, cfg, w);
    ShiftRingSafe(s2, cfg);
    SafeIsTyped(s3, cfg, 0);
    DispatchAllOrder(s3, cfg, w, locked, N(s));
  }

  /** The flow as the trace gives it. */
  ghost predicate IsFlow(s: State, cfg: Config, w: Flow) {
    FlowFacts(cfg, w) && QueuesSorted(s, cfg, w) && Pairs(s.pushQ[w.id]) == w.arrivals
  }

  lemma InitialOrder(s: State, cfg: Config, w: Flow)
    requires Initial(s, cfg) && IsFlow(s, cfg, w)
    ensures InOrder(s, cfg, w)
  {
    assert B.Elems(B.FRESH) == multiset{};
    assert s.board.lists[w.leaf % N(s)] == [];
    assert w.arrivals[..0] == [] && w.arrivals[0..0] == [] && w.arrivals[0..] == w.arrivals;
  }

  lemma {:induction false} RunOrder(s: State, cfg: Config, w: Flow, locks: seq<seq<bool>>)
    requires Initial(s, cfg) && TraceOk(s, cfg) && Sum(s.popQ) <= Waiting(s) && IsFlow(s, cfg, w)
    requires forall t | 0 <= t < |locks| :: |locks[t]| == N(s)
    ensures InOrder(Cycles(s, cfg, locks), cfg, w)
    decreases |locks|
  {
    if locks == [] {
      InitialOrder(s, cfg, w);
    } else {
      hide SafeState, Cycle, Initial, TraceOk, Waiting, InOrder, IsFlow;
      var last := |locks| - 1;
      RunSafe(s, cfg, locks[..last]);
      RunOrder(s, cfg, w, locks[..last]);
      CycleOrder(Cycles(s, cfg, locks[..last]), cfg, w, locks[last]);
    }
  }

  /** At any time of any run, what the flow has sent is a prefix of what arrived for it. */
  lemma FlowIsFifo(s: State, cfg: Config, w: Flow, locks: seq<seq<bool>>)
    requires Initial(s, cfg) && TraceOk(s, cfg) && Sum(s.popQ) <= Waiting(s) && IsFlow(s, cfg, w)
    requires forall t | 0 <= t < |locks| :: |locks[t]| == N(s)
    ensures Departed(Cycles(s, cfg, locks).out, cfg, w) <= w.arrivals
  {
    RunOrder(s, cfg, w, locks);
    hide Cycles, Initial, TraceOk, Waiting, IsFlow, Departed, Listed, Holds, FlowFacts, QueuesSorted;
  }
}
