/**
 What a leaf sends once nothing more is pushed into it, and how fair that is.
 */
module LeafService {
  import B = BmwTree
  import opened Ring
  import opened Scheduler
  import opened SchedulerTyped
  import opened SchedulerSafety
  import W = Wfq
  import F = Fairness

  /** No Push for leaf `r` waits anywhere. */
  ghost predicate Quiet(s: State, r: nat) {
    && (forall i, k | 0 <= i < |s.board.lists| && 0 <= k < |s.board.lists[i]| && s.board.lists[i][k].kind == Push ::
          s.board.lists[i][k].root != r)
    && (forall f, k | 0 <= f < |s.pushQ| && 0 <= k < |s.pushQ[f]| :: s.pushQ[f][k].tree != r)
  }

  /** What leaf `r` has sent, in order. */
  function Sent(out: seq<Departure>, r: nat): seq<B.Pair> {
    if out == [] then []
    else Sent(out[..|out| - 1], r) + (if out[|out| - 1].tree == r then [out[|out| - 1].pkt] else [])
  }

  lemma SentAppend(out: seq<Departure>, d: Departure, r: nat)
    ensures Sent(out + [d], r) == Sent(out, r) + (if d.tree == r then [d.pkt] else [])
  {
    assert (out + [d])[..|out|] == out;
  }

  /** Since leaf `r` held `t` and had sent `before`, `n` pops have taken from it what it sent. */
  ghost predicate Served(s: State, cfg: Config, r: nat, t: B.Tree, before: seq<B.Pair>, n: nat)
    requires Shape(s, cfg)
  {
    && 1 <= r < cfg.m && t.Node? && B.Heap(t) && n <= |B.Elems(t)| && Quiet(s, r)
    && s.trees[r] == B.After(t, n)
    && Sent(s.out, r) == before + B.Drain(t, n)
  }

  lemma {:induction false} OneMorePop(t: B.Tree, n: nat)
    requires t.Node?
    ensures B.After(t, n + 1) == B.Pop(B.After(t, n))
    ensures B.Drain(t, n + 1) == B.Drain(t, n) + [B.Top(B.After(t, n))]
    decreases n
  {
    hide B.Pop, B.Top;
    if n > 0 {
      OneMorePop(B.Pop(t), n - 1);
    }
  }

  lemma LeftIsRest(t: B.Tree, n: nat)
    requires t.Node? && B.Heap(t) && n <= |B.Elems(t)| && B.Elems(B.After(t, n)) != multiset{}
    ensures n < |B.Elems(t)|
  {
    hide B.Elems, B.Heap, B.After, B.Drain;
    B.DrainConserves(t, n);
    assert |multiset(B.Drain(t, n)) + B.Elems(B.After(t, n))| == n + |B.Elems(B.After(t, n))|;
  }

  lemma EnqueueQuiet(s: State, cfg: Config, t: Task, r: nat)
    requires Shape(s, cfg) && Quiet(s, r) && (t.kind == Push ==> t.root != r)
    ensures Quiet(Enqueue(s, cfg, t), r)
  {
  }

  lemma EnqueueFlowServed(s: State, cfg: Config, f: nat, r: nat, t: B.Tree, before: seq<B.Pair>, n: nat)
    requires Shape(s, cfg) && f < |s.pushQ| && Served(s, cfg, r, t, before, n)
    ensures Served(EnqueueFlow(s, cfg, f), cfg, r, t, before, n)
  {
    if s.pushQ[f] != [] {
      var p := s.pushQ[f][0];
      assert p.tree != r;
      var s1 := s.(pushQ := s.pushQ[f := s.pushQ[f][1..]]);
      assert Quiet(s1, r);
      hide Quiet, Sent, B.Heap, B.Elems, B.After, B.Drain;
      EnqueueQuiet(s1, cfg, LeafPush(cfg, p), r);
      EnqueueQuiet(Enqueue(s1, cfg, LeafPush(cfg, p)), cfg, RootPush(cfg, p), r);
    }
  }

  lemma {:induction false} EnqueueFlowsServed(s: State, cfg: Config, k: nat, r: nat, t: B.Tree, before: seq<B.Pair>, n: nat)
    requires Shape(s, cfg) && k <= |s.pushQ| && Served(s, cfg, r, t, before, n)
    ensures Served(EnqueueFlows(s, cfg, k), cfg, r, t, before, n)
  {
    hide Served, EnqueueFlow;
    if k > 0 {
      EnqueueFlowsServed(s, cfg, k - 1, r, t, before, n);
      EnqueueFlowServed(EnqueueFlows(s, cfg, k - 1), cfg, k - 1, r, t, before, n);
    }
  }

  lemma TryPopServed(s: State, cfg: Config, r: nat, t: B.Tree, before: seq<B.Pair>, n: nat)
    requires Shape(s, cfg) && Served(s, cfg, r, t, before, n)
    ensures Served(TryPop(s, cfg), cfg, r, t, before, n)
  {
    hide Sent, CreditFlow, B.Heap, B.Elems, B.After, B.Drain;
    var f := CreditFlow(s, cfg);
    if f != -1 {
      EnqueueQuiet(s.(popQ := s.popQ[f := s.popQ[f] - 1]), cfg, PopOf(cfg, 0), r);
    }
  }

  /** A Pop that executes on the leaf is one more of the pops that empty it. */
  lemma ExecAtServed(s: State, cfg: Config, i: nat, r: nat, t: B.Tree, before: seq<B.Pair>, n: nat) returns (m: nat)
    requires Shape(s, cfg) && SafeState(s, cfg, i) && i < N(s) && Served(s, cfg, r, t, before, n)
    ensures Served(ExecAt(s, cfg, i), cfg, r, t, before, m)
  {
    hide SafeState, Sent, Quiet, B.Heap, B.Elems, B.After, B.Drain, B.Pop, B.Top;
    m := n;
    if Executes(s, cfg, i) {
      var q := s.board.rpu[i].root;
      var top := B.Top(s.trees[q]);
      ExecutesOnElement(s, cfg, i);
      SameQueues(s, s.(trees := s.trees[q := B.Pop(s.trees[q])]), r);
      if q == 0 {
        EnqueueQuiet(s.(trees := s.trees[q := B.Pop(s.trees[q])]), cfg, PopOf(cfg, top.val), r);
      } else {
        SentAppend(s.out, Departure(q, top), r);
        SameQueues(s, ExecAt(s, cfg, i), r);
        if q == r {
          LeftIsRest(t, n);
          OneMorePop(t, n);
          m := n + 1;
        }
      }
    }
  }

  lemma SameQueues(s: State, t: State, r: nat)
    requires Quiet(s, r) && t.board.lists == s.board.lists && t.pushQ == s.pushQ
    ensures Quiet(t, r)
  {
  }

  lemma {:induction false} StatsServed(s: State, cfg: Config, k: nat, r: nat, t: B.Tree, before: seq<B.Pair>, n: nat) returns (m: nat)
    requires Shape(s, cfg) && SafeState(s, cfg, 0) && k <= N(s) && Served(s, cfg, r, t, before, n)
    ensures Served(Stats(s, cfg, k), cfg, r, t, before, m)
    decreases k
  {
    hide Served, SafeState, ExecAt;
    m := n;
    if k > 0 {
      m := StatsServed(s, cfg, k - 1, r, t, before, n);
      StatsSafe(s, cfg, k - 1);
      m := ExecAtServed(Stats(s, cfg, k - 1), cfg, k - 1, r, t, before, m);
    }
  }

  lemma DispatchServed(s: State, cfg: Config, i: nat, locked: bool, r: nat, t: B.Tree, before: seq<B.Pair>, n: nat)
    requires Shape(s, cfg) && i < N(s) && Served(s, cfg, r, t, before, n)
    ensures Served(Dispatch(s, cfg, i, locked), cfg, r, t, before, n)
  {
    hide Sent, B.Heap, B.Elems, B.After, B.Drain, B.Push;
    if Issues(s.board, i, locked) {
      var d := Dispatch(s, cfg, i, locked);
      assert s.board.lists[i][0].kind == Push ==> s.board.lists[i][0].root != r;
      forall j, k | 0 <= j < |d.board.lists| && 0 <= k < |d.board.lists[j]| && d.board.lists[j][k].kind == Push
        ensures d.board.lists[j][k].root != r
      {
        assert d.board.lists[j][k] == s.board.lists[j][if j == i then k + 1 else k];
      }
    }
  }

  lemma {:induction false} DispatchAllServed(s: State, cfg: Config, locked: seq<bool>, k: nat, r: nat, t: B.Tree, before: seq<B.Pair>, n: nat)
    requires Shape(s, cfg) && |locked| == N(s) && k <= N(s) && Served(s, cfg, r, t, before, n)
    ensures Served(DispatchAll(s, cfg, locked, k), cfg, r, t, before, n)
  {
    hide Served, Dispatch;
    if k > 0 {
      DispatchAllServed(s, cfg, locked, k - 1, r, t, before, n);
      DispatchServed(DispatchAll(s, cfg, locked, k - 1), cfg, k - 1, locked[k - 1], r, t, before, n);
    }
  }

  lemma SameServed(s: State, u: State, cfg: Config, r: nat, t: B.Tree, before: seq<B.Pair>, n: nat)
    requires Shape(s, cfg) && Shape(u, cfg) && Served(s, cfg, r, t, before, n)
    requires u.board.lists == s.board.lists && u.pushQ == s.pushQ && u.trees == s.trees && u.out == s.out
    ensures Served(u, cfg, r, t, before, n)
  {
    hide Sent, B.Heap, B.Elems, B.After, B.Drain;
    hide Quiet;
    SameQueues(s, u, r);
  }

  lemma IntakeServed(s: State, cfg: Config, r: nat, t: B.Tree, before: seq<B.Pair>, n: nat)
    requires Shape(s, cfg) && Served(s, cfg, r, t, before, n)
    ensures Served(Intake(s, cfg), cfg, r, t, before, n)
  {
    hide Served, EnqueueFlows, TryPop;
    var a := EnqueueFlows(s, cfg, |s.pushQ|);
    EnqueueFlowsServed(s, cfg, |s.pushQ|, r, t, before, n);
    TryPopServed(a, cfg, r, t, before, n);
    SameServed(if s.cycle > WARM_UP then TryPop(a, cfg) else a, Intake(s, cfg), cfg, r, t, before, n);
  }

  lemma CycleServed(s: State, cfg: Config, locked: seq<bool>, r: nat, t: B.Tree, before: seq<B.Pair>, n: nat) returns (m: nat)
    requires Shape(s, cfg) && SafeState(s, cfg, 0) && |locked| == N(s) && Served(s, cfg, r, t, before, n)
    ensures Served(Cycle(s, cfg, locked), cfg, r, t, before, m)
  {
    hide Served, SafeState, Intake, Stats, DispatchAll;
    var s1 := Intake(s, cfg);
    IntakeSafe(s, cfg);
    IntakeServed(s, cfg, r, t, before, n);
    m := StatsServed(s1, cfg, N(s), r, t, before, n);
    var s2 := Stats(s1, cfg, N(s));
    SameServed(s2, ShiftRing(s2, cfg), cfg, r, t, before, m);
    DispatchAllServed(ShiftRing(s2, cfg), cfg, locked, N(s), r, t, before, m);
  }

  /**
   From a safe state on, a leaf into which nothing more is pushed sends what as many pops of
   its tree return, in that order, under any locks.
   */
  lemma {:induction false} QuietLeafDrains(s: State, cfg: Config, locks: seq<seq<bool>>, r: nat) returns (n: nat)
    requires Shape(s, cfg) && SafeState(s, cfg, 0) && Quiet(s, r) && 1 <= r < cfg.m
    requires forall t | 0 <= t < |locks| :: |locks[t]| == N(s)
    ensures SafeState(Cycles(s, cfg, locks), cfg, 0)
    ensures Served(Cycles(s, cfg, locks), cfg, r, s.trees[r], Sent(s.out, r), n)
    decreases |locks|
  {
    if locks == [] {
      n := 0;
      assert B.Heap(s.trees[r]);
    } else {
      hide Served, SafeState, Cycle, Quiet;
      var last := |locks| - 1;
      n := QuietLeafDrains(s, cfg, locks[..last], r);
      CycleSafe(Cycles(s, cfg, locks[..last]), cfg, locks[last]);
      n := CycleServed(Cycles(s, cfg, locks[..last]), cfg, locks[last], r, s.trees[r], Sent(s.out, r), n);
    }
  }

  /** What leaf `r` has sent since it had sent `before`. */
  function SentSince(out: seq<Departure>, r: nat, before: seq<B.Pair>): seq<B.Pair> {
    if |before| <= |Sent(out, r)| then Sent(out, r)[|before|..] else []
  }

  /**
   Fairness of departures: in a safe state leaf `r` holds two backlogged flows that start
   together, and nothing more is pushed into it.  As long as a packet of each is not sent, the
   bytes per weight sent of the two since then differ by less than the larger of their longest
   packets per weight, plus one.
   */
  lemma FairDepartures(s: State, cfg: Config, locks: seq<seq<bool>>, r: nat, f: F.Backlog, g: F.Backlog,
                       p: nat, q: nat, longestF: nat, longestG: nat)
    requires Shape(s, cfg) && SafeState(s, cfg, 0) && Quiet(s, r) && 1 <= r < cfg.m
    requires forall t | 0 <= t < |locks| :: |locks[t]| == N(s)
    requires F.BacklogOk(f) && F.BacklogOk(g) && f.first == g.first
    requires F.AllQueued(f, s.trees[r]) && F.AllQueued(g, s.trees[r])
    requires p < |f.lens| && F.Tag(f, p) !in SentSince(Cycles(s, cfg, locks).out, r, Sent(s.out, r))
    requires q < |g.lens| && F.Tag(g, q) !in SentSince(Cycles(s, cfg, locks).out, r, Sent(s.out, r))
    requires forall k | 0 <= k < |f.lens| :: f.lens[k] <= longestF
    requires forall k | 0 <= k < |g.lens| :: g.lens[k] <= longestG
    ensures var out := SentSince(Cycles(s, cfg, locks).out, r, Sent(s.out, r));
            var bound := W.Max(longestF as real / f.weight, longestG as real / g.weight) + 1.0;
            -bound < F.Served(f, out, |f.lens|) - F.Served(g, out, |g.lens|) < bound
  {
    assert |s.trees| == cfg.m;
    hide *;
    var n := QuietLeafDrains(s, cfg, locks, r);
    SentIsDrained(Cycles(s, cfg, locks), cfg, r, s.trees[r], Sent(s.out, r), n);
    F.FairShares(f, g, s.trees[r], n, p, q, longestF, longestG);
  }

  lemma SentIsDrained(s: State, cfg: Config, r: nat, t: B.Tree, before: seq<B.Pair>, n: nat)
    requires Shape(s, cfg) && Served(s, cfg, r, t, before, n)
    ensures t.Node? && B.Heap(t) && n <= |B.Elems(t)| && SentSince(s.out, r, before) == B.Drain(t, n)
  {
    hide Sent, B.Heap, B.Elems, B.After, B.Drain;
  }
}
