/**
 Every packet departs at most once, it is a packet of the trace, and when it departs it
 has left its flow's queue, that is, its push line has been printed.
 */
module DepartsOnce {
  import B = BmwTree
  import opened Ring
  import opened RingCounts
  import opened Scheduler
  import opened SchedulerTyped
  import opened SchedulerSafety
  import opened Conservation

  // ---------- departures come from leaves ----------

  ghost predicate FromLeaves(out: seq<Departure>, m: nat) {
    forall i | 0 <= i < |out| :: 1 <= out[i].tree < m
  }

  lemma {:induction false} StatsFromLeaves(s: State, cfg: Config, k: nat)
    requires Shape(s, cfg) && k <= N(s) && FromLeaves(s.out, cfg.m)
    ensures FromLeaves(Stats(s, cfg, k).out, cfg.m)
  {
    hide Enqueue, B.Pop, B.Top;
    if k > 0 {
      StatsFromLeaves(s, cfg, k - 1);
    }
  }

  lemma {:induction false} RunFromLeaves(s: State, cfg: Config, locks: seq<seq<bool>>)
    requires Initial(s, cfg)
    requires forall t | 0 <= t < |locks| :: |locks[t]| == N(s)
    ensures FromLeaves(Cycles(s, cfg, locks).out, cfg.m)
    decreases |locks|
  {
    if locks != [] {
      hide Initial, Intake, Stats, DispatchAll;
      var last := |locks| - 1;
      RunFromLeaves(s, cfg, locks[..last]);
      var before := Cycles(s, cfg, locks[..last]);
      StatsFromLeaves(Intake(before, cfg), cfg, N(s));
    }
  }

  // ---------- a trace with distinct metas ----------

  ghost predicate DistinctMetas(qs: seq<seq<Packet>>) {
    forall f, k, g, j | 0 <= f < |qs| && 0 <= k < |qs[f]| && 0 <= g < |qs| && 0 <= j < |qs[g]| &&
                        qs[f][k].meta == qs[g][j].meta :: f == g && k == j
  }

  predicate At(qs: seq<seq<Packet>>, f: nat, k: nat, r: nat, e: B.Pair) {
    f < |qs| && k < |qs[f]| && qs[f][k].tree == r && PairOf(qs[f][k]) == e
  }

  lemma {:induction false} FindInQueue(q: seq<Packet>, r: nat, e: B.Pair) returns (k: nat)
    requires InQueue(q, r, e) > 0
    ensures k < |q| && q[k].tree == r && PairOf(q[k]) == e
  {
    if q[0].tree == r && PairOf(q[0]) == e {
      k := 0;
    } else {
      k := FindInQueue(q[1..], r, e);
      k := k + 1;
    }
  }

  lemma FindPacket(qs: seq<seq<Packet>>, r: nat, e: B.Pair) returns (f: nat, k: nat)
    requires InQueues(qs, r, e) > 0
    ensures At(qs, f, k, r, e)
  {
    var xs := seq(|qs|, g requires 0 <= g < |qs| => InQueue(qs[g], r, e));
    SumZero(xs);
    f :| 0 <= f < |xs| && xs[f] != 0;
    k := FindInQueue(qs[f], r, e);
  }

  lemma {:induction false} QueueOnce(q: seq<Packet>, r: nat, e: B.Pair)
    requires forall k, j | 0 <= k < |q| && 0 <= j < |q| && q[k].meta == q[j].meta :: k == j
    ensures InQueue(q, r, e) <= 1
  {
    if q != [] {
      QueueOnce(q[1..], r, e);
      if InQueue(q[1..], r, e) > 0 {
        var k := FindInQueue(q[1..], r, e);
        assert q[k + 1] == q[1..][k];
      }
    }
  }

  lemma {:induction false} SumOnce(xs: seq<nat>)
    requires forall i | 0 <= i < |xs| :: xs[i] <= 1
    requires forall i, j | 0 <= i < |xs| && 0 <= j < |xs| && xs[i] > 0 && xs[j] > 0 :: i == j
    ensures Sum(xs) <= 1
  {
    if xs != [] {
      if xs[0] > 0 {
        forall i | 0 <= i < |xs[1..]| ensures xs[1..][i] == 0 {
          assert xs[1..][i] == xs[i + 1];
        }
        SumZero(xs[1..]);
      } else {
        SumOnce(xs[1..]);
      }
    }
  }

  lemma PacketOnce(qs: seq<seq<Packet>>, r: nat, e: B.Pair)
    requires DistinctMetas(qs)
    ensures InQueues(qs, r, e) <= 1
  {
    var xs := seq(|qs|, g requires 0 <= g < |qs| => InQueue(qs[g], r, e));
    forall f | 0 <= f < |qs| ensures xs[f] <= 1 {
      QueueOnce(qs[f], r, e);
    }
    forall f, g | 0 <= f < |qs| && 0 <= g < |qs| && xs[f] > 0 && xs[g] > 0 ensures f == g {
      var k := FindInQueue(qs[f], r, e);
      var j := FindInQueue(qs[g], r, e);
    }
    SumOnce(xs);
  }

  // ---------- the output ----------

  lemma {:induction false} OutCounts(out: seq<Departure>, i: nat)
    requires i < |out|
    ensures InOut(out, out[i].tree, out[i].pkt) >= 1
    decreases |out|
  {
    if i < |out| - 1 {
      OutCounts(out[..|out| - 1], i);
    }
  }

  lemma {:induction false} OutCountsTwice(out: seq<Departure>, i: nat, j: nat)
    requires i < j < |out| && out[i] == out[j]
    ensures InOut(out, out[i].tree, out[i].pkt) >= 2
    decreases |out|
  {
    if j < |out| - 1 {
      OutCountsTwice(out[..|out| - 1], i, j);
    } else {
      OutCounts(out[..|out| - 1], i);
    }
  }

  /** In any reachable state: a departure is a packet of the trace that is no longer queued. */
  lemma DepartedWasPushed(s: State, cfg: Config, locks: seq<seq<bool>>, i: nat) returns (f: nat, k: nat)
    requires Initial(s, cfg) && TraceOk(s, cfg) && Sum(s.popQ) <= Waiting(s) && DistinctMetas(s.pushQ)
    requires forall t | 0 <= t < |locks| :: |locks[t]| == N(s)
    requires i < |Cycles(s, cfg, locks).out|
    ensures var now := Cycles(s, cfg, locks);
            var d := now.out[i];
            && At(s.pushQ, f, k, d.tree, d.pkt)
            && InQueues(now.pushQ, d.tree, d.pkt) == 0
            && InOut(now.out, d.tree, d.pkt) == 1
  {
    assert Shape(s, cfg);
    hide Cycles, Initial, TraceOk, Waiting, DistinctMetas, InQueues, InOut, InList, B.Elems;
    var now := Cycles(s, cfg, locks);
    var d := now.out[i];
    RunFromLeaves(s, cfg, locks);
    RunKept(s, cfg, locks, d.tree, d.pkt);
    OutCounts(now.out, i);
    PacketOnce(s.pushQ, d.tree, d.pkt);
    f, k := FindPacket(s.pushQ, d.tree, d.pkt);
  }

  /** Over a whole run no meta departs twice. */
  lemma NeverTwice(s: State, cfg: Config, locks: seq<seq<bool>>, i: nat, j: nat)
    requires Initial(s, cfg) && TraceOk(s, cfg) && Sum(s.popQ) <= Waiting(s) && DistinctMetas(s.pushQ)
    requires forall t | 0 <= t < |locks| :: |locks[t]| == N(s)
    requires i < j < |Cycles(s, cfg, locks).out|
    ensures Cycles(s, cfg, locks).out[i].pkt.val != Cycles(s, cfg, locks).out[j].pkt.val
  {
    assert Shape(s, cfg);
    hide Cycles, Initial, TraceOk, Waiting, InQueues, InOut;
    var f, k := DepartedWasPushed(s, cfg, locks, i);
    var g, l := DepartedWasPushed(s, cfg, locks, j);
    var out := Cycles(s, cfg, locks).out;
    if out[i] == out[j] {
      OutCountsTwice(out, i, j);
    }
  }
}
