/**
 Weighted fair queueing ranks: a virtual clock that advances when packets leave a
 reference queue, and a start tag for each arriving packet.

 Doubles are reals here; the casts to integers are kept.
 */
module Wfq {
  import B = BmwTree

  datatype PacketOut = PacketOut(depart: real, weight: real)

  datatype Arrival = Arrival(flow: string, time: int, len: nat)

  /** The cast of a real to an integer, towards zero. */
  function Trunc(x: real): int {
    if x >= 0.0 then x.Floor else -((-x).Floor)
  }

  function NextVirTime(curReal: int, curVir: real, nextReal: int, weightSum: real): real
    requires weightSum != 0.0
  {
    curVir + (nextReal - curReal) as real / weightSum
  }

  /** The virtual time arrives here as an integer. */
  function NextRealTime(curReal: int, curVir: real, nextVir: int, weightSum: real): real {
    curReal as real + (nextVir as real - curVir) * weightSum
  }

  function Max(a: real, b: real): real {
    if a < b then b else a
  }

  // ---------- the departure queue ----------

  function WeightSum(q: seq<PacketOut>): real {
    if q == [] then 0.0 else q[0].weight + WeightSum(q[1..])
  }

  function Without(q: seq<PacketOut>, k: nat): (r: seq<PacketOut>)
    requires k < |q|
    ensures |r| == |q| - 1
  {
    q[..k] + q[k + 1..]
  }

  predicate Earliest(q: seq<PacketOut>, k: nat) {
    k < |q| && forall j | 0 <= j < |q| :: q[k].depart <= q[j].depart
  }

  ghost predicate PositiveWeights(q: seq<PacketOut>) {
    forall j | 0 <= j < |q| :: q[j].weight > 0.0
  }

  ghost predicate DepartFrom(q: seq<PacketOut>, v: real) {
    forall j | 0 <= j < |q| :: q[j].depart >= v
  }

  lemma {:induction false} WeightSumAppend(q: seq<PacketOut>, r: seq<PacketOut>)
    ensures WeightSum(q + r) == WeightSum(q) + WeightSum(r)
  {
    if q == [] {
      assert q + r == r;
    } else {
      assert (q + r)[1..] == q[1..] + r;
      WeightSumAppend(q[1..], r);
    }
  }

  lemma WeightSumWithout(q: seq<PacketOut>, k: nat)
    requires k < |q|
    ensures WeightSum(Without(q, k)) == WeightSum(q) - q[k].weight
  {
    hide WeightSum;
    assert q == q[..k] + q[k..] && q[k..][0] == q[k] && q[k..][1..] == q[k + 1..];
    WeightSumAppend(q[..k], q[k..]);
    WeightSumHead(q[k..]);
    WeightSumAppend(q[..k], q[k + 1..]);
  }

  lemma WeightSumHead(q: seq<PacketOut>)
    requires q != []
    ensures WeightSum(q) == q[0].weight + WeightSum(q[1..])
  {
  }

  lemma MoveToGone(all: multiset<PacketOut>, gone: seq<PacketOut>, q: seq<PacketOut>, k: nat)
    requires k < |q| && all == multiset(gone) + multiset(q)
    ensures all == multiset(gone + [q[k]]) + multiset(Without(q, k))
  {
    assert q == q[..k] + [q[k]] + q[k + 1..];
    assert multiset(q) == multiset(q[..k]) + multiset{q[k]} + multiset(q[k + 1..]);
  }

  lemma {:induction false} WeightSumPositive(q: seq<PacketOut>)
    requires PositiveWeights(q)
    ensures WeightSum(q) >= 0.0 && (q != [] ==> WeightSum(q) > 0.0)
  {
    if q != [] {
      WeightSumPositive(q[1..]);
    }
  }

  lemma {:induction false} EarliestExists(q: seq<PacketOut>) returns (k: nat)
    requires q != []
    ensures Earliest(q, k)
  {
    k := 0;
    if |q| > 1 {
      var j := EarliestExists(q[1..]);
      k := if q[j + 1].depart < q[0].depart then j + 1 else 0;
      forall i | 0 <= i < |q| ensures q[k].depart <= q[i].depart {
        assert i > 0 ==> q[i] == q[1..][i - 1];
      }
    }
  }

  /** When the earliest packet departs after the clock's next reading, all depart after the clock. */
  lemma AllLater(q: seq<PacketOut>, k: nat, curReal: int, curVir: real, nextReal: int, weightSum: real)
    requires Earliest(q, k) && curReal <= nextReal && weightSum > 0.0
    requires q[k].depart > NextVirTime(curReal, curVir, nextReal, weightSum)
    ensures forall j | 0 <= j < |q| :: q[j].depart > NextVirTime(curReal, curVir, nextReal, weightSum)
    ensures forall j | 0 <= j < |q| :: q[j].depart > curVir
  {
    assert (nextReal - curReal) as real / weightSum >= 0.0;
  }

  /** The virtual clock reads the same after a stretch of real time if and only if no time passed. */
  lemma NoTimePasses(before: int, vir: real, now: int, weightSum: real)
    requires weightSum > 0.0
    ensures NextVirTime(before, vir, now, weightSum) == vir <==> before == now
  {
    var d := (now - before) as real;
    if d != 0.0 {
      assert d / weightSum * weightSum == d;
    }
  }

  /** The two conversions are inverse: real time `n` is when the virtual clock reads `d`. */
  lemma ClocksInverse(r: int, v: real, n: int, d: int, weightSum: real)
    requires weightSum > 0.0
    ensures NextRealTime(r, v, d, weightSum) == n as real <==> NextVirTime(r, v, n, weightSum) == d as real
  {
    var q := (n - r) as real / weightSum;
    assert q * weightSum == (n - r) as real;
    if NextRealTime(r, v, d, weightSum) == n as real {
      assert (d as real - v) * weightSum == q * weightSum;
      Cancel(d as real - v, q, weightSum);
    }
  }

  lemma Cancel(a: real, b: real, c: real)
    requires a * c == b * c && c > 0.0
    ensures a == b
  {
    assert (a - b) * c == 0.0;
  }

  // ---------- the clocks along departures ----------

  datatype Clock = Clock(now: int, vir: real, weight: real)

  /** The clocks and the weight sum after packets departed one after another. */
  function ClockAfter(c: Clock, gone: seq<PacketOut>): Clock {
    if gone == [] then c
    else
      var b := ClockAfter(c, gone[..|gone| - 1]);
      var p := gone[|gone| - 1];
      Clock(Trunc(NextRealTime(b.now, b.vir, Trunc(p.depart), b.weight)), p.depart, b.weight - p.weight)
  }

  /** Each packet departs no later than the virtual clock would read at the arrival. */
  ghost predicate Due(c: Clock, gone: seq<PacketOut>, nextReal: int) {
    gone == [] ||
    var b := ClockAfter(c, gone[..|gone| - 1]);
    && Due(c, gone[..|gone| - 1], nextReal)
    && b.weight != 0.0 && gone[|gone| - 1].depart <= NextVirTime(b.now, b.vir, nextReal, b.weight)
  }

  lemma OneMoreGone(c: Clock, gone: seq<PacketOut>, p: PacketOut, nextReal: int)
    ensures var b := ClockAfter(c, gone);
            && ClockAfter(c, gone + [p]) ==
               Clock(Trunc(NextRealTime(b.now, b.vir, Trunc(p.depart), b.weight)), p.depart, b.weight - p.weight)
            && (Due(c, gone, nextReal) && b.weight != 0.0 && p.depart <= NextVirTime(b.now, b.vir, nextReal, b.weight) ==>
                  Due(c, gone + [p], nextReal))
  {
    assert (gone + [p])[..|gone|] == gone;
  }

  // ---------- truncation ----------

  /** Truncation never carries the real clock past the arrival it is heading for. */
  lemma RealTimeNotPast(curReal: int, curVir: real, depart: real, weightSum: real, nextReal: int)
    requires weightSum > 0.0 && depart >= 0.0 && nextReal >= 0
    requires depart <= NextVirTime(curReal, curVir, nextReal, weightSum)
    ensures Trunc(NextRealTime(curReal, curVir, Trunc(depart), weightSum)) <= nextReal
  {
    var d := (nextReal - curReal) as real;
    assert (depart - curVir) * weightSum <= d by {
      MulLeq(depart - curVir, d / weightSum, weightSum);
    }
    MulLeq(Trunc(depart) as real - curVir, depart - curVir, weightSum);
    assert NextRealTime(curReal, curVir, Trunc(depart), weightSum) <= nextReal as real;
  }

  lemma MulLeq(a: real, b: real, c: real)
    requires a <= b && c >= 0.0
    ensures a * c <= b * c
  {
  }

  lemma TruncNat(a: real)
    requires a >= 0.0
    ensures Trunc(a) >= 0
  {
  }

  /** The cast goes towards zero, by less than one. */
  lemma TruncTowardsZero(a: real)
    ensures a >= 0.0 ==> 0.0 <= Trunc(a) as real <= a < Trunc(a) as real + 1.0
    ensures a <= 0.0 ==> Trunc(a) as real - 1.0 < a <= Trunc(a) as real <= 0.0
  {
  }

  lemma TruncMonotone(a: real, b: real)
    requires 0.0 <= a <= b
    ensures Trunc(a) <= Trunc(b)
  {
  }

  // ---------- start tags of a trace ----------

  /** The last of the first `k` packets that is of flow `f`, or -1. */
  function LastOf(trace: seq<Arrival>, k: nat, f: string): (i: int)
    requires k <= |trace|
    ensures -1 <= i < k && (i >= 0 ==> trace[i].flow == f) && forall j | i < j < k :: trace[j].flow != f
  {
    if k == 0 then -1 else if trace[k - 1].flow == f then k - 1 else LastOf(trace, k - 1, f)
  }

  ghost predicate Known(weights: map<string, real>, trace: seq<Arrival>) {
    forall i | 0 <= i < |trace| :: trace[i].flow in weights && weights[trace[i].flow] > 0.0
  }

  /** A packet finishes its length per weight after its start. */
  function FinishOf(weights: map<string, real>, trace: seq<Arrival>, starts: seq<real>, i: nat): real
    requires i < |starts| && |starts| <= |trace| && Known(weights, trace)
  {
    starts[i] + trace[i].len as real / weights[trace[i].flow]
  }

  /** The clock at the arrival or the finish of the flow's previous packet, whichever is later. */
  function StartOf(weights: map<string, real>, trace: seq<Arrival>, clocks: seq<real>, starts: seq<real>, i: nat): real
    requires i < |clocks| == |starts| <= |trace| && Known(weights, trace)
  {
    var p := LastOf(trace, i, trace[i].flow);
    if p == -1 then clocks[i] else Max(clocks[i], FinishOf(weights, trace, starts, p))
  }

  ghost predicate StartTags(weights: map<string, real>, trace: seq<Arrival>, clocks: seq<real>, starts: seq<real>) {
    && |clocks| == |starts| == |trace| && Known(weights, trace)
    && (forall i | 0 <= i < |clocks| :: clocks[i] >= 0.0)
    && (forall i, j | 0 <= i < j < |clocks| :: clocks[i] <= clocks[j])
    && (forall i | 0 <= i < |starts| :: starts[i] == StartOf(weights, trace, clocks, starts, i))
  }

  /** Start tags of one flow never decrease, and none is before the finish of an earlier packet. */
  lemma {:induction false} StartsGrow(weights: map<string, real>, trace: seq<Arrival>, clocks: seq<real>, starts: seq<real>, i: nat, j: nat)
    requires StartTags(weights, trace, clocks, starts) && i < j < |trace| && trace[i].flow == trace[j].flow
    ensures 0.0 <= starts[i] <= FinishOf(weights, trace, starts, i) <= starts[j]
    decreases j
  {
    StartNotNegative(weights, trace, clocks, starts, i);
    var p := LastOf(trace, j, trace[j].flow);
    assert i <= p;
    LongerFinish(weights, trace, starts, p);
    LongerFinish(weights, trace, starts, i);
    if i < p {
      StartsGrow(weights, trace, clocks, starts, i, p);
    }
    assert starts[j] == StartOf(weights, trace, clocks, starts, j);
  }

  lemma StartNotNegative(weights: map<string, real>, trace: seq<Arrival>, clocks: seq<real>, starts: seq<real>, i: nat)
    requires StartTags(weights, trace, clocks, starts) && i < |trace|
    ensures starts[i] >= 0.0
  {
    assert starts[i] == StartOf(weights, trace, clocks, starts, i);
  }

  lemma LongerFinish(weights: map<string, real>, trace: seq<Arrival>, starts: seq<real>, i: nat)
    requires i < |starts| && |starts| <= |trace| && Known(weights, trace)
    ensures FinishOf(weights, trace, starts, i) >= starts[i]
  {
    assert trace[i].len as real / weights[trace[i].flow] >= 0.0;
  }

  /** So the integer parts, with the packet numbers, strictly increase within a flow. */
  lemma TagsInOrder(weights: map<string, real>, trace: seq<Arrival>, clocks: seq<real>, starts: seq<real>)
    requires StartTags(weights, trace, clocks, starts)
    ensures forall i | 0 <= i < |trace| :: Trunc(starts[i]) >= 0
    ensures forall i, j | 0 <= i < j < |trace| && trace[i].flow == trace[j].flow ::
              B.Less(B.Pair(Trunc(starts[i]), i), B.Pair(Trunc(starts[j]), j))
  {
    assert |starts| == |trace|;
    hide StartTags;
    forall i | 0 <= i < |trace| ensures Trunc(starts[i]) >= 0 {
      StartNotNegative(weights, trace, clocks, starts, i);
    }
    forall i, j | 0 <= i < j < |trace| && trace[i].flow == trace[j].flow
      ensures B.Less(B.Pair(Trunc(starts[i]), i), B.Pair(Trunc(starts[j]), j))
    {
      StartsGrow(weights, trace, clocks, starts, i, j);
      TruncMonotone(starts[i], starts[j]);
    }
  }

  /** The finish time kept for a flow, if it has come by, is that of its last packet. */
  ghost predicate FinishTime(weights: map<string, real>, trace: seq<Arrival>, starts: seq<real>, last: map<string, real>, f: string)
    requires |starts| <= |trace| && Known(weights, trace)
  {
    var i := LastOf(trace, |starts|, f);
    (f in last <==> i >= 0) && (i >= 0 ==> last[f] == FinishOf(weights, trace, starts, i))
  }

  lemma SameStart(weights: map<string, real>, trace: seq<Arrival>, clocks: seq<real>, starts: seq<real>, clock: real, start: real, i: nat)
    requires i <= |clocks| == |starts| < |trace| && Known(weights, trace)
    requires i < |starts| ==> starts[i] == StartOf(weights, trace, clocks, starts, i)
    requires i == |starts| ==> start == StartOf(weights, trace, clocks + [clock], starts + [start], i)
    ensures (starts + [start])[i] == StartOf(weights, trace, clocks + [clock], starts + [start], i)
  {
  }

  lemma FinishStep(weights: map<string, real>, trace: seq<Arrival>, starts: seq<real>, last: map<string, real>, start: real, f: string)
    requires |starts| < |trace| && Known(weights, trace) && FinishTime(weights, trace, starts, last, f)
    ensures var p := trace[|starts|];
            FinishTime(weights, trace, starts + [start], last[p.flow := start + p.len as real / weights[p.flow]], f)
  {
    var k := |starts|;
    assert LastOf(trace, k + 1, f) == if trace[k].flow == f then k else LastOf(trace, k, f);
  }

  /** The virtual clock is where it was or at the departure of a packet that was outstanding. */
  lemma StandsAtDeparture(c: Clock, gone: seq<PacketOut>, all: seq<PacketOut>, left: seq<PacketOut>)
    requires multiset(all) == multiset(gone) + multiset(left)
    ensures ClockAfter(c, gone).vir == c.vir || exists p :: p in all && p.depart == ClockAfter(c, gone).vir
  {
    if gone != [] {
      var p := gone[|gone| - 1];
      assert p in multiset(gone) + multiset(left);
      assert p in all;
    }
  }

  lemma Joined(q: seq<PacketOut>, p: PacketOut, vir: real)
    requires PositiveWeights(q) && p.weight > 0.0 && p.depart >= vir
    requires forall j | 0 <= j < |q| :: q[j].depart > vir
    ensures WeightSum(q + [p]) == WeightSum(q) + p.weight && PositiveWeights(q + [p]) && DepartFrom(q + [p], vir)
  {
    WeightSumAppend(q, [p]);
  }

  lemma ClockStart(c: Clock, nextReal: int)
    ensures ClockAfter(c, []) == c && Due(c, [], nextReal)
  {
  }

  // ---------- the strategy object ----------

  class Strategy {
    const weightTable: map<string, real>
    var curWeightSum: real
    var virTime: real
    var realTime: int
    var lastVirFinishTime: map<string, real>
    /** The packets of the reference queue, in any order. */
    var outQueue: seq<PacketOut>

    ghost predicate WeightsOk() {
      forall f | f in weightTable :: weightTable[f] > 0.0
    }

    /** The weight sum is that of the queue, and nothing in the queue departs before the virtual clock. */
    ghost predicate QueueOk()
      reads this
    {
      && curWeightSum == WeightSum(outQueue) && PositiveWeights(outQueue)
      && virTime >= 0.0 && DepartFrom(outQueue, virTime)
    }

    ghost predicate Valid()
      reads this
    {
      && WeightsOk() && QueueOk()
      && realTime >= 0
      && (forall f | f in lastVirFinishTime :: lastVirFinishTime[f] >= 0.0)
    }

    constructor (weights: map<string, real>)
      requires forall f | f in weights :: weights[f] > 0.0
      ensures Valid() && weightTable == weights
      ensures virTime == 0.0 && realTime == 0 && outQueue == [] && lastVirFinishTime == map[]
    {
      weightTable := weights;
      curWeightSum := 0.0;
      virTime := 0.0;
      realTime := 0;
      lastVirFinishTime := map[];
      outQueue := [];
    }

    /** The earliest packet of the queue; which of several equally early ones is left open. */
    method Top() returns (k: nat)
      requires outQueue != []
      ensures k < |outQueue| && Earliest(outQueue, k)
    {
      ghost var w := EarliestExists(outQueue);
      assert w < |outQueue| && Earliest(outQueue, w);
      hide Earliest;
      k :| k < |outQueue| && Earliest(outQueue, k);
    }

    /** One departure on the way to an arrival: the clocks move to it and never past the arrival. */
    method Depart(k: nat, ghost nextReal: int)
      requires QueueOk() && Earliest(outQueue, k) && 0 <= nextReal
      requires curWeightSum != 0.0 && outQueue[k].depart <= NextVirTime(realTime, virTime, nextReal, curWeightSum)
      modifies this`curWeightSum, this`virTime, this`realTime, this`outQueue
      ensures outQueue == Without(old(outQueue), k) && virTime == old(outQueue)[k].depart >= old(virTime)
      ensures QueueOk()
      ensures realTime == Trunc(NextRealTime(old(realTime), old(virTime), Trunc(virTime), old(curWeightSum)))
      ensures curWeightSum == old(curWeightSum) - old(outQueue)[k].weight
      ensures realTime <= nextReal
    {
      WeightSumPositive(outQueue);
      WeightSumWithout(outQueue, k);
      RealTimeNotPast(realTime, virTime, outQueue[k].depart, curWeightSum, nextReal);
      var top := outQueue[k];
      outQueue := Without(outQueue, k);
      realTime := Trunc(NextRealTime(realTime, virTime, Trunc(top.depart), curWeightSum));
      curWeightSum := curWeightSum - top.weight;
      virTime := top.depart;
    }

    /**
     Moves the clocks to an arrival.  Packets depart earliest first as long as they are due:
     `exit` is what the clocks and the weight sum read after the last of them, and whatever is
     left departs later than the virtual clock would read at the arrival.  The real clock ends
     at the arrival, and the virtual clock stays at `exit`: it has its reading at the arrival
     if and only if no time passes between the two.
     */
    method UpdateVirTimeTo(nextReal: int, newWeight: real) returns (ghost gone: seq<PacketOut>, ghost exit: Clock)
      requires Valid() && realTime <= nextReal && newWeight > 0.0
      modifies this`curWeightSum, this`virTime, this`realTime, this`outQueue
      ensures realTime == nextReal
      ensures curWeightSum == WeightSum(outQueue) + newWeight && PositiveWeights(outQueue)
      ensures multiset(old(outQueue)) == multiset(gone) + multiset(outQueue)
      ensures exit == ClockAfter(Clock(old(realTime), old(virTime), old(curWeightSum)), gone)
      ensures Due(Clock(old(realTime), old(virTime), old(curWeightSum)), gone, nextReal)
      ensures exit.now <= nextReal && exit.weight == WeightSum(outQueue) && virTime == exit.vir >= old(virTime)
      ensures outQueue != [] ==> exit.weight > 0.0
      ensures forall j | 0 <= j < |outQueue| ::
                outQueue[j].depart > virTime && outQueue[j].depart > NextVirTime(exit.now, exit.vir, nextReal, exit.weight)
      ensures forall i, j | 0 <= i <= j < |gone| :: gone[i].depart <= gone[j].depart <= virTime
      ensures curWeightSum > 0.0
      ensures virTime == NextVirTime(exit.now, exit.vir, nextReal, curWeightSum) <==> exit.now == nextReal
    {
      hide WeightSum, Without, NextVirTime, NextRealTime, Earliest, ClockAfter, Due, Trunc;
      gone := [];
      ghost var c0 := Clock(realTime, virTime, curWeightSum);
      ClockStart(c0, nextReal);
      while outQueue != []
        invariant QueueOk() && virTime >= old(virTime)
        invariant realTime <= nextReal
        invariant multiset(old(outQueue)) == multiset(gone) + multiset(outQueue)
        invariant forall i, j | 0 <= i <= j < |gone| :: gone[i].depart <= gone[j].depart <= virTime
        invariant ClockAfter(c0, gone) == Clock(realTime, virTime, curWeightSum) && Due(c0, gone, nextReal)
        decreases |outQueue|
      {
        WeightSumPositive(outQueue);
        var k := Top();
        if !(outQueue[k].depart <= NextVirTime(realTime, virTime, nextReal, curWeightSum)) {
          AllLater(outQueue, k, realTime, virTime, nextReal, curWeightSum);
          break;
        }
        MoveToGone(multiset(old(outQueue)), gone, outQueue, k);
        OneMoreGone(c0, gone, outQueue[k], nextReal);
        gone := gone + [outQueue[k]];
        Depart(k, nextReal);
      }
      WeightSumPositive(outQueue);
      exit := Clock(realTime, virTime, curWeightSum);
      NoTimePasses(realTime, virTime, nextReal, curWeightSum + newWeight);
      realTime := nextReal;
      curWeightSum := curWeightSum + newWeight;
      NoTimePasses(realTime, virTime, nextReal, curWeightSum);
      virTime := NextVirTime(realTime, virTime, nextReal, curWeightSum);
    }

    /**
     The start tag of an arriving packet: not before the virtual clock, not before the finish
     of the flow's previous packet, and at the later of the two.  The rank is its integer part.
     */
    method CalPriority(flow: string, now: int, len: nat)
      returns (rank: int, ghost start: real, ghost gone: seq<PacketOut>, ghost exit: Clock)
      requires Valid() && flow in weightTable && realTime <= now
      modifies this`curWeightSum, this`virTime, this`realTime, this`outQueue, this`lastVirFinishTime
      ensures Valid() && realTime == now && virTime >= old(virTime)
      ensures virTime == old(virTime) || exists p :: p in old(outQueue) && p.depart == virTime
      ensures start == if flow in old(lastVirFinishTime) then Max(virTime, old(lastVirFinishTime)[flow]) else virTime
      ensures rank == Trunc(start) >= 0
      ensures lastVirFinishTime == old(lastVirFinishTime)[flow := start + len as real / weightTable[flow]]
      ensures lastVirFinishTime[flow] >= start
      ensures outQueue != [] && outQueue[|outQueue| - 1] == PacketOut(lastVirFinishTime[flow], weightTable[flow])
      ensures var left := outQueue[..|outQueue| - 1];
              && multiset(old(outQueue)) == multiset(gone) + multiset(left)
              && exit == ClockAfter(Clock(old(realTime), old(virTime), old(curWeightSum)), gone)
              && Due(Clock(old(realTime), old(virTime), old(curWeightSum)), gone, now)
              && virTime == exit.vir && exit.weight == WeightSum(left)
              && (left != [] ==> exit.weight > 0.0)
              && forall j | 0 <= j < |left| :: left[j].depart > NextVirTime(exit.now, exit.vir, now, exit.weight)
    {
      hide ClockAfter, Due, NextVirTime, WeightSum, PositiveWeights, Trunc;
      ghost var before := outQueue;
      gone, exit := UpdateVirTimeTo(now, weightTable[flow]);
      ghost var left := outQueue;
      StandsAtDeparture(Clock(old(realTime), old(virTime), old(curWeightSum)), gone, before, outQueue);
      var virStart := virTime;
      if flow in lastVirFinishTime {
        virStart := Max(virTime, lastVirFinishTime[flow]);
      }
      start := virStart;
      Enter(flow, virStart, len);
      assert outQueue[..|outQueue| - 1] == left;
      TruncNat(virStart);
      rank := Trunc(virStart);
    }

    /** A packet with its start tag joins the outstanding ones. */
    method Enter(flow: string, virStart: real, len: nat)
      requires WeightsOk() && flow in weightTable && realTime >= 0 && 0.0 <= virTime <= virStart
      requires curWeightSum == WeightSum(outQueue) + weightTable[flow] && PositiveWeights(outQueue)
      requires forall j | 0 <= j < |outQueue| :: outQueue[j].depart > virTime
      requires forall f | f in lastVirFinishTime :: lastVirFinishTime[f] >= 0.0
      modifies this`outQueue, this`lastVirFinishTime
      ensures Valid()
      ensures lastVirFinishTime == old(lastVirFinishTime)[flow := virStart + len as real / weightTable[flow]]
      ensures lastVirFinishTime[flow] >= virStart
      ensures outQueue == old(outQueue) + [PacketOut(lastVirFinishTime[flow], weightTable[flow])]
    {
      hide WeightSum, PositiveWeights;
      var weight := weightTable[flow];
      assert len as real / weight >= 0.0;
      var finish := virStart + len as real / weight;
      lastVirFinishTime := lastVirFinishTime[flow := finish];
      Joined(outQueue, PacketOut(finish, weight), virTime);
      outQueue := outQueue + [PacketOut(finish, weight)];
    }

    /**
     Tags a whole trace.  `clocks` is what the virtual clock reads at each arrival.  Every
     start tag is the later of that and the finish of the flow's previous packet, the rank is
     its integer part, and the ranks of one flow never decrease, so that its (rank, meta)
     pairs, meta being the packet's number, strictly increase.
     */
    method TagTrace(trace: seq<Arrival>) returns (ranks: seq<int>, ghost clocks: seq<real>, ghost starts: seq<real>)
      requires Valid() && lastVirFinishTime == map[]
      requires forall i | 0 <= i < |trace| :: trace[i].flow in weightTable && realTime <= trace[i].time
      requires forall i, j | 0 <= i < j < |trace| :: trace[i].time <= trace[j].time
      modifies this`curWeightSum, this`virTime, this`realTime, this`outQueue, this`lastVirFinishTime
      ensures Valid() && |ranks| == |trace|
      ensures StartTags(weightTable, trace, clocks, starts)
      ensures forall i | 0 <= i < |trace| :: ranks[i] == Trunc(starts[i]) >= 0
      ensures forall i, j | 0 <= i < j < |trace| && trace[i].flow == trace[j].flow ::
                B.Less(B.Pair(ranks[i], i), B.Pair(ranks[j], j))
    {
      assert virTime >= 0.0;
      hide QueueOk;
      ranks, clocks, starts := [], [], [];
      while |ranks| < |trace|
        invariant Valid() && virTime >= 0.0 && |ranks| == |clocks| == |starts| <= |trace|
        invariant forall i | |ranks| <= i < |trace| :: realTime <= trace[i].time
        invariant forall i | 0 <= i < |ranks| :: ranks[i] == Trunc(starts[i])
        invariant forall i | 0 <= i < |clocks| :: 0.0 <= clocks[i] <= virTime
        invariant forall i, j | 0 <= i < j < |clocks| :: clocks[i] <= clocks[j]
        invariant forall i | 0 <= i < |starts| :: starts[i] == StartOf(weightTable, trace, clocks, starts, i)
        invariant forall f :: FinishTime(weightTable, trace, starts, lastVirFinishTime, f)
      {
        var p := trace[|ranks|];
        ghost var k, before := |ranks|, lastVirFinishTime;
        ghost var start: real;
        ghost var gone, exit;
        var rank;
        rank, start, gone, exit := CalPriority(p.flow, p.time, p.len);
        ghost var clocks1, starts1 := clocks + [virTime], starts + [start];
        assert FinishTime(weightTable, trace, starts, before, p.flow);
        forall i | 0 <= i <= k ensures starts1[i] == StartOf(weightTable, trace, clocks1, starts1, i) {
          SameStart(weightTable, trace, clocks, starts, virTime, start, i);
        }
        forall f ensures FinishTime(weightTable, trace, starts1, lastVirFinishTime, f) {
          FinishStep(weightTable, trace, starts, before, start, f);
        }
        clocks, starts := clocks1, starts1;
        ranks := ranks + [rank];
      }
      TagsInOrder(weightTable, trace, clocks, starts);
    }
  }

  /** An arrival at which the virtual clock stands at 0 and would read 5. */
  method ClockStands() returns (s: Strategy)
    ensures s.virTime == 0.0 && s.realTime == 10 && s.curWeightSum == 2.0
    ensures NextVirTime(0, 0.0, 10, s.curWeightSum) == 5.0
  {
    s := new Strategy(map["a" := 1.0]);
    ghost var start, gone, exit;
    var rank;
    rank, start, gone, exit := s.CalPriority("a", 0, 100);
    NothingOutstanding(gone, s.outQueue);
    gone, exit := s.UpdateVirTimeTo(10, 1.0);
    NoneOrOnly(PacketOut(100.0, 1.0), gone, s.outQueue);
    FirstDue(Clock(0, 0.0, 1.0), PacketOut(100.0, 1.0), 10);
    assert WeightSum([PacketOut(100.0, 1.0)]) == 1.0;
  }

  /**
   Packets of 10, 12 and 1 bytes of three flows of weight 1, the third at time 21.  The first
   departs on the way, at real time 20; the second is not due before 22 and stays; the virtual
   clock stops at 10, and that is the third packet's rank.
   */
  method OneDeparts() returns (s: Strategy, rank: int, ghost exit: Clock)
    ensures rank == 10 && s.virTime == 10.0 && s.realTime == 21 && exit == Clock(20, 10.0, 1.0)
    ensures s.outQueue == [PacketOut(12.0, 1.0), PacketOut(11.0, 1.0)]
  {
    hide ClockAfter, Due, NextVirTime, NextRealTime, WeightSum, Trunc, PositiveWeights, DepartFrom;
    WeightsOfExample();
    s := TwoArrive();
    ghost var start, gone;
    rank, start, gone, exit := s.CalPriority("c", 21, 1);
    FirstOfTwo(gone, s.outQueue[..|s.outQueue| - 1], exit);
    assert s.outQueue == [PacketOut(12.0, 1.0), PacketOut(11.0, 1.0)];
  }

  /** The first two packets of that trace. */
  method TwoArrive() returns (s: Strategy)
    ensures fresh(s) && s.Valid() && s.weightTable == map["a" := 1.0, "b" := 1.0, "c" := 1.0]
    ensures s.virTime == 0.0 && s.realTime == 0 && s.curWeightSum == 2.0
    ensures s.outQueue == [PacketOut(10.0, 1.0), PacketOut(12.0, 1.0)] && s.lastVirFinishTime == map["a" := 10.0, "b" := 12.0]
  {
    hide ClockAfter, Due, NextVirTime, NextRealTime, WeightSum, Trunc, PositiveWeights, DepartFrom;
    WeightsOfExample();
    s := new Strategy(map["a" := 1.0, "b" := 1.0, "c" := 1.0]);
    ghost var start, gone, exit;
    var rank;
    rank, start, gone, exit := s.CalPriority("a", 0, 10);
    NothingOutstanding(gone, s.outQueue);
    ClockStart(Clock(0, 0.0, 0.0), 0);
    assert s.outQueue == [PacketOut(10.0, 1.0)];
    rank, start, gone, exit := s.CalPriority("b", 0, 12);
    NotYetDue(gone, s.outQueue[..|s.outQueue| - 1], exit);
    assert s.outQueue == [PacketOut(10.0, 1.0), PacketOut(12.0, 1.0)];
  }

  lemma WeightsOfExample()
    ensures WeightSum([]) == 0.0 && WeightSum([PacketOut(10.0, 1.0)]) == 1.0
    ensures WeightSum([PacketOut(10.0, 1.0), PacketOut(12.0, 1.0)]) == 2.0
    ensures Trunc(10.0) == 10
  {
    assert [PacketOut(10.0, 1.0)][1..] == [];
    var q := [PacketOut(10.0, 1.0), PacketOut(12.0, 1.0)];
    assert q[1..] == [PacketOut(12.0, 1.0)] && q[1..][1..] == [];
  }

  /** At time 0 a packet due at 10 stays. */
  lemma NotYetDue(gone: seq<PacketOut>, left: seq<PacketOut>, exit: Clock)
    requires multiset{PacketOut(10.0, 1.0)} == multiset(gone) + multiset(left)
    requires Due(Clock(0, 0.0, 1.0), gone, 0) && exit == ClockAfter(Clock(0, 0.0, 1.0), gone)
    ensures gone == [] && left == [PacketOut(10.0, 1.0)] && exit == Clock(0, 0.0, 1.0)
  {
    NoneOrOnly(PacketOut(10.0, 1.0), gone, left);
    FirstDue(Clock(0, 0.0, 1.0), PacketOut(10.0, 1.0), 0);
  }

  lemma NothingOutstanding(gone: seq<PacketOut>, q: seq<PacketOut>)
    requires q != [] && multiset{} == multiset(gone) + multiset(q[..|q| - 1])
    ensures gone == [] && q == [q[|q| - 1]]
  {
    assert |multiset(gone) + multiset(q[..|q| - 1])| == |gone| + (|q| - 1);
  }

  lemma Splits(a: PacketOut, b: PacketOut, p: seq<PacketOut>, q: seq<PacketOut>)
    requires a != b && multiset{a, b} == multiset(p) + multiset(q)
    ensures || (p == [] && a in q)
            || (p == [a] && q == [b])
            || (p == [b] && q == [a])
            || p == [a, b]
            || p == [b, a]
  {
    if p == [] {
      assert multiset(p) + multiset(q) == multiset(q);
    } else {
      HeadIsOne(a, b, p, q);
      if p[0] == a {
        NoneOrOnly(b, p[1..], q);
        assert p == [a] + p[1..];
      } else {
        NoneOrOnly(a, p[1..], q);
        assert p == [b] + p[1..];
      }
    }
  }

  lemma HeadIsOne(a: PacketOut, b: PacketOut, p: seq<PacketOut>, q: seq<PacketOut>)
    requires a != b && multiset{a, b} == multiset(p) + multiset(q) && p != []
    ensures p[0] == a || p[0] == b
    ensures multiset{if p[0] == a then b else a} == multiset(p[1..]) + multiset(q)
  {
    assert p[0] in multiset(p) + multiset(q);
    assert p == [p[0]] + p[1..];
    assert multiset(p) == multiset{p[0]} + multiset(p[1..]);
    var x, y := p[0], if p[0] == a then b else a;
    hide *;
    assert multiset{x, y} == multiset{a, b};
    Remainder(x, y, multiset(p[1..]), multiset(q));
  }

  lemma Remainder(x: PacketOut, y: PacketOut, p: multiset<PacketOut>, q: multiset<PacketOut>)
    requires multiset{x, y} == multiset{x} + p + q
    ensures multiset{y} == p + q
  {
    assert multiset{x, y} == multiset{x} + multiset{y};
    forall z ensures multiset{y}[z] == (p + q)[z] {
      assert (multiset{x} + multiset{y})[z] == (multiset{x} + p + q)[z];
    }
  }

  /** Of packets due at 10 and 12, each of weight 1, exactly the first departs by time 21. */
  lemma FirstOfTwo(gone: seq<PacketOut>, left: seq<PacketOut>, exit: Clock)
    requires multiset{PacketOut(10.0, 1.0), PacketOut(12.0, 1.0)} == multiset(gone) + multiset(left)
    requires exit == ClockAfter(Clock(0, 0.0, 2.0), gone) && Due(Clock(0, 0.0, 2.0), gone, 21)
    requires left != [] ==> exit.weight > 0.0
    requires forall j | 0 <= j < |left| :: left[j].depart > NextVirTime(exit.now, exit.vir, 21, exit.weight)
    ensures gone == [PacketOut(10.0, 1.0)] && left == [PacketOut(12.0, 1.0)] && exit == Clock(20, 10.0, 1.0)
  {
    var a, b := PacketOut(10.0, 1.0), PacketOut(12.0, 1.0);
    var c := Clock(0, 0.0, 2.0);
    Splits(a, b, gone, left);
    FirstDue(c, b, 21);
    assert [a][..0] == [] && [a, b][..1] == [a] && [b, a][..1] == [b];
    assert ClockAfter(c, [a]) == Clock(20, 10.0, 1.0);
    assert !Due(c, [a, b], 21) && !Due(c, [b, a], 21);
  }

  lemma NoneOrOnly(p: PacketOut, a: seq<PacketOut>, b: seq<PacketOut>)
    requires multiset{p} == multiset(a) + multiset(b)
    ensures (a == [p] && b == []) || (a == [] && b == [p])
  {
    assert |multiset(a) + multiset(b)| == |a| + |b| == 1;
    assert a != [] ==> a[0] in multiset(a) + multiset(b);
    assert b != [] ==> b[0] in multiset(a) + multiset(b);
  }

  lemma FirstDue(c: Clock, p: PacketOut, nextReal: int)
    requires c.weight != 0.0
    ensures Due(c, [p], nextReal) <==> p.depart <= NextVirTime(c.now, c.vir, nextReal, c.weight)
  {
    assert [p][..0] == [];
  }
}
