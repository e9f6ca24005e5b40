/**
 Fairness of the start tags: while two flows of one leaf both have packets queued, the
 service they have had, in bytes per weight, stays within one packet and one unit of rank.
 */
module Fairness {
  import B = BmwTree
  import opened Wfq

  /** A flow that stays backlogged from its first start tag on. */
  datatype Backlog = Backlog(weight: real, first: real, lens: seq<nat>, metas: seq<int>)

  ghost predicate BacklogOk(b: Backlog) {
    && b.weight > 0.0 && b.first >= 0.0 && |b.lens| == |b.metas|
    && forall i, j | 0 <= i < j < |b.metas| :: b.metas[i] < b.metas[j]
  }

  /** Bytes per weight of the first `i` packets. */
  function Service(b: Backlog, i: nat): real
    requires b.weight != 0.0 && i <= |b.lens|
  {
    if i == 0 then 0.0 else Service(b, i - 1) + b.lens[i - 1] as real / b.weight
  }

  /** Each start tag is the previous finish tag. */
  function Start(b: Backlog, i: nat): real
    requires b.weight != 0.0 && i <= |b.lens|
  {
    b.first + Service(b, i)
  }

  /** What the leaf tree holds for packet `i`. */
  function Tag(b: Backlog, i: nat): B.Pair
    requires b.weight != 0.0 && i < |b.lens| == |b.metas|
  {
    B.Pair(Trunc(Start(b, i)), b.metas[i])
  }

  ghost predicate AllQueued(b: Backlog, t: B.Tree)
    requires BacklogOk(b)
  {
    forall i | 0 <= i < |b.lens| :: Tag(b, i) in B.Elems(t)
  }

  lemma {:induction false} ServiceGrows(b: Backlog, i: nat, j: nat)
    requires BacklogOk(b) && i <= j <= |b.lens|
    ensures 0.0 <= Service(b, i) <= Service(b, j)
    decreases j
  {
    if j > 0 {
      assert b.lens[j - 1] as real / b.weight >= 0.0;
      if i < j {
        ServiceGrows(b, i, j - 1);
      } else {
        ServiceGrows(b, i - 1, j - 1);
      }
    }
  }

  lemma TagsIncrease(b: Backlog, i: nat, j: nat)
    requires BacklogOk(b) && i < j < |b.lens|
    ensures B.Less(Tag(b, i), Tag(b, j))
  {
    ServiceGrows(b, i, j);
    TruncMonotone(Start(b, i), Start(b, j));
  }

  /** The packets of a flow that `n` pops have served are its first ones. */
  lemma ServedIsPrefix(b: Backlog, t: B.Tree, n: nat, i: nat, j: nat)
    requires BacklogOk(b) && t.Node? && B.Heap(t) && n <= |B.Elems(t)| && AllQueued(b, t)
    requires i < j < |b.lens| && Tag(b, j) in B.Drain(t, n)
    ensures Tag(b, i) in B.Drain(t, n)
  {
    hide B.Elems, B.Heap, B.Drain, B.After;
    TagsIncrease(b, i, j);
    B.DrainConserves(t, n);
    assert Tag(b, i) in multiset(B.Drain(t, n)) + B.Elems(B.After(t, n));
    if Tag(b, i) !in multiset(B.Drain(t, n)) {
      var k :| 0 <= k < n && B.Drain(t, n)[k] == Tag(b, j);
      B.DrainSorted(t, n, k);
      assert false;
    }
  }

  /** A packet that was served had no larger rank than one that is still queued. */
  lemma ServedBefore(f: Backlog, g: Backlog, t: B.Tree, n: nat, i: nat, j: nat)
    requires BacklogOk(f) && BacklogOk(g) && t.Node? && B.Heap(t) && n <= |B.Elems(t)|
    requires i < |f.lens| && Tag(f, i) in B.Drain(t, n)
    requires j < |g.lens| && Tag(g, j) in B.Elems(B.After(t, n))
    ensures Trunc(Start(f, i)) <= Trunc(Start(g, j))
  {
    hide B.Elems, B.Heap, B.Drain, B.After, Start;
    var k :| 0 <= k < n && B.Drain(t, n)[k] == Tag(f, i);
    B.DrainSorted(t, n, k);
  }

  lemma TruncGap(a: real, b: real)
    requires a >= 0.0 && b >= 0.0 && Trunc(a) <= Trunc(b)
    ensures a < b + 1.0
  {
  }

  /** One side of the bound: `f` is ahead of `g` by less than its largest packet and one unit of rank. */
  lemma AheadBounded(f: Backlog, g: Backlog, t: B.Tree, n: nat, i: nat, j: nat, longest: nat)
    requires BacklogOk(f) && BacklogOk(g) && f.first == g.first
    requires t.Node? && B.Heap(t) && n <= |B.Elems(t)|
    requires i <= |f.lens| && (i > 0 ==> Tag(f, i - 1) in B.Drain(t, n))
    requires j < |g.lens| && Tag(g, j) in B.Elems(B.After(t, n))
    requires forall k | 0 <= k < |f.lens| :: f.lens[k] <= longest
    ensures Service(f, i) - Service(g, j) < longest as real / f.weight + 1.0
  {
    hide B.Elems, B.Heap, B.Drain, B.After;
    assert longest as real / f.weight >= 0.0;
    ServiceGrows(g, 0, j);
    if i > 0 {
      ServedBefore(f, g, t, n, i - 1, j);
      ServiceGrows(f, 0, i - 1);
      TruncGap(Start(f, i - 1), Start(g, j));
      DivLeq(f.lens[i - 1], longest, f.weight);
    }
  }

  lemma DivLeq(a: nat, b: nat, w: real)
    requires a <= b && w > 0.0
    ensures a as real / w <= b as real / w
  {
  }

  // ---------- what a number of pops serves ----------

  /** Bytes per weight of those of the first `k` packets that are in `out`. */
  ghost function Served(b: Backlog, out: seq<B.Pair>, k: nat): real
    requires b.weight != 0.0 && k <= |b.lens| == |b.metas|
  {
    if k == 0 then 0.0
    else Served(b, out, k - 1) + (if Tag(b, k - 1) in out then b.lens[k - 1] as real / b.weight else 0.0)
  }

  /** The first packet of a flow that is not served. */
  lemma {:induction false} FirstUnserved(b: Backlog, out: seq<B.Pair>, p: nat) returns (i: nat)
    requires BacklogOk(b) && p < |b.lens| && Tag(b, p) !in out
    ensures i <= p && Tag(b, i) !in out && forall k | 0 <= k < i :: Tag(b, k) in out
  {
    hide Tag;
    i := 0;
    while Tag(b, i) in out
      invariant i <= p && forall k | 0 <= k < i :: Tag(b, k) in out
      decreases p - i
    {
      i := i + 1;
    }
  }

  lemma {:induction false} ServedPrefix(b: Backlog, out: seq<B.Pair>, i: nat, k: nat)
    requires BacklogOk(b) && i <= |b.lens| && k <= |b.lens|
    requires forall j | 0 <= j < |b.lens| :: Tag(b, j) in out <==> j < i
    ensures Served(b, out, k) == Service(b, if k < i then k else i)
  {
    hide Tag;
    if k > 0 {
      ServedPrefix(b, out, i, k - 1);
    }
  }

  /** What pops serve of a flow that still has a packet queued is the work of its first packets. */
  lemma ServedOf(b: Backlog, t: B.Tree, n: nat, p: nat) returns (i: nat)
    requires BacklogOk(b) && t.Node? && B.Heap(t) && n <= |B.Elems(t)| && AllQueued(b, t)
    requires p < |b.lens| && Tag(b, p) !in B.Drain(t, n)
    ensures i < |b.lens| && Served(b, B.Drain(t, n), |b.lens|) == Service(b, i)
    ensures (i > 0 ==> Tag(b, i - 1) in B.Drain(t, n)) && Tag(b, i) in B.Elems(B.After(t, n))
  {
    hide Tag, B.Elems, B.Heap, B.Drain, B.After;
    var out := B.Drain(t, n);
    i := FirstUnserved(b, out, p);
    forall j | i < j < |b.lens| ensures Tag(b, j) !in out {
      if Tag(b, j) in out {
        ServedIsPrefix(b, t, n, i, j);
      }
    }
    ServedPrefix(b, out, i, |b.lens|);
    B.DrainConserves(t, n);
    assert Tag(b, i) in multiset(out) + B.Elems(B.After(t, n));
  }

  /**
   Two backlogged flows of one leaf, all packets in the tree before the first departure.
   After any number of pops that leaves a packet of each, the bytes per weight served of the
   two differ by less than the larger of their longest packets per weight, plus one for the
   integer part of the rank.
   */
  lemma FairShares(f: Backlog, g: Backlog, t: B.Tree, n: nat, p: nat, q: nat, longestF: nat, longestG: nat)
    requires BacklogOk(f) && BacklogOk(g) && f.first == g.first
    requires t.Node? && B.Heap(t) && n <= |B.Elems(t)| && AllQueued(f, t) && AllQueued(g, t)
    requires p < |f.lens| && Tag(f, p) !in B.Drain(t, n)
    requires q < |g.lens| && Tag(g, q) !in B.Drain(t, n)
    requires forall k | 0 <= k < |f.lens| :: f.lens[k] <= longestF
    requires forall k | 0 <= k < |g.lens| :: g.lens[k] <= longestG
    ensures var bound := Max(longestF as real / f.weight, longestG as real / g.weight) + 1.0;
            -bound < Served(f, B.Drain(t, n), |f.lens|) - Served(g, B.Drain(t, n), |g.lens|) < bound
  {
    hide B.Elems, B.Heap, B.Drain, B.After, Tag, Served, Service;
    var i := ServedOf(f, t, n, p);
    var j := ServedOf(g, t, n, q);
    AheadBounded(f, g, t, n, i, j, longestF);
    AheadBounded(g, f, t, n, j, i, longestG);
  }

  // ---------- the tags the strategy gives ----------

  /** The packets of flow `f` among the first `k` of a trace, by number. */
  function Indices(trace: seq<Arrival>, k: nat, f: string): (ix: seq<nat>)
    requires k <= |trace|
    ensures forall i | 0 <= i < |ix| :: ix[i] < k && trace[ix[i]].flow == f
    ensures forall i, j | 0 <= i < j < |ix| :: ix[i] < ix[j]
    ensures forall m | 0 <= m < k && trace[m].flow == f :: m in ix
  {
    if k == 0 then []
    else Indices(trace, k - 1, f) + (if trace[k - 1].flow == f then [k - 1] else [])
  }

  function PacketsOf(trace: seq<Arrival>, f: string): seq<nat> {
    Indices(trace, |trace|, f)
  }

  /** The packet of the flow before its packet number `i`. */
  lemma Previous(trace: seq<Arrival>, f: string, i: nat)
    requires i < |PacketsOf(trace, f)|
    ensures var ix := PacketsOf(trace, f);
            LastOf(trace, ix[i], f) == if i == 0 then -1 else ix[i - 1]
  {
    var ix := PacketsOf(trace, f);
    var p := LastOf(trace, ix[i], f);
    hide Indices, LastOf;
    if p >= 0 {
      assert trace[p].flow == f && p in ix;
      var m :| 0 <= m < |ix| && ix[m] == p;
      assert m < i;
    }
    if i > 0 {
      assert ix[i - 1] < ix[i];
    }
  }

  /** The packets of a trace have numbers that increase. */
  ghost predicate Numbered(metas: seq<int>, n: nat) {
    |metas| == n && forall i, j | 0 <= i < j < n :: metas[i] < metas[j]
  }

  /** A flow of a tagged trace, from its first start tag on. */
  function BacklogOf(weights: map<string, real>, trace: seq<Arrival>, starts: seq<real>, metas: seq<int>, f: string): Backlog
    requires f in weights && |starts| == |metas| == |trace| && PacketsOf(trace, f) != []
  {
    var ix := PacketsOf(trace, f);
    Backlog(weights[f], starts[ix[0]], seq(|ix|, i requires 0 <= i < |ix| => trace[ix[i]].len),
            seq(|ix|, i requires 0 <= i < |ix| => metas[ix[i]]))
  }

  /** Whenever a packet of the flow arrives the virtual clock has not passed the finish of the one before. */
  ghost predicate StaysBacklogged(weights: map<string, real>, trace: seq<Arrival>, clocks: seq<real>, starts: seq<real>, f: string)
    requires |clocks| == |starts| == |trace| && Known(weights, trace)
  {
    var ix := PacketsOf(trace, f);
    forall i | 0 < i < |ix| :: clocks[ix[i]] <= FinishOf(weights, trace, starts, ix[i - 1])
  }

  lemma BacklogIsOk(weights: map<string, real>, trace: seq<Arrival>, clocks: seq<real>, starts: seq<real>, metas: seq<int>, f: string)
    requires Numbered(metas, |trace|) && StartTags(weights, trace, clocks, starts) && PacketsOf(trace, f) != []
    ensures f in weights && BacklogOk(BacklogOf(weights, trace, starts, metas, f))
  {
    var ix := PacketsOf(trace, f);
    hide Indices;
    assert trace[ix[0]].flow == f;
    StartNotNegative(weights, trace, clocks, starts, ix[0]);
  }

  /** The strategy gives a backlogged flow exactly the tags of the backlog. */
  lemma {:induction false} BacklogTags(weights: map<string, real>, trace: seq<Arrival>, clocks: seq<real>, starts: seq<real>, metas: seq<int>, f: string, i: nat)
    requires Numbered(metas, |trace|) && StartTags(weights, trace, clocks, starts) && StaysBacklogged(weights, trace, clocks, starts, f)
    requires i < |PacketsOf(trace, f)|
    ensures f in weights && BacklogOk(BacklogOf(weights, trace, starts, metas, f))
    ensures var b, ix := BacklogOf(weights, trace, starts, metas, f), PacketsOf(trace, f);
            starts[ix[i]] == Start(b, i) && Tag(b, i) == B.Pair(Trunc(starts[ix[i]]), metas[ix[i]])
  {
    BacklogIsOk(weights, trace, clocks, starts, metas, f);
    hide Indices, LastOf;
    var b, ix := BacklogOf(weights, trace, starts, metas, f), PacketsOf(trace, f);
    if i > 0 {
      BacklogTags(weights, trace, clocks, starts, metas, f, i - 1);
      Previous(trace, f, i);
      assert starts[ix[i]] == StartOf(weights, trace, clocks, starts, ix[i]);
      assert trace[ix[i]].flow == f && trace[ix[i - 1]].flow == f;
      assert starts[ix[i]] == FinishOf(weights, trace, starts, ix[i - 1]);
    }
  }

  /** The leaf tree holds every packet of the flow, under its rank and number. */
  ghost predicate InTree(trace: seq<Arrival>, starts: seq<real>, metas: seq<int>, f: string, t: B.Tree)
    requires |starts| == |metas| == |trace|
  {
    var ix := PacketsOf(trace, f);
    forall i | 0 <= i < |ix| :: B.Pair(Trunc(starts[ix[i]]), metas[ix[i]]) in B.Elems(t)
  }

  lemma TaggedIsQueued(weights: map<string, real>, trace: seq<Arrival>, clocks: seq<real>, starts: seq<real>, metas: seq<int>, f: string, t: B.Tree)
    requires Numbered(metas, |trace|) && StartTags(weights, trace, clocks, starts) && StaysBacklogged(weights, trace, clocks, starts, f)
    requires PacketsOf(trace, f) != [] && InTree(trace, starts, metas, f, t)
    ensures f in weights && BacklogOk(BacklogOf(weights, trace, starts, metas, f)) && AllQueued(BacklogOf(weights, trace, starts, metas, f), t)
  {
    assert |starts| == |trace|;
    hide Indices, Start, Tag, Trunc, StartTags, StaysBacklogged, B.Elems;
    BacklogIsOk(weights, trace, clocks, starts, metas, f);
    var b, ix := BacklogOf(weights, trace, starts, metas, f), PacketsOf(trace, f);
    forall i | 0 <= i < |b.lens| ensures Tag(b, i) in B.Elems(t) {
      BacklogTags(weights, trace, clocks, starts, metas, f, i);
      assert B.Pair(Trunc(starts[ix[i]]), metas[ix[i]]) in B.Elems(t);
    }
  }

  /** All a flow of a tagged trace brings to the bound. */
  lemma Ready(weights: map<string, real>, trace: seq<Arrival>, clocks: seq<real>, starts: seq<real>, metas: seq<int>, f: string,
              t: B.Tree, out: seq<B.Pair>, p: nat, longest: nat)
    requires Numbered(metas, |trace|) && StartTags(weights, trace, clocks, starts) && StaysBacklogged(weights, trace, clocks, starts, f)
    requires p < |PacketsOf(trace, f)| && InTree(trace, starts, metas, f, t)
    requires B.Pair(Trunc(starts[PacketsOf(trace, f)[p]]), metas[PacketsOf(trace, f)[p]]) !in out
    requires forall i | 0 <= i < |trace| && trace[i].flow == f :: trace[i].len <= longest
    ensures f in weights && weights[f] > 0.0
    ensures var b := BacklogOf(weights, trace, starts, metas, f);
            && BacklogOk(b) && AllQueued(b, t) && p < |b.lens| && Tag(b, p) !in out
            && b.weight == weights[f] && b.first == starts[PacketsOf(trace, f)[0]]
            && forall k | 0 <= k < |b.lens| :: b.lens[k] <= longest
  {
    TaggedIsQueued(weights, trace, clocks, starts, metas, f, t);
    BacklogTags(weights, trace, clocks, starts, metas, f, p);
    hide Indices, Start, Tag, Trunc, StartTags, StaysBacklogged, AllQueued, InTree;
    var b, ix := BacklogOf(weights, trace, starts, metas, f), PacketsOf(trace, f);
    forall k | 0 <= k < |b.lens| ensures b.lens[k] <= longest {
      assert trace[ix[k]].flow == f;
    }
  }

  /** Bytes per weight of a flow of a trace that are in `out`. */
  ghost function Work(weights: map<string, real>, trace: seq<Arrival>, starts: seq<real>, metas: seq<int>, f: string, out: seq<B.Pair>): real
    requires f in weights && weights[f] != 0.0 && |starts| == |metas| == |trace| && PacketsOf(trace, f) != []
  {
    var b := BacklogOf(weights, trace, starts, metas, f);
    Served(b, out, |b.lens|)
  }

  /**
   Fairness of a trace that the strategy tagged: two flows that stay backlogged and start
   together, all of their packets in the leaf tree whatever else it holds.  After any number
   of pops that leaves packet `p` of one and packet `q` of the other, the bytes per weight
   served differ by less than the larger of their longest packets per weight, plus one.
   */
  lemma FairTrace(weights: map<string, real>, trace: seq<Arrival>, clocks: seq<real>, starts: seq<real>, metas: seq<int>, f: string, g: string,
                  t: B.Tree, n: nat, p: nat, q: nat, longestF: nat, longestG: nat)
    requires Numbered(metas, |trace|) && StartTags(weights, trace, clocks, starts)
    requires StaysBacklogged(weights, trace, clocks, starts, f) && StaysBacklogged(weights, trace, clocks, starts, g)
    requires p < |PacketsOf(trace, f)| && q < |PacketsOf(trace, g)|
    requires starts[PacketsOf(trace, f)[0]] == starts[PacketsOf(trace, g)[0]]
    requires t.Node? && B.Heap(t) && n <= |B.Elems(t)| && InTree(trace, starts, metas, f, t) && InTree(trace, starts, metas, g, t)
    requires B.Pair(Trunc(starts[PacketsOf(trace, f)[p]]), metas[PacketsOf(trace, f)[p]]) !in B.Drain(t, n)
    requires B.Pair(Trunc(starts[PacketsOf(trace, g)[q]]), metas[PacketsOf(trace, g)[q]]) !in B.Drain(t, n)
    requires forall i | 0 <= i < |trace| && trace[i].flow == f :: trace[i].len <= longestF
    requires forall i | 0 <= i < |trace| && trace[i].flow == g :: trace[i].len <= longestG
    ensures f in weights && g in weights && weights[f] > 0.0 && weights[g] > 0.0
    ensures var bound := Max(longestF as real / weights[f], longestG as real / weights[g]) + 1.0;
            -bound < Work(weights, trace, starts, metas, f, B.Drain(t, n)) - Work(weights, trace, starts, metas, g, B.Drain(t, n)) < bound
  {
    hide *;
    TagsLength(weights, trace, clocks, starts, metas);
    Ready(weights, trace, clocks, starts, metas, f, t, B.Drain(t, n), p, longestF);
    Ready(weights, trace, clocks, starts, metas, g, t, B.Drain(t, n), q, longestG);
    WorkIs(weights, trace, starts, metas, f, B.Drain(t, n));
    WorkIs(weights, trace, starts, metas, g, B.Drain(t, n));
    Longest(longestF, longestG, weights[f]);
    if f != g {
      FairShares(BacklogOf(weights, trace, starts, metas, f), BacklogOf(weights, trace, starts, metas, g), t, n, p, q, longestF, longestG);
    }
  }

  lemma TagsLength(weights: map<string, real>, trace: seq<Arrival>, clocks: seq<real>, starts: seq<real>, metas: seq<int>)
    requires Numbered(metas, |trace|) && StartTags(weights, trace, clocks, starts)
    ensures |starts| == |metas| == |trace| == |clocks| && Known(weights, trace)
  {
  }

  lemma WorkIs(weights: map<string, real>, trace: seq<Arrival>, starts: seq<real>, metas: seq<int>, f: string, out: seq<B.Pair>)
    requires f in weights && weights[f] != 0.0 && |starts| == |metas| == |trace| && PacketsOf(trace, f) != []
    ensures var b := BacklogOf(weights, trace, starts, metas, f);
            b.weight != 0.0 && |b.lens| == |b.metas| && Work(weights, trace, starts, metas, f, out) == Served(b, out, |b.lens|)
  {
  }

  lemma Longest(a: nat, b: nat, w: real)
    requires w > 0.0
    ensures Max(a as real / w, b as real / w) >= 0.0
  {
    assert a as real / w >= 0.0;
  }
}
