/**
 The ranks that strict priority and pFabric give to packets, and what all strategies have
 in common: within a flow the (rank, number) pairs of a trace strictly increase.
 */
module FlowRanks {
  import B = BmwTree
  import W = Wfq

  datatype Captured = Captured(flow: string, len: nat)

  // ---------- pFabric: the size of the flow in the whole capture ----------

  /** The bytes of flow `f` in a capture. */
  function Bytes(capture: seq<Captured>, f: string): nat {
    if capture == [] then 0
    else
      var last := |capture| - 1;
      Bytes(capture[..last], f) + (if capture[last].flow == f then capture[last].len else 0)
  }

  ghost predicate Present(capture: seq<Captured>, f: string) {
    exists k :: 0 <= k < |capture| && capture[k].flow == f
  }

  /** The pass before tagging: every flow of the capture with all of its bytes. */
  method InitFlowRemainingSize(capture: seq<Captured>) returns (table: map<string, nat>)
    ensures forall f :: f in table <==> Present(capture, f)
    ensures forall f | f in table :: table[f] == Bytes(capture, f)
  {
    table := map[];
    var k := 0;
    while k < |capture|
      invariant 0 <= k <= |capture|
      invariant forall f :: f in table <==> Present(capture[..k], f)
      invariant forall f :: Bytes(capture[..k], f) == if f in table then table[f] else 0
    {
      var p := capture[k];
      OneMore(capture, k);
      table := table[p.flow := (if p.flow in table then table[p.flow] else 0) + p.len];
      k := k + 1;
    }
    assert capture[..|capture|] == capture;
  }

  lemma OneMore(capture: seq<Captured>, k: nat)
    requires k < |capture|
    ensures forall f :: Bytes(capture[..k + 1], f) ==
                        Bytes(capture[..k], f) + (if capture[k].flow == f then capture[k].len else 0)
    ensures forall f :: Present(capture[..k + 1], f) <==> Present(capture[..k], f) || capture[k].flow == f
  {
    assert capture[..k + 1][..k] == capture[..k];
    forall f ensures Present(capture[..k + 1], f) <==> Present(capture[..k], f) || capture[k].flow == f {
      if Present(capture[..k], f) {
        var j :| 0 <= j < k && capture[..k][j].flow == f;
        assert capture[..k + 1][j].flow == f;
      }
      if capture[k].flow == f {
        assert capture[..k + 1][k].flow == f;
      }
      if Present(capture[..k + 1], f) {
        var j :| 0 <= j <= k && capture[..k + 1][j].flow == f;
        assert j < k ==> capture[..k][j].flow == f;
      }
    }
  }

  // ---------- ranks that a table gives ----------

  /** Packet `i` of the trace has rank ranks[i]; within a flow rank and number increase. */
  ghost predicate InFlowOrder(flows: seq<string>, ranks: seq<int>) {
    && |ranks| == |flows|
    && forall i, j | 0 <= i < j < |flows| && flows[i] == flows[j] :: B.Less(B.Pair(ranks[i], i), B.Pair(ranks[j], j))
  }

  /** Which strategy tagged a trace, and from what. */
  datatype Tagging =
    | ByWfq(weights: map<string, real>, trace: seq<W.Arrival>, clocks: seq<real>, starts: seq<real>)
    | ByTable(table: map<string, int>)
    | ByPFabric(capture: seq<Captured>)

  /** The ranks are what the strategy returns for packets of these flows. */
  ghost predicate TaggedBy(k: Tagging, flows: seq<string>, ranks: seq<int>) {
    && |ranks| == |flows|
    && match k
       case ByWfq(weights, trace, clocks, starts) =>
         && W.StartTags(weights, trace, clocks, starts) && |trace| == |flows|
         && forall i | 0 <= i < |flows| :: trace[i].flow == flows[i] && ranks[i] == W.Trunc(starts[i])
       case ByTable(table) => forall i | 0 <= i < |flows| :: flows[i] in table && ranks[i] == table[flows[i]]
       case ByPFabric(capture) => forall i | 0 <= i < |flows| :: ranks[i] == Bytes(capture, flows[i])
  }

  /** Every strategy keeps the packets of a flow in order. */
  lemma TaggedInOrder(k: Tagging, flows: seq<string>, ranks: seq<int>)
    requires TaggedBy(k, flows, ranks)
    ensures InFlowOrder(flows, ranks)
  {
    if k.ByWfq? {
      W.TagsInOrder(k.weights, k.trace, k.clocks, k.starts);
      hide W.StartTags, W.Trunc;
      forall i, j | 0 <= i < j < |flows| && flows[i] == flows[j]
        ensures B.Less(B.Pair(ranks[i], i), B.Pair(ranks[j], j))
      {
        assert k.trace[i].flow == k.trace[j].flow;
      }
    }
  }

  /** WFQ: the strategy object tags the packets of its leaf as they arrive. */
  method TagByWfq(s: W.Strategy, trace: seq<W.Arrival>) returns (flows: seq<string>, ranks: seq<int>, ghost k: Tagging)
    requires s.Valid() && s.lastVirFinishTime == map[]
    requires forall i | 0 <= i < |trace| :: trace[i].flow in s.weightTable && s.realTime <= trace[i].time
    requires forall i, j | 0 <= i < j < |trace| :: trace[i].time <= trace[j].time
    modifies s
    ensures k.ByWfq? && k.weights == s.weightTable && k.trace == trace
    ensures TaggedBy(k, flows, ranks) && InFlowOrder(flows, ranks)
    ensures |flows| == |trace| && forall i | 0 <= i < |trace| :: flows[i] == trace[i].flow
  {
    ghost var clocks, starts;
    ranks, clocks, starts := s.TagTrace(trace);
    flows := seq(|trace|, i requires 0 <= i < |trace| => trace[i].flow);
    k := ByWfq(s.weightTable, trace, clocks, starts);
    hide W.StartTags;
    TaggedInOrder(k, flows, ranks);
  }

  /** Strict priority: the rank is the flow's entry, for every packet of it. */
  method TagByTable(flows: seq<string>, table: map<string, int>) returns (ranks: seq<int>)
    requires forall i | 0 <= i < |flows| :: flows[i] in table
    ensures InFlowOrder(flows, ranks) && TaggedBy(ByTable(table), flows, ranks)
    ensures forall i | 0 <= i < |flows| :: ranks[i] == table[flows[i]]
  {
    ranks := [];
    while |ranks| < |flows|
      invariant |ranks| <= |flows| && forall i | 0 <= i < |ranks| :: ranks[i] == table[flows[i]]
    {
      ranks := ranks + [table[flows[|ranks|]]];
    }
  }

  /**
   pFabric: the rank is what the flow brings in the whole capture, however much of it was
   sent already.  A flow without bytes fails an assertion and ends the pass.
   */
  method TagPFabric(capture: seq<Captured>, flows: seq<string>) returns (ok: bool, ranks: seq<int>)
    requires forall i | 0 <= i < |flows| :: Present(capture, flows[i])
    ensures ok <==> forall i | 0 <= i < |flows| :: Bytes(capture, flows[i]) > 0
    ensures ok ==> InFlowOrder(flows, ranks) && TaggedBy(ByPFabric(capture), flows, ranks)
    ensures ok ==> forall i | 0 <= i < |flows| :: ranks[i] == Bytes(capture, flows[i])
  {
    var table := InitFlowRemainingSize(capture);
    ranks := [];
    while |ranks| < |flows|
      invariant |ranks| <= |flows|
      invariant forall i | 0 <= i < |ranks| :: ranks[i] == Bytes(capture, flows[i]) && ranks[i] > 0
    {
      var priority := table[flows[|ranks|]];
      if priority == 0 {
        return false, ranks;
      }
      ranks := ranks + [priority];
    }
    ok := true;
  }
}
