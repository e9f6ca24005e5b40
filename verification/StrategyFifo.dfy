/**
 Packets of one flow depart in the order of the capture, under each of the strategies.

 Every leaf has a strategy of its own, which ranks the packets of that leaf in the order in
 which they arrive.  Whatever the strategy, the ranks of a flow never decrease.
 */
module StrategyFifo {
  import FO = FlowOrder
  import Tag = TracePasses
  import opened Scheduler
  import opened FlowRanks
  import opened TraceLoad

  /** The numbers of those among the first `k` packets that go to a leaf. */
  function AtLeaf(ps: seq<Tag.Captured>, k: nat, leaf: nat): (ix: seq<nat>)
    requires k <= |ps|
    ensures forall i | 0 <= i < |ix| :: ix[i] < k && ps[ix[i]].flow.Known? && ps[ix[i]].flow.leaf == leaf
    ensures forall i, j | 0 <= i < j < |ix| :: ix[i] < ix[j]
    ensures forall m | 0 <= m < k && ps[m].flow.Known? && ps[m].flow.leaf == leaf :: m in ix
  {
    if k == 0 then []
    else AtLeaf(ps, k - 1, leaf) + (if ps[k - 1].flow.Known? && ps[k - 1].flow.leaf == leaf then [k - 1] else [])
  }

  /** The names of the flows of a leaf's packets, and the ranks they have at the leaf. */
  function LeafNames(ps: seq<Tag.Captured>, names: seq<string>, leaf: nat): (r: seq<string>)
    requires |names| == |ps|
    ensures |r| == |AtLeaf(ps, |ps|, leaf)| && forall i | 0 <= i < |r| :: r[i] == names[AtLeaf(ps, |ps|, leaf)[i]]
  {
    var ix := AtLeaf(ps, |ps|, leaf);
    seq(|ix|, i requires 0 <= i < |ix| => names[ix[i]])
  }

  function LeafRanks(ps: seq<Tag.Captured>, leaf: nat): (r: seq<int>)
    ensures |r| == |AtLeaf(ps, |ps|, leaf)|
    ensures forall i | 0 <= i < |r| :: r[i] == Rank(ps[AtLeaf(ps, |ps|, leaf)[i]].ranks, 0)
  {
    var ix := AtLeaf(ps, |ps|, leaf);
    seq(|ix|, i requires 0 <= i < |ix| => Rank(ps[ix[i]].ranks, 0))
  }

  /** A flow number names one flow, and a flow goes to one leaf. */
  ghost predicate Named(ps: seq<Tag.Captured>, names: seq<string>) {
    && |names| == |ps|
    && forall i, j | 0 <= i < |ps| && 0 <= j < |ps| && ps[i].flow.Known? && ps[j].flow.Known? && ps[i].flow.fid == ps[j].flow.fid ::
         names[i] == names[j] && ps[i].flow.leaf == ps[j].flow.leaf
  }

  /** Ranks in order within the flows of a leaf never decrease along the capture. */
  lemma LeafInOrder(ps: seq<Tag.Captured>, names: seq<string>, leaf: nat, f: nat, i: nat, j: nat)
    requires Named(ps, names) && InFlowOrder(LeafNames(ps, names, leaf), LeafRanks(ps, leaf))
    requires i < j < |ps| && ps[i].flow == ps[j].flow == Tag.Known(leaf, f)
    ensures Rank(ps[i].ranks, 0) <= Rank(ps[j].ranks, 0)
  {
    var ix := AtLeaf(ps, |ps|, leaf);
    hide AtLeaf;
    assert i in ix && j in ix;
    var a :| 0 <= a < |ix| && ix[a] == i;
    var b :| 0 <= b < |ix| && ix[b] == j;
    assert a < b;
    assert LeafNames(ps, names, leaf)[a] == LeafNames(ps, names, leaf)[b];
  }

  /** The leaf's strategy makes the flow of packet `p` one that the scheduler keeps in order. */
  lemma RankedIsOneLeaf(capture: seq<Tag.Captured>, names: seq<string>, k: Tagging, p: nat)
    requires p < |Packets(capture)| && Packets(capture)[p].flow.Known? && Named(Packets(capture), names)
    requires var leaf := Packets(capture)[p].flow.leaf;
             TaggedBy(k, LeafNames(Packets(capture), names, leaf), LeafRanks(Packets(capture), leaf))
    ensures OneLeaf(capture, Packets(capture)[p].flow.fid, Packets(capture)[p].flow.leaf)
  {
    hide TaggedBy, InFlowOrder, LeafNames, LeafRanks, Rank, AtLeaf, Packets;
    var ps := Packets(capture);
    var f, leaf := ps[p].flow.fid, ps[p].flow.leaf;
    TaggedInOrder(k, LeafNames(ps, names, leaf), LeafRanks(ps, leaf));
    forall i, j | 0 <= i < j < |ps| && ps[i].flow == ps[j].flow == Tag.Known(leaf, f)
      ensures Rank(ps[i].ranks, 0) <= Rank(ps[j].ranks, 0)
    {
      LeafInOrder(ps, names, leaf, f, i, j);
    }
  }

  /**
   Under WFQ, strict priority and pFabric: from any capture, under any locks, what the flow of
   packet `p` has sent at any time is a prefix of its packets in the order of the capture.
   */
  lemma FifoUnderStrategies(s: State, cfg: Config, capture: seq<Tag.Captured>, names: seq<string>, k: Tagging, p: nat, locks: seq<seq<bool>>)
    requires Initial(s, cfg) && FromCapture(s, cfg, capture)
    requires p < |Packets(capture)| && Packets(capture)[p].flow.Known? && Named(Packets(capture), names)
    requires var leaf := Packets(capture)[p].flow.leaf;
             TaggedBy(k, LeafNames(Packets(capture), names, leaf), LeafRanks(Packets(capture), leaf))
    requires forall t | 0 <= t < |locks| :: |locks[t]| == N(s)
    ensures var flow := Packets(capture)[p].flow;
            var w := FO.Flow(flow.fid, flow.leaf, FO.Pairs(FlowPackets(Packets(capture), 0, flow.fid)));
            FO.Departed(Cycles(s, cfg, locks).out, cfg, w) <= w.arrivals
  {
    assert CaptureOk(capture, cfg.m, |s.pushQ|);
    hide *;
    TakenPacket(capture, cfg.m, |s.pushQ|, p);
    FitsRange(Packets(capture)[p], cfg.m, |s.pushQ|);
    RankedIsOneLeaf(capture, names, k, p);
    CaptureFifo(s, cfg, capture, locks, Packets(capture)[p].flow.fid, Packets(capture)[p].flow.leaf);
  }

  lemma FitsRange(p: Tag.Captured, m: nat, flows: nat)
    requires p.flow.Known? && PacketFits(p, m, flows)
    ensures 1 <= p.flow.leaf < m && p.flow.fid < flows
  {
  }
}
