/**
 From a capture to the scheduler.  The scheduler reads the printed trace into one queue of
 packets and one count of Pop credits for each flow.  For a trace the tagger printed, each
 flow gets as many credits as packets, in the order of the capture, and so the results
 about runs hold for every capture.
 */
module TraceLoad {
  import B = BmwTree
  import opened RingCounts
  import opened Scheduler
  import opened SchedulerSafety
  import D = DepartsOnce
  import C = Conservation
  import FO = FlowOrder
  import Text = TraceText
  import Tag = TracePasses

  // ---------- reading ----------

  /** What the scheduler has read, `meta` being the number in the last push line; or an assertion failed. */
  datatype Loaded = Failed | Loaded(pushQ: seq<seq<Packet>>, popQ: seq<nat>, meta: int)

  ghost predicate Fits(q: Loaded, flowOf: map<int, nat>) {
    q.Loaded? ==> |q.pushQ| == |q.popQ| && InRange(flowOf, |q.pushQ|)
  }

  /** A push line gives its flow a packet; a pop line gives a credit to the flow of the last push line. */
  function LoadOne(q: Loaded, r: Text.Record, flowOf: map<int, nat>): (n: Loaded)
    requires Fits(q, flowOf) && Text.NonNegative(r)
    ensures Fits(n, flowOf) && (n.Loaded? ==> q.Loaded? && |n.pushQ| == |q.pushQ|)
  {
    if q.Failed? then Failed
    else
      match r
      case Idle(_) => q
      case Pop =>
        if q.meta !in flowOf then Failed
        else
          var f := flowOf[q.meta];
          q.(popQ := q.popQ[f := q.popQ[f] + 1])
      case Push(t, m, a, b) =>
        if m !in flowOf then Failed
        else
          var f := flowOf[m];
          q.(meta := m, pushQ := q.pushQ[f := q.pushQ[f] + [Packet(t, m, a, b)]])
  }

  ghost predicate AllNonNegative(rs: seq<Text.Record>) {
    forall k | 0 <= k < |rs| :: Text.NonNegative(rs[k])
  }

  function LoadAll(q: Loaded, rs: seq<Text.Record>, flowOf: map<int, nat>): (n: Loaded)
    requires Fits(q, flowOf) && AllNonNegative(rs)
    ensures Fits(n, flowOf) && (n.Loaded? ==> q.Loaded? && |n.pushQ| == |q.pushQ|)
    decreases |rs|
  {
    if rs == [] then q else LoadAll(LoadOne(q, rs[0], flowOf), rs[1..], flowOf)
  }

  function Nothing(flows: nat): Loaded {
    Loaded(seq(flows, _ => []), seq(flows, _ => 0), 0)
  }

  /** Numbers have no sign when they are read. */
  lemma {:induction false} ReadNonNegative(ws: seq<string>)
    ensures AllNonNegative(Text.ReadAll(ws))
    decreases |ws|
  {
    match Text.ReadLine(ws)
    case Done =>
    case Skip(rest) => ReadNonNegative(rest);
    case More(r, rest) => ReadNonNegative(rest);
  }

  /** Reads lines until there are none, or until a number has no flow. */
  method ReadTrace(words: seq<string>, flowOf: map<int, nat>, flows: nat) returns (q: Loaded)
    requires InRange(flowOf, flows)
    ensures AllNonNegative(Text.ReadAll(words))
    ensures q == LoadAll(Nothing(flows), Text.ReadAll(words), flowOf)
  {
    hide InRange, AllNonNegative;
    ReadNonNegative(words);
    q := Nothing(flows);
    var ws := words;
    while true
      invariant AllNonNegative(Text.ReadAll(words)) && AllNonNegative(Text.ReadAll(ws)) && Fits(q, flowOf) && q.Loaded?
      invariant LoadAll(q, Text.ReadAll(ws), flowOf) == LoadAll(Nothing(flows), Text.ReadAll(words), flowOf)
      decreases |ws|
    {
      match Text.ReadLine(ws) {
        case Done =>
          return;
        case Skip(rest) =>
          ws := rest;
        case More(r, rest) =>
          ReadNonNegative(rest);
          FirstNonNegative(Text.ReadAll(ws));
          assert Text.ReadAll(ws) == [r] + Text.ReadAll(rest);
          q := LoadOne(q, r, flowOf);
          if q.Failed? {
            FailedStays(Text.ReadAll(rest), flowOf);
            return;
          }
          ws := rest;
      }
    }
  }

  /** The number in the last push line before the end of `rs`; `meta` if there is none. */
  function LastNumber(meta: int, rs: seq<Text.Record>): int {
    if rs == [] then meta
    else if rs[|rs| - 1].Push? then rs[|rs| - 1].meta
    else LastNumber(meta, rs[..|rs| - 1])
  }

  /** The number that an assertion looks up at line `k`: a push line's own, a pop line's from the push line before. */
  ghost predicate Asserted(meta: int, rs: seq<Text.Record>, flowOf: map<int, nat>, k: nat)
    requires k < |rs|
  {
    && (rs[k].Push? ==> rs[k].meta in flowOf)
    && (rs[k].Pop? ==> LastNumber(meta, rs[..k]) in flowOf)
  }

  lemma LoadLast(q: Loaded, rs: seq<Text.Record>, r: Text.Record, flowOf: map<int, nat>)
    requires Fits(q, flowOf) && AllNonNegative(rs) && Text.NonNegative(r)
    ensures AllNonNegative(rs + [r]) && LoadAll(q, rs + [r], flowOf) == LoadOne(LoadAll(q, rs, flowOf), r, flowOf)
  {
    LoadSingle(LoadAll(q, rs, flowOf), r, flowOf);
    LoadAppend(q, rs, [r], flowOf);
  }

  /** Reading fails exactly if some line looks up a number that has no flow; before any push line that is number 0. */
  lemma {:induction false} FailsExactly(flows: nat, rs: seq<Text.Record>, flowOf: map<int, nat>)
    requires InRange(flowOf, flows) && AllNonNegative(rs)
    ensures var n := LoadAll(Nothing(flows), rs, flowOf);
            && (n.Loaded? <==> forall k | 0 <= k < |rs| :: Asserted(0, rs, flowOf, k))
            && (n.Loaded? ==> n.meta == LastNumber(0, rs))
    decreases |rs|
  {
    hide InRange;
    if rs != [] {
      var last := |rs| - 1;
      var front := rs[..last];
      assert rs == front + [rs[last]];
      FailsExactly(flows, front, flowOf);
      LoadLast(Nothing(flows), front, rs[last], flowOf);
      hide LoadAll;
      forall k | 0 <= k < last ensures Asserted(0, rs, flowOf, k) <==> Asserted(0, front, flowOf, k) {
        assert front[..k] == rs[..k];
      }
      assert Asserted(0, rs, flowOf, last) <==>
             (rs[last].Push? ==> rs[last].meta in flowOf) && (rs[last].Pop? ==> LastNumber(0, front) in flowOf);
    }
  }

  lemma FirstNonNegative(rs: seq<Text.Record>)
    requires AllNonNegative(rs) && rs != []
    ensures Text.NonNegative(rs[0]) && AllNonNegative(rs[1..])
  {
  }

  lemma {:induction false} FailedStays(rs: seq<Text.Record>, flowOf: map<int, nat>)
    requires AllNonNegative(rs)
    ensures LoadAll(Failed, rs, flowOf) == Failed
    decreases |rs|
  {
    if rs != [] {
      FailedStays(rs[1..], flowOf);
    }
  }

  lemma {:induction false} LoadAppend(q: Loaded, a: seq<Text.Record>, b: seq<Text.Record>, flowOf: map<int, nat>)
    requires Fits(q, flowOf) && AllNonNegative(a) && AllNonNegative(b)
    ensures AllNonNegative(a + b) && LoadAll(q, a + b, flowOf) == LoadAll(LoadAll(q, a, flowOf), b, flowOf)
    decreases |a|
  {
    hide Fits, LoadOne;
    if a == [] {
      assert a + b == b;
    } else {
      assert (a + b)[0] == a[0] && (a + b)[1..] == a[1..] + b;
      LoadAppend(LoadOne(q, a[0], flowOf), a[1..], b, flowOf);
    }
  }

  // ---------- the records of a printed trace ----------

  /** Every known packet names a leaf and a flow in range and has two ranks, from zero up to the sentinel. */
  ghost predicate CaptureOk(capture: seq<Tag.Captured>, m: nat, flows: nat) {
    forall k | 0 <= k < |capture| && capture[k].flow.Known? :: PacketFits(capture[k], m, flows)
  }

  predicate PacketFits(p: Tag.Captured, m: nat, flows: nat)
    requires p.flow.Known?
  {
    && 1 <= p.flow.leaf < m && p.flow.fid < flows
    && |p.ranks| == 2 && 0 <= p.ranks[0] < B.INF && 0 <= p.ranks[1] < B.INF
  }

  function Rank(ranks: seq<int>, k: nat): int {
    if k < |ranks| then ranks[k] else 0
  }

  function RecordOf(x: Tag.Line): Text.Record {
    match x
    case Idle(c) => Text.Idle(c)
    case PushLine(t, m, ranks) => Text.Push(t, m, Rank(ranks, 0), Rank(ranks, 1))
    case PopLine => Text.Pop
  }

  function Records(lines: seq<Tag.Line>): (rs: seq<Text.Record>)
    ensures |rs| == |lines| && forall k | 0 <= k < |rs| :: rs[k] == RecordOf(lines[k])
  {
    seq(|lines|, k requires 0 <= k < |lines| => RecordOf(lines[k]))
  }

  lemma RecordsAppend(a: seq<Tag.Line>, b: seq<Tag.Line>)
    ensures Records(a + b) == Records(a) + Records(b)
  {
  }

  lemma RestOk(capture: seq<Tag.Captured>, m: nat, flows: nat)
    requires CaptureOk(capture, m, flows) && capture != []
    ensures CaptureOk(capture[1..], m, flows) && (capture[0].flow.Known? ==> PacketFits(capture[0], m, flows))
  {
  }

  lemma {:induction false} TraceNonNegative(c: Tag.Counters, capture: seq<Tag.Captured>, m: nat, flows: nat)
    requires CaptureOk(capture, m, flows)
    ensures AllNonNegative(Records(Tag.Trace(c, capture)))
    decreases |capture|
  {
    hide CaptureOk;
    if capture != [] {
      RestOk(capture, m, flows);
      TraceNonNegative(Tag.After(c, capture[0]), capture[1..], m, flows);
      RecordsAppend(Tag.LinesFor(c, capture[0]), Tag.Trace(Tag.After(c, capture[0]), capture[1..]));
      LinesNonNegative(c, capture[0], m, flows);
    }
  }

  lemma LinesNonNegative(c: Tag.Counters, p: Tag.Captured, m: nat, flows: nat)
    requires p.flow.Known? ==> PacketFits(p, m, flows)
    ensures AllNonNegative(Records(Tag.LinesFor(c, p)))
  {
  }

  // ---------- what a printed trace loads ----------

  function PacketAt(p: Tag.Captured, meta: nat): Packet
    requires p.flow.Known?
  {
    Packet(p.flow.leaf, meta, Rank(p.ranks, 0), Rank(p.ranks, 1))
  }

  /** The packets of flow `f` among taken packets, the first of which has number `first`. */
  function FlowPackets(taken: seq<Tag.Captured>, first: nat, f: nat): seq<Packet> {
    if taken == [] then []
    else (if taken[0].flow.Known? && taken[0].flow.fid == f then [PacketAt(taken[0], first)] else []) +
         FlowPackets(taken[1..], first + 1, f)
  }

  /** The flow map gives taken packet `k`, under number first + k, its own flow. */
  ghost predicate Mapped(taken: seq<Tag.Captured>, first: nat, flowOf: map<int, nat>) {
    forall k | 0 <= k < |taken| ::
      taken[k].flow.Known? && first + k in flowOf && flowOf[first + k] == taken[k].flow.fid
  }

  /** The lines of one packet: the packet for its flow, and a credit for the same flow. */
  function LoadPacket(q: Loaded, p: Tag.Captured, meta: nat): Loaded
    requires p.flow.Known? && q.Loaded? && p.flow.fid < |q.pushQ| == |q.popQ|
  {
    var f := p.flow.fid;
    Loaded(q.pushQ[f := q.pushQ[f] + [PacketAt(p, meta)]], q.popQ[f := q.popQ[f] + 1], meta)
  }

  lemma LoadSingle(q: Loaded, r: Text.Record, flowOf: map<int, nat>)
    requires Fits(q, flowOf) && Text.NonNegative(r)
    ensures AllNonNegative([r]) && LoadAll(q, [r], flowOf) == LoadOne(q, r, flowOf)
  {
    assert [r][1..] == [];
  }

  lemma LoadGap(q: Loaded, c: Tag.Counters, p: Tag.Captured, flowOf: map<int, nat>)
    requires Fits(q, flowOf)
    ensures AllNonNegative(Records(Tag.Gap(c, p))) && LoadAll(q, Records(Tag.Gap(c, p)), flowOf) == q
  {
    if Tag.Gap(c, p) != [] {
      assert Records(Tag.Gap(c, p)) == [RecordOf(Tag.Gap(c, p)[0])];
      LoadSingle(q, RecordOf(Tag.Gap(c, p)[0]), flowOf);
    }
  }

  lemma LoadBoth(q: Loaded, p: Tag.Captured, meta: nat, flowOf: map<int, nat>)
    requires q.Loaded? && Fits(q, flowOf) && p.flow.Known? && p.flow.fid < |q.pushQ|
    requires meta in flowOf && flowOf[meta] == p.flow.fid && Text.NonNegative(RecordOf(Tag.PushLine(p.flow.leaf, meta, p.ranks)))
    ensures LoadOne(LoadOne(q, RecordOf(Tag.PushLine(p.flow.leaf, meta, p.ranks)), flowOf), Text.Pop, flowOf) == LoadPacket(q, p, meta)
  {
  }

  lemma LoadLines(q: Loaded, c: Tag.Counters, p: Tag.Captured, m: nat, flowOf: map<int, nat>)
    requires q.Loaded? && Fits(q, flowOf) && Tag.Takes(c, p) && PacketFits(p, m, |q.pushQ|)
    requires c.next in flowOf && flowOf[c.next] == p.flow.fid
    ensures AllNonNegative(Records(Tag.LinesFor(c, p)))
    ensures LoadAll(q, Records(Tag.LinesFor(c, p)), flowOf) == LoadPacket(q, p, c.next)
  {
    hide LoadAll, Tag.Gap;
    LinesNonNegative(c, p, m, |q.pushQ|);
    var gap := Tag.Gap(c, p);
    var x := Tag.PushLine(p.flow.leaf, c.next, p.ranks);
    RecordsAppend(gap, [x]);
    RecordsAppend(gap + [x], [Tag.PopLine]);
    var push, pop := RecordOf(x), Text.Pop;
    assert Records([x]) == [push] && Records([Tag.PopLine]) == [pop];
    LoadGap(q, c, p, flowOf);
    LoadBoth(q, p, c.next, flowOf);
    hide LoadOne, LoadPacket;
    LoadSingle(q, push, flowOf);
    LoadSingle(LoadOne(q, push, flowOf), pop, flowOf);
    LoadAppend(q, Records(gap), [push], flowOf);
    LoadAppend(q, Records(gap) + [push], [pop], flowOf);
  }

  /** Flow `f` has got its packets, and as many credits. */
  ghost predicate Grown(q: Loaded, r: Loaded, taken: seq<Tag.Captured>, first: nat, f: nat) {
    && q.Loaded? && r.Loaded? && f < |q.pushQ| == |q.popQ| == |r.pushQ| == |r.popQ|
    && r.pushQ[f] == q.pushQ[f] + FlowPackets(taken, first, f)
    && r.popQ[f] == q.popQ[f] + |FlowPackets(taken, first, f)|
  }

  lemma GrownStep(q: Loaded, p: Tag.Captured, r: Loaded, taken: seq<Tag.Captured>, first: nat, f: nat)
    requires q.Loaded? && p.flow.Known? && p.flow.fid < |q.pushQ| == |q.popQ|
    requires Grown(LoadPacket(q, p, first), r, taken, first + 1, f)
    ensures Grown(q, r, [p] + taken, first, f)
  {
    assert ([p] + taken)[1..] == taken;
  }

  lemma MappedAt(taken: seq<Tag.Captured>, first: nat, flowOf: map<int, nat>, k: nat)
    requires Mapped(taken, first, flowOf) && k < |taken|
    ensures taken[k].flow.Known? && first + k in flowOf && flowOf[first + k] == taken[k].flow.fid
  {
  }

  lemma MappedTail(p: Tag.Captured, rest: seq<Tag.Captured>, first: nat, flowOf: map<int, nat>)
    requires Mapped([p] + rest, first, flowOf)
    ensures Mapped(rest, first + 1, flowOf) && p.flow.Known? && first in flowOf && flowOf[first] == p.flow.fid
  {
    var both := [p] + rest;
    assert both[0] == p && first + 0 in flowOf;
    forall k | 0 <= k < |rest|
      ensures rest[k].flow.Known? && first + 1 + k in flowOf && flowOf[first + 1 + k] == rest[k].flow.fid
    {
      assert both[k + 1] == rest[k] && first + (k + 1) in flowOf;
    }
  }

  lemma MappedRest(c: Tag.Counters, capture: seq<Tag.Captured>, flowOf: map<int, nat>)
    requires capture != [] && Mapped(Tag.Taken(c, capture), c.next, flowOf)
    ensures var n := Tag.After(c, capture[0]);
            && Mapped(Tag.Taken(n, capture[1..]), n.next, flowOf)
            && (Tag.Takes(c, capture[0]) ==>
                  c.next in flowOf && flowOf[c.next] == capture[0].flow.fid && n.next == c.next + 1 &&
                  Tag.Taken(c, capture) == [capture[0]] + Tag.Taken(n, capture[1..]))
            && (!Tag.Takes(c, capture[0]) ==> n == c && Tag.Taken(c, capture) == Tag.Taken(n, capture[1..]))
  {
    hide Mapped;
    var p, n := capture[0], Tag.After(c, capture[0]);
    var rest := Tag.Taken(n, capture[1..]);
    if Tag.Takes(c, p) {
      assert Tag.Taken(c, capture) == [p] + rest;
      MappedTail(p, rest, c.next, flowOf);
    } else {
      assert [] + rest == rest;
    }
  }

  /** Loading a printed trace fails no assertion, and gives each flow its packets and as many credits. */
  lemma {:induction false} LoadTrace(q: Loaded, c: Tag.Counters, capture: seq<Tag.Captured>, m: nat, flowOf: map<int, nat>, f: nat)
    requires q.Loaded? && Fits(q, flowOf) && CaptureOk(capture, m, |q.pushQ|) && f < |q.pushQ|
    requires Mapped(Tag.Taken(c, capture), c.next, flowOf)
    ensures AllNonNegative(Records(Tag.Trace(c, capture)))
    ensures Grown(q, LoadAll(q, Records(Tag.Trace(c, capture)), flowOf), Tag.Taken(c, capture), c.next, f)
    decreases |capture|
  {
    TraceNonNegative(c, capture, m, |q.pushQ|);
    if capture == [] {
      var rs := Records([Tag.Idle(Tag.LAST_IDLE)]);
      assert rs[1..] == [];
      assert LoadAll(q, rs, flowOf) == LoadAll(LoadOne(q, rs[0], flowOf), rs[1..], flowOf);
    } else {
      LoadTraceStep(q, c, capture, m, flowOf, f);
    }
  }

  lemma {:induction false} LoadTraceStep(q: Loaded, c: Tag.Counters, capture: seq<Tag.Captured>, m: nat, flowOf: map<int, nat>, f: nat)
    requires capture != [] && q.Loaded? && Fits(q, flowOf) && CaptureOk(capture, m, |q.pushQ|) && f < |q.pushQ|
    requires Mapped(Tag.Taken(c, capture), c.next, flowOf)
    ensures AllNonNegative(Records(Tag.Trace(c, capture)))
    ensures Grown(q, LoadAll(q, Records(Tag.Trace(c, capture)), flowOf), Tag.Taken(c, capture), c.next, f)
    decreases |capture|, 0
  {
    hide CaptureOk, Mapped, Grown, LoadAll, AllNonNegative, Records, FlowPackets;
    var p, n := capture[0], Tag.After(c, capture[0]);
    var here, rest := Tag.LinesFor(c, p), Tag.Trace(n, capture[1..]);
    TraceNonNegative(c, capture, m, |q.pushQ|);
    RestOk(capture, m, |q.pushQ|);
    MappedRest(c, capture, flowOf);
    hide Tag.Taken;
    assert Tag.Trace(c, capture) == here + rest;
    RecordsAppend(here, rest);
    if Tag.Takes(c, p) {
      LoadLines(q, c, p, m, flowOf);
      var q1 := LoadPacket(q, p, c.next);
      LoadTrace(q1, n, capture[1..], m, flowOf, f);
      LoadAppend(q, Records(here), Records(rest), flowOf);
      GrownStep(q, p, LoadAll(q1, Records(rest), flowOf), Tag.Taken(n, capture[1..]), c.next, f);
    } else {
      assert here + rest == rest;
      LoadTrace(q, n, capture[1..], m, flowOf, f);
    }
  }

  // ---------- the packets of a flow ----------

  /** Where a flow's packet comes from. */
  lemma {:induction false} PacketFrom(taken: seq<Tag.Captured>, first: nat, f: nat, i: nat) returns (k: nat)
    requires i < |FlowPackets(taken, first, f)|
    ensures k < |taken| && taken[k].flow.Known? && taken[k].flow.fid == f
    ensures FlowPackets(taken, first, f)[i] == PacketAt(taken[k], first + k)
  {
    var rest := FlowPackets(taken[1..], first + 1, f);
    if FlowPackets(taken, first, f) == rest {
      k := PacketFrom(taken[1..], first + 1, f, i);
      k := k + 1;
    } else if i == 0 {
      k := 0;
    } else {
      k := PacketFrom(taken[1..], first + 1, f, i - 1);
      k := k + 1;
    }
  }

  lemma MetasIncrease(taken: seq<Tag.Captured>, first: nat, f: nat, i: nat, j: nat)
    requires i < j < |FlowPackets(taken, first, f)|
    ensures FlowPackets(taken, first, f)[i].meta < FlowPackets(taken, first, f)[j].meta
    decreases |taken|
  {
    var rest := FlowPackets(taken[1..], first + 1, f);
    if FlowPackets(taken, first, f) == rest {
      MetasIncrease(taken[1..], first + 1, f, i, j);
    } else if i > 0 {
      MetasIncrease(taken[1..], first + 1, f, i - 1, j - 1);
    } else {
      var k := PacketFrom(taken[1..], first + 1, f, j - 1);
    }
  }

  lemma {:induction false} TakenFits(c: Tag.Counters, capture: seq<Tag.Captured>, m: nat, flows: nat)
    requires CaptureOk(capture, m, flows)
    ensures forall k | 0 <= k < |Tag.Taken(c, capture)| ::
              Tag.Taken(c, capture)[k].flow.Known? && PacketFits(Tag.Taken(c, capture)[k], m, flows)
    decreases |capture|
  {
    hide CaptureOk;
    if capture != [] {
      RestOk(capture, m, flows);
      TakenFits(Tag.After(c, capture[0]), capture[1..], m, flows);
    }
  }

  // ---------- from a capture to the scheduler's queues ----------

  ghost function Packets(capture: seq<Tag.Captured>): seq<Tag.Captured> {
    Tag.Taken(Tag.START, capture)
  }

  /** The flow map printed for a capture, read back. */
  ghost function FlowMap(capture: seq<Tag.Captured>): map<int, nat> {
    Tag.TakenKnown(Tag.START, capture);
    Tag.MapOf(Tag.Entries(Packets(capture), 0))
  }

  ghost function Read(words: seq<string>, flowOf: map<int, nat>, flows: nat): Loaded
    requires InRange(flowOf, flows)
  {
    ReadNonNegative(words);
    LoadAll(Nothing(flows), Text.ReadAll(words), flowOf)
  }

  /** The words of the trace printed for a capture. */
  function PrintedTrace(capture: seq<Tag.Captured>): seq<string> {
    Text.AllWords(Records(Tag.Trace(Tag.START, capture)))
  }

  /** The scheduler starts with the flow map and the trace that were printed for the capture. */
  ghost predicate FromCapture(s: State, cfg: Config, capture: seq<Tag.Captured>) {
    && CaptureOk(capture, cfg.m, |s.pushQ|)
    && cfg.flowOf == FlowMap(capture)
    && (InRange(cfg.flowOf, |s.pushQ|) ==>
          var q := Read(PrintedTrace(capture), cfg.flowOf, |s.pushQ|);
          q.Loaded? ==> s.pushQ == q.pushQ && s.popQ == q.popQ)
  }

  lemma FlowMapFits(capture: seq<Tag.Captured>, m: nat, flows: nat)
    requires CaptureOk(capture, m, flows)
    ensures Mapped(Packets(capture), 0, FlowMap(capture)) && InRange(FlowMap(capture), flows)
  {
    TakenFits(Tag.START, capture, m, flows);
    hide Tag.Taken, Tag.MapOf, CaptureOk;
    Tag.MapIs(Tag.Entries(Packets(capture), 0));
  }

  /** Reading what was printed for a capture fails no assertion, and each flow gets its packets and as many credits. */
  lemma CaptureLoads(s: State, cfg: Config, capture: seq<Tag.Captured>, f: nat)
    requires FromCapture(s, cfg, capture) && |s.pushQ| == |s.popQ| && f < |s.pushQ|
    ensures InRange(cfg.flowOf, |s.pushQ|) && Read(PrintedTrace(capture), cfg.flowOf, |s.pushQ|).Loaded?
    ensures s.pushQ[f] == FlowPackets(Packets(capture), 0, f) && s.popQ[f] == |s.pushQ[f]|
  {
    var flows := |s.pushQ|;
    FlowMapFits(capture, cfg.m, flows);
    var rs := Records(Tag.Trace(Tag.START, capture));
    hide Tag.Taken, Tag.Trace, CaptureOk, FlowMap, LoadAll, FlowPackets, Text.AllWords, Text.ReadAll, Mapped, InRange;
    LoadTrace(Nothing(flows), Tag.START, capture, cfg.m, cfg.flowOf, f);
    Text.TraceRoundTrip(rs);
  }

  /** The queues of a capture meet everything the results about runs ask for. */
  lemma CaptureQualifies(s: State, cfg: Config, capture: seq<Tag.Captured>)
    requires Initial(s, cfg) && FromCapture(s, cfg, capture)
    ensures TraceOk(s, cfg) && Sum(s.popQ) <= Waiting(s) && D.DistinctMetas(s.pushQ)
    ensures forall f, k | 0 <= f < |s.pushQ| && 0 <= k < |s.pushQ[f]| :: FlowOf(cfg, s.pushQ[f][k].meta) == f
  {
    hide FromCapture, Initial;
    InitialQueues(s, cfg);
    forall f | 0 <= f < |s.pushQ|
      ensures s.pushQ[f] == FlowPackets(Packets(capture), 0, f) && s.popQ[f] == |s.pushQ[f]|
    {
      CaptureLoads(s, cfg, capture, f);
    }
    assert s.popQ == Lens(s.pushQ);
    forall f, k | 0 <= f < |s.pushQ| && 0 <= k < |s.pushQ[f]|
      ensures PacketOk(s.pushQ[f][k], cfg) && FlowOf(cfg, s.pushQ[f][k].meta) == f
    {
      CapturePacket(s, cfg, capture, f, k);
    }
    forall f, k, g, j | 0 <= f < |s.pushQ| && 0 <= k < |s.pushQ[f]| && 0 <= g < |s.pushQ| && 0 <= j < |s.pushQ[g]| &&
                        s.pushQ[f][k].meta == s.pushQ[g][j].meta
      ensures f == g && k == j
    {
      CapturePacket(s, cfg, capture, f, k);
      CapturePacket(s, cfg, capture, g, j);
      if k < j {
        MetasIncrease(Packets(capture), 0, f, k, j);
      } else if j < k {
        MetasIncrease(Packets(capture), 0, f, j, k);
      }
    }
  }

  lemma InitialQueues(s: State, cfg: Config)
    requires Initial(s, cfg)
    ensures |s.pushQ| == |s.popQ|
  {
  }

  /** A queued packet is a taken packet of the capture, under its number. */
  lemma CapturePacket(s: State, cfg: Config, capture: seq<Tag.Captured>, f: nat, k: nat)
    requires FromCapture(s, cfg, capture) && |s.pushQ| == |s.popQ| && f < |s.pushQ| && k < |s.pushQ[f]|
    ensures var p := s.pushQ[f][k];
            && PacketOk(p, cfg) && FlowOf(cfg, p.meta) == f
            && 0 <= p.meta < |Packets(capture)|
            && Packets(capture)[p.meta].flow == Tag.Known(p.tree, f)
            && Packets(capture)[p.meta].ranks == [p.p0, p.p1]
  {
    assert CaptureOk(capture, cfg.m, |s.pushQ|) && cfg.flowOf == FlowMap(capture);
    hide FromCapture, Packets, FlowMap, InRange, Read, PrintedTrace, CaptureOk, FlowPackets;
    CaptureLoads(s, cfg, capture, f);
    var i := PacketFrom(Packets(capture), 0, f, k);
    TakenPacket(capture, cfg.m, |s.pushQ|, i);
    assert s.pushQ[f][k] == PacketAt(Packets(capture)[i], i);
  }

  lemma TakenPacket(capture: seq<Tag.Captured>, m: nat, flows: nat, i: nat)
    requires CaptureOk(capture, m, flows) && i < |Packets(capture)|
    ensures Packets(capture)[i].flow.Known? && PacketFits(Packets(capture)[i], m, flows)
    ensures i in FlowMap(capture) && FlowMap(capture)[i] == Packets(capture)[i].flow.fid
  {
    TakenFits(Tag.START, capture, m, flows);
    FlowMapFits(capture, m, flows);
    hide FlowMap, InRange, CaptureOk, Mapped;
    MappedAt(Packets(capture), 0, FlowMap(capture), i);
  }

  // ---------- whole runs on a capture ----------

  /**
   From any capture, under any locks: no Pop ever executes on an empty tree, no packet
   departs twice, and what departs is a packet of the capture with its own leaf and rank.
   */
  lemma CaptureRun(s: State, cfg: Config, capture: seq<Tag.Captured>, locks: seq<seq<bool>>, i: nat)
    requires Initial(s, cfg) && FromCapture(s, cfg, capture)
    requires forall t | 0 <= t < |locks| :: |locks[t]| == N(s)
    requires i < |Cycles(s, cfg, locks).out|
    ensures SafeState(Cycles(s, cfg, locks), cfg, 0)
    ensures var out := Cycles(s, cfg, locks).out;
            && 0 <= out[i].pkt.val < |Packets(capture)|
            && Packets(capture)[out[i].pkt.val].flow.Known?
            && Packets(capture)[out[i].pkt.val].flow.leaf == out[i].tree
            && |Packets(capture)[out[i].pkt.val].ranks| == 2
            && Packets(capture)[out[i].pkt.val].ranks[0] == out[i].pkt.rank
            && forall j | i < j < |out| :: out[i].pkt.val != out[j].pkt.val
  {
    CaptureQualifies(s, cfg, capture);
    InitialQueues(s, cfg);
    hide FromCapture, Initial, TraceOk, D.DistinctMetas, Sum, Waiting, Cycles, SafeState;
    RunSafe(s, cfg, locks);
    var f, k := D.DepartedWasPushed(s, cfg, locks, i);
    CapturePacket(s, cfg, capture, f, k);
    forall j | i < j < |Cycles(s, cfg, locks).out|
      ensures Cycles(s, cfg, locks).out[i].pkt.val != Cycles(s, cfg, locks).out[j].pkt.val
    {
      D.NeverTwice(s, cfg, locks, i, j);
    }
  }

  /** A flow of the capture: all its packets go to one leaf, with ranks that never decrease. */
  ghost predicate OneLeaf(capture: seq<Tag.Captured>, f: nat, leaf: nat) {
    && (forall k | 0 <= k < |Packets(capture)| && Packets(capture)[k].flow.Known? && Packets(capture)[k].flow.fid == f ::
          Packets(capture)[k].flow.leaf == leaf)
    && (forall i, j | 0 <= i < j < |Packets(capture)| && Packets(capture)[i].flow == Packets(capture)[j].flow == Tag.Known(leaf, f) ::
          Rank(Packets(capture)[i].ranks, 0) <= Rank(Packets(capture)[j].ranks, 0))
  }

  lemma ArrivalsIncrease(s: State, cfg: Config, capture: seq<Tag.Captured>, f: nat, leaf: nat, i: nat, j: nat)
    requires FromCapture(s, cfg, capture) && |s.pushQ| == |s.popQ| && OneLeaf(capture, f, leaf)
    requires f < |s.pushQ| && i < j < |s.pushQ[f]|
    ensures s.pushQ[f][i].tree == s.pushQ[f][j].tree == leaf
    ensures B.Less(C.PairOf(s.pushQ[f][i]), C.PairOf(s.pushQ[f][j]))
  {
    hide FromCapture, Packets;
    CaptureLoads(s, cfg, capture, f);
    MetasIncrease(Packets(capture), 0, f, i, j);
    CapturePacket(s, cfg, capture, f, i);
    CapturePacket(s, cfg, capture, f, j);
  }

  lemma OwnLeaf(s: State, cfg: Config, capture: seq<Tag.Captured>, f: nat, leaf: nat, k: nat)
    requires FromCapture(s, cfg, capture) && |s.pushQ| == |s.popQ| && OneLeaf(capture, f, leaf)
    requires f < |s.pushQ| && k < |s.pushQ[f]|
    ensures s.pushQ[f][k].tree == leaf
  {
    hide FromCapture, Packets;
    CapturePacket(s, cfg, capture, f, k);
  }

  lemma CaptureIsFlow(s: State, cfg: Config, capture: seq<Tag.Captured>, f: nat, leaf: nat)
    requires Initial(s, cfg) && FromCapture(s, cfg, capture) && OneLeaf(capture, f, leaf)
    requires f < |s.pushQ| && 1 <= leaf < cfg.m
    ensures FO.IsFlow(s, cfg, FO.Flow(f, leaf, FO.Pairs(FlowPackets(Packets(capture), 0, f))))
  {
    hide FromCapture, Initial, TraceOk, D.DistinctMetas, Sum, Waiting, Packets, FlowPackets, OneLeaf, B.Less;
    InitialQueues(s, cfg);
    CaptureQualifies(s, cfg, capture);
    CaptureLoads(s, cfg, capture, f);
    forall k | 0 <= k < |s.pushQ[f]| ensures s.pushQ[f][k].tree == leaf {
      OwnLeaf(s, cfg, capture, f, leaf, k);
    }
    forall i, j | 0 <= i < j < |s.pushQ[f]| ensures B.Less(C.PairOf(s.pushQ[f][i]), C.PairOf(s.pushQ[f][j])) {
      ArrivalsIncrease(s, cfg, capture, f, leaf, i, j);
    }
  }

  /** From any capture, under any locks, the flow's packets depart in the order of the capture. */
  lemma CaptureFifo(s: State, cfg: Config, capture: seq<Tag.Captured>, locks: seq<seq<bool>>, f: nat, leaf: nat)
    requires Initial(s, cfg) && FromCapture(s, cfg, capture) && OneLeaf(capture, f, leaf)
    requires f < |s.pushQ| && 1 <= leaf < cfg.m
    requires forall t | 0 <= t < |locks| :: |locks[t]| == N(s)
    ensures var w := FO.Flow(f, leaf, FO.Pairs(FlowPackets(Packets(capture), 0, f)));
            FO.Departed(Cycles(s, cfg, locks).out, cfg, w) <= w.arrivals
  {
    hide FromCapture, Initial, TraceOk, D.DistinctMetas, Sum, Waiting, Cycles, FO.IsFlow, FO.Departed;
    CaptureQualifies(s, cfg, capture);
    CaptureIsFlow(s, cfg, capture, f, leaf);
    FO.FlowIsFifo(s, cfg, FO.Flow(f, leaf, FO.Pairs(FlowPackets(Packets(capture), 0, f))), locks);
  }
}
