/**
 The two passes over the packet capture: one prints the trace, the other the flow of each
 packet.  They keep the same counters and stop at the same packet, so the number a packet
 gets in the trace is the number under which its flow is recorded.
 */
module TracePasses {
  /** A captured packet: its cycle, its flow if the flow is one of the tree's, and the ranks its strategies give it. */
  datatype Flow = Unknown | Known(leaf: nat, fid: nat)
  datatype Captured = Captured(cycle: nat, flow: Flow, ranks: seq<int>)

  datatype Line = Idle(cycles: nat) | PushLine(tree: nat, meta: nat, ranks: seq<int>) | PopLine

  datatype Entry = Entry(meta: nat, fid: nat)

  const MAX_INTERVAL := 107
  const FIRST_IDLE := 10
  const LAST_IDLE := 255
  const MAX_GAPS := 4

  /** The counters both passes keep. */
  datatype Counters = Counters(cycle: nat, next: nat, gaps: nat)

  const START := Counters(0, 0, 0)

  /** The pass still takes packets, and this one belongs to a known flow. */
  predicate Takes(c: Counters, p: Captured) {
    c.gaps <= MAX_GAPS && p.flow.Known?
  }

  function After(c: Counters, p: Captured): Counters {
    if !Takes(c, p) then c
    else Counters(p.cycle, c.next + 1, c.gaps + (if p.cycle - c.cycle > 1 && c.cycle != 0 then 1 else 0))
  }

  /** The packets that are taken from a capture, in order. */
  function Taken(c: Counters, capture: seq<Captured>): seq<Captured>
    decreases |capture|
  {
    if capture == [] then []
    else (if Takes(c, capture[0]) then [capture[0]] else []) + Taken(After(c, capture[0]), capture[1..])
  }

  /** The idle line before a packet, if there is one. */
  function Gap(c: Counters, p: Captured): (lines: seq<Line>)
    ensures forall k | 0 <= k < |lines| :: lines[k].Idle? && lines[k].cycles <= LAST_IDLE
  {
    if p.cycle - c.cycle <= 1 then []
    else if c.cycle == 0 then [Idle(FIRST_IDLE)]
    else [Idle(if p.cycle - c.cycle - 1 < MAX_INTERVAL then p.cycle - c.cycle - 1 else MAX_INTERVAL)]
  }

  function LinesFor(c: Counters, p: Captured): seq<Line> {
    if !Takes(c, p) then [] else Gap(c, p) + [PushLine(p.flow.leaf, c.next, p.ranks)] + [PopLine]
  }

  /** The whole trace of a capture. */
  function Trace(c: Counters, capture: seq<Captured>): seq<Line>
    decreases |capture|
  {
    if capture == [] then [Idle(LAST_IDLE)]
    else LinesFor(c, capture[0]) + Trace(After(c, capture[0]), capture[1..])
  }

  /** The clock never goes back between packets that are taken. */
  predicate InTime(c: Counters, capture: seq<Captured>)
    decreases |capture|
  {
    capture == [] ||
    ((Takes(c, capture[0]) ==> c.cycle <= capture[0].cycle) && InTime(After(c, capture[0]), capture[1..]))
  }

  // ---------- the two passes ----------

  /** The flow lines of taken packets, the first of them under number `first`. */
  function Entries(taken: seq<Captured>, first: nat): (r: seq<Entry>)
    requires forall k | 0 <= k < |taken| :: taken[k].flow.Known?
    ensures |r| == |taken| && forall k | 0 <= k < |r| :: r[k] == Entry(first + k, taken[k].flow.fid)
  {
    seq(|taken|, k requires 0 <= k < |taken| => Entry(first + k, taken[k].flow.fid))
  }

  lemma {:induction false} TakenKnown(c: Counters, capture: seq<Captured>)
    ensures forall k | 0 <= k < |Taken(c, capture)| :: Taken(c, capture)[k].flow.Known?
    decreases |capture|
  {
    if capture != [] {
      TakenKnown(After(c, capture[0]), capture[1..]);
    }
  }

  lemma TraceStep(c: Counters, capture: seq<Captured>, k: nat)
    requires k < |capture|
    ensures Trace(c, capture[k..]) == LinesFor(c, capture[k]) + Trace(After(c, capture[k]), capture[k + 1..])
    ensures Taken(c, capture[k..]) ==
            (if Takes(c, capture[k]) then [capture[k]] else []) + Taken(After(c, capture[k]), capture[k + 1..])
    ensures InTime(c, capture[k..]) ==>
              (Takes(c, capture[k]) ==> c.cycle <= capture[k].cycle) && InTime(After(c, capture[k]), capture[k + 1..])
  {
    assert capture[k..][0] == capture[k] && capture[k..][1..] == capture[k + 1..];
  }

  /** The counters are shared by the passes and set to zero before each of them. */
  class Tagger {
    var curCycle: nat
    var pktId: nat
    var idleCycleCnt: nat

    function Cnt(): Counters
      reads this
    {
      Counters(curCycle, pktId, idleCycleCnt)
    }

    /** What is printed into the trace for one captured packet. */
    method TagHandler(p: Captured) returns (lines: seq<Line>)
      requires Takes(Cnt(), p) ==> curCycle <= p.cycle
      modifies this
      ensures lines == LinesFor(old(Cnt()), p) && Cnt() == After(old(Cnt()), p)
    {
      lines := [];
      if idleCycleCnt > MAX_GAPS || p.flow.Unknown? {
        return;
      }
      if p.cycle - curCycle > 1 {
        if curCycle != 0 {
          lines := [Idle(if p.cycle - curCycle - 1 < MAX_INTERVAL then p.cycle - curCycle - 1 else MAX_INTERVAL)];
          idleCycleCnt := idleCycleCnt + 1;
        } else {
          lines := [Idle(FIRST_IDLE)];
        }
      }
      curCycle := p.cycle;
      lines := lines + [PushLine(p.flow.leaf, pktId, p.ranks)];
      pktId := pktId + 1;
      lines := lines + [PopLine];
    }

    /** What is printed into the flow map for one captured packet. */
    method MapHandler(p: Captured) returns (entries: seq<Entry>)
      requires Takes(Cnt(), p) ==> curCycle <= p.cycle
      modifies this
      ensures entries == if Takes(old(Cnt()), p) then [Entry(old(pktId), p.flow.fid)] else []
      ensures Cnt() == After(old(Cnt()), p)
    {
      entries := [];
      if idleCycleCnt > MAX_GAPS || p.flow.Unknown? {
        return;
      }
      entries := [Entry(pktId, p.flow.fid)];
      pktId := pktId + 1;
      if p.cycle - curCycle > 1 {
        if curCycle != 0 {
          idleCycleCnt := idleCycleCnt + 1;
        }
      }
      curCycle := p.cycle;
    }

    /** The trace of a capture. */
    method TagPriority(capture: seq<Captured>) returns (lines: seq<Line>)
      requires InTime(START, capture)
      modifies this
      ensures lines == Trace(START, capture)
    {
      hide LinesFor, Takes, After, Trace, Taken, InTime;
      idleCycleCnt, pktId, curCycle := 0, 0, 0;
      lines := [];
      var k := 0;
      assert capture[0..] == capture;
      while k < |capture|
        invariant 0 <= k <= |capture|
        invariant lines + Trace(Cnt(), capture[k..]) == Trace(START, capture)
        invariant InTime(Cnt(), capture[k..])
      {
        TraceStep(Cnt(), capture, k);
        var more := TagHandler(capture[k]);
        lines := lines + more;
        k := k + 1;
      }
      TraceEnd(Cnt(), capture);
      lines := lines + [Idle(LAST_IDLE)];
    }

    /** The flow map of a capture. */
    method PrintPFMap(capture: seq<Captured>) returns (entries: seq<Entry>)
      requires InTime(START, capture)
      modifies this
      ensures forall k | 0 <= k < |Taken(START, capture)| :: Taken(START, capture)[k].flow.Known?
      ensures entries == Entries(Taken(START, capture), 0)
    {
      hide LinesFor, After, Trace, Taken, InTime;
      TakenKnown(START, capture);
      idleCycleCnt, pktId, curCycle := 0, 0, 0;
      entries := [];
      ghost var done: seq<Captured> := [];
      var k := 0;
      assert capture[0..] == capture;
      while k < |capture|
        invariant 0 <= k <= |capture|
        invariant done + Taken(Cnt(), capture[k..]) == Taken(START, capture)
        invariant pktId == |done| == |entries|
        invariant forall j | 0 <= j < |done| :: done[j].flow.Known? && entries[j] == Entry(j, done[j].flow.fid)
        invariant InTime(Cnt(), capture[k..])
      {
        TraceStep(Cnt(), capture, k);
        NextNumber(Cnt(), capture[k]);
        var more := MapHandler(capture[k]);
        entries := entries + more;
        done := done + if |more| == 1 then [capture[k]] else [];
        k := k + 1;
      }
      TraceEnd(Cnt(), capture);
    }
  }

  lemma NextNumber(c: Counters, p: Captured)
    ensures After(c, p).next == c.next + if Takes(c, p) then 1 else 0
  {
  }

  lemma TraceEnd(c: Counters, capture: seq<Captured>)
    ensures Trace(c, capture[|capture|..]) == [Idle(LAST_IDLE)] && Taken(c, capture[|capture|..]) == []
  {
  }

  // ---------- what the trace holds ----------

  /** The push lines among the lines printed. */
  function Pushes(lines: seq<Line>): seq<Line> {
    if lines == [] then []
    else (if lines[0].PushLine? then [lines[0]] else []) + Pushes(lines[1..])
  }

  lemma {:induction false} PushesAppend(a: seq<Line>, b: seq<Line>)
    ensures Pushes(a + b) == Pushes(a) + Pushes(b)
    decreases |a|
  {
    if a == [] {
      assert a + b == b;
    } else {
      assert (a + b)[0] == a[0] && (a + b)[1..] == a[1..] + b;
      PushesAppend(a[1..], b);
    }
  }

  lemma LinesForPushes(c: Counters, p: Captured)
    ensures Pushes(LinesFor(c, p)) == if Takes(c, p) then [PushLine(p.flow.leaf, c.next, p.ranks)] else []
  {
    if Takes(c, p) {
      var x := PushLine(p.flow.leaf, c.next, p.ranks);
      assert Pushes([x]) == [x] + Pushes([x][1..]) && [x][1..] == [];
      assert Pushes([PopLine]) == Pushes([PopLine][1..]) && [PopLine][1..] == [];
      assert Pushes(Gap(c, p)) == [];
      PushesAppend(Gap(c, p), [x]);
      PushesAppend(Gap(c, p) + [x], [PopLine]);
    }
  }

  /** Push line `k` is of taken packet `k`, under the next number, with its leaf and its ranks. */
  ghost predicate LinesOf(lines: seq<Line>, taken: seq<Captured>, first: nat) {
    && |Pushes(lines)| == |taken|
    && forall k | 0 <= k < |taken| ::
         taken[k].flow.Known? && Pushes(lines)[k] == PushLine(taken[k].flow.leaf, first + k, taken[k].ranks)
  }

  /** A push line is followed by a pop line, a pop line follows a push line, and idle counts fit 8 bits. */
  ghost predicate WellFormed(lines: seq<Line>) {
    && (forall k | 0 <= k < |lines| && lines[k].Idle? :: lines[k].cycles <= LAST_IDLE)
    && (forall k | 0 <= k < |lines| && lines[k].PushLine? :: k + 1 < |lines| && lines[k + 1].PopLine?)
    && (forall k | 0 <= k < |lines| && lines[k].PopLine? :: k > 0 && lines[k - 1].PushLine?)
  }

  lemma LinesOfAppend(lines: seq<Line>, rest: seq<Line>, p: Captured, taken: seq<Captured>, first: nat)
    requires LinesOf(rest, taken, first + |Pushes(lines)|)
    requires Pushes(lines) == [] || (p.flow.Known? && Pushes(lines) == [PushLine(p.flow.leaf, first, p.ranks)])
    ensures LinesOf(lines + rest, (if Pushes(lines) == [] then [] else [p]) + taken, first)
  {
    hide Pushes;
    PushesAppend(lines, rest);
  }

  /** The push lines of a trace are those of the taken packets, numbered in order. */
  lemma {:induction false} TraceLines(c: Counters, capture: seq<Captured>)
    ensures LinesOf(Trace(c, capture), Taken(c, capture), c.next)
    decreases |capture|
  {
    if capture == [] {
      assert Pushes([Idle(LAST_IDLE)]) == Pushes([Idle(LAST_IDLE)][1..]) && [Idle(LAST_IDLE)][1..] == [];
      assert LinesOf([Idle(LAST_IDLE)], [], c.next);
    } else {
      hide Pushes, LinesFor, LinesOf;
      var p := capture[0];
      TraceLines(After(c, p), capture[1..]);
      LinesForPushes(c, p);
      LinesOfAppend(LinesFor(c, p), Trace(After(c, p), capture[1..]), p, Taken(After(c, p), capture[1..]), c.next);
    }
  }

  lemma WellFormedAppend(a: seq<Line>, b: seq<Line>)
    requires WellFormed(a) && WellFormed(b)
    ensures WellFormed(a + b)
  {
    var ab := a + b;
    forall k | 0 <= k < |ab| && ab[k].PushLine? ensures k + 1 < |ab| && ab[k + 1].PopLine? {
      if k >= |a| {
        assert b[k - |a|].PushLine?;
        assert b[k - |a| + 1].PopLine?;
      }
    }
    forall k | 0 <= k < |ab| && ab[k].PopLine? ensures k > 0 && ab[k - 1].PushLine? {
      if k >= |a| {
        assert b[k - |a|].PopLine?;
        assert b[k - |a| - 1].PushLine?;
      }
    }
  }

  /** In every trace the lines have this shape. */
  lemma {:induction false} TraceWellFormed(c: Counters, capture: seq<Captured>)
    ensures WellFormed(Trace(c, capture))
    decreases |capture|
  {
    if capture != [] {
      TraceWellFormed(After(c, capture[0]), capture[1..]);
      WellFormedAppend(LinesFor(c, capture[0]), Trace(After(c, capture[0]), capture[1..]));
    }
  }

  /**
   What an idle line tells: there is one before a packet that comes more than one cycle after
   the one before; its count, and one, is the distance if that is at most 108 cycles, and is
   108 for longer ones; before the first packet it is 10.
   */
  lemma GapTells(c: Counters, p: Captured)
    requires c.cycle <= p.cycle
    ensures |Gap(c, p)| == if p.cycle - c.cycle >= 2 then 1 else 0
    ensures |Gap(c, p)| == 1 && c.cycle != 0 ==>
              (Gap(c, p)[0].cycles + 1 == p.cycle - c.cycle <==> p.cycle - c.cycle <= 108)
    ensures |Gap(c, p)| == 1 && c.cycle != 0 && p.cycle - c.cycle > 108 ==> Gap(c, p)[0].cycles == 107
    ensures |Gap(c, p)| == 1 && c.cycle == 0 ==> Gap(c, p)[0].cycles == 10
  {
  }

  /** The gaps of more than one cycle between taken packets. */
  function Gaps(c: Counters, capture: seq<Captured>): nat
    decreases |capture|
  {
    if capture == [] then 0
    else
      var p := capture[0];
      (if Takes(c, p) && c.cycle != 0 && p.cycle >= c.cycle + 2 then 1 else 0) + Gaps(After(c, p), capture[1..])
  }

  function Final(c: Counters, capture: seq<Captured>): Counters
    decreases |capture|
  {
    if capture == [] then c else Final(After(c, capture[0]), capture[1..])
  }

  /** The counter counts them, up to five. */
  lemma {:induction false} GapsCounted(c: Counters, capture: seq<Captured>)
    requires c.gaps <= 5
    ensures Final(c, capture).gaps == c.gaps + Gaps(c, capture) <= 5
    decreases |capture|
  {
    if capture != [] {
      GapsCounted(After(c, capture[0]), capture[1..]);
    }
  }

  lemma {:induction false} TakenLast(c: Counters, a: seq<Captured>, p: Captured)
    ensures Taken(c, a + [p]) == Taken(c, a) + (if Takes(Final(c, a), p) then [p] else [])
    decreases |a|
  {
    if a == [] {
      assert a + [p] == [p] && [p][1..] == [];
    } else {
      assert (a + [p])[0] == a[0] && (a + [p])[1..] == a[1..] + [p];
      TakenLast(After(c, a[0]), a[1..], p);
    }
  }

  /** The clock of the passes is the cycle of the last packet taken. */
  lemma {:induction false} ClockIsLast(c: Counters, capture: seq<Captured>)
    ensures var taken := Taken(c, capture);
            && Final(c, capture).cycle == (if taken == [] then c.cycle else taken[|taken| - 1].cycle)
            && Final(c, capture).next == c.next + |taken|
    decreases |capture|
  {
    if capture != [] {
      ClockIsLast(After(c, capture[0]), capture[1..]);
    }
  }

  /** A packet is taken if and only if its flow is known and fewer than five gaps came before it. */
  lemma TakenUntilFiveGaps(a: seq<Captured>, p: Captured)
    ensures Taken(START, a + [p]) == Taken(START, a) + (if p.flow.Known? && Gaps(START, a) < 5 then [p] else [])
  {
    GapsCounted(START, a);
    TakenLast(START, a, p);
  }

  /** The trace ends with a line of 255 idle cycles. */
  lemma {:induction false} EndsIdle(c: Counters, capture: seq<Captured>)
    ensures Trace(c, capture) != [] && Trace(c, capture)[|Trace(c, capture)| - 1] == Idle(255)
    decreases |capture|
  {
    if capture != [] {
      EndsIdle(After(c, capture[0]), capture[1..]);
    }
  }

  // ---------- the flow of every packet ----------

  /** The flow map the scheduler reads back, later lines winning. */
  function MapOf(entries: seq<Entry>): map<int, nat> {
    if entries == [] then map[]
    else MapOf(entries[..|entries| - 1])[entries[|entries| - 1].meta := entries[|entries| - 1].fid]
  }

  lemma {:induction false} MapIs(entries: seq<Entry>)
    requires forall i | 0 <= i < |entries| :: entries[i].meta == i
    ensures forall x :: x in MapOf(entries) <==> 0 <= x < |entries|
    ensures forall k | 0 <= k < |entries| :: MapOf(entries)[k] == entries[k].fid
    decreases |entries|
  {
    if entries != [] {
      MapIs(entries[..|entries| - 1]);
    }
  }

  /** Every packet number in the trace has a flow in the map, and it is that packet's flow. */
  lemma EveryMetaFound(capture: seq<Captured>, k: nat)
    requires k < |Pushes(Trace(START, capture))|
    ensures forall j | 0 <= j < |Taken(START, capture)| :: Taken(START, capture)[j].flow.Known?
    ensures var p := Pushes(Trace(START, capture))[k];
            var flows := MapOf(Entries(Taken(START, capture), 0));
            && k < |Taken(START, capture)|
            && p.PushLine? && p.meta in flows
            && Taken(START, capture)[k].flow == Known(p.tree, flows[p.meta])
  {
    TakenKnown(START, capture);
    TraceLines(START, capture);
    MapIs(Entries(Taken(START, capture), 0));
  }
}
