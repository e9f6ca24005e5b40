/**
 The two-level scheduler, one cycle at a time.

 Tree 0 is the root: its elements carry the number of a leaf tree.  The other trees hold
 packets.  A packet becomes one Push for its leaf and one for the root; a root Pop, when
 it executes, turns into a Pop for the leaf it returned.

 The state machine is total: where the source would index an array with a value it
 has just read, the value is first compared with the array's bounds.
 `SchedulerSafety.BoundsHold` shows that in a safe state none of those comparisons fails.
 */
module Scheduler {
  import B = BmwTree
  import opened Ring

  /** A packet waiting in its flow's queue. */
  datatype Packet = Packet(tree: nat, meta: int, p0: int, p1: int)

  /** Levels of a tree, number of trees, and the flow of each packet. */
  datatype Config = Config(l: nat, m: nat, flowOf: map<int, nat>)

  /** A packet that was sent: the leaf it came from and its rank and meta. */
  datatype Departure = Departure(tree: nat, pkt: B.Pair)

  datatype State = State(board: Board, trees: seq<B.Tree>, pushQ: seq<seq<Packet>>, popQ: seq<nat>,
                         cycle: nat, out: seq<Departure>)

  predicate Shape(s: State, cfg: Config) {
    && Shaped(s.board)
    && |s.trees| == cfg.m >= 1
    && (forall r | 0 <= r < cfg.m :: s.trees[r].Node?)
    && |s.pushQ| == |s.popQ|
    && cfg.l >= 2
  }

  function N(s: State): nat {
    |s.board.rpu|
  }

  /** The flow a packet is charged to; a packet the map does not know counts as flow 0. */
  function FlowOf(cfg: Config, meta: int): nat {
    if meta in cfg.flowOf then cfg.flowOf[meta] else 0
  }

  /** The flow map names flows that have a queue. */
  ghost predicate InRange(flowOf: map<int, nat>, flows: nat) {
    forall x | x in flowOf :: flowOf[x] < flows
  }

  function Enqueue(s: State, cfg: Config, t: Task): (r: State)
    requires Shape(s, cfg)
    ensures Shape(r, cfg) && N(r) == N(s) && r.out == s.out
  {
    var i := t.root % N(s);
    s.(board := s.board.(lists := s.board.lists[i := s.board.lists[i] + [t]]))
  }

  function LeafPush(cfg: Config, p: Packet): Task {
    Task(Push, p.tree, cfg.l, p.p0, p.meta)
  }

  function RootPush(cfg: Config, p: Packet): Task {
    Task(Push, 0, cfg.l, p.p1, p.tree)
  }

  function PopOf(cfg: Config, r: nat): Task {
    Task(Pop, r, cfg.l, 0, 0)
  }

  /** The head of a flow's queue goes to its leaf's list and to the root's list. */
  function EnqueueFlow(s: State, cfg: Config, f: nat): (r: State)
    requires Shape(s, cfg) && f < |s.pushQ|
    ensures Shape(r, cfg) && N(r) == N(s) && r.out == s.out && |r.pushQ| == |s.pushQ|
  {
    if s.pushQ[f] == [] then s
    else
      var p := s.pushQ[f][0];
      Enqueue(Enqueue(s.(pushQ := s.pushQ[f := s.pushQ[f][1..]]), cfg, LeafPush(cfg, p)), cfg, RootPush(cfg, p))
  }

  function EnqueueFlows(s: State, cfg: Config, k: nat): (r: State)
    requires Shape(s, cfg) && k <= |s.pushQ|
    ensures Shape(r, cfg) && N(r) == N(s) && r.out == s.out && |r.pushQ| == |s.pushQ|
  {
    if k == 0 then s else EnqueueFlow(EnqueueFlows(s, cfg, k - 1), cfg, k - 1)
  }

  /** The flow whose credit the next root Pop would use: that of the top packet of the top leaf. */
  function CreditFlow(s: State, cfg: Config): (f: int)
    requires Shape(s, cfg)
    ensures f == -1 || (0 <= f < |s.popQ| && s.popQ[f] > 0)
  {
    var top := B.Top(s.trees[0]);
    if B.Vacant(top) || !(0 <= top.val < cfg.m) then -1
    else
      var pkt := B.Top(s.trees[top.val]);
      if B.Vacant(pkt) then -1
      else
        var f := FlowOf(cfg, pkt.val);
        if f < |s.popQ| && s.popQ[f] > 0 then f else -1
  }

  function TryPop(s: State, cfg: Config): (r: State)
    requires Shape(s, cfg)
    ensures Shape(r, cfg) && N(r) == N(s) && r.out == s.out
  {
    var f := CreditFlow(s, cfg);
    if f == -1 then s
    else Enqueue(s.(popQ := s.popQ[f := s.popQ[f] - 1]), cfg, PopOf(cfg, 0))
  }

  /** A Pop executes in the first cycle after it was issued. */
  predicate Executes(s: State, cfg: Config, i: nat)
    requires i < N(s)
  {
    s.board.rpu[i].kind == Pop && s.board.rpu[i].ttl == cfg.l && s.board.rpu[i].root < cfg.m
  }

  function ExecAt(s: State, cfg: Config, i: nat): (r: State)
    requires Shape(s, cfg) && i < N(s)
    ensures Shape(r, cfg) && N(r) == N(s)
  {
    if !Executes(s, cfg, i) then s
    else
      var r := s.board.rpu[i].root;
      var top := B.Top(s.trees[r]);
      var s1 := s.(trees := s.trees[r := B.Pop(s.trees[r])]);
      if r != 0 then s1.(out := s.out + [Departure(r, top)])
      else if 0 <= top.val < cfg.m then Enqueue(s1, cfg, PopOf(cfg, top.val))
      else s1
  }

  /** The state after the first `k` cells executed. */
  function Stats(s: State, cfg: Config, k: nat): (r: State)
    requires Shape(s, cfg) && k <= N(s)
    ensures Shape(r, cfg) && N(r) == N(s)
  {
    if k == 0 then s else ExecAt(Stats(s, cfg, k - 1), cfg, k - 1)
  }

  function ShiftRing(s: State, cfg: Config): (r: State)
    requires Shape(s, cfg)
    ensures Shape(r, cfg) && N(r) == N(s) && r.out == s.out
  {
    s.(board := s.board.(rpu := Shift(s.board.rpu)))
  }

  /** A Push enters its tree when it is issued. */
  function Dispatch(s: State, cfg: Config, i: nat, locked: bool): (r: State)
    requires Shape(s, cfg) && i < N(s)
    ensures Shape(r, cfg) && N(r) == N(s) && r.out == s.out
  {
    if !Issues(s.board, i, locked) then s
    else
      var t := s.board.lists[i][0];
      var s1 := s.(board := IssueAt(s.board, i, locked));
      if t.kind == Push && t.root < cfg.m then
        s1.(trees := s.trees[t.root := B.Push(s.trees[t.root], B.Pair(t.rank, t.val))])
      else s1
  }

  function DispatchAll(s: State, cfg: Config, locked: seq<bool>, k: nat): (r: State)
    requires Shape(s, cfg) && |locked| == N(s) && k <= N(s)
    ensures Shape(r, cfg) && N(r) == N(s) && r.out == s.out
  {
    if k == 0 then s else Dispatch(DispatchAll(s, cfg, locked, k - 1), cfg, k - 1, locked[k - 1])
  }

  /** The first cycles only fill the trees. */
  const WARM_UP := 50

  /** What a cycle does before the ring moves: new tasks for the lists. */
  function Intake(s: State, cfg: Config): (r: State)
    requires Shape(s, cfg)
    ensures Shape(r, cfg) && N(r) == N(s) && r.out == s.out
  {
    var filled := EnqueueFlows(s, cfg, |s.pushQ|);
    var asked := if s.cycle > WARM_UP then TryPop(filled, cfg) else filled;
    asked.(cycle := s.cycle + 1)
  }

  function Cycle(s: State, cfg: Config, locked: seq<bool>): (r: State)
    requires Shape(s, cfg) && |locked| == N(s)
    ensures Shape(r, cfg) && N(r) == N(s)
  {
    var s1 := Intake(s, cfg);
    var s2 := ShiftRing(Stats(s1, cfg, N(s)), cfg);
    DispatchAll(s2, cfg, locked, N(s))
  }

  /** The state after one cycle for each entry of `locks`. */
  function Cycles(s: State, cfg: Config, locks: seq<seq<bool>>): (r: State)
    requires Shape(s, cfg) && forall t | 0 <= t < |locks| :: |locks[t]| == N(s)
    ensures Shape(r, cfg) && N(r) == N(s)
    decreases |locks|
  {
    if locks == [] then s
    else
      var last := |locks| - 1;
      Cycle(Cycles(s, cfg, locks[..last]), cfg, locks[last])
  }

  /** Where a run starts: nothing in the ring, the lists or the trees. */
  ghost predicate Initial(s: State, cfg: Config) {
    && Shape(s, cfg)
    && (forall i | 0 <= i < N(s) :: s.board.rpu[i].kind == Empty && s.board.rpu[i].ttl == 0 && s.board.lists[i] == [])
    && (forall r | 0 <= r < cfg.m :: s.trees[r] == B.FRESH)
    && s.out == []
  }

  /** The trace names leaves in 1..m-1 and ranks below the sentinel. */
  ghost predicate TraceOk(s: State, cfg: Config) {
    forall f, k | 0 <= f < |s.pushQ| && 0 <= k < |s.pushQ[f]| :: PacketOk(s.pushQ[f][k], cfg)
  }

  predicate PacketOk(p: Packet, cfg: Config) {
    1 <= p.tree < cfg.m && p.p0 < B.INF && p.p1 < B.INF
  }
}
