/**
 Whole runs of the ring: for any task lists and any locks, every task that is issued
 visits one RPU per cycle for all of its levels, and nothing else is ever in the ring.
 */
module RingRuns {
  import opened Ring

  /** The ring one cycle later. */
  function Next(rpu: seq<Task>, lists: seq<seq<Task>>, locked: seq<bool>): (r: seq<Task>)
    requires |rpu| == |lists| == |locked| >= 2
    ensures |r| == |rpu|
  {
    Send(Board(Shift(rpu), lists), locked, |rpu|).rpu
  }

  /** A cell after some issuing: what it held if that was a task, or a fresh task. */
  predicate KeptOrFresh(before: Task, after: Task, l: nat) {
    && (Active(before) ==> after == before)
    && (Active(after) ==> after == before || (after.ttl == l && after.kind != WriteBack))
  }

  lemma IssueKeeps(b: Board, l: nat, i: nat, locked: bool, c: nat)
    requires Shaped(b) && i < |b.rpu| && c < |b.rpu|
    requires RingOk(b.rpu, l) && ListsOk(b.lists, l)
    ensures KeptOrFresh(b.rpu[c], IssueAt(b, i, locked).rpu[c], l)
  {
    assert CellOk(b.rpu[c], c, l, |b.rpu|);
    if Issues(b, i, locked) {
      assert ListTaskOk(b.lists[i][0], i, l, |b.rpu|);
    }
    hide RingOk, ListsOk;
  }

  /** Issuing leaves every task in the ring as it is, and adds only fresh ones. */
  lemma {:induction false} SendKeeps(b: Board, l: nat, locked: seq<bool>, k: nat, c: nat)
    requires Shaped(b) && |locked| == |b.rpu| && k <= |b.rpu| && c < |b.rpu| && l >= 2
    requires RingOk(b.rpu, l) && ListsOk(b.lists, l)
    ensures KeptOrFresh(b.rpu[c], Send(b, locked, k).rpu[c], l)
  {
    hide RingOk, ListsOk, IssueAt;
    if k > 0 {
      SendKeeps(b, l, locked, k - 1, c);
      SendOk(b, l, locked, k - 1);
      IssueKeeps(Send(b, locked, k - 1), l, k - 1, locked[k - 1], c);
    }
  }

  /** One cycle moves every task of the ring one RPU on; a Pop also leaves its WriteBack half. */
  lemma StepMoves(rpu: seq<Task>, l: nat, lists: seq<seq<Task>>, locked: seq<bool>, c: nat)
    requires |rpu| == |lists| == |locked| && c < |rpu| && l >= 2
    requires RingOk(rpu, l) && ListsOk(lists, l)
    ensures (rpu[c].kind == Push || rpu[c].kind == Pop) && rpu[c].ttl >= 2 ==>
              Next(rpu, lists, locked)[Succ(c, |rpu|)] == rpu[c].(ttl := rpu[c].ttl - 1)
    ensures rpu[c].kind == Pop ==> Next(rpu, lists, locked)[c] == rpu[c].(kind := WriteBack)
    ensures rpu[c].kind == WriteBack && rpu[c].ttl >= 2 ==>
              Next(rpu, lists, locked)[Succ(c, |rpu|)] == rpu[c].(ttl := rpu[c].ttl - 1)
  {
    hide Send;
    var b := Board(Shift(rpu), lists);
    var d := Succ(c, |rpu|);
    PredSucc(c, |rpu|);
    ShiftOk(rpu, l);
    SendKeeps(b, l, locked, |rpu|, c);
    SendKeeps(b, l, locked, |rpu|, d);
    if rpu[c].ttl >= 2 {
      FrontIsFree(rpu, l, c);
      assert Paired(rpu, c);
    }
  }

  /** Whatever a cycle leaves in the ring is new or was one RPU behind a cycle earlier. */
  lemma StepOrigin(rpu: seq<Task>, l: nat, lists: seq<seq<Task>>, locked: seq<bool>, c: nat)
    requires |rpu| == |lists| == |locked| && c < |rpu| && l >= 2
    requires RingOk(rpu, l) && ListsOk(lists, l)
    ensures var t := Next(rpu, lists, locked)[c];
            && ((t.kind == Push || t.kind == Pop) && t.ttl < l ==>
                  rpu[Pred(c, |rpu|)] == t.(ttl := t.ttl + 1))
            && (t.kind == WriteBack ==> rpu[c] == t.(kind := Pop))
  {
    hide Send;
    var b := Board(Shift(rpu), lists);
    ShiftOk(rpu, l);
    ShiftedCell(rpu, l, c);
    SendKeeps(b, l, locked, |rpu|, c);
  }

  lemma NextOk(rpu: seq<Task>, l: nat, lists: seq<seq<Task>>, locked: seq<bool>)
    requires |rpu| == |lists| == |locked| && l >= 2
    requires RingOk(rpu, l) && ListsOk(lists, l)
    ensures RingOk(Next(rpu, lists, locked), l)
  {
    hide RingOk, ListsOk, Send, Shift;
    RingShape(rpu, l);
    ShiftOk(rpu, l);
    SendOk(Board(Shift(rpu), lists), l, locked, |rpu|);
  }

  lemma RingShape(rpu: seq<Task>, l: nat)
    requires RingOk(rpu, l)
    ensures |rpu| >= 2
  {
  }

  // ---------- runs ----------

  /** A run: the ring after each cycle, what the lists held and which cells were locked in each cycle. */
  datatype Run = Run(rpus: seq<seq<Task>>, feeds: seq<seq<seq<Task>>>, locks: seq<seq<bool>>)

  ghost predicate IsRun(r: Run, l: nat, n: nat) {
    && n >= 2 && l >= 2
    && |r.rpus| == |r.feeds| + 1 == |r.locks| + 1
    && |r.rpus[0]| == n
    && (forall i | 0 <= i < n :: r.rpus[0][i].kind == Empty && r.rpus[0][i].ttl == 0)
    && (forall t | 0 <= t < |r.feeds| :: IsStep(r, l, n, t))
  }

  ghost predicate IsStep(r: Run, l: nat, n: nat, t: nat)
    requires t < |r.feeds| && |r.rpus| == |r.feeds| + 1 == |r.locks| + 1
  {
    && |r.rpus[t]| == |r.feeds[t]| == |r.locks[t]| == n >= 2
    && ListsOk(r.feeds[t], l)
    && r.rpus[t + 1] == Next(r.rpus[t], r.feeds[t], r.locks[t])
  }

  /** In every reachable state the ring invariant holds. */
  lemma {:induction false} RunOk(r: Run, l: nat, n: nat, t: nat)
    requires IsRun(r, l, n) && t < |r.rpus|
    ensures RingOk(r.rpus[t], l) && |r.rpus[t]| == n
  {
    hide Next;
    if t > 0 {
      RunOk(r, l, n, t - 1);
      assert IsStep(r, l, n, t - 1);
      NextOk(r.rpus[t - 1], l, r.feeds[t - 1], r.locks[t - 1]);
    }
  }

  /**
   A task issued at cycle `t` in cell `c` is, `d` cycles later and for all of its `l`
   cycles, `d` cells further on with `d` fewer cycles to go; a Pop writes back in every
   one of those cells one cycle after it was there.
   */
  lemma {:induction false} TaskTravels(r: Run, l: nat, n: nat, t: nat, c: nat, d: nat)
    requires IsRun(r, l, n) && t + d < |r.rpus| && d < l
    requires c < |r.rpus[t]| && (r.rpus[t][c].kind == Push || r.rpus[t][c].kind == Pop) && r.rpus[t][c].ttl == l
    ensures |r.rpus[t + d]| == n
    ensures r.rpus[t + d][(c + d) % n] == r.rpus[t][c].(ttl := l - d)
    ensures r.rpus[t][c].kind == Pop && t + d + 1 < |r.rpus| ==>
              |r.rpus[t + d + 1]| == n &&
              r.rpus[t + d + 1][(c + d) % n] == r.rpus[t][c].(kind := WriteBack, ttl := l - d)
  {
    hide Next, RingOk, ListsOk;
    RunOk(r, l, n, t);
    RunOk(r, l, n, t + d);
    if d == 0 {
      ModUnique(c, 0, c, n);
    } else {
      TaskTravels(r, l, n, t, c, d - 1);
      RunOk(r, l, n, t + d - 1);
      assert IsStep(r, l, n, t + d - 1);
      StepMoves(r.rpus[t + d - 1], l, r.feeds[t + d - 1], r.locks[t + d - 1], (c + d - 1) % n);
      ModSucc(c + d - 1, n);
    }
    if t + d + 1 < |r.rpus| {
      RunOk(r, l, n, t + d + 1);
      assert IsStep(r, l, n, t + d);
      StepMoves(r.rpus[t + d], l, r.feeds[t + d], r.locks[t + d], (c + d) % n);
    }
  }

  /** Conversely every Push or Pop in the ring with `k` cycles to go was issued l - k cycles ago at its tree's RPU. */
  lemma {:induction false} TaskWasIssued(r: Run, l: nat, n: nat, t: nat, c: nat)
    requires IsRun(r, l, n) && t < |r.rpus| && c < |r.rpus[t]|
    requires r.rpus[t][c].kind == Push || r.rpus[t][c].kind == Pop
    ensures var x := r.rpus[t][c];
            && 1 <= x.ttl <= l <= t + x.ttl
            && |r.rpus[t - (l - x.ttl)]| == n
            && r.rpus[t - (l - x.ttl)][x.root % n] == x.(ttl := l)
    decreases t
  {
    hide Next, ListsOk;
    RunOk(r, l, n, t);
    var x := r.rpus[t][c];
    assert CellOk(x, c, l, n);
    if x.ttl < l {
      assert t > 0;
      RunOk(r, l, n, t - 1);
      assert IsStep(r, l, n, t - 1);
      StepOrigin(r.rpus[t - 1], l, r.feeds[t - 1], r.locks[t - 1], c);
      TaskWasIssued(r, l, n, t - 1, Pred(c, n));
    }
  }
}
