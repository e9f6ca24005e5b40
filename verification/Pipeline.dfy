/**
 The bare ring run on a finite batch of tasks until all of them are counted complete.
 */
module Pipeline {
  import opened Ring
  import opened RingCounts
  import RR = RingRuns
  import C = Completion

  class Pipeline {
    const n: nat
    const r: array<Task>
    var lists: seq<seq<Task>>
    var taskNum: int
    /** The cycles run so far. */
    var cycles: nat

    ghost predicate Shape()
      reads this, r
    {
      n >= 2 && r.Length == n == |lists|
    }

    ghost function View(): (b: Board)
      requires Shape()
      reads this, r
      ensures Shaped(b) && |b.rpu| == n
    {
      Board(r[..], lists)
    }

    ghost predicate Valid()
      reads this, r
    {
      && Shape()
      && RingOk(r[..], n) && ListsOk(lists, n)
      && taskNum == Pending(lists) + LiveCount(r[..])
    }

    /** A batch: each list holds Pushes and Pops of its own tree, each for `n` cycles. */
    constructor (n: nat, batch: seq<seq<Task>>)
      requires n >= 2 && |batch| == n && ListsOk(batch, n)
      ensures Valid() && this.n == n && fresh(r)
      ensures lists == batch && taskNum == Pending(batch) && cycles == 0
      ensures LivesAtMost(r[..], 0)
    {
      this.n := n;
      r := new Task[n](_ => Task(Empty, 0, 0, 0, 0));
      lists := batch;
      taskNum := Pending(batch);
      cycles := 0;
      new;
      SumZero(Lives(r[..]));
    }

    /** Counts down by the tasks whose Push or WriteBack is in its last cycle. */
    method CountCompleted()
      requires Shape()
      modifies this`taskNum
      ensures taskNum == old(taskNum) - EndCount(r[..])
    {
      var i := 0;
      assert AllEnds(r[..])[..0] == [];
      while i < n
        invariant 0 <= i <= n
        invariant taskNum == old(taskNum) - Sum(AllEnds(r[..])[..i])
      {
        if r[i].ttl == 1 && (r[i].kind == Push || r[i].kind == WriteBack) {
          taskNum := taskNum - 1;
        }
        ghost var ends := AllEnds(r[..]);
        SumAppend(ends[..i], [ends[i]]);
        assert ends[..i + 1] == ends[..i] + [ends[i]];
        i := i + 1;
      }
      assert AllEnds(r[..])[..n] == AllEnds(r[..]);
    }

    method SendTask(i: nat)
      requires Shape() && i < n
      modifies this`lists, r
      ensures Shape() && View() == IssueAt(old(View()), i, false)
    {
      if r[i].kind == Empty {
        if lists[i] != [] {
          var t := lists[i][0];
          if t.kind == Push {
            r[i] := t;
            lists := lists[i := lists[i][1..]];
          } else {
            var j := (i - 1 + n) % n;
            PredMod(i, n);
            if r[j].ttl <= 1 {
              r[i] := t;
              lists := lists[i := lists[i][1..]];
              if r[j].kind == Empty {
                r[j] := r[j].(kind := Locked);
              }
              r[j] := r[j].(ttl := 1);
            }
          }
        }
      }
    }

    method SendTasks()
      requires Shape() && ListsOk(lists, n)
      modifies this`lists, r
      ensures Shape() && View() == Send(old(View()), seq(n, _ => false), n)
    {
      hide IssueAt;
      ghost var start := View();
      ghost var free := seq(n, _ => false);
      var i := 0;
      while i < n
        invariant 0 <= i <= n && Shape()
        invariant View() == Send(start, free, i)
      {
        SendTask(i);
        i := i + 1;
      }
    }

    /**
     The batch always drains, within n + 2 cycles for each task, and nothing is left in the
     lists or in the ring.  `hist` is what the ring and the lists held in each cycle; by
     `Completion.EveryTaskOnce` each task of the batch was issued and counted complete in it,
     and by `Completion.CompletionWasIssued` nothing else was.
     */
    method Run() returns (ghost hist: RR.Run)
      requires Valid() && cycles == 0 && LivesAtMost(r[..], 0)
      modifies this`lists, this`taskNum, this`cycles, r
      ensures Valid() && taskNum == 0
      ensures forall i | 0 <= i < n :: lists[i] == [] && !Active(r[i])
      ensures cycles <= (n + 2) * old(taskNum)
      ensures RR.IsRun(hist, n, n) && |hist.feeds| == cycles && hist.rpus[cycles] == r[..] && C.AtRest(r[..])
      ensures C.ListsAt(hist, lists, 0) == old(lists) && C.ListsFollow(hist, lists, n, n)
    {
      hide RR.IsRun, C.ListsFollow, RingOk, ListsOk, Pending, LiveCount, LivesAtMost, Send, Shift, RR.Next;
      ghost var slack: nat := 0;
      ghost var total := taskNum;
      Cheaper(n, total, Pending(lists));
      hist := RR.Run([r[..]], [], []);
      StartHistory(r[..], lists);
      while taskNum > 0
        invariant Valid() && LivesAtMost(r[..], slack)
        invariant cycles + (n + 2) * Pending(lists) + slack <= (n + 2) * total
        invariant RR.IsRun(hist, n, n) && |hist.feeds| == cycles && |hist.rpus| == cycles + 1 && hist.rpus[cycles] == r[..]
        invariant C.ListsAt(hist, lists, 0) == old(lists) && C.ListsFollow(hist, lists, n, n)
        decreases (n + 2) * Pending(lists) + slack
      {
        ghost var before := View();
        slack := OneCycle(slack);
        GrowHistory(hist, before, lists);
        hist := Longer(hist, before);
      }
      AllDone();
    }

    /** One cycle of the loop; `slack` bounds how long the ring stays busy if nothing more is issued. */
    method OneCycle(ghost slack: nat) returns (ghost left: nat)
      requires Valid() && taskNum > 0 && LivesAtMost(r[..], slack)
      modifies this`lists, this`taskNum, this`cycles, r
      ensures Valid() && LivesAtMost(r[..], left)
      ensures cycles == old(cycles) + 1
      ensures View() == Send(Board(Shift(old(r[..])), old(lists)), seq(n, _ => false), n)
      ensures (n + 2) * Pending(lists) + left < (n + 2) * old(Pending(lists)) + slack
    {
      hide RingOk, ListsOk, Pending, LiveCount, EndCount, Shift, Send;
      ghost var before := View();
      ghost var free := seq(n, _ => false);
      cycles := cycles + 1;
      CountCompleted();
      ShiftInPlace(r);
      ShiftOk(before.rpu, n);
      ShiftCounts(before.rpu, n);
      ShiftAges(before.rpu, slack);
      ghost var shifted := View();
      SendTasks();
      SendOk(shifted, n, free, n);
      SendCounts(shifted, n, free, n);
      left := if View() == shifted then (if slack == 0 then 0 else slack - 1) else n + 1;
      RingAge(r[..], n);
      if View() == shifted && slack <= 1 {
        Busy(before.rpu, shifted, slack);
      }
      Cheaper(n, Pending(before.lists), Pending(lists));
    }

    /** A ring that is at rest after the shift and issues nothing had nothing waiting. */
    lemma Busy(before: seq<Task>, shifted: Board, slack: nat)
      requires n >= 2 && Shaped(shifted) && |shifted.rpu| == n == |before| && slack <= 1
      requires LivesAtMost(before, slack) && RingOk(before, n) && shifted.rpu == Shift(before)
      requires RingOk(shifted.rpu, n) && ListsOk(shifted.lists, n)
      requires Pending(shifted.lists) + LiveCount(before) > 0
      requires Send(shifted, seq(n, _ => false), n) == shifted
      ensures slack == 1 && Pending(shifted.lists) == 0
    {
      ShiftAges(before, slack);
      SumZero(Lengths(shifted.lists));
      if Pending(shifted.lists) > 0 {
        var i :| 0 <= i < n && Lengths(shifted.lists)[i] != 0;
        RestIssues(shifted, n, i, n);
      } else if slack == 0 {
        forall i | 0 <= i < n ensures Live(before[i]) == 0 {
          assert Life(before[i]) <= 0 && CellOk(before[i], i, n, n);
        }
        SumZero(Lives(before));
      }
    }

    lemma AllDone()
      requires Valid() && taskNum == 0
      ensures forall i | 0 <= i < n :: lists[i] == [] && !Active(r[i])
      ensures C.AtRest(r[..])
    {
      SumZero(Lengths(lists));
      SumZero(Lives(r[..]));
      forall i | 0 <= i < n ensures lists[i] == [] && r[i].kind != Push && r[i].kind != Pop && Live(r[i]) == 0 {
        assert Lengths(lists)[i] == 0 && Lives(r[..])[i] == 0;
      }
      forall i | 0 <= i < n ensures !Active(r[i]) {
        assert CellOk(r[..][i], i, n, n) && Paired(r[..], i);
      }
    }

    /** The history before the first cycle. */
    lemma StartHistory(rpu: seq<Task>, lists: seq<seq<Task>>)
      requires n >= 2 && |rpu| == n && RingOk(rpu, n) && LivesAtMost(rpu, 0)
      ensures var h := RR.Run([rpu], [], []);
              RR.IsRun(h, n, n) && C.ListsAt(h, lists, 0) == lists && C.ListsFollow(h, lists, n, n)
    {
      forall i | 0 <= i < n ensures rpu[i].kind == Empty && rpu[i].ttl == 0 {
        assert CellOk(rpu[i], i, n, n) && Life(rpu[i]) <= 0;
      }
    }

    /** The history with one more cycle, from board `b`. */
    ghost function Longer(h: RR.Run, b: Board): RR.Run
      requires n >= 2 && |b.rpu| == |b.lists| == n
    {
      var free := seq(n, _ => false);
      RR.Run(h.rpus + [RR.Next(b.rpu, b.lists, free)], h.feeds + [b.lists], h.locks + [free])
    }

    lemma HistoryIsRun(h: RR.Run, b: Board)
      requires n >= 2 && |b.rpu| == |b.lists| == n && ListsOk(b.lists, n)
      requires RR.IsRun(h, n, n) && h.rpus[|h.rpus| - 1] == b.rpu
      ensures |h.rpus| == |h.feeds| + 1 == |h.locks| + 1
      ensures RR.IsRun(Longer(h, b), n, n)
      ensures forall t | 0 <= t < |h.feeds| + 1 :: RR.IsStep(Longer(h, b), n, n, t)
    {
      hide ListsOk, RR.Next;
      var g := Longer(h, b);
      forall t | 0 <= t < |g.feeds| ensures RR.IsStep(g, n, n, t) {
        if t < |h.feeds| {
          assert RR.IsStep(h, n, n, t);
        }
      }
    }

    lemma GrowHistory(h: RR.Run, b: Board, after: seq<seq<Task>>)
      requires n >= 2 && |b.rpu| == |b.lists| == n && ListsOk(b.lists, n)
      requires RR.IsRun(h, n, n) && C.ListsFollow(h, b.lists, n, n) && h.rpus[|h.rpus| - 1] == b.rpu
      requires after == Send(Board(Shift(b.rpu), b.lists), seq(n, _ => false), n).lists
      ensures var g := Longer(h, b);
              && RR.IsRun(g, n, n) && |g.feeds| == |h.feeds| + 1 && |g.rpus| == |h.rpus| + 1
              && C.ListsAt(g, after, 0) == C.ListsAt(h, b.lists, 0) && C.ListsFollow(g, after, n, n)
              && g.rpus[|h.rpus|] == Send(Board(Shift(b.rpu), b.lists), seq(n, _ => false), n).rpu
    {
      hide ListsOk, Send, Shift;
      var g := Longer(h, b);
      HistoryIsRun(h, b);
      hide RR.Next, RR.IsRun;
      assert forall t | 0 <= t < |h.feeds| :: RR.IsStep(h, n, n, t);
      forall t | 0 <= t < |g.feeds|
        ensures C.ListsAt(g, after, t + 1) == Send(Board(Shift(g.rpus[t]), g.feeds[t]), g.locks[t], n).lists
      {
        if t < |h.feeds| {
          assert C.ListsAt(g, after, t + 1) == C.ListsAt(h, b.lists, t + 1);
        }
      }
    }
  }

  lemma PredMod(i: nat, n: nat)
    requires i < n
    ensures (i - 1 + n) % n == Pred(i, n)
  {
    if i == 0 {
      ModUnique(n - 1, 0, n - 1, n);
    } else {
      ModUnique(i - 1 + n, 1, i - 1, n);
    }
  }

  lemma Cheaper(n: nat, before: nat, after: nat)
    requires after <= before
    ensures after < before ==> (n + 2) * after + n + 1 < (n + 2) * before
    ensures after == before ==> (n + 2) * after == (n + 2) * before
  {
    if after < before {
      MulAtLeast(before - after, n + 2);
      assert (n + 2) * before == (n + 2) * after + (before - after) * (n + 2);
    }
  }
}
