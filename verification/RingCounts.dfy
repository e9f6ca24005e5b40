/**
 Counting the tasks of a ring: what a cycle completes and what it issues.
 */
module RingCounts {
  import opened Ring

  function Sum(xs: seq<nat>): nat {
    if xs == [] then 0 else xs[0] + Sum(xs[1..])
  }

  lemma {:induction false} SumAppend(xs: seq<nat>, ys: seq<nat>)
    ensures Sum(xs + ys) == Sum(xs) + Sum(ys)
  {
    if xs == [] {
      assert xs + ys == ys;
    } else {
      assert (xs + ys)[1..] == xs[1..] + ys;
      SumAppend(xs[1..], ys);
    }
  }

  lemma SumSplit(xs: seq<nat>, i: nat)
    requires i < |xs|
    ensures Sum(xs) == Sum(xs[..i]) + xs[i] + Sum(xs[i + 1..])
  {
    hide Sum;
    assert xs == xs[..i] + xs[i..] && xs[i..][0] == xs[i] && xs[i..][1..] == xs[i + 1..];
    SumAppend(xs[..i], xs[i..]);
    SumHead(xs[i..]);
  }

  lemma SumHead(xs: seq<nat>)
    requires xs != []
    ensures Sum(xs) == xs[0] + Sum(xs[1..])
  {
  }

  lemma SumUpdate(xs: seq<nat>, i: nat, v: nat)
    requires i < |xs|
    ensures Sum(xs[i := v]) == Sum(xs) - xs[i] + v
  {
    hide Sum;
    SumSplit(xs, i);
    SumSplit(xs[i := v], i);
    assert xs[i := v][..i] == xs[..i] && xs[i := v][i + 1..] == xs[i + 1..];
  }

  lemma {:induction false} SumAdd(xs: seq<nat>, ys: seq<nat>, zs: seq<nat>)
    requires |xs| == |ys| == |zs| && forall i | 0 <= i < |xs| :: zs[i] == xs[i] + ys[i]
    ensures Sum(zs) == Sum(xs) + Sum(ys)
  {
    if xs != [] {
      SumAdd(xs[1..], ys[1..], zs[1..]);
    }
  }

  /** Summing in the order of predecessors is summing. */
  lemma SumRotate(xs: seq<nat>, ys: seq<nat>)
    requires |xs| == |ys| >= 1 && forall i | 0 <= i < |xs| :: ys[i] == xs[Pred(i, |xs|)]
    ensures Sum(ys) == Sum(xs)
  {
    hide Sum;
    var n := |xs|;
    SumAppend(xs[..n - 1], [xs[n - 1]]);
    assert xs == xs[..n - 1] + [xs[n - 1]];
    assert ys == [xs[n - 1]] + xs[..n - 1];
    SumAppend([xs[n - 1]], xs[..n - 1]);
  }

  lemma {:induction false} SumZero(xs: seq<nat>)
    ensures Sum(xs) == 0 <==> forall i | 0 <= i < |xs| :: xs[i] == 0
  {
    if xs != [] {
      SumZero(xs[1..]);
      if forall i | 0 <= i < |xs[1..]| :: xs[1..][i] == 0 {
        forall i | 1 <= i < |xs| ensures xs[i] == 0 {
          assert xs[1..][i - 1] == 0;
        }
      }
    }
  }

  // ---------- tasks in the ring ----------

  /** A task that is under way and not yet counted as complete shows up exactly once. */
  function Live(t: Task): nat {
    if t.kind == Push || t.kind == Pop || (t.kind == WriteBack && t.ttl == 1) then 1 else 0
  }

  /** The task in this cell completes in this cycle. */
  function Ends(t: Task): nat {
    if t.ttl == 1 && (t.kind == Push || t.kind == WriteBack) then 1 else 0
  }

  function Lives(rpu: seq<Task>): (xs: seq<nat>)
    ensures |xs| == |rpu| && forall i | 0 <= i < |xs| :: xs[i] == Live(rpu[i])
  {
    seq(|rpu|, i requires 0 <= i < |rpu| => Live(rpu[i]))
  }

  function AllEnds(rpu: seq<Task>): (xs: seq<nat>)
    ensures |xs| == |rpu| && forall i | 0 <= i < |xs| :: xs[i] == Ends(rpu[i])
  {
    seq(|rpu|, i requires 0 <= i < |rpu| => Ends(rpu[i]))
  }

  function LiveCount(rpu: seq<Task>): nat {
    Sum(Lives(rpu))
  }

  function EndCount(rpu: seq<Task>): nat {
    Sum(AllEnds(rpu))
  }

  function Lengths(lists: seq<seq<Task>>): (xs: seq<nat>)
    ensures |xs| == |lists| && forall i | 0 <= i < |xs| :: xs[i] == |lists[i]|
  {
    seq(|lists|, i requires 0 <= i < |lists| => |lists[i]|)
  }

  /** The tasks still waiting in the lists. */
  function Pending(lists: seq<seq<Task>>): nat {
    Sum(Lengths(lists))
  }

  /** A Pop in its last cell stays there once more, as a WriteBack. */
  function Stays(t: Task): nat {
    if t.kind == Pop && t.ttl == 1 then 1 else 0
  }

  function Moves(t: Task): nat {
    if (t.kind == Push || t.kind == Pop) && t.ttl >= 2 then 1 else 0
  }

  lemma ShiftedLive(rpu: seq<Task>, l: nat, i: nat)
    requires RingOk(rpu, l) && i < |rpu|
    ensures Live(Shift(rpu)[i]) == Stays(rpu[i]) + Moves(rpu[Pred(i, |rpu|)])
    ensures Live(rpu[i]) == Stays(rpu[i]) + Moves(rpu[i]) + Ends(rpu[i])
  {
    ShiftedCell(rpu, l, i);
    assert CellOk(rpu[i], i, l, |rpu|) && Guarded(rpu, i);
  }

  /** A shift loses exactly the tasks that complete. */
  lemma ShiftCounts(rpu: seq<Task>, l: nat)
    requires RingOk(rpu, l)
    ensures LiveCount(Shift(rpu)) == LiveCount(rpu) - EndCount(rpu)
  {
    var n := |rpu|;
    var stays := seq(n, i requires 0 <= i < n => Stays(rpu[i]));
    var moves := seq(n, i requires 0 <= i < n => Moves(rpu[i]));
    var moved := seq(n, i requires 0 <= i < n => Moves(rpu[Pred(i, n)]));
    var goOn := seq(n, i requires 0 <= i < n => Stays(rpu[i]) + Moves(rpu[i]));
    forall i | 0 <= i < n
      ensures Live(Shift(rpu)[i]) == stays[i] + moved[i]
      ensures Live(rpu[i]) == goOn[i] + Ends(rpu[i])
    {
      ShiftedLive(rpu, l, i);
    }
    hide RingOk, Shift;
    SumAdd(stays, moved, Lives(Shift(rpu)));
    SumAdd(goOn, AllEnds(rpu), Lives(rpu));
    SumAdd(stays, moves, goOn);
    SumRotate(moves, moved);
  }

  /** Issuing moves one task from a list into the ring and neither adds nor loses any. */
  lemma IssueAtCounts(b: Board, l: nat, i: nat, locked: bool)
    requires Shaped(b) && i < |b.rpu| && RingOk(b.rpu, l) && ListsOk(b.lists, l)
    ensures var r := IssueAt(b, i, locked);
            && Pending(r.lists) + LiveCount(r.rpu) == Pending(b.lists) + LiveCount(b.rpu)
            && Pending(r.lists) == Pending(b.lists) - (if Issues(b, i, locked) then 1 else 0)
  {
    hide Sum, RingOk, ListsOk;
    if Issues(b, i, locked) {
      SumUpdate(Lengths(b.lists), i, |b.lists[i]| - 1);
      assert Lengths(IssueAt(b, i, locked).lists) == Lengths(b.lists)[i := |b.lists[i]| - 1];
      SumUpdate(Lives(b.rpu), i, 1);
      IssuedLives(b, l, i, locked);
    }
  }

  /** A cell that was empty has a live task, and no other cell changes in that respect. */
  lemma IssuedLives(b: Board, l: nat, i: nat, locked: bool)
    requires Shaped(b) && i < |b.rpu| && RingOk(b.rpu, l) && ListsOk(b.lists, l) && Issues(b, i, locked)
    ensures Lives(b.rpu)[i] == 0 && Lives(IssueAt(b, i, locked).rpu) == Lives(b.rpu)[i := 1]
  {
    var r := IssueAt(b, i, locked);
    assert ListTaskOk(b.lists[i][0], i, l, |b.rpu|);
    forall k | 0 <= k < |b.rpu| ensures Live(r.rpu[k]) == Lives(b.rpu)[i := 1][k] {
      assert CellOk(b.rpu[k], k, l, |b.rpu|);
    }
  }

  lemma {:induction false} SendCounts(b: Board, l: nat, locked: seq<bool>, k: nat)
    requires Shaped(b) && |locked| == |b.rpu| && k <= |b.rpu| && l >= 2
    requires RingOk(b.rpu, l) && ListsOk(b.lists, l)
    ensures var r := Send(b, locked, k);
            && Pending(r.lists) + LiveCount(r.rpu) == Pending(b.lists) + LiveCount(b.rpu)
            && Pending(r.lists) <= Pending(b.lists)
            && (Pending(r.lists) == Pending(b.lists) ==> r == b)
  {
    hide RingOk, ListsOk, Pending, LiveCount;
    if k > 0 {
      SendCounts(b, l, locked, k - 1);
      SendOk(b, l, locked, k - 1);
      IssueAtCounts(Send(b, locked, k - 1), l, k - 1, locked[k - 1]);
    }
  }

  // ---------- time ----------

  /** An upper bound on the cycles a cell is still busy with what it holds. */
  function Life(t: Task): int {
    if t.kind == Pop then t.ttl + 1 else t.ttl
  }

  ghost predicate LivesAtMost(rpu: seq<Task>, m: int) {
    forall i | 0 <= i < |rpu| :: Life(rpu[i]) <= m
  }

  lemma ShiftAges(rpu: seq<Task>, m: nat)
    requires LivesAtMost(rpu, m)
    ensures LivesAtMost(Shift(rpu), if m == 0 then 0 else m - 1)
  {
    forall i | 0 <= i < |rpu| ensures Life(Shift(rpu)[i]) <= if m == 0 then 0 else m - 1 {
      assert Life(rpu[i]) <= m && Life(rpu[Pred(i, |rpu|)]) <= m;
    }
  }

  lemma RingAge(rpu: seq<Task>, l: nat)
    requires RingOk(rpu, l) && l >= 1
    ensures LivesAtMost(rpu, l + 1)
  {
    forall i | 0 <= i < |rpu| ensures Life(rpu[i]) <= l + 1 {
      assert CellOk(rpu[i], i, l, |rpu|);
    }
  }

  /** The first list of a ring at rest to have anything waiting issues it. */
  lemma RestIssuesHere(b: Board, l: nat, i: nat)
    requires Shaped(b) && i < |b.rpu| && l >= 2 && RingOk(b.rpu, l) && LivesAtMost(b.rpu, 0) && b.lists[i] != []
    ensures Issues(b, i, false)
  {
    assert CellOk(b.rpu[i], i, l, |b.rpu|) && Life(b.rpu[i]) <= 0;
    assert Life(b.rpu[Pred(i, |b.rpu|)]) <= 0;
  }

  /** A ring at rest with anything waiting issues something. */
  lemma {:induction false} RestIssues(b: Board, l: nat, i: nat, k: nat)
    requires Shaped(b) && i < k <= |b.rpu| && l >= 2 && RingOk(b.rpu, l) && ListsOk(b.lists, l)
    requires LivesAtMost(b.rpu, 0) && b.lists[i] != []
    ensures Pending(Send(b, seq(|b.rpu|, _ => false), k).lists) < Pending(b.lists)
    decreases k
  {
    hide RingOk, ListsOk, Pending, LivesAtMost, Issues, IssueAt;
    var free := seq(|b.rpu|, _ => false);
    var s := Send(b, free, k - 1);
    SendOk(b, l, free, k - 1);
    IssueAtCounts(s, l, k - 1, false);
    if i < k - 1 {
      RestIssues(b, l, i, k - 1);
    } else {
      SendCounts(b, l, free, k - 1);
      RestIssuesHere(b, l, i);
    }
  }
}
