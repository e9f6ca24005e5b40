/**
 Every task of a run completes exactly once: the moment and the cell in which a task is
 issued determine the moment and the cell in which it is counted complete, and conversely.
 */
module Completion {
  import opened Ring
  import opened RingCounts
  import opened RingRuns

  /** A task enters the ring at time `t` in cell `c`. */
  ghost predicate IssuedAt(r: Run, l: nat, t: nat, c: nat) {
    && t < |r.rpus| && c < |r.rpus[t]|
    && (r.rpus[t][c].kind == Push || r.rpus[t][c].kind == Pop) && r.rpus[t][c].ttl == l
  }

  /** A Push is complete in its last cycle, a Pop when its last cell writes back. */
  function EndTime(kind: Kind, t: nat, l: nat): int {
    t + l - 1 + (if kind == Pop then 1 else 0)
  }

  /** When a task that completes at time `e` was issued. */
  function StartTime(kind: Kind, e: nat, l: nat): int {
    e - (l - 1) - (if kind == Pop then 1 else 0)
  }

  function EndCell(c: nat, l: nat, n: nat): nat
    requires n > 0 && l > 0
  {
    (c + l - 1) % n
  }

  /** What is left of a task when it completes. */
  function Ended(x: Task): Task {
    x.(kind := if x.kind == Pop then WriteBack else x.kind, ttl := 1)
  }

  /** A task that was issued is counted once its time has come. */
  lemma CompletesOnce(r: Run, l: nat, n: nat, t: nat, c: nat)
    requires IsRun(r, l, n) && IssuedAt(r, l, t, c) && EndTime(r.rpus[t][c].kind, t, l) < |r.rpus|
    ensures n > 0 && l > 0
    ensures var e, d := EndTime(r.rpus[t][c].kind, t, l), EndCell(c, l, n);
            |r.rpus[e]| == n && r.rpus[e][d] == Ended(r.rpus[t][c]) && Ends(r.rpus[e][d]) == 1
  {
    assert n >= 2 && l >= 2;
    hide IsRun;
    TaskTravels(r, l, n, t, c, l - 1);
    assert c + (l - 1) == c + l - 1;
  }

  lemma PlaceOfRoot(root: nat, l: nat, n: nat)
    requires n > 0 && l > 0
    ensures Place(root, 1, l, n) == EndCell(root % n, l, n)
  {
    ModShift(root, l - 1, n);
    assert root % n + l - 1 == root % n + (l - 1) && root + l - 1 == root + (l - 1);
  }

  lemma {:induction false} ModShift(a: nat, d: nat, n: nat)
    requires n > 0
    ensures (a % n + d) % n == (a + d) % n
  {
    if d == 0 {
      ModUnique(a % n, 0, a % n, n);
    } else {
      ModShift(a, d - 1, n);
      ModSucc(a % n + d - 1, n);
      ModSucc(a + d - 1, n);
    }
  }

  /** What is counted was issued just one task's time ago, at its tree's RPU, and nothing else was. */
  lemma CompletionWasIssued(r: Run, l: nat, n: nat, e: nat, d: nat)
    requires IsRun(r, l, n) && e < |r.rpus| && d < |r.rpus[e]| && Ends(r.rpus[e][d]) == 1
    ensures n > 0 && l > 0
    ensures var x := r.rpus[e][d];
            var kind := if x.kind == WriteBack then Pop else x.kind;
            var t, c := StartTime(kind, e, l), x.root % n;
            && t >= 0 && IssuedAt(r, l, t, c)
            && r.rpus[t][c] == x.(kind := kind, ttl := l)
            && EndTime(kind, t, l) == e && EndCell(c, l, n) == d
  {
    RunOk(r, l, n, e);
    assert CellOk(r.rpus[e][d], d, l, n);
    PlaceOfRoot(r.rpus[e][d].root, l, n);
    if r.rpus[e][d].kind == Push {
      TaskWasIssued(r, l, n, e, d);
    } else {
      WriteBackOrigin(r, l, n, e, d);
      TaskWasIssued(r, l, n, e - 1, d);
    }
  }

  lemma WriteBackOrigin(r: Run, l: nat, n: nat, e: nat, d: nat)
    requires IsRun(r, l, n) && e < |r.rpus| && d < |r.rpus[e]| && r.rpus[e][d].kind == WriteBack
    ensures e > 0 && d < |r.rpus[e - 1]| && r.rpus[e - 1][d] == r.rpus[e][d].(kind := Pop)
  {
    assert e > 0;
    RunOk(r, l, n, e - 1);
    assert IsStep(r, l, n, e - 1);
    hide RingOk, ListsOk, Next;
    StepOrigin(r.rpus[e - 1], l, r.feeds[e - 1], r.locks[e - 1], d);
  }

  ghost predicate AtRest(rpu: seq<Task>) {
    forall i | 0 <= i < |rpu| :: !Active(rpu[i])
  }

  /** In a run that ends at rest every task that was issued is counted before the end. */
  lemma CountedInTime(r: Run, l: nat, n: nat, t: nat, c: nat)
    requires IsRun(r, l, n) && IssuedAt(r, l, t, c) && AtRest(r.rpus[|r.rpus| - 1])
    ensures EndTime(r.rpus[t][c].kind, t, l) < |r.rpus| - 1
  {
    var last := |r.rpus| - 1;
    assert l >= 2 && n >= 2;
    RunOk(r, l, n, t);
    hide IsRun, RingOk;
    if last - t < l {
      TaskTravels(r, l, n, t, c, last - t);
    } else if r.rpus[t][c].kind == Pop && last == t + l {
      TaskTravels(r, l, n, t, c, l - 1);
    }
  }

  // ---------- the lists of a run ----------

  /** What the lists hold at time `t`; `last` is what they hold at the end. */
  function ListsAt(r: Run, last: seq<seq<Task>>, t: nat): seq<seq<Task>> {
    if t < |r.feeds| then r.feeds[t] else last
  }

  /** In every cycle the lists lose what the ring takes from them. */
  ghost predicate ListsFollow(r: Run, last: seq<seq<Task>>, l: nat, n: nat)
    requires IsRun(r, l, n)
  {
    forall t | 0 <= t < |r.feeds| :: IsStep(r, l, n, t) && ListsAt(r, last, t + 1) ==
      Send(Board(Shift(r.rpus[t]), r.feeds[t]), r.locks[t], n).lists
  }

  /** A list keeps what it has, or its head is now in the list's own cell. */
  ghost predicate TookHead(before: seq<Task>, after: seq<Task>, cell: Task) {
    after == before || (before != [] && after == before[1..] && cell == before[0])
  }

  lemma IssueHead(b: Board, l: nat, j: nat, locked: bool, i: nat)
    requires Shaped(b) && j < |b.rpu| && i < |b.rpu| && RingOk(b.rpu, l) && ListsOk(b.lists, l)
    ensures var a := IssueAt(b, j, locked);
            && TookHead(b.lists[i], a.lists[i], a.rpu[i])
            && (j != i ==> a.lists[i] == b.lists[i])
            && (Active(b.rpu[i]) ==> a.rpu[i] == b.rpu[i])
  {
    IssueKeeps(b, l, j, locked, i);
  }

  lemma HeadActive(b: Board, l: nat, i: nat)
    requires Shaped(b) && i < |b.lists| && ListsOk(b.lists, l) && b.lists[i] != []
    ensures Active(b.lists[i][0])
  {
    assert ListTaskOk(b.lists[i][0], i, l, |b.lists|);
  }

  lemma {:induction false} SendHead(b: Board, l: nat, locked: seq<bool>, k: nat, i: nat)
    requires Shaped(b) && |locked| == |b.rpu| && k <= |b.rpu| && i < |b.rpu| && l >= 2
    requires RingOk(b.rpu, l) && ListsOk(b.lists, l)
    ensures TookHead(b.lists[i], Send(b, locked, k).lists[i], Send(b, locked, k).rpu[i])
    ensures k <= i ==> Send(b, locked, k).lists[i] == b.lists[i]
  {
    hide RingOk, ListsOk, IssueAt;
    if k > 0 {
      SendHead(b, l, locked, k - 1, i);
      SendOk(b, l, locked, k - 1);
      IssueHead(Send(b, locked, k - 1), l, k - 1, locked[k - 1], i);
      if b.lists[i] != [] {
        HeadActive(b, l, i);
      }
    }
  }

  lemma StepHead(r: Run, last: seq<seq<Task>>, l: nat, n: nat, t: nat, i: nat)
    requires IsRun(r, l, n) && ListsFollow(r, last, l, n) && t < |r.feeds| && i < n
    ensures |r.rpus[t + 1]| == n == |r.feeds[t]| && |ListsAt(r, last, t + 1)| == n
    ensures TookHead(r.feeds[t][i], ListsAt(r, last, t + 1)[i], r.rpus[t + 1][i])
  {
    RunOk(r, l, n, t);
    assert IsStep(r, l, n, t);
    ShiftOk(r.rpus[t], l);
    SendHead(Board(Shift(r.rpus[t]), r.feeds[t]), l, r.locks[t], n, i);
  }

  /** If list `i` ends empty, its task number `k` was issued, when just the tasks from it on were left. */
  lemma BatchTaskIssued(r: Run, last: seq<seq<Task>>, l: nat, n: nat, i: nat, k: nat) returns (t: nat)
    requires IsRun(r, l, n) && ListsFollow(r, last, l, n) && i < n
    requires |ListsAt(r, last, 0)| == n == |last| && k < |ListsAt(r, last, 0)[i]| && last[i] == []
    ensures t < |r.feeds| && |r.feeds[t]| == n == |r.rpus[t + 1]|
    ensures r.feeds[t][i] == ListsAt(r, last, 0)[i][k..] && r.rpus[t + 1][i] == ListsAt(r, last, 0)[i][k]
  {
    hide IsRun, ListsFollow;
    var batch := ListsAt(r, last, 0)[i];
    var j := 0;
    t := 0;
    while true
      invariant t <= |r.feeds| && j <= k && |ListsAt(r, last, t)| == n && ListsAt(r, last, t)[i] == batch[j..]
      decreases |r.feeds| - t
    {
      StepHead(r, last, l, n, t, i);
      if ListsAt(r, last, t + 1)[i] != batch[j..] {
        if j == k {
          return;
        }
        assert batch[j..][1..] == batch[j + 1..];
        j := j + 1;
      }
      t := t + 1;
    }
  }

  /**
   A run that ends at rest with empty lists: every task of every list is issued in its own
   cell and counted complete, and by `CompletionWasIssued` only it is counted then and there.
   */
  lemma EveryTaskOnce(r: Run, last: seq<seq<Task>>, l: nat, n: nat, i: nat, k: nat) returns (t: nat)
    requires IsRun(r, l, n) && ListsFollow(r, last, l, n) && i < n
    requires |ListsAt(r, last, 0)| == n == |last| && k < |ListsAt(r, last, 0)[i]| && last[i] == []
    requires AtRest(r.rpus[|r.rpus| - 1])
    ensures n > 0 && l > 0 && 1 <= t <= |r.feeds| && IssuedAt(r, l, t, i) && r.rpus[t][i] == ListsAt(r, last, 0)[i][k]
    ensures r.feeds[t - 1][i] == ListsAt(r, last, 0)[i][k..]
    ensures var e, d := EndTime(r.rpus[t][i].kind, t, l), EndCell(i, l, n);
            && e < |r.feeds| && |r.rpus[e]| == n
            && r.rpus[e][d] == Ended(r.rpus[t][i]) && Ends(r.rpus[e][d]) == 1
  {
    hide *;
    RunLength(r, l, n);
    t := BatchTaskIssued(r, last, l, n, i, k);
    FedTask(r, l, n, t, i);
    ShowIssued(r, l, t + 1, i);
    t := t + 1;
    CountedInTime(r, l, n, t, i);
    CompletesOnce(r, l, n, t, i);
  }

  lemma ShowIssued(r: Run, l: nat, t: nat, c: nat)
    requires t < |r.rpus| && c < |r.rpus[t]| && r.rpus[t][c].ttl == l
    requires r.rpus[t][c].kind == Push || r.rpus[t][c].kind == Pop
    ensures IssuedAt(r, l, t, c)
  {
  }

  lemma RunLength(r: Run, l: nat, n: nat)
    requires IsRun(r, l, n)
    ensures |r.rpus| == |r.feeds| + 1
  {
  }

  lemma FedTask(r: Run, l: nat, n: nat, t: nat, i: nat)
    requires IsRun(r, l, n) && t < |r.feeds| && i < |r.feeds[t]| && r.feeds[t][i] != []
    ensures (r.feeds[t][i][0].kind == Push || r.feeds[t][i][0].kind == Pop) && r.feeds[t][i][0].ttl == l
  {
    assert IsStep(r, l, n, t);
    assert ListTaskOk(r.feeds[t][i][0], i, l, n);
  }
}
