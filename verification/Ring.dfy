/**
 The ring of RPUs: tasks shift one RPU per cycle, and each RPU may take one new task
 from its own list per cycle.

 A Pop leaves a WriteBack half behind in the cell it came from, so it needs the cell
 before it to be free of other work; issuing a Pop therefore reserves that cell.
 */
module Ring {
  datatype Kind = Push | Pop | WriteBack | Locked | Empty

  datatype Task = Task(kind: Kind, root: nat, ttl: int, rank: int, val: int)

  predicate Active(t: Task) {
    t.kind == Push || t.kind == Pop || t.kind == WriteBack
  }

  function Pred(i: nat, n: nat): (j: nat)
    requires i < n
    ensures j < n
  {
    if i == 0 then n - 1 else i - 1
  }

  function Succ(i: nat, n: nat): (j: nat)
    requires i < n
    ensures j < n
  {
    if i == n - 1 then 0 else i + 1
  }

  lemma PredSucc(i: nat, n: nat)
    requires i < n
    ensures Pred(Succ(i, n), n) == i && Succ(Pred(i, n), n) == i
  {
  }

  // ---------- the shift ----------

  /** What one shift puts in cell `i`, all cells moving at once. */
  function ShiftCell(rpu: seq<Task>, i: nat): Task
    requires i < |rpu|
  {
    var p := rpu[Pred(i, |rpu|)];
    if rpu[i].kind == Pop then rpu[i].(kind := WriteBack)
    else if p.ttl - 1 > 0 then p.(ttl := p.ttl - 1)
    else rpu[i].(kind := Empty, ttl := 0)
  }

  function Shift(rpu: seq<Task>): (r: seq<Task>)
    ensures |r| == |rpu|
  {
    seq(|rpu|, i requires 0 <= i < |rpu| => ShiftCell(rpu, i))
  }

  /** The source's shift: one pass in place, carrying the last two tasks in a scrolling pair. */
  method ShiftInPlace(rpu: array<Task>)
    requires rpu.Length >= 1
    modifies rpu
    ensures rpu[..] == Shift(old(rpu[..]))
  {
    var n := rpu.Length;
    var last := rpu[n - 1];
    var nt0, nt1 := last, last.(ttl := last.ttl - 1);
    var i := 0;
    while i < n
      invariant 0 <= i <= n
      invariant forall k | 0 <= k < i :: rpu[k] == ShiftCell(old(rpu[..]), k)
      invariant forall k | i <= k < n :: rpu[k] == old(rpu[k])
      invariant var p := old(rpu[..])[Pred(if i == n then 0 else i, n)];
                (if i % 2 == 0 then nt1 else nt0) == p.(ttl := p.ttl - 1)
    {
      var even := i % 2 == 0;
      var cur := rpu[i].(ttl := rpu[i].ttl - 1);
      if even { nt0 := cur; } else { nt1 := cur; }
      var prev := if even then nt1 else nt0;
      if rpu[i].kind == Pop {
        rpu[i] := rpu[i].(kind := WriteBack);
      } else if prev.ttl > 0 {
        rpu[i] := prev;
      } else {
        rpu[i] := rpu[i].(kind := Empty, ttl := 0);
      }
      i := i + 1;
    }
  }

  // ---------- issuing ----------

  /** The ring together with the task lists that feed it. */
  datatype Board = Board(rpu: seq<Task>, lists: seq<seq<Task>>)

  predicate Shaped(b: Board) {
    |b.rpu| == |b.lists| >= 2
  }

  /** Cell `i` takes the head of its list in this cycle. */
  predicate Issues(b: Board, i: nat, locked: bool)
    requires Shaped(b) && i < |b.rpu|
  {
    && b.rpu[i].kind == Empty
    && !locked
    && b.lists[i] != []
    && (b.lists[i][0].kind == Push || b.rpu[Pred(i, |b.rpu|)].ttl <= 1)
  }

  /** The cell before a Pop: an empty one becomes Locked, and its time to live is one. */
  function Reserve(t: Task): Task {
    (if t.kind == Empty then t.(kind := Locked) else t).(ttl := 1)
  }

  function IssueAt(b: Board, i: nat, locked: bool): (r: Board)
    requires Shaped(b) && i < |b.rpu|
    ensures Shaped(r) && |r.rpu| == |b.rpu|
  {
    if !Issues(b, i, locked) then b
    else
      var t := b.lists[i][0];
      var lists := b.lists[i := b.lists[i][1..]];
      var j := Pred(i, |b.rpu|);
      if t.kind == Push then Board(b.rpu[i := t], lists)
      else Board(b.rpu[i := t][j := Reserve(b.rpu[j])], lists)
  }

  /** The board after the first `k` cells had their turn. */
  function Send(b: Board, locked: seq<bool>, k: nat): (r: Board)
    requires Shaped(b) && |locked| == |b.rpu| && k <= |b.rpu|
    ensures Shaped(r) && |r.rpu| == |b.rpu|
  {
    if k == 0 then b else IssueAt(Send(b, locked, k - 1), k - 1, locked[k - 1])
  }

  // ---------- invariants ----------

  /** `w` is what the Pop `p` left behind one cycle earlier. */
  predicate OwnHalf(w: Task, p: Task) {
    w == p.(kind := WriteBack, ttl := p.ttl + 1)
  }

  /** The RPU at which a task of tree `root` is with `ttl` cycles to go. */
  function Place(root: nat, ttl: int, l: nat, n: nat): nat
    requires n > 0 && ttl <= l
  {
    (root + l - ttl) % n
  }

  predicate CellOk(t: Task, i: nat, l: nat, n: nat)
    requires i < n
  {
    match t.kind
    case Empty => t.ttl == 0
    case Locked => t.ttl == 1
    case _ => 1 <= t.ttl <= l && i == Place(t.root, t.ttl, l, n)
  }

  /** Nothing is behind a Pop but its own half, or a task that ends in this cycle. */
  predicate Guarded(rpu: seq<Task>, i: nat)
    requires i < |rpu|
  {
    var p := rpu[Pred(i, |rpu|)];
    rpu[i].kind == Pop ==> OwnHalf(p, rpu[i]) || p.ttl == 1
  }

  /** In front of a WriteBack that goes on is the Pop it belongs to. */
  predicate Paired(rpu: seq<Task>, i: nat)
    requires i < |rpu|
  {
    var q := rpu[Succ(i, |rpu|)];
    rpu[i].kind == WriteBack && rpu[i].ttl >= 2 ==> q.kind == Pop && OwnHalf(rpu[i], q)
  }

  ghost predicate RingOk(rpu: seq<Task>, l: nat) {
    && |rpu| >= 2
    && (forall i | 0 <= i < |rpu| :: CellOk(rpu[i], i, l, |rpu|))
    && (forall i | 0 <= i < |rpu| :: Guarded(rpu, i))
    && (forall i | 0 <= i < |rpu| :: Paired(rpu, i))
  }

  predicate ListTaskOk(t: Task, i: nat, l: nat, n: nat)
    requires n > 0
  {
    (t.kind == Push || t.kind == Pop) && t.ttl == l && t.root % n == i
  }

  ghost predicate ListsOk(lists: seq<seq<Task>>, l: nat) {
    forall i, k | 0 <= i < |lists| && 0 <= k < |lists[i]| :: ListTaskOk(lists[i][k], i, l, |lists|)
  }

  // ---------- the invariants are kept ----------

  lemma ModSucc(x: nat, n: nat)
    requires n > 0
    ensures (x + 1) % n == Succ(x % n, n)
  {
    var q, r := x / n, x % n;
    assert x == q * n + r;
    if r + 1 < n {
      ModUnique(x + 1, q, r + 1, n);
    } else {
      assert q * n + n == (q + 1) * n;
      ModUnique(x + 1, q + 1, 0, n);
    }
  }

  lemma MulAtLeast(k: int, n: nat)
    requires k >= 1
    ensures k * n >= n
  {
    assert k * n == (k - 1) * n + n;
    assert (k - 1) * n >= 0;
  }

  lemma SmallMultiple(d: int, n: nat, e: int)
    requires d * n == e && e < n && 0 < e + n
    ensures d == 0
  {
    assert (-d) * n == -(d * n);
    if d >= 1 {
      MulAtLeast(d, n);
    } else if d <= -1 {
      MulAtLeast(-d, n);
    }
  }

  lemma ModUnique(x: nat, q: nat, r: nat, n: nat)
    requires n > 0 && x == q * n + r && r < n
    ensures x % n == r
  {
    var p, s := x / n, x % n;
    assert x == p * n + s && 0 <= s < n;
    assert (q - p) * n == s - r;
    SmallMultiple(q - p, n, s - r);
  }

  lemma PlaceNext(root: nat, ttl: int, l: nat, n: nat)
    requires n > 0 && 1 <= ttl <= l
    ensures Place(root, ttl - 1, l, n) == Succ(Place(root, ttl, l, n), n)
  {
    ModSucc(root + l - ttl, n);
  }

  /** A cell that shifts its task on is not followed by a Pop, unless that Pop is its other half. */
  lemma FrontIsFree(rpu: seq<Task>, l: nat, i: nat)
    requires RingOk(rpu, l) && i < |rpu| && rpu[i].ttl >= 2
    ensures rpu[i].kind != WriteBack ==> rpu[Succ(i, |rpu|)].kind != Pop
  {
    PredSucc(i, |rpu|);
    assert Guarded(rpu, Succ(i, |rpu|));
  }

  lemma ShiftedCell(rpu: seq<Task>, l: nat, i: nat)
    requires RingOk(rpu, l) && i < |rpu|
    ensures CellOk(Shift(rpu)[i], i, l, |rpu|)
    ensures rpu[i].kind != Pop && Active(Shift(rpu)[i]) ==>
              && (rpu[Pred(i, |rpu|)].kind == Push || rpu[Pred(i, |rpu|)].kind == Pop)
              && rpu[Pred(i, |rpu|)].ttl >= 2
  {
    var n := |rpu|;
    var j := Pred(i, n);
    var p := rpu[j];
    PredSucc(i, n);
    assert CellOk(rpu[i], i, l, n) && CellOk(p, j, l, n) && Paired(rpu, j);
    if rpu[i].kind != Pop && p.ttl - 1 > 0 {
      PlaceNext(p.root, p.ttl, l, n);
    }
  }

  /** After a shift every Pop has its own half behind it. */
  lemma ShiftedPop(rpu: seq<Task>, l: nat, i: nat)
    requires RingOk(rpu, l) && i < |rpu| && Shift(rpu)[i].kind == Pop
    ensures OwnHalf(Shift(rpu)[Pred(i, |rpu|)], Shift(rpu)[i])
  {
    ShiftedCell(rpu, l, i);
  }

  lemma ShiftedWriteBack(rpu: seq<Task>, l: nat, i: nat)
    requires RingOk(rpu, l) && i < |rpu|
    ensures Paired(Shift(rpu), i)
  {
    var n := |rpu|;
    ShiftedCell(rpu, l, i);
    PredSucc(i, n);
    if rpu[i].kind == Pop && rpu[i].ttl >= 2 {
      FrontIsFree(rpu, l, i);
    }
  }

  lemma ShiftOk(rpu: seq<Task>, l: nat)
    requires RingOk(rpu, l)
    ensures RingOk(Shift(rpu), l)
    ensures forall i | 0 <= i < |rpu| && Shift(rpu)[i].kind == Pop :: OwnHalf(Shift(rpu)[Pred(i, |rpu|)], Shift(rpu)[i])
  {
    forall i | 0 <= i < |rpu|
      ensures CellOk(Shift(rpu)[i], i, l, |rpu|) && Paired(Shift(rpu), i)
      ensures Shift(rpu)[i].kind == Pop ==> OwnHalf(Shift(rpu)[Pred(i, |rpu|)], Shift(rpu)[i])
    {
      ShiftedCell(rpu, l, i);
      ShiftedWriteBack(rpu, l, i);
      if Shift(rpu)[i].kind == Pop {
        ShiftedPop(rpu, l, i);
      }
    }
  }

  lemma IssueAtOk(b: Board, l: nat, i: nat, locked: bool)
    requires Shaped(b) && i < |b.rpu| && l >= 2
    requires RingOk(b.rpu, l) && ListsOk(b.lists, l)
    ensures RingOk(IssueAt(b, i, locked).rpu, l) && ListsOk(IssueAt(b, i, locked).lists, l)
  {
    if Issues(b, i, locked) {
      var n := |b.rpu|;
      var r := IssueAt(b, i, locked);
      var t := b.lists[i][0];
      assert ListTaskOk(t, i, l, n);
      PredSucc(i, n);
      IssuedCells(b, l, i, locked);
      forall k | 0 <= k < n ensures Guarded(r.rpu, k) {
        assert Guarded(b.rpu, k);
        PredSucc(k, n);
      }
      forall k | 0 <= k < n ensures Paired(r.rpu, k) {
        assert Paired(b.rpu, k);
        PredSucc(k, n);
      }
    }
  }

  lemma IssuedCells(b: Board, l: nat, i: nat, locked: bool)
    requires Shaped(b) && i < |b.rpu| && l >= 2
    requires RingOk(b.rpu, l) && ListsOk(b.lists, l) && Issues(b, i, locked)
    ensures forall k | 0 <= k < |b.rpu| :: CellOk(IssueAt(b, i, locked).rpu[k], k, l, |b.rpu|)
    ensures ListsOk(IssueAt(b, i, locked).lists, l)
  {
    var n := |b.rpu|;
    var t := b.lists[i][0];
    assert ListTaskOk(t, i, l, n);
    forall k | 0 <= k < n ensures CellOk(IssueAt(b, i, locked).rpu[k], k, l, n) {
      assert CellOk(b.rpu[k], k, l, n);
    }
  }

  lemma {:induction false} SendOk(b: Board, l: nat, locked: seq<bool>, k: nat)
    requires Shaped(b) && |locked| == |b.rpu| && k <= |b.rpu| && l >= 2
    requires RingOk(b.rpu, l) && ListsOk(b.lists, l)
    ensures RingOk(Send(b, locked, k).rpu, l) && ListsOk(Send(b, locked, k).lists, l)
  {
    hide RingOk, ListsOk, IssueAt;
    if k > 0 {
      SendOk(b, l, locked, k - 1);
      IssueAtOk(Send(b, locked, k - 1), l, k - 1, locked[k - 1]);
    }
  }

  // ---------- who issues ----------

  /**
   An unlocked empty cell keeps its list back if and only if the head is a Pop and the cell
   before holds a task that goes on for at least two cycles.
   */
  lemma KeepsBack(b: Board, l: nat, i: nat)
    requires Shaped(b) && i < |b.rpu| && RingOk(b.rpu, l) && ListsOk(b.lists, l)
    requires b.rpu[i].kind == Empty && b.lists[i] != []
    ensures var before := b.rpu[Pred(i, |b.rpu|)];
            IssueAt(b, i, false).lists[i] == b.lists[i] <==>
            b.lists[i][0].kind == Pop && Active(before) && before.ttl >= 2
  {
    assert CellOk(b.rpu[Pred(i, |b.rpu|)], Pred(i, |b.rpu|), l, |b.rpu|);
    assert ListTaskOk(b.lists[i][0], i, l, |b.lists|);
  }

  /** A list that does not keep back puts its head into its own cell; a locked or occupied cell keeps it back. */
  lemma TakesHead(b: Board, i: nat, locked: bool)
    requires Shaped(b) && i < |b.rpu|
    ensures var a := IssueAt(b, i, locked);
            && (a != b ==> b.rpu[i].kind == Empty && !locked && b.lists[i] != [] &&
                           a.lists == b.lists[i := b.lists[i][1..]] && a.rpu[i] == b.lists[i][0])
            && (locked || b.rpu[i].kind != Empty ==> a == b)
  {
    if Issues(b, i, locked) {
      assert |b.lists[i][1..]| == |b.lists[i]| - 1;
    }
  }

  lemma {:induction false} ListWaits(b: Board, locked: seq<bool>, k: nat, i: nat)
    requires Shaped(b) && |locked| == |b.rpu| && k <= i < |b.rpu|
    ensures Send(b, locked, k).lists[i] == b.lists[i]
  {
    if k > 0 {
      ListWaits(b, locked, k - 1, i);
    }
  }

  lemma CellWaits(b: Board, l: nat, i: nat, locked: bool, c: nat)
    requires Shaped(b) && i < |b.rpu| && c < |b.rpu| && c != i && RingOk(b.rpu, l) && ListsOk(b.lists, l)
    ensures IssueAt(b, i, locked).rpu[c] == b.rpu[c] || (c == Pred(i, |b.rpu|) && b.rpu[c].ttl <= 1)
  {
    assert b.lists[i] != [] ==> ListTaskOk(b.lists[i][0], i, l, |b.lists|);
  }

  lemma {:induction false} FirstCellsOnly(b: Board, l: nat, locked: seq<bool>, k: nat, c: nat)
    requires Shaped(b) && |locked| == |b.rpu| && l >= 2 && RingOk(b.rpu, l) && ListsOk(b.lists, l)
    requires k <= c < |b.rpu| - 1
    ensures Send(b, locked, k).rpu[c] == b.rpu[c]
  {
    hide IssueAt;
    if k > 0 {
      FirstCellsOnly(b, l, locked, k - 1, c);
      SendOk(b, l, locked, k - 1);
      CellWaits(Send(b, locked, k - 1), l, k - 1, locked[k - 1], c);
    }
  }

  /**
   The cells have their turns in order: of two neighbours, both empty and free, of which the
   first has a Push and the second a Pop, the first issues and the second waits.
   */
  lemma EarlierCellWins(b: Board, l: nat, locked: seq<bool>, i: nat)
    requires Shaped(b) && |locked| == |b.rpu| && l >= 2 && RingOk(b.rpu, l) && ListsOk(b.lists, l)
    requires 1 <= i < |b.rpu| - 1 && !locked[i - 1] && !locked[i]
    requires b.rpu[i - 1].kind == Empty && b.rpu[i].kind == Empty
    requires b.lists[i - 1] != [] && b.lists[i - 1][0].kind == Push
    requires b.lists[i] != [] && b.lists[i][0].kind == Pop
    ensures Send(b, locked, i + 1).lists[i - 1] == b.lists[i - 1][1..]
    ensures Send(b, locked, i + 1).lists[i] == b.lists[i]
  {
    hide RingOk, ListsOk, IssueAt;
    var s := Send(b, locked, i - 1);
    SendOk(b, l, locked, i - 1);
    SendOk(b, l, locked, i);
    ListWaits(b, locked, i - 1, i - 1);
    ListWaits(b, locked, i - 1, i);
    FirstCellsOnly(b, l, locked, i - 1, i - 1);
    FirstCellsOnly(b, l, locked, i - 1, i);
    PushIssues(s, l, i - 1);
    var s1 := IssueAt(s, i - 1, false);
    assert Send(b, locked, i) == s1;
    CellWaits(s, l, i - 1, false, i);
    KeepsBackThen(s1, l, i);
  }

  lemma PushIssues(b: Board, l: nat, i: nat)
    requires Shaped(b) && i < |b.rpu| && l >= 2 && RingOk(b.rpu, l) && ListsOk(b.lists, l)
    requires b.rpu[i].kind == Empty && b.lists[i] != [] && b.lists[i][0].kind == Push
    ensures IssueAt(b, i, false) == Board(b.rpu[i := b.lists[i][0]], b.lists[i := b.lists[i][1..]])
    ensures b.lists[i][0].ttl == l
  {
    assert ListTaskOk(b.lists[i][0], i, l, |b.lists|);
  }

  /** A Pop that issues turns the cell before it, if empty, into a locked one, and touches nothing else. */
  lemma PopIssues(b: Board, l: nat, i: nat)
    requires Shaped(b) && i < |b.rpu| && RingOk(b.rpu, l) && ListsOk(b.lists, l)
    requires b.rpu[i].kind == Empty && b.lists[i] != [] && b.lists[i][0].kind == Pop
    requires b.rpu[Pred(i, |b.rpu|)].ttl <= 1
    ensures var j := Pred(i, |b.rpu|);
            var before := b.rpu[j];
            IssueAt(b, i, false) ==
            Board(b.rpu[i := b.lists[i][0]][j := if before.kind == Empty then before.(kind := Locked, ttl := 1) else before],
                  b.lists[i := b.lists[i][1..]])
  {
    assert CellOk(b.rpu[Pred(i, |b.rpu|)], Pred(i, |b.rpu|), l, |b.rpu|);
  }

  lemma KeepsBackThen(b: Board, l: nat, i: nat)
    requires Shaped(b) && 1 <= i < |b.rpu| && RingOk(b.rpu, l) && ListsOk(b.lists, l)
    requires b.rpu[i].kind == Empty && b.lists[i] != [] && b.lists[i][0].kind == Pop
    requires b.rpu[i - 1].kind == Push && b.rpu[i - 1].ttl >= 2
    ensures IssueAt(b, i, false) == b
  {
  }
}
