/**
 Placing the levels of every tree in SRAM banks, and the address table that records it.
 */
module SramLayout {
  import opened BmwDepth
  import opened Ring
  import opened RingCounts
  import opened Scheduler
  import opened SchedulerTyped
  import opened SchedulerSafety

  datatype TreeSpec = TreeSpec(id: nat, levels: nat)

  /** A level of a tree. */
  datatype Key = Key(id: nat, level: nat)

  datatype Place = At(bank: nat, start: nat)

  function Bank(k: Key, banks: nat): nat
    requires banks > 0
  {
    (k.id + k.level) % banks
  }

  ghost predicate DistinctIds(trees: seq<TreeSpec>) {
    forall i, j | 0 <= i < j < |trees| :: trees[i].id != trees[j].id
  }

  /** The keys of the first `t` trees and of the first `l` levels of the next one. */
  predicate Wanted(trees: seq<TreeSpec>, t: nat, l: nat, k: Key)
    requires t <= |trees|
  {
    || (exists i :: 0 <= i < t && trees[i].id == k.id && k.level < trees[i].levels)
    || (t < |trees| && trees[t].id == k.id && k.level < l)
  }

  predicate Covers(dict: map<Key, Place>, k: Key, bank: nat, a: nat) {
    k in dict && dict[k].bank == bank && dict[k].start <= a < dict[k].start + Pow2(k.level)
  }

  /** Every region is in its own bank, below the bank's fill mark. */
  ghost predicate InBanks(dict: map<Key, Place>, fill: seq<nat>) {
    |fill| > 0 &&
    forall k | k in dict :: dict[k].bank == Bank(k, |fill|) && dict[k].start + Pow2(k.level) <= fill[Bank(k, |fill|)]
  }

  ghost predicate Disjoint(dict: map<Key, Place>) {
    forall k, j, b, a | Covers(dict, k, b, a) && Covers(dict, j, b, a) :: k == j
  }

  ghost predicate HasOwner(dict: map<Key, Place>, bank: nat, a: nat) {
    exists k :: Covers(dict, k, bank, a)
  }

  /** Every address below a bank's fill mark belongs to a region. */
  ghost predicate NoGaps(dict: map<Key, Place>, fill: seq<nat>) {
    forall b, a | 0 <= b < |fill| && 0 <= a < fill[b] :: HasOwner(dict, b, a)
  }

  ghost predicate Tiled(dict: map<Key, Place>, fill: seq<nat>) {
    InBanks(dict, fill) && Disjoint(dict) && NoGaps(dict, fill)
  }

  /** Putting a new region on top of its bank keeps the tiling. */
  lemma PlaceOne(dict: map<Key, Place>, fill: seq<nat>, k: Key)
    requires Tiled(dict, fill) && k !in dict
    ensures var b := Bank(k, |fill|);
            Tiled(dict[k := At(b, fill[b])], fill[b := fill[b] + Pow2(k.level)])
  {
    var b := Bank(k, |fill|);
    var after := dict[k := At(b, fill[b])];
    var top := fill[b := fill[b] + Pow2(k.level)];
    assert InBanks(after, top);
    forall z, c: nat, a: nat | Covers(dict, z, c, a) ensures c < |fill| && a < fill[c] {
      assert c == Bank(z, |fill|);
    }
    forall x, y, c, a | Covers(after, x, c, a) && Covers(after, y, c, a) ensures x == y {
      if x != k && y != k {
        assert Covers(dict, x, c, a) && Covers(dict, y, c, a);
      } else {
        assert x != k ==> Covers(dict, x, c, a);
        assert y != k ==> Covers(dict, y, c, a);
      }
    }
    forall c, a | 0 <= c < |top| && 0 <= a < top[c] ensures HasOwner(after, c, a) {
      if a < fill[c] {
        assert HasOwner(dict, c, a);
        var x :| Covers(dict, x, c, a);
        assert Covers(after, x, c, a);
      } else {
        assert Covers(after, k, c, a);
      }
    }
  }

  /** The addresses that the first `t` trees and the first `l` levels of the next one take in a bank. */
  function Used(trees: seq<TreeSpec>, t: nat, l: nat, banks: nat, b: nat): nat
    requires t <= |trees| && (l > 0 ==> t < |trees|) && banks > 0
    decreases t, l
  {
    if l > 0 then
      Used(trees, t, l - 1, banks, b) + (if Bank(Key(trees[t].id, l - 1), banks) == b then Pow2(l - 1) else 0)
    else if t > 0 then Used(trees, t - 1, trees[t - 1].levels, banks, b)
    else 0
  }

  /** Every placed level starts where the levels placed before it end. */
  ghost predicate InSequence(dict: map<Key, Place>, trees: seq<TreeSpec>, t: nat, l: nat, banks: nat)
    requires t <= |trees| && banks > 0
  {
    forall i, j | 0 <= i < |trees| && 0 <= j < trees[i].levels && (i < t || (i == t && j < l)) ::
      Key(trees[i].id, j) in dict &&
      dict[Key(trees[i].id, j)] == At((trees[i].id + j) % banks, Used(trees, i, j, banks, (trees[i].id + j) % banks))
  }

  ghost predicate FilledTo(fill: seq<nat>, trees: seq<TreeSpec>, t: nat, l: nat)
    requires t <= |trees| && (l > 0 ==> t < |trees|) && |fill| > 0
  {
    forall b | 0 <= b < |fill| :: fill[b] == Used(trees, t, l, |fill|, b)
  }

  /**
   Lays out every level of every tree.  With distinct ids each (tree, level) gets a region
   of 2^level addresses in bank (tree + level) mod banks; the regions of a bank are pairwise
   disjoint and leave no gap below its fill mark.
   */
  method Layout(trees: seq<TreeSpec>, banks: nat) returns (dict: map<Key, Place>, fill: seq<nat>)
    requires banks > 0 && DistinctIds(trees)
    ensures |fill| == banks && Tiled(dict, fill)
    ensures forall k :: k in dict <==> Wanted(trees, |trees|, 0, k)
    ensures InSequence(dict, trees, |trees|, 0, banks) && FilledTo(fill, trees, |trees|, 0)
  {
    dict := map[];
    fill := seq(banks, _ => 0);
    var t := 0;
    while t < |trees|
      invariant 0 <= t <= |trees| && |fill| == banks && Tiled(dict, fill)
      invariant forall k :: k in dict <==> Wanted(trees, t, 0, k)
      invariant InSequence(dict, trees, t, 0, banks) && FilledTo(fill, trees, t, 0)
    {
      dict, fill := LayoutTree(trees, t, dict, fill);
      forall k ensures Wanted(trees, t + 1, 0, k) <==> Wanted(trees, t, trees[t].levels, k) {
        NextTree(trees, t, k);
      }
      t := t + 1;
    }
  }

  lemma NextTree(trees: seq<TreeSpec>, t: nat, k: Key)
    requires t < |trees|
    ensures Wanted(trees, t + 1, 0, k) <==> Wanted(trees, t, trees[t].levels, k)
  {
    if trees[t].id == k.id && k.level < trees[t].levels {
      assert 0 <= t < t + 1 && trees[t].id == k.id;
    }
  }

  method LayoutTree(trees: seq<TreeSpec>, t: nat, dict0: map<Key, Place>, fill0: seq<nat>)
    returns (dict: map<Key, Place>, fill: seq<nat>)
    requires DistinctIds(trees) && t < |trees| && Tiled(dict0, fill0)
    requires forall k :: k in dict0 <==> Wanted(trees, t, 0, k)
    requires |fill0| > 0 && InSequence(dict0, trees, t, 0, |fill0|) && FilledTo(fill0, trees, t, 0)
    ensures |fill| == |fill0| && Tiled(dict, fill)
    ensures forall k :: k in dict <==> Wanted(trees, t, trees[t].levels, k)
    ensures InSequence(dict, trees, t + 1, 0, |fill|) && FilledTo(fill, trees, t + 1, 0)
  {
    hide Tiled, InSequence, FilledTo;
    dict, fill := dict0, fill0;
    var banks := |fill|;
    var size := 1;
    var i := 0;
    TiledBanks(dict, fill);
    while i < trees[t].levels
      invariant 0 <= i <= trees[t].levels && size == Pow2(i)
      invariant |fill| == banks > 0 && Tiled(dict, fill)
      invariant forall k :: k in dict <==> Wanted(trees, t, i, k)
      invariant InSequence(dict, trees, t, i, banks) && FilledTo(fill, trees, t, i)
    {
      var key := Key(trees[t].id, i);
      var bank := (trees[t].id + i) % banks;
      assert key !in dict;
      PlaceOne(dict, fill, key);
      NextLevel(dict, fill, trees, t, i);
      dict := dict[key := At(bank, fill[bank])];
      fill := fill[bank := fill[bank] + size];
      size := size * 2;
      i := i + 1;
    }
    LastLevel(dict, fill, trees, t);
  }

  lemma NextLevel(dict: map<Key, Place>, fill: seq<nat>, trees: seq<TreeSpec>, t: nat, i: nat)
    requires t < |trees| && i < trees[t].levels && |fill| > 0 && Key(trees[t].id, i) !in dict
    requires InSequence(dict, trees, t, i, |fill|) && FilledTo(fill, trees, t, i)
    ensures var b := (trees[t].id + i) % |fill|;
            && InSequence(dict[Key(trees[t].id, i) := At(b, fill[b])], trees, t, i + 1, |fill|)
            && FilledTo(fill[b := fill[b] + Pow2(i)], trees, t, i + 1)
  {
    NextFilled(fill, trees, t, i);
    hide Used, FilledTo;
    FilledAt(fill, trees, t, i, (trees[t].id + i) % |fill|);
    var b := (trees[t].id + i) % |fill|;
    var key := Key(trees[t].id, i);
    var after := dict[key := At(b, fill[b])];
    forall u, j | 0 <= u < |trees| && 0 <= j < trees[u].levels && (u < t || (u == t && j < i + 1))
      ensures Key(trees[u].id, j) in after
      ensures after[Key(trees[u].id, j)] ==
              At((trees[u].id + j) % |fill|, Used(trees, u, j, |fill|, (trees[u].id + j) % |fill|))
    {
      if u < t || j < i {
        assert Key(trees[u].id, j) in dict;
      }
    }
  }

  lemma FilledAt(fill: seq<nat>, trees: seq<TreeSpec>, t: nat, l: nat, b: nat)
    requires t <= |trees| && (l > 0 ==> t < |trees|) && |fill| > 0 && FilledTo(fill, trees, t, l) && b < |fill|
    ensures fill[b] == Used(trees, t, l, |fill|, b)
  {
  }

  lemma NextFilled(fill: seq<nat>, trees: seq<TreeSpec>, t: nat, i: nat)
    requires t < |trees| && i < trees[t].levels && |fill| > 0 && FilledTo(fill, trees, t, i)
    ensures var b := (trees[t].id + i) % |fill|;
            FilledTo(fill[b := fill[b] + Pow2(i)], trees, t, i + 1)
  {
    hide Pow2;
    var b := (trees[t].id + i) % |fill|;
    var after := fill[b := fill[b] + Pow2(i)];
    forall c | 0 <= c < |after| ensures after[c] == Used(trees, t, i + 1, |after|, c) {
      FilledAt(fill, trees, t, i, c);
    }
  }

  lemma LastLevel(dict: map<Key, Place>, fill: seq<nat>, trees: seq<TreeSpec>, t: nat)
    requires t < |trees| && |fill| > 0
    requires InSequence(dict, trees, t, trees[t].levels, |fill|) && FilledTo(fill, trees, t, trees[t].levels)
    ensures InSequence(dict, trees, t + 1, 0, |fill|) && FilledTo(fill, trees, t + 1, 0)
  {
  }

  lemma TiledBanks(dict: map<Key, Place>, fill: seq<nat>)
    requires Tiled(dict, fill)
    ensures |fill| > 0
  {
  }

  /** Levels of one tree are in distinct banks when there are at least as many banks as levels. */
  lemma LevelsApart(id: nat, i: nat, j: nat, banks: nat)
    requires i < j < banks
    ensures Bank(Key(id, i), banks) != Bank(Key(id, j), banks)
  {
    StepsApart(id + i, j - i, banks);
    assert id + i + (j - i) == id + j;
  }

  lemma StepsApart(a: nat, d: nat, n: nat)
    requires 0 < d < n
    ensures a % n != (a + d) % n
  {
    var p, r := DivMod(a, n);
    if r + d < n {
      ModUnique(a + d, p, r + d, n);
    } else {
      NextMultiple(p, n);
      ModUnique(a + d, p + 1, r + d - n, n);
    }
  }

  lemma DivMod(a: nat, n: nat) returns (p: nat, r: nat)
    requires n > 0
    ensures a == p * n + r && r == a % n < n
  {
    p, r := a / n, a % n;
  }

  lemma NextMultiple(p: nat, n: nat)
    ensures (p + 1) * n == p * n + n
  {
  }

  // ---------- the ring and the banks ----------

  /**
   In every reachable state of the scheduler, with as many banks as RPUs, a task of tree r
   that has `ttl` cycles to go is at the RPU whose number is the bank of level l - ttl of tree r.
   */
  lemma RpuIsBank(s: State, cfg: Config, locks: seq<seq<bool>>, dict: map<Key, Place>, fill: seq<nat>, i: nat)
    requires Initial(s, cfg) && TraceOk(s, cfg)
    requires forall t | 0 <= t < |locks| :: |locks[t]| == N(s)
    requires InBanks(dict, fill) && |fill| == N(s)
    requires i < N(s) && Active(Cycles(s, cfg, locks).board.rpu[i])
    ensures var c := Cycles(s, cfg, locks).board.rpu[i];
            && 1 <= c.ttl <= cfg.l
            && i == Bank(Key(c.root, cfg.l - c.ttl), N(s))
            && (Key(c.root, cfg.l - c.ttl) in dict ==> dict[Key(c.root, cfg.l - c.ttl)].bank == i)
  {
    hide Cycles, Initial, TraceOk, Typed, Bank;
    RunTyped(s, cfg, locks);
    InitialShape(s, cfg);
    CellPlaced(Cycles(s, cfg, locks), cfg, i);
  }

  lemma InitialShape(s: State, cfg: Config)
    requires Initial(s, cfg)
    ensures Shape(s, cfg)
  {
  }

  lemma CellPlaced(s: State, cfg: Config, i: nat)
    requires Shape(s, cfg) && Typed(s, cfg) && i < N(s) && Active(s.board.rpu[i])
    ensures var c := s.board.rpu[i];
            1 <= c.ttl <= cfg.l && i == Bank(Key(c.root, cfg.l - c.ttl), N(s))
  {
    assert CellOk(s.board.rpu[i], i, cfg.l, N(s));
  }
}
