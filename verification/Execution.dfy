/**
 What executes in a cycle.

 A Pop executes in the cycle after the one that issued it, on the tree as that cycle finds
 it: its tree loses its top, a leaf's top departs, and the root's top asks its leaf for one.
 */
module Execution {
  import B = BmwTree
  import opened Ring
  import opened RingCounts
  import opened Scheduler
  import opened SchedulerTyped
  import opened SchedulerSafety

  /** A Pop of tree `r` was issued in the last cycle. */
  predicate JustIssued(s: State, cfg: Config, r: nat)
    requires Shape(s, cfg)
  {
    var c := s.board.rpu[r % N(s)];
    c.kind == Pop && c.root == r && c.ttl == cfg.l
  }

  lemma CellOf(s: State, cfg: Config, i: nat)
    requires Typed(s, cfg) && i < N(s) && s.board.rpu[i].kind == Pop && s.board.rpu[i].ttl == cfg.l
    ensures s.board.rpu[i].root < cfg.m && s.board.rpu[i].root % N(s) == i
  {
    assert CellOk(s.board.rpu[i], i, cfg.l, N(s));
  }

  lemma {:induction false} StatsRing(s: State, cfg: Config, k: nat)
    requires Shape(s, cfg) && k <= N(s)
    ensures Stats(s, cfg, k).board.rpu == s.board.rpu
  {
    hide B.Pop, B.Top;
    if k > 0 {
      StatsRing(s, cfg, k - 1);
    }
  }

  /** What one cell's turn does to a tree, to the output and to a list. */
  lemma OneTurn(s: State, cfg: Config, i: nat, r: nat, j: nat)
    requires Shape(s, cfg) && i < N(s) && r < cfg.m && j < N(s)
    ensures var c := s.board.rpu[i];
            var goes := c.kind == Pop && c.ttl == cfg.l && c.root < cfg.m;
            var a := ExecAt(s, cfg, i);
            && a.trees[r] == (if goes && c.root == r then B.Pop(s.trees[r]) else s.trees[r])
            && a.out == s.out + (if goes && c.root != 0 then [Departure(c.root, B.Top(s.trees[c.root]))] else [])
            && a.board.lists[j] == s.board.lists[j] +
               (if goes && c.root == 0 && 0 <= B.Top(s.trees[0]).val < cfg.m && B.Top(s.trees[0]).val % N(s) == j
                then [Task(Pop, B.Top(s.trees[0]).val, cfg.l, 0, 0)] else [])
  {
    hide B.Pop, B.Top;
  }

  /** Each tree loses its top once if a Pop of it was just issued, and otherwise stays as it is. */
  lemma {:induction false} TreesPopped(s: State, cfg: Config, k: nat, r: nat)
    requires Shape(s, cfg) && Typed(s, cfg) && k <= N(s) && r < cfg.m
    ensures Stats(s, cfg, k).trees[r] ==
            if r % N(s) < k && JustIssued(s, cfg, r) then B.Pop(s.trees[r]) else s.trees[r]
  {
    hide B.Pop, B.Top, Typed, ExecAt;
    if k > 0 {
      TreesPopped(s, cfg, k - 1, r);
      StatsRing(s, cfg, k - 1);
      OneTurn(Stats(s, cfg, k - 1), cfg, k - 1, r, 0);
      if s.board.rpu[k - 1].kind == Pop && s.board.rpu[k - 1].ttl == cfg.l {
        CellOf(s, cfg, k - 1);
      }
    }
  }

  /** What departs: in the order of the RPUs, the top of each leaf of which a Pop was just issued. */
  function Departing(s: State, cfg: Config, k: nat): seq<Departure>
    requires Shape(s, cfg) && k <= N(s)
  {
    if k == 0 then []
    else
      var c := s.board.rpu[k - 1];
      Departing(s, cfg, k - 1) +
      (if c.kind == Pop && c.ttl == cfg.l && 1 <= c.root < cfg.m then [Departure(c.root, B.Top(s.trees[c.root]))] else [])
  }

  lemma {:induction false} DepartsNow(s: State, cfg: Config, k: nat)
    requires Shape(s, cfg) && Typed(s, cfg) && k <= N(s)
    ensures Stats(s, cfg, k).out == s.out + Departing(s, cfg, k)
  {
    hide B.Pop, B.Top, Typed, ExecAt;
    if k > 0 {
      DepartsNow(s, cfg, k - 1);
      StatsRing(s, cfg, k - 1);
      OneTurn(Stats(s, cfg, k - 1), cfg, k - 1, 0, 0);
      var c := s.board.rpu[k - 1];
      if c.kind == Pop && c.ttl == cfg.l {
        CellOf(s, cfg, k - 1);
        TreesPopped(s, cfg, k - 1, c.root);
      }
    }
  }

  /** The lists get a Pop of the leaf that the root's top names, if a root Pop was just issued, and nothing else. */
  lemma {:induction false} LeafAsked(s: State, cfg: Config, k: nat, i: nat)
    requires Shape(s, cfg) && SafeState(s, cfg, 0) && k <= N(s) && i < N(s)
    ensures JustIssued(s, cfg, 0) ==> 1 <= B.Top(s.trees[0]).val < cfg.m
    ensures Stats(s, cfg, k).board.lists[i] == s.board.lists[i] +
            (if k > 0 && JustIssued(s, cfg, 0) && B.Top(s.trees[0]).val % N(s) == i
             then [Task(Pop, B.Top(s.trees[0]).val, cfg.l, 0, 0)] else [])
  {
    hide SafeState, B.Pop, B.Top, B.Elems, ExecAt, Typed;
    SafeIsTyped(s, cfg, 0);
    ZeroCell(s, cfg);
    if JustIssued(s, cfg, 0) {
      ExecutesOnElement(s, cfg, 0);
    }
    if k > 0 {
      LeafAsked(s, cfg, k - 1, i);
      StatsRing(s, cfg, k - 1);
      OneTurn(Stats(s, cfg, k - 1), cfg, k - 1, 0, i);
      if s.board.rpu[k - 1].kind == Pop && s.board.rpu[k - 1].ttl == cfg.l {
        CellOf(s, cfg, k - 1);
      }
    }
  }

  lemma ZeroCell(s: State, cfg: Config)
    requires Shape(s, cfg)
    ensures 0 % N(s) == 0
  {
  }
}
