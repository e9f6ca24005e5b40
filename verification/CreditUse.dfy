/**
 When a credit for a Pop is spent.

 A credit in hand is spent as soon as the least element of the root names a leaf whose least
 packet is of a flow with a credit, and never otherwise; the first fifty cycles only fill.
 */
module CreditUse {
  import B = BmwTree
  import opened Ring
  import opened RingCounts
  import opened Scheduler
  import opened SchedulerTyped
  import opened SchedulerSafety

  ghost predicate Least(t: B.Tree, e: B.Pair) {
    e in B.Elems(t) && B.AllGeq(e, B.Elems(t))
  }

  lemma LeastIsTop(t: B.Tree, e: B.Pair)
    requires t.Node? && B.Heap(t)
    ensures Least(t, e) <==> B.Elems(t) != multiset{} && e == B.Top(t)
  {
    hide B.Heap, B.Elems, B.Top;
    B.TopLeast(t);
    if Least(t, e) {
      assert B.Leq(e, B.Top(t)) && B.Leq(B.Top(t), e);
    }
  }

  /** The flow of a packet; one the map does not know is of flow 0. */
  function FlowNumber(cfg: Config, meta: int): nat {
    if meta in cfg.flowOf then cfg.flowOf[meta] else 0
  }

  /** Element `e` is the root's least, packet `p` is the least of the leaf it names, and the flow of `p` has a credit. */
  ghost predicate Affords(s: State, cfg: Config, e: B.Pair, p: B.Pair)
    requires Shape(s, cfg)
  {
    && Least(s.trees[0], e) && 1 <= e.val < cfg.m && Least(s.trees[e.val], p)
    && FlowNumber(cfg, p.val) < |s.popQ| && s.popQ[FlowNumber(cfg, p.val)] > 0
  }

  ghost predicate HasCredit(s: State, cfg: Config)
    requires Shape(s, cfg)
  {
    exists e, p :: Affords(s, cfg, e, p)
  }

  lemma TreesAreHeaps(s: State, cfg: Config)
    requires Typed(s, cfg)
    ensures forall r | 0 <= r < cfg.m :: B.Heap(s.trees[r])
    ensures !B.Vacant(B.Top(s.trees[0])) ==> 1 <= B.Top(s.trees[0]).val < cfg.m
  {
    B.PopCountVal(s.trees[0], B.Top(s.trees[0]).val);
  }

  lemma CreditIsAfforded(s: State, cfg: Config)
    requires Typed(s, cfg)
    ensures CreditFlow(s, cfg) != -1 ==> Affords(s, cfg, B.Top(s.trees[0]), B.Top(s.trees[B.Top(s.trees[0]).val]))
    ensures CreditFlow(s, cfg) != -1 ==>
              CreditFlow(s, cfg) == FlowNumber(cfg, B.Top(s.trees[B.Top(s.trees[0]).val]).val)
  {
    TreesAreHeaps(s, cfg);
    hide Typed, B.Heap, B.Elems, B.Top, Least;
    if CreditFlow(s, cfg) != -1 {
      var e := B.Top(s.trees[0]);
      B.TopLeast(s.trees[0]);
      B.TopLeast(s.trees[e.val]);
      LeastIsTop(s.trees[0], e);
      LeastIsTop(s.trees[e.val], B.Top(s.trees[e.val]));
    }
  }

  lemma AffordedIsCredit(s: State, cfg: Config, e: B.Pair, p: B.Pair)
    requires Typed(s, cfg) && Affords(s, cfg, e, p)
    ensures FlowNumber(cfg, p.val) < |s.popQ| && s.popQ[FlowNumber(cfg, p.val)] > 0
    ensures CreditFlow(s, cfg) == FlowNumber(cfg, p.val)
  {
    TreesAreHeaps(s, cfg);
    hide Typed, B.Heap, B.Elems, B.Top, Least;
    LeastIsTop(s.trees[0], e);
    LeastIsTop(s.trees[e.val], p);
    B.TopLeast(s.trees[0]);
    B.TopLeast(s.trees[e.val]);
  }

  lemma TypedShape(s: State, cfg: Config)
    requires Typed(s, cfg)
    ensures Shape(s, cfg) && |s.trees| == cfg.m && N(s) == |s.board.rpu| == |s.board.lists| >= 2
  {
  }

  lemma CreditMeans(s: State, cfg: Config)
    requires Shape(s, cfg)
    ensures HasCredit(s, cfg) <==> exists e, p :: Affords(s, cfg, e, p)
  {
  }

  lemma SpendsOne(s: State, cfg: Config)
    requires Shape(s, cfg)
    ensures var f := CreditFlow(s, cfg);
            if f == -1 then TryPop(s, cfg) == s
            else
              && 0 <= f < |s.popQ| && TryPop(s, cfg).popQ != s.popQ
              && TryPop(s, cfg) == s.(popQ := s.popQ[f := s.popQ[f] - 1],
                                      board := s.board.(lists := s.board.lists[0 := s.board.lists[0] + [Task(Pop, 0, cfg.l, 0, 0)]]))
  {
    ZeroHome(s, cfg);
    var f := CreditFlow(s, cfg);
    hide CreditFlow;
    if f != -1 {
      assert TryPop(s, cfg).popQ[f] == s.popQ[f] - 1;
    }
  }

  /**
   A credit is spent if and only if the flow of the packet that would go next has one; then
   exactly that count goes down by one and one root Pop joins the root's list.
   */
  lemma TryPopSpends(s: State, cfg: Config)
    requires Typed(s, cfg)
    ensures TryPop(s, cfg).popQ == s.popQ <==> !HasCredit(s, cfg)
    ensures !HasCredit(s, cfg) ==> TryPop(s, cfg) == s
    ensures forall e, p | Affords(s, cfg, e, p) ::
              var f := FlowNumber(cfg, p.val);
              0 <= f < |s.popQ| && s.popQ[f] > 0 &&
              TryPop(s, cfg) == s.(popQ := s.popQ[f := s.popQ[f] - 1],
                                   board := s.board.(lists := s.board.lists[0 := s.board.lists[0] + [Task(Pop, 0, cfg.l, 0, 0)]]))
  {
    hide *;
    TypedShape(s, cfg);
    CreditIsAfforded(s, cfg);
    SpendsOne(s, cfg);
    CreditMeans(s, cfg);
    forall e, p | Affords(s, cfg, e, p) ensures CreditFlow(s, cfg) == FlowNumber(cfg, p.val) && FlowNumber(cfg, p.val) < |s.popQ| && s.popQ[FlowNumber(cfg, p.val)] > 0 {
      AffordedIsCredit(s, cfg, e, p);
    }
  }

  lemma ZeroHome(s: State, cfg: Config)
    requires Shape(s, cfg)
    ensures 0 % N(s) == 0
  {
  }

  // ---------- the warm-up ----------

  /** Through cycle 50 no credit is spent; from cycle 51 on one is whenever it can be. */
  lemma IntakeSpends(s: State, cfg: Config)
    requires Shape(s, cfg) && Typed(s, cfg)
    ensures var filled := EnqueueFlows(s, cfg, |s.pushQ|);
            && Shape(filled, cfg)
            && (Intake(s, cfg).popQ == s.popQ <==> s.cycle <= 50 || !HasCredit(filled, cfg))
  {
    hide Typed, EnqueueFlows, HasCredit, TryPop;
    EnqueueFlowsTyped(s, cfg, |s.pushQ|);
    EnqueueFlowsCredits(s, cfg, |s.pushQ|);
    TryPopSpends(EnqueueFlows(s, cfg, |s.pushQ|), cfg);
  }

  lemma {:induction false} EnqueueFlowsCredits(s: State, cfg: Config, k: nat)
    requires Shape(s, cfg) && k <= |s.pushQ|
    ensures EnqueueFlows(s, cfg, k).popQ == s.popQ
  {
    if k > 0 {
      EnqueueFlowsCredits(s, cfg, k - 1);
    }
  }
}
