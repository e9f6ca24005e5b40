/**
 The remaining steps on tag lists: unlinking, rewriting, prepending, joining and leaving.
 */
module TagSteps {
  import opened TagHeap
  import opened TagOps

  function Cut(p: seq<nat>, i: nat): seq<nat>
    requires i < |p|
  {
    p[..i] + p[i + 1..]
  }

  function CutTags(c: seq<Tag>, i: nat): seq<Tag>
    requires i < |c|
  {
    c[..i] + c[i + 1..]
  }

  /** Lists other than `l` read the same. */
  ghost predicate OthersRead(h: Heap, paths: Paths, r: Heap, after: Paths, l: nat)
    requires Ok(h, paths) && Ok(r, after)
  {
    forall o | o in paths && o != l :: o in after && Read(r, after, o) == Read(h, paths, o)
  }

  lemma ShowOthersRead(h: Heap, paths: Paths, r: Heap, after: Paths, l: nat, except: set<nat>)
    requires Ok(h, paths) && Ok(r, after) && TagsKept(h.info, r.info, except)
    requires forall o | o in paths && o != l :: o in after && after[o] == paths[o]
    requires forall o, k | o in paths && o != l && 0 <= k < |paths[o]| :: paths[o][k] !in except
    ensures OthersRead(h, paths, r, after, l)
  {
    hide Ok, Read;
    forall o | o in paths && o != l ensures Read(r, after, o) == Read(h, paths, o) {
      Untouched(h, r, paths, after, except, o);
    }
  }

  lemma ShowCutRead(h: Heap, paths: Paths, r: Heap, after: Paths, l: nat, i: nat)
    requires Ok(h, paths) && Ok(r, after) && l in paths && i < |paths[l]| && l in after
    requires after[l] == Cut(paths[l], i) && TagsKept(h.info, r.info, {paths[l][i]})
    ensures Read(r, after, l) == CutTags(Read(h, paths, l), i)
  {
    hide Ok, Read;
    var p: seq<nat> := paths[l];
    forall k | 0 <= k < |p| - 1 ensures Read(r, after, l)[k] == CutTags(Read(h, paths, l), i)[k] {
      var j := if k < i then k else k + 1;
      assert after[l][k] == p[j];
      ReadAt(r, after, l, k);
      ReadAt(h, paths, l, j);
      if j < i {
        Apart(h, paths, l, j, i);
      } else {
        Apart(h, paths, l, i, j);
      }
    }
  }

  lemma OthersReadTransitive(h: Heap, p: Paths, g: Heap, q: Paths, k: Heap, r: Paths, l: nat)
    requires Ok(h, p) && Ok(g, q) && Ok(k, r) && OthersRead(h, p, g, q, l) && OthersRead(g, q, k, r, l)
    ensures OthersRead(h, p, k, r, l)
  {
    hide Ok, Read;
  }

  // ---------- unlinking a shared node ----------

  function UnlinkShared(h: Heap, prev: Ref, cur: nat): Heap
    requires cur in h.info && h.info[cur].count >= 1 && NodeRef(cur) in h.ptr
  {
    Heap(h.ptr[prev := Next(h, cur)], Bump(Unbump(h.info, cur), Next(h, cur)))
  }

  lemma UnlinkSharedCells(h: Heap, paths: Paths, l: nat, i: nat)
    requires Ok(h, paths) && l in paths && i < |paths[l]|
    requires paths[l][i] in h.info && h.info[paths[l][i]].count >= 2
    ensures NodeRef(paths[l][i]) in h.ptr
    ensures var r := UnlinkShared(h, RefAt(l, paths[l], i), paths[l][i]);
            Closed(r.ptr, r.info) && Counted(r.ptr, r.info)
  {
    CurIsNotNext(h, paths, l, i);
    NextKnown(h, paths, l, i);
    var prev, cur := RefAt(l, paths[l], i), paths[l][i];
    var r := UnlinkShared(h, prev, cur);
    forall a | a in r.info ensures r.info[a].count == |Refs(r.ptr, a)| >= 1 {
      Repoint(h.ptr, prev, Next(h, cur), a);
    }
  }

  /** The list no longer reads position `i`; nobody else sees a change. */
  lemma UnlinkSharedOk(h: Heap, paths: Paths, l: nat, i: nat)
    requires Ok(h, paths) && l in paths && i < |paths[l]| && OwnedUpTo(h, paths, l, i)
    requires paths[l][i] in h.info && h.info[paths[l][i]].count >= 2
    ensures NodeRef(paths[l][i]) in h.ptr
    ensures var r := UnlinkShared(h, RefAt(l, paths[l], i), paths[l][i]);
            var after := paths[l := Cut(paths[l], i)];
            && Ok(r, after)
            && Read(r, after, l) == CutTags(Read(h, paths, l), i)
            && OthersRead(h, paths, r, after, l)
  {
    hide Ok, Read, IsPath, Closed, Counted;
    UnlinkSharedCells(h, paths, l, i);
    CurIsNotNext(h, paths, l, i);
    var p: seq<nat> := paths[l];
    var prev := RefAt(l, p, i);
    var r := UnlinkShared(h, prev, p[i]);
    var after := paths[l := Cut(p, i)];
    assert Rerouted(h, r.ptr, paths, l, i, {});
    TailWalks(h, r.ptr, paths, l, i, {}, prev);
    SelfWalks(h, r.ptr, paths, l, i, {}, p[i + 1..]);
    Assemble(h, r, paths, l, i, {}, Cut(p, i));
    ShowCutRead(h, paths, r, after, l, i);
    ShowOthersRead(h, paths, r, after, l, {});
  }

  // ---------- unlinking and deleting an owned node ----------

  function UnlinkOwned(h: Heap, prev: Ref, cur: nat): Heap
    requires NodeRef(cur) in h.ptr
  {
    Heap(h.ptr[prev := Next(h, cur)] - {NodeRef(cur)}, h.info - {cur})
  }

  lemma OnlyRef(h: Heap, paths: Paths, l: nat, i: nat, c: Ref)
    requires Ok(h, paths) && l in paths && i < |paths[l]| && OwnedUpTo(h, paths, l, i + 1)
    requires c in h.ptr && h.ptr[c] == paths[l][i]
    ensures c == RefAt(l, paths[l], i)
  {
    OnPath(h.ptr, h.info, paths, l, i);
    Singleton(Refs(h.ptr, paths[l][i]), c, RefAt(l, paths[l], i));
  }

  lemma UnlinkOwnedCells(h: Heap, paths: Paths, l: nat, i: nat)
    requires Ok(h, paths) && l in paths && i < |paths[l]| && OwnedUpTo(h, paths, l, i + 1)
    ensures NodeRef(paths[l][i]) in h.ptr
    ensures var r := UnlinkOwned(h, RefAt(l, paths[l], i), paths[l][i]);
            Closed(r.ptr, r.info) && Counted(r.ptr, r.info)
  {
    CurIsNotNext(h, paths, l, i);
    NextKnown(h, paths, l, i);
    var prev, cur := RefAt(l, paths[l], i), paths[l][i];
    var r := UnlinkOwned(h, prev, cur);
    var mid := h.ptr[prev := Next(h, cur)];
    forall a | a in r.info ensures r.info[a].count == |Refs(r.ptr, a)| >= 1 {
      Repoint(h.ptr, prev, Next(h, cur), a);
      DropCell(mid, NodeRef(cur), a);
    }
    forall c | c in r.ptr ensures r.ptr[c] == 0 || r.ptr[c] in r.info {
      if c != prev && h.ptr[c] == cur {
        OnlyRef(h, paths, l, i, c);
      }
    }
  }

  lemma NobodyElse(h: Heap, paths: Paths, l: nat, i: nat)
    requires Ok(h, paths) && l in paths && i < |paths[l]| && OwnedUpTo(h, paths, l, i + 1)
    ensures forall o, k | o in paths && o != l && 0 <= k < |paths[o]| :: paths[o][k] != paths[l][i]
  {
    forall o, k | o in paths && o != l && 0 <= k < |paths[o]| ensures paths[o][k] != paths[l][i] {
      Exclusive(h.ptr, h.info, paths, l, i, o, k);
    }
  }

  /** The list no longer reads position `i`, the node is gone, and nobody else sees a change. */
  lemma UnlinkOwnedOk(h: Heap, paths: Paths, l: nat, i: nat)
    requires Ok(h, paths) && l in paths && i < |paths[l]| && OwnedUpTo(h, paths, l, i + 1)
    ensures NodeRef(paths[l][i]) in h.ptr
    ensures var r := UnlinkOwned(h, RefAt(l, paths[l], i), paths[l][i]);
            var after := paths[l := Cut(paths[l], i)];
            && Ok(r, after)
            && Read(r, after, l) == CutTags(Read(h, paths, l), i)
            && OthersRead(h, paths, r, after, l)
  {
    hide Ok, Read, IsPath, Closed, Counted;
    UnlinkOwnedCells(h, paths, l, i);
    CurIsNotNext(h, paths, l, i);
    NobodyElse(h, paths, l, i);
    var p: seq<nat> := paths[l];
    var prev := RefAt(l, p, i);
    var r := UnlinkOwned(h, prev, p[i]);
    var after := paths[l := Cut(p, i)];
    var gone := {NodeRef(p[i])};
    assert Rerouted(h, r.ptr, paths, l, i, gone);
    forall k | 0 <= k < |p| && k != i ensures NodeRef(p[k]) !in gone {
      if k < i {
        Apart(h, paths, l, k, i);
      } else {
        Apart(h, paths, l, i, k);
      }
    }
    TailWalks(h, r.ptr, paths, l, i, gone, prev);
    SelfWalks(h, r.ptr, paths, l, i, gone, p[i + 1..]);
    Assemble(h, r, paths, l, i, gone, Cut(p, i));
    ShowCutRead(h, paths, r, after, l, i);
    ShowOthersRead(h, paths, r, after, l, {p[i]});
  }

  // ---------- rewriting an owned node ----------

  function Rewrite(h: Heap, cur: nat, t: Tag): Heap
    requires cur in h.info
  {
    h.(info := h.info[cur := h.info[cur].(tag := t)])
  }

  lemma RewriteOk(h: Heap, paths: Paths, l: nat, i: nat, t: Tag)
    requires Ok(h, paths) && l in paths && i < |paths[l]| && OwnedUpTo(h, paths, l, i + 1)
    ensures var r := Rewrite(h, paths[l][i], t);
            && Ok(r, paths)
            && Read(r, paths, l) == Read(h, paths, l)[i := t]
            && OthersRead(h, paths, r, paths, l)
  {
    var p: seq<nat> := paths[l];
    var r := Rewrite(h, p[i], t);
    assert Ok(r, paths);
    hide Ok, Read;
    NobodyElse(h, paths, l, i);
    forall k | 0 <= k < |p| ensures Read(r, paths, l)[k] == (if k == i then t else Read(h, paths, l)[k]) {
      ReadAt(h, paths, l, k);
      ReadAt(r, paths, l, k);
      if k < i {
        Apart(h, paths, l, k, i);
      } else if k > i {
        Apart(h, paths, l, i, k);
      }
    }
    ShowOthersRead(h, paths, r, paths, l, {p[i]});
  }

  // ---------- prepending ----------

  function Prepend(h: Heap, l: nat, n: nat, t: Tag): Heap
    requires ListRef(l) in h.ptr
  {
    Heap(h.ptr[NodeRef(n) := h.ptr[ListRef(l)]][ListRef(l) := n], h.info[n := Info(t, 1)])
  }

  lemma HeadKnown(h: Heap, paths: Paths, l: nat)
    requires Ok(h, paths) && l in paths
    ensures ListRef(l) in h.ptr && h.ptr[ListRef(l)] == if paths[l] == [] then 0 else paths[l][0]
    ensures h.ptr[ListRef(l)] == 0 <==> paths[l] == []
    ensures h.ptr[ListRef(l)] != 0 ==> h.ptr[ListRef(l)] in h.info && h.info[h.ptr[ListRef(l)]].count >= 1
    ensures 0 !in h.info
  {
    PathAt(h.ptr, ListRef(l), paths[l], 0);
  }

  lemma PrependCells(h: Heap, paths: Paths, l: nat, n: nat, t: Tag)
    requires Ok(h, paths) && l in paths && n != 0 && n !in h.info
    ensures ListRef(l) in h.ptr && NodeRef(n) !in h.ptr
    ensures var r := Prepend(h, l, n, t); Closed(r.ptr, r.info) && Counted(r.ptr, r.info)
  {
    HeadKnown(h, paths, l);
    var head := h.ptr[ListRef(l)];
    var r := Prepend(h, l, n, t);
    var mid := h.ptr[NodeRef(n) := head];
    forall a | a in r.info ensures r.info[a].count == |Refs(r.ptr, a)| >= 1 {
      NewCell(h.ptr, NodeRef(n), head, a);
      Repoint(mid, ListRef(l), n, a);
      if a == n {
        assert Refs(h.ptr, n) == {};
      }
    }
  }

  lemma PrependOk(h: Heap, paths: Paths, l: nat, n: nat, t: Tag)
    requires Ok(h, paths) && l in paths && n != 0 && n !in h.info
    ensures ListRef(l) in h.ptr
    ensures var r := Prepend(h, l, n, t);
            var after := paths[l := [n] + paths[l]];
            && Ok(r, after)
            && Read(r, after, l) == [t] + Read(h, paths, l)
            && OthersRead(h, paths, r, after, l)
  {
    hide Ok, Read, IsPath, Closed, Counted;
    PrependCells(h, paths, l, n, t);
    var p: seq<nat> := paths[l];
    var r := Prepend(h, l, n, t);
    var after := paths[l := [n] + p];
    assert Rerouted(h, r.ptr, paths, l, 0, {});
    forall k | 0 <= k < |p| ensures SameCell(h.ptr, r.ptr, NodeRef(p[k])) {
      NodeKnown(h, paths, l, k);
    }
    ListWalks(h, paths, l);
    PathAlias(h.ptr, r.ptr, ListRef(l), NodeRef(n), p);
    Prefixed(r.ptr, ListRef(l), n, p);
    Assemble(h, r, paths, l, 0, {}, [n] + p);
    forall k | 0 <= k < |p| + 1 ensures Read(r, after, l)[k] == ([t] + Read(h, paths, l))[k] {
      ReadAt(r, after, l, k);
      if k > 0 {
        ReadAt(h, paths, l, k - 1);
      }
    }
    ShowOthersRead(h, paths, r, after, l, {});
  }

  lemma NodeKnown(h: Heap, paths: Paths, l: nat, k: nat)
    requires Ok(h, paths) && l in paths && k < |paths[l]|
    ensures NodeRef(paths[l][k]) in h.ptr && paths[l][k] in h.info
  {
    OnPath(h.ptr, h.info, paths, l, k);
  }

  lemma ListWalks(h: Heap, paths: Paths, l: nat)
    requires Ok(h, paths) && l in paths
    ensures IsPath(h.ptr, ListRef(l), paths[l])
  {
  }

  // ---------- joining and leaving ----------

  /** A new list with nothing on it. */
  function NewList(h: Heap, l: nat): Heap {
    h.(ptr := h.ptr[ListRef(l) := 0])
  }

  lemma NewListOk(h: Heap, paths: Paths, l: nat)
    requires Ok(h, paths) && l !in paths
    ensures Ok(NewList(h, l), paths[l := []])
    ensures OthersRead(h, paths, NewList(h, l), paths[l := []], l)
  {
    var r := NewList(h, l);
    var after: Paths := paths[l := []];
    forall a | a in r.info ensures r.info[a].count == |Refs(r.ptr, a)| >= 1 {
      NewCell(h.ptr, ListRef(l), 0, a);
    }
    forall o | o in paths ensures IsPath(r.ptr, ListRef(o), paths[o]) {
      forall k | 0 <= k < |paths[o]| ensures SameCell(h.ptr, r.ptr, NodeRef(paths[o][k])) {
        OnPath(h.ptr, h.info, paths, o, k);
      }
      PathFrame(h.ptr, r.ptr, ListRef(o), paths[o]);
    }
    assert Ok(r, after);
    ShowOthersRead(h, paths, r, after, l, {});
  }

  /** List `l`, empty, joins the nodes of list `o`. */
  function Join(h: Heap, l: nat, o: nat): Heap
    requires ListRef(o) in h.ptr
  {
    Heap(h.ptr[ListRef(l) := h.ptr[ListRef(o)]], Bump(h.info, h.ptr[ListRef(o)]))
  }

  lemma JoinOk(h: Heap, paths: Paths, l: nat, o: nat)
    requires Ok(h, paths) && l in paths && paths[l] == [] && o in paths && o != l
    ensures ListRef(o) in h.ptr
    ensures var r := Join(h, l, o);
            var after := paths[l := paths[o]];
            Ok(r, after) && Read(r, after, l) == Read(h, paths, o) && OthersRead(h, paths, r, after, l)
  {
    hide Ok, Read, IsPath, Closed, Counted;
    HeadKnown(h, paths, o);
    HeadKnown(h, paths, l);
    var r := Join(h, l, o);
    var after := paths[l := paths[o]];
    JoinCells(h, paths, l, o);
    var p: seq<nat> := paths[o];
    assert Rerouted(h, r.ptr, paths, l, 0, {});
    forall k | 0 <= k < |p| ensures SameCell(h.ptr, r.ptr, NodeRef(p[k])) {
      NodeKnown(h, paths, o, k);
    }
    ListWalks(h, paths, o);
    PathAlias(h.ptr, r.ptr, ListRef(o), ListRef(l), p);
    Assemble(h, r, paths, l, 0, {}, p);
    forall k | 0 <= k < |p| ensures Read(r, after, l)[k] == Read(h, paths, o)[k] {
      ReadAt(r, after, l, k);
      ReadAt(h, paths, o, k);
    }
    ShowOthersRead(h, paths, r, after, l, {});
  }

  lemma JoinCells(h: Heap, paths: Paths, l: nat, o: nat)
    requires Ok(h, paths) && l in paths && paths[l] == [] && o in paths && o != l && ListRef(o) in h.ptr
    ensures var r := Join(h, l, o); Closed(r.ptr, r.info) && Counted(r.ptr, r.info)
  {
    HeadKnown(h, paths, o);
    HeadKnown(h, paths, l);
    var r := Join(h, l, o);
    forall a | a in r.info ensures r.info[a].count == |Refs(r.ptr, a)| >= 1 {
      Repoint(h.ptr, ListRef(l), h.ptr[ListRef(o)], a);
    }
  }

  /** List `l` leaves a shared node behind. */
  function Leave(h: Heap, l: nat): Heap
    requires ListRef(l) in h.ptr && h.ptr[ListRef(l)] in h.info && h.info[h.ptr[ListRef(l)]].count >= 1
  {
    Heap(h.ptr[ListRef(l) := 0], Unbump(h.info, h.ptr[ListRef(l)]))
  }

  lemma LeaveOk(h: Heap, paths: Paths, l: nat)
    requires Ok(h, paths) && l in paths && paths[l] != []
    requires paths[l][0] in h.info && h.info[paths[l][0]].count >= 2
    ensures ListRef(l) in h.ptr && h.ptr[ListRef(l)] == paths[l][0]
    ensures Ok(Leave(h, l), paths[l := []]) && OthersRead(h, paths, Leave(h, l), paths[l := []], l)
  {
    HeadKnown(h, paths, l);
    var r := Leave(h, l);
    LeaveCells(h, paths, l);
    assert IsPath(r.ptr, ListRef(l), []);
    hide Ok, Read, IsPath, Closed, Counted;
    assert Rerouted(h, r.ptr, paths, l, 0, {});
    Assemble(h, r, paths, l, 0, {}, []);
    ShowOthersRead(h, paths, r, paths[l := []], l, {});
  }

  lemma LeaveCells(h: Heap, paths: Paths, l: nat)
    requires Ok(h, paths) && l in paths && paths[l] != [] && ListRef(l) in h.ptr
    requires h.ptr[ListRef(l)] in h.info && h.info[h.ptr[ListRef(l)]].count >= 2
    ensures var r := Leave(h, l); Closed(r.ptr, r.info) && Counted(r.ptr, r.info)
  {
    var r := Leave(h, l);
    forall a | a in r.info ensures r.info[a].count == |Refs(r.ptr, a)| >= 1 {
      Repoint(h.ptr, ListRef(l), 0, a);
    }
  }

  /** Lists with the same head walk the same nodes. */
  lemma SameHead(h: Heap, paths: Paths, l: nat, o: nat)
    requires Ok(h, paths) && l in paths && o in paths
    requires ListRef(l) in h.ptr && ListRef(o) in h.ptr && h.ptr[ListRef(l)] == h.ptr[ListRef(o)]
    ensures paths[l] == paths[o] && Read(h, paths, l) == Read(h, paths, o)
  {
    forall k | 0 <= k < |paths[l]| ensures SameCell(h.ptr, h.ptr, NodeRef(paths[l][k])) {
      OnPath(h.ptr, h.info, paths, l, k);
    }
    PathAlias(h.ptr, h.ptr, ListRef(l), ListRef(o), paths[l]);
    PathUnique(h.ptr, ListRef(o), paths[l], paths[o]);
  }

  /** An empty list goes away. */
  function EndList(h: Heap, l: nat): Heap {
    h.(ptr := h.ptr - {ListRef(l)})
  }

  lemma EndListOk(h: Heap, paths: Paths, l: nat)
    requires Ok(h, paths) && l in paths && paths[l] == []
    ensures Ok(EndList(h, l), paths - {l})
    ensures OthersRead(h, paths, EndList(h, l), paths - {l}, l)
  {
    HeadKnown(h, paths, l);
    var r := EndList(h, l);
    var after := paths - {l};
    forall a | a in r.info ensures r.info[a].count == |Refs(r.ptr, a)| >= 1 {
      DropCell(h.ptr, ListRef(l), a);
    }
    forall o | o in after ensures IsPath(r.ptr, ListRef(o), after[o]) {
      forall k | 0 <= k < |paths[o]| ensures SameCell(h.ptr, r.ptr, NodeRef(paths[o][k])) {
        OnPath(h.ptr, h.info, paths, o, k);
      }
      PathFrame(h.ptr, r.ptr, ListRef(o), paths[o]);
    }
    assert Ok(r, after);
    ShowOthersRead(h, paths, r, after, l, {});
  }
}
