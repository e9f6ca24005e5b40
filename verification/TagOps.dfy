/**
 The steps of the copy-on-write operations on tag lists, one pointer change at a time.
 Each step keeps the counts exact and changes what one list reads, if it changes anything.
 */
module TagOps {
  import opened TagHeap

  datatype Heap = Heap(ptr: Ptrs, info: Infos)

  ghost predicate Ok(h: Heap, paths: Paths) {
    Valid(h.ptr, h.info, paths)
  }

  /** What list `l` reads. */
  ghost function Read(h: Heap, paths: Paths, l: nat): (c: seq<Tag>)
    requires Ok(h, paths) && l in paths
    ensures |c| == |paths[l]|
  {
    assert forall k | 0 <= k < |paths[l]| :: paths[l][k] in h.info by {
      forall k | 0 <= k < |paths[l]| ensures paths[l][k] in h.info {
        OnPath(h.ptr, h.info, paths, l, k);
      }
    }
    Contents(h.info, paths[l])
  }

  /** The first `i` nodes of list `l` belong to it alone. */
  ghost predicate OwnedUpTo(h: Heap, paths: Paths, l: nat, i: nat)
    requires l in paths && i <= |paths[l]|
  {
    forall j | 0 <= j < i :: paths[l][j] in h.info && h.info[paths[l][j]].count == 1
  }

  function Next(h: Heap, a: nat): nat
    requires NodeRef(a) in h.ptr
  {
    h.ptr[NodeRef(a)]
  }

  function Bump(info: Infos, a: nat): Infos {
    if a in info then info[a := info[a].(count := info[a].count + 1)] else info
  }

  function Unbump(info: Infos, a: nat): Infos
    requires a in info && info[a].count >= 1
  {
    info[a := info[a].(count := info[a].count - 1)]
  }

  // ---------- lists that do not change ----------

  /** Nodes outside `except` are still there with the same tags. */
  ghost predicate TagsKept(info: Infos, after: Infos, except: set<nat>) {
    forall a | a in info && a !in except :: a in after && after[a].tag == info[a].tag
  }

  /** A list that keeps its path, off the nodes in `except`, reads the same. */
  lemma Untouched(h: Heap, after: Heap, paths: Paths, paths': Paths, except: set<nat>, o: nat)
    requires Ok(h, paths) && Ok(after, paths') && o in paths && o in paths' && paths'[o] == paths[o]
    requires TagsKept(h.info, after.info, except) && forall k | 0 <= k < |paths[o]| :: paths[o][k] !in except
    ensures Read(after, paths', o) == Read(h, paths, o)
  {
    hide Ok;
    forall k | 0 <= k < |paths[o]| ensures Read(after, paths', o)[k] == Read(h, paths, o)[k] {
      ReadAt(h, paths, o, k);
      ReadAt(after, paths', o, k);
    }
  }

  lemma ReadAt(h: Heap, paths: Paths, l: nat, k: nat)
    requires Ok(h, paths) && l in paths && k < |paths[l]|
    ensures paths[l][k] in h.info && Read(h, paths, l)[k] == h.info[paths[l][k]].tag
    ensures paths[l][k] != 0
  {
    OnPath(h.ptr, h.info, paths, l, k);
  }

  // ---------- copying a shared node ----------

  /** The shared node `cur` behind cell `prev` is replaced, for that cell, by a new node `n` with tag `t`. */
  function CopyShared(h: Heap, prev: Ref, cur: nat, n: nat, t: Tag): Heap
    requires cur in h.info && h.info[cur].count >= 1 && NodeRef(cur) in h.ptr
  {
    var nx := Next(h, cur);
    var info := Bump(Unbump(h.info, cur)[n := Info(t, 1)], nx);
    Heap(h.ptr[NodeRef(n) := nx][prev := n], info)
  }

  lemma CopySharedCells(h: Heap, paths: Paths, l: nat, i: nat, n: nat, t: Tag)
    requires Ok(h, paths) && l in paths && i < |paths[l]| && OwnedUpTo(h, paths, l, i)
    requires n != 0 && n !in h.info && paths[l][i] in h.info && h.info[paths[l][i]].count >= 2
    ensures NodeRef(paths[l][i]) in h.ptr
    ensures var prev := RefAt(l, paths[l], i);
            var r := CopyShared(h, prev, paths[l][i], n, t);
            Closed(r.ptr, r.info) && Counted(r.ptr, r.info)
  {
    var p: seq<nat> := paths[l];
    var cur := p[i];
    var prev := RefAt(l, p, i);
    OnPath(h.ptr, h.info, paths, l, i);
    var nx := Next(h, cur);
    var r := CopyShared(h, prev, cur, n, t);
    var mid := h.ptr[NodeRef(n) := nx];
    forall a | a in r.info ensures r.info[a].count == |Refs(r.ptr, a)| >= 1 {
      NewCell(h.ptr, NodeRef(n), nx, a);
      Repoint(mid, prev, n, a);
      if a == n {
        assert Refs(h.ptr, n) == {};
      }
      CurIsNotNext(h, paths, l, i);
    }
  }

  lemma CurIsNotNext(h: Heap, paths: Paths, l: nat, i: nat)
    requires Ok(h, paths) && l in paths && i < |paths[l]|
    ensures NodeRef(paths[l][i]) in h.ptr && Next(h, paths[l][i]) != paths[l][i]
    ensures RefAt(l, paths[l], i) in h.ptr && h.ptr[RefAt(l, paths[l], i)] == paths[l][i]
    ensures RefAt(l, paths[l], i) != NodeRef(paths[l][i])
  {
    OnPath(h.ptr, h.info, paths, l, i);
    if i + 1 < |paths[l]| {
      PathDistinct(h.ptr, ListRef(l), paths[l], i, i + 1);
    }
    if i > 0 {
      PathDistinct(h.ptr, ListRef(l), paths[l], i - 1, i);
    }
  }

  function PathWith(p: seq<nat>, i: nat, n: nat): seq<nat>
    requires i < |p|
  {
    p[i := n]
  }

  // ---------- rerouting one list ----------

  /** Away from the cell behind position `i` of list `l`, and from cell `gone`, pointers are as before. */
  ghost predicate Rerouted(h: Heap, ptr: Ptrs, paths: Paths, l: nat, i: nat, gone: set<Ref>)
    requires l in paths && i <= |paths[l]|
  {
    && (forall o :: ListRef(o) in ptr <==> ListRef(o) in h.ptr)
    && RefAt(l, paths[l], i) in ptr
    && forall c | c in h.ptr && c != RefAt(l, paths[l], i) && c !in gone :: SameCell(h.ptr, ptr, c)
  }

  /** Every other list still walks its old path. */
  lemma OthersWalk(h: Heap, ptr: Ptrs, paths: Paths, l: nat, i: nat, gone: set<Ref>, o: nat)
    requires Ok(h, paths) && l in paths && i <= |paths[l]| && OwnedUpTo(h, paths, l, i)
    requires Rerouted(h, ptr, paths, l, i, gone) && o in paths && o != l
    requires ListRef(o) !in gone && forall k | 0 <= k < |paths[o]| :: NodeRef(paths[o][k]) !in gone
    ensures IsPath(ptr, ListRef(o), paths[o])
  {
    ExclusiveRef(h.ptr, h.info, paths, l, i, o);
    forall k | 0 <= k < |paths[o]| ensures SameCell(h.ptr, ptr, NodeRef(paths[o][k])) {
      OnPath(h.ptr, h.info, paths, o, k);
    }
    PathFrame(h.ptr, ptr, ListRef(o), paths[o]);
  }

  /** The list itself walks its old path up to the cell and whatever follows from there on. */
  lemma SelfWalks(h: Heap, ptr: Ptrs, paths: Paths, l: nat, i: nat, gone: set<Ref>, q: seq<nat>)
    requires Ok(h, paths) && l in paths && i <= |paths[l]|
    requires Rerouted(h, ptr, paths, l, i, gone)
    requires ListRef(l) !in gone && forall k | 0 <= k < i :: NodeRef(paths[l][k]) !in gone
    requires IsPath(ptr, RefAt(l, paths[l], i), q)
    ensures IsPath(ptr, ListRef(l), paths[l][..i] + q)
  {
    var p: seq<nat> := paths[l];
    forall k | 0 <= k < i - 1 ensures SameCell(h.ptr, ptr, NodeRef(p[k])) {
      OnPath(h.ptr, h.info, paths, l, k);
      PathDistinct(h.ptr, ListRef(l), p, k, i - 1);
    }
    PathJoin(h.ptr, ptr, ListRef(l), p, i, q);
  }

  /** What follows position `i` is walked from any cell that has the value the old node had. */
  lemma TailWalks(h: Heap, ptr: Ptrs, paths: Paths, l: nat, i: nat, gone: set<Ref>, c: Ref)
    requires Ok(h, paths) && l in paths && i < |paths[l]|
    requires Rerouted(h, ptr, paths, l, i, gone)
    requires forall k | i < k < |paths[l]| :: NodeRef(paths[l][k]) !in gone
    requires NodeRef(paths[l][i]) in h.ptr && c in ptr && ptr[c] == h.ptr[NodeRef(paths[l][i])]
    ensures IsPath(ptr, c, paths[l][i + 1..])
  {
    var p: seq<nat> := paths[l];
    var tail := p[i + 1..];
    PathAt(h.ptr, ListRef(l), p, i + 1);
    forall k | 0 <= k < |tail| ensures SameCell(h.ptr, ptr, NodeRef(tail[k])) {
      hide Ok;
      TailCell(h, paths, l, i, i + 1 + k);
    }
    PathAlias(h.ptr, ptr, NodeRef(p[i]), c, tail);
  }

  lemma TailCell(h: Heap, paths: Paths, l: nat, i: nat, k: nat)
    requires Ok(h, paths) && l in paths && i < k < |paths[l]|
    ensures NodeRef(paths[l][k]) in h.ptr && NodeRef(paths[l][k]) != RefAt(l, paths[l], i)
  {
    OnPath(h.ptr, h.info, paths, l, k);
    if i > 0 {
      PathDistinct(h.ptr, ListRef(l), paths[l], i - 1, k);
    }
  }

  // ---------- the copy, as a whole ----------

  /** A heap with exact counts in which every list walks its path is in order. */
  lemma Assemble(h: Heap, r: Heap, paths: Paths, l: nat, i: nat, gone: set<Ref>, q: seq<nat>)
    requires Ok(h, paths) && l in paths && i <= |paths[l]| && OwnedUpTo(h, paths, l, i)
    requires Rerouted(h, r.ptr, paths, l, i, gone)
    requires forall o | o in paths && o != l ::
               ListRef(o) !in gone && forall k | 0 <= k < |paths[o]| :: NodeRef(paths[o][k]) !in gone
    requires Closed(r.ptr, r.info) && Counted(r.ptr, r.info) && IsPath(r.ptr, ListRef(l), q)
    ensures Ok(r, paths[l := q])
  {
    hide Closed, Counted;
    forall o | o in paths && o != l ensures IsPath(r.ptr, ListRef(o), paths[o]) {
      OthersWalk(h, r.ptr, paths, l, i, gone, o);
    }
  }

  lemma CopySharedWalks(h: Heap, paths: Paths, l: nat, i: nat, n: nat, t: Tag)
    requires Ok(h, paths) && l in paths && i < |paths[l]| && OwnedUpTo(h, paths, l, i)
    requires n != 0 && n !in h.info && paths[l][i] in h.info && h.info[paths[l][i]].count >= 2
    ensures NodeRef(paths[l][i]) in h.ptr
    ensures Ok(CopyShared(h, RefAt(l, paths[l], i), paths[l][i], n, t), paths[l := PathWith(paths[l], i, n)])
  {
    hide Ok, Closed, Counted, IsPath, Bump, Unbump;
    var p: seq<nat> := paths[l];
    CopySharedCells(h, paths, l, i, n, t);
    CurIsNotNext(h, paths, l, i);
    NewIsUnknown(h, paths, n);
    var r := CopyShared(h, RefAt(l, p, i), p[i], n, t);
    assert Rerouted(h, r.ptr, paths, l, i, {});
    TailWalks(h, r.ptr, paths, l, i, {}, NodeRef(n));
    var q := [n] + p[i + 1..];
    assert q[1..] == p[i + 1..];
    Prefixed(r.ptr, RefAt(l, p, i), n, p[i + 1..]);
    SelfWalks(h, r.ptr, paths, l, i, {}, q);
    assert PathWith(p, i, n) == p[..i] + q;
    Assemble(h, r, paths, l, i, {}, PathWith(p, i, n));
  }

  lemma NewIsUnknown(h: Heap, paths: Paths, n: nat)
    requires Ok(h, paths) && n !in h.info
    ensures NodeRef(n) !in h.ptr
  {
  }

  lemma Prefixed(ptr: Ptrs, c: Ref, n: nat, tail: seq<nat>)
    requires c in ptr && ptr[c] == n && n != 0 && IsPath(ptr, NodeRef(n), tail)
    ensures IsPath(ptr, c, [n] + tail)
  {
    assert ([n] + tail)[1..] == tail;
  }

  /** After the copy, list `l` reads `t` at position `i` from a node of its own; nobody else sees a change. */
  lemma CopySharedOk(h: Heap, paths: Paths, l: nat, i: nat, n: nat, t: Tag)
    requires Ok(h, paths) && l in paths && i < |paths[l]| && OwnedUpTo(h, paths, l, i)
    requires n != 0 && n !in h.info && paths[l][i] in h.info && h.info[paths[l][i]].count >= 2
    ensures NodeRef(paths[l][i]) in h.ptr
    ensures var r := CopyShared(h, RefAt(l, paths[l], i), paths[l][i], n, t);
            var after := paths[l := PathWith(paths[l], i, n)];
            && Ok(r, after)
            && OwnedUpTo(r, after, l, i + 1)
            && Read(r, after, l) == Read(h, paths, l)[i := t]
            && forall o | o in paths && o != l :: Read(r, after, o) == Read(h, paths, o)
  {
    hide Ok, Read;
    CopySharedWalks(h, paths, l, i, n, t);
    var p: seq<nat> := paths[l];
    var r := CopyShared(h, RefAt(l, p, i), p[i], n, t);
    var after := paths[l := PathWith(p, i, n)];
    assert TagsKept(h.info, r.info, {});
    forall o | o in paths && o != l ensures Read(r, after, o) == Read(h, paths, o) {
      Untouched(h, r, paths, after, {}, o);
    }
    forall k | 0 <= k < |p| ensures Read(r, after, l)[k] == (if k == i then t else Read(h, paths, l)[k]) {
      ReadAt(h, paths, l, k);
      ReadAt(r, after, l, k);
      if k == i {
        CurIsNotNext(h, paths, l, i);
        NextKnown(h, paths, l, i);
      }
    }
    CopyOwned(h, paths, l, i, n, t);
  }

  lemma NextKnown(h: Heap, paths: Paths, l: nat, i: nat)
    requires Ok(h, paths) && l in paths && i < |paths[l]|
    ensures NodeRef(paths[l][i]) in h.ptr
    ensures Next(h, paths[l][i]) == 0 || Next(h, paths[l][i]) in h.info
    ensures i + 1 < |paths[l]| ==> Next(h, paths[l][i]) == paths[l][i + 1]
    ensures i + 1 == |paths[l]| ==> Next(h, paths[l][i]) == 0
    ensures 0 !in h.info
  {
    OnPath(h.ptr, h.info, paths, l, i);
  }

  lemma CopyOwned(h: Heap, paths: Paths, l: nat, i: nat, n: nat, t: Tag)
    requires Ok(h, paths) && l in paths && i < |paths[l]| && OwnedUpTo(h, paths, l, i)
    requires n != 0 && n !in h.info && paths[l][i] in h.info && h.info[paths[l][i]].count >= 2
    requires NodeRef(paths[l][i]) in h.ptr
    ensures OwnedUpTo(CopyShared(h, RefAt(l, paths[l], i), paths[l][i], n, t), paths[l := PathWith(paths[l], i, n)], l, i + 1)
  {
    hide Ok;
    var p: seq<nat> := paths[l];
    NextKnown(h, paths, l, i);
    var r := CopyShared(h, RefAt(l, p, i), p[i], n, t);
    forall j | 0 <= j < i ensures p[j] in r.info && r.info[p[j]].count == 1 {
      Apart(h, paths, l, j, i);
      if i + 1 < |p| {
        Apart(h, paths, l, j, i + 1);
      }
    }
  }

  lemma Apart(h: Heap, paths: Paths, l: nat, j: nat, k: nat)
    requires Ok(h, paths) && l in paths && j < k < |paths[l]|
    ensures paths[l][j] != paths[l][k] && paths[l][j] != 0
  {
    PathDistinct(h.ptr, ListRef(l), paths[l], j, k);
    PathAt(h.ptr, ListRef(l), paths[l], j);
  }
}
