/**
 Packet tag lists as the source runs them: one memory, many lists, shared nodes that are
 copied only when a list is about to change them.

 Every operation changes what its own list reads, as a plain sequence operation would, and
 leaves every other list reading what it read before.  Nodes are deleted only when no cell
 points to them.
 */
module TagList {
  import opened TagHeap
  import opened TagOps
  import opened TagSteps

  /** The position of the first tag of a type, or the length. */
  function FirstOf(c: seq<Tag>, tid: int): (k: nat)
    ensures k <= |c| && (k < |c| ==> c[k].tid == tid) && forall j | 0 <= j < k :: c[j].tid != tid
  {
    if c == [] then 0 else if c[0].tid == tid then 0 else 1 + FirstOf(c[1..], tid)
  }

  lemma {:induction false} FirstIs(c: seq<Tag>, tid: int, k: nat)
    requires k <= |c| && (k < |c| ==> c[k].tid == tid) && forall j | 0 <= j < k :: c[j].tid != tid
    ensures FirstOf(c, tid) == k
  {
    if k > 0 {
      assert c[0].tid != tid;
      FirstIs(c[1..], tid, k - 1);
    }
  }

  class TagStore {
    var ptr: Ptrs
    var info: Infos
    /** Addresses from here on were never used. */
    var top: nat
    /** The nodes each list goes through. */
    ghost var paths: Paths

    ghost function H(): Heap
      reads this
    {
      Heap(ptr, info)
    }

    ghost predicate Valid()
      reads this
    {
      Ok(H(), paths) && top > 0 && forall a | a in info :: a < top
    }

    /** What a list reads. */
    ghost function View(l: nat): seq<Tag>
      requires Valid() && l in paths
      reads this
    {
      Read(H(), paths, l)
    }

    /** No list but `l` reads anything else than before, and no list but `l` comes or goes. */
    twostate predicate OnlyChanges(l: nat)
      requires old(Valid()) && Valid()
      reads this
    {
      OthersRead(old(H()), old(paths), H(), paths, l) && paths.Keys - {l} == old(paths).Keys - {l}
    }

    constructor ()
      ensures Valid() && paths == map[]
    {
      ptr, info, top, paths := map[], map[], 1, map[];
    }

    /** A new list, with nothing on it. */
    method Create(l: nat)
      requires Valid() && l !in paths
      modifies this
      ensures Valid() && l in paths && View(l) == [] && OnlyChanges(l)
    {
      NewListOk(H(), paths, l);
      ptr := ptr[ListRef(l) := 0];
      paths := paths[l := []];
    }

    /** The first tag of the type on the list, if any. */
    method Peek(l: nat, tid: int) returns (found: bool, tag: Tag)
      requires Valid() && l in paths
      ensures found == (FirstOf(View(l), tid) < |View(l)|)
      ensures found ==> tag == View(l)[FirstOf(View(l), tid)]
    {
      hide Ok, Read;
      found, tag := false, Tag(tid, []);
      HeadKnown(H(), paths, l);
      var cur := ptr[ListRef(l)];
      ghost var i := 0;
      while cur != 0
        invariant 0 <= i <= |paths[l]| && cur == (if i == |paths[l]| then 0 else paths[l][i])
        invariant i < |paths[l]| ==> cur != 0
        invariant forall j | 0 <= j < i :: View(l)[j].tid != tid
        decreases |paths[l]| - i
      {
        NodeKnown(H(), paths, l, i);
        ReadAt(H(), paths, l, i);
        if info[cur].tag.tid == tid {
          FirstIs(View(l), tid, i);
          return true, info[cur].tag;
        }
        NextKnown(H(), paths, l, i);
        if i + 1 < |paths[l]| {
          ReadAt(H(), paths, l, i + 1);
        }
        cur := ptr[NodeRef(cur)];
        i := i + 1;
      }
      FirstIs(View(l), tid, |paths[l]|);
    }

    /** Prepends a tag. */
    method Add(l: nat, tag: Tag)
      requires Valid() && l in paths
      modifies this
      ensures Valid() && l in paths && View(l) == [tag] + old(View(l)) && OnlyChanges(l)
    {
      hide Ok, Read;
      var n := top;
      PrependOk(H(), paths, l, n, tag);
      top := top + 1;
      info := info[n := Info(tag, 1)];
      ptr := ptr[NodeRef(n) := ptr[ListRef(l)]];
      ptr := ptr[ListRef(l) := n];
      paths := paths[l := [n] + paths[l]];
    }

    /** The copy constructor: a new list that reads what `o` reads. */
    method CopyOf(l: nat, o: nat)
      requires Valid() && l !in paths && o in paths
      modifies this
      ensures Valid() && l in paths && View(l) == old(View(o)) && paths[l] == old(paths[o]) && OnlyChanges(l)
    {
      hide Ok, Read;
      ghost var h0, p0 := H(), paths;
      NewListOk(H(), paths, l);
      ptr := ptr[ListRef(l) := 0];
      paths := paths[l := []];
      ghost var h1, p1 := H(), paths;
      JoinOk(H(), paths, l, o);
      HeadKnown(H(), paths, o);
      ptr := ptr[ListRef(l) := ptr[ListRef(o)]];
      if ptr[ListRef(l)] != 0 {
        var a := ptr[ListRef(l)];
        info := info[a := info[a].(count := info[a].count + 1)];
      }
      paths := paths[l := paths[o]];
      OthersReadTransitive(h0, p0, h1, p1, H(), paths, l);
    }

    /** Empties a list: nodes of its own are deleted, the first shared one loses a reference. */
    method RemoveAll(l: nat)
      requires Valid() && l in paths
      modifies this
      ensures Valid() && l in paths && View(l) == [] && paths == old(paths)[l := []] && OnlyChanges(l)
    {
      hide Ok, Read;
      hide Trails, OthersRead, Forget, UnlinkOwned, Leave;
      ghost var h0, p0 := H(), paths;
      HeadKnown(H(), paths, l);
      var prev := 0;
      var cur := ptr[ListRef(l)];
      ghost var head := cur;
      ghost var g := H();
      ghost var q: Paths := paths;
      OthersReadReflexive(g, q, l);
      TrailStart(g, l, head);
      while cur != 0
        invariant Ok(g, q) && l in q && q == p0[l := q[l]] && OthersRead(h0, p0, g, q, l)
        invariant ListRef(l) in g.ptr && g.ptr[ListRef(l)] == cur
        invariant Trails(H(), g, l, head, prev)
        invariant top == old(top) && forall a | a in info :: a < top
        decreases |q[l]|
      {
        HeadKnown(g, q, l);
        TrailHas(H(), g, l, head, prev, cur);
        ghost var h := H();
        info := info[cur := info[cur].(count := info[cur].count - 1)];
        if info[cur].count > 0 {
          LeaveStep(h0, p0, g, q, l);
          TrailLeave(h, g, l, head, prev);
          g, q := Leave(g, l), q[l := []];
          break;
        }
        OwnedStep(h0, p0, g, q, l);
        TrailStep(h, g, l, head, prev, cur);
        Drop(prev);
        g, q := UnlinkOwned(g, ListRef(l), cur), q[l := Cut(q[l], 0)];
        prev := cur;
        cur := ptr[NodeRef(cur)];
      }
      if cur == 0 {
        TrailEnd(H(), g, l, head, prev);
      }
      Drop(prev);
      ptr := ptr[ListRef(l) := 0];
      HeadKnown(g, q, l);
      paths := q;
    }

    /** Assignment: the list lets go of its own tags and joins those of `o`. */
    method Assign(l: nat, o: nat)
      requires Valid() && l in paths && o in paths
      modifies this
      ensures Valid() && l in paths && View(l) == old(View(o)) && paths[l] == old(paths[o]) && OnlyChanges(l)
    {
      hide Ok, Read;
      HeadKnown(H(), paths, l);
      HeadKnown(H(), paths, o);
      ghost var h0, p0 := H(), paths;
      if ptr[ListRef(l)] == ptr[ListRef(o)] {
        SameHead(H(), paths, l, o);
        OthersReadReflexive(H(), paths, l);
        return;
      }
      RemoveAll(l);
      ghost var h1, p1 := H(), paths;
      assert o in paths.Keys - {l};
      JoinOk(H(), paths, l, o);
      HeadKnown(H(), paths, o);
      ptr := ptr[ListRef(l) := ptr[ListRef(o)]];
      if ptr[ListRef(l)] != 0 {
        var a := ptr[ListRef(l)];
        info := info[a := info[a].(count := info[a].count + 1)];
      }
      paths := paths[l := paths[o]];
      OthersReadTransitive(h0, p0, h1, p1, H(), paths, l);
    }

    /** The destructor. */
    method Destroy(l: nat)
      requires Valid() && l in paths
      modifies this
      ensures Valid() && l !in paths && OnlyChanges(l)
    {
      hide Ok, Read;
      ghost var h0, p0 := H(), paths;
      RemoveAll(l);
      ghost var h1, p1 := H(), paths;
      EndListOk(H(), paths, l);
      ptr := ptr - {ListRef(l)};
      paths := paths - {l};
      OthersReadTransitive(h0, p0, h1, p1, H(), paths, l);
    }

    // ---------- the copy-on-write traversal ----------

    /** Walks to the first node of the type or the first shared node, whichever comes first. */
    method FindMerge(l: nat, tid: int) returns (prev: Ref, cur: nat, ghost i: nat)
      requires Valid() && l in paths
      ensures i <= |paths[l]| && prev == RefAt(l, paths[l], i)
      ensures cur == (if i == |paths[l]| then 0 else paths[l][i]) && (i < |paths[l]| ==> cur != 0 && cur in info)
      ensures OwnedUpTo(H(), paths, l, i) && forall j | 0 <= j < i :: View(l)[j].tid != tid
      ensures cur != 0 ==> info[cur].count > 1 || (info[cur].count == 1 && info[cur].tag.tid == tid)
    {
      hide Ok, Read;
      HeadKnown(H(), paths, l);
      prev, cur, i := ListRef(l), ptr[ListRef(l)], 0;
      while cur != 0
        invariant i <= |paths[l]| && prev == RefAt(l, paths[l], i)
        invariant cur == (if i == |paths[l]| then 0 else paths[l][i]) && (i < |paths[l]| ==> cur != 0 && cur in info)
        invariant OwnedUpTo(H(), paths, l, i) && forall j | 0 <= j < i :: View(l)[j].tid != tid
        decreases |paths[l]| - i
      {
        ReadAt(H(), paths, l, i);
        NextKnown(H(), paths, l, i);
        CountKnown(H(), paths, cur);
        if info[cur].count > 1 {
          return;
        } else if info[cur].tag.tid == tid {
          return;
        }
        if i + 1 < |paths[l]| {
          ReadAt(H(), paths, l, i + 1);
        }
        prev := NodeRef(cur);
        cur := ptr[NodeRef(cur)];
        i := i + 1;
      }
    }

    /** Whether the type occurs from position `i` on. */
    method Occurs(l: nat, tid: int, start: nat, ghost i: nat) returns (found: bool)
      requires Valid() && l in paths && i < |paths[l]| && start == paths[l][i]
      ensures found <==> exists j :: i <= j < |paths[l]| && View(l)[j].tid == tid
    {
      hide Ok, Read;
      ReadAt(H(), paths, l, i);
      var it := start;
      ghost var k := i;
      while it != 0
        invariant i <= k <= |paths[l]| && it == (if k == |paths[l]| then 0 else paths[l][k])
        invariant k < |paths[l]| ==> it != 0
        invariant forall j | i <= j < k :: View(l)[j].tid != tid
        decreases |paths[l]| - k
      {
        ReadAt(H(), paths, l, k);
        if info[it].tag.tid == tid {
          assert View(l)[k].tid == tid;
          return true;
        }
        NextKnown(H(), paths, l, k);
        if k + 1 < |paths[l]| {
          ReadAt(H(), paths, l, k + 1);
        }
        it := ptr[NodeRef(it)];
        k := k + 1;
      }
      found := false;
    }

    /** Gives cell `prev` a copy, with tag `t`, of the shared node behind it. */
    method CopyNode(l: nat, prev: Ref, cur: nat, t: Tag, ghost i: nat) returns (copy: nat)
      requires Valid() && l in paths && i < |paths[l]| && OwnedUpTo(H(), paths, l, i)
      requires prev == RefAt(l, paths[l], i) && cur == paths[l][i] && cur in info && info[cur].count >= 2
      modifies this
      ensures Valid() && l in paths && paths[l] == old(paths[l])[i := copy] && i < |paths[l]| && copy == paths[l][i]
      ensures OwnedUpTo(H(), paths, l, i + 1) && OnlyChanges(l)
      ensures View(l) == old(View(l))[i := t]
      ensures i + 1 < |paths[l]| ==> paths[l][i + 1] in info && info[paths[l][i + 1]].count >= 2
      ensures NodeRef(copy) in ptr && ptr[NodeRef(copy)] == if i + 1 == |paths[l]| then 0 else paths[l][i + 1]
    {
      hide Ok, Read, RefAt;
      CopySharedOk(H(), paths, l, i, top, t);
      NewIsUnknown(H(), paths, top);
      NextKnown(H(), paths, l, i);
      CurIsNotNext(H(), paths, l, i);
      if i + 1 < |paths[l]| {
        ReadAt(H(), paths, l, i + 1);
        CountKnown(H(), paths, paths[l][i + 1]);
      }
      info := info[cur := info[cur].(count := info[cur].count - 1)];
      copy := top;
      top := top + 1;
      info := info[copy := Info(t, 1)];
      var nx := ptr[NodeRef(cur)];
      ptr := ptr[NodeRef(copy) := nx];
      if nx != 0 {
        info := info[nx := info[nx].(count := info[nx].count + 1)];
      }
      ptr := ptr[prev := copy];
      paths := paths[l := PathWith(paths[l], i, copy)];
    }

    /** Copies shared nodes until the first node of the type is the next one; reads nothing different. */
    method CopyRun(l: nat, tid: int, prev0: Ref, cur0: nat, ghost i0: nat) returns (prev: Ref, cur: nat, ghost i: nat)
      requires Valid() && l in paths && i0 < |paths[l]| && OwnedUpTo(H(), paths, l, i0)
      requires prev0 == RefAt(l, paths[l], i0) && cur0 == paths[l][i0] && cur0 in info && info[cur0].count >= 2
      requires i0 <= FirstOf(View(l), tid) < |paths[l]|
      modifies this
      ensures Valid() && l in paths && View(l) == old(View(l)) && OnlyChanges(l)
      ensures i == FirstOf(View(l), tid) && i < |paths[l]| && OwnedUpTo(H(), paths, l, i)
      ensures prev == RefAt(l, paths[l], i) && cur == paths[l][i] && cur in info && info[cur].count >= 2
      ensures |paths[l]| == |old(paths[l])| && paths[l][..i0] == old(paths[l])[..i0] && paths[l][i..] == old(paths[l])[i..]
    {
      hide Ok, Read, OthersRead;
      ghost var h0, p0 := H(), paths;
      ghost var goal := FirstOf(View(l), tid);
      OthersReadReflexive(h0, p0, l);
      ReadAt(H(), paths, l, i0);
      prev, cur, i := prev0, cur0, i0;
      while info[cur].tag.tid != tid
        invariant Valid() && l in paths && i <= goal < |paths[l]| && OwnedUpTo(H(), paths, l, i)
        invariant prev == RefAt(l, paths[l], i) && cur == paths[l][i] && cur in info && info[cur].count >= 2
        invariant View(l) == old(View(l)) && View(l)[i] == info[cur].tag
        invariant OthersRead(h0, p0, H(), paths, l) && paths.Keys - {l} == p0.Keys - {l}
        invariant i0 <= i && |paths[l]| == |p0[l]|
        invariant paths[l][..i0] == p0[l][..i0] && paths[l][i..] == p0[l][i..]
        decreases goal - i
      {
        ghost var h1, p1 := H(), paths;
        var copy := CopyNode(l, prev, cur, info[cur].tag, i);
        KeepsEnds(p1[l], i0, i, copy);
        assert paths[l][i + 1..] == p0[l][i..][1..];
        OthersReadTransitive(h0, p0, h1, p1, H(), paths, l);
        prev := NodeRef(copy);
        cur := ptr[NodeRef(copy)];
        i := i + 1;
        ReadAt(H(), paths, l, i);
      }
      assert i == goal;
    }

    /**
     Finds the cell to write through.  If the type does not occur nothing changes; the nodes
     of its own before the first shared one and all nodes from the found one on stay as they
     are, and only shared nodes before the found one are copied.  Afterwards every node
     before the found one belongs to the list alone.
     */
    method Traverse(l: nat, tid: int) returns (found: bool, owned: bool, prev: Ref, cur: nat, ghost i: nat)
      requires Valid() && l in paths
      modifies this
      ensures Valid() && l in paths && View(l) == old(View(l)) && OnlyChanges(l)
      ensures i == FirstOf(View(l), tid) && found == (i < |paths[l]|)
      ensures found ==> prev == RefAt(l, paths[l], i) && cur == paths[l][i] && cur in info && OwnedUpTo(H(), paths, l, i)
      ensures found ==> if owned then info[cur].count == 1 else info[cur].count >= 2
      ensures !found || owned ==> H() == old(H()) && paths == old(paths) && top == old(top)
      ensures found ==> |paths[l]| == |old(paths[l])| && paths[l][i..] == old(paths[l])[i..]
      ensures forall k | 0 <= k <= i && old(OwnedUpTo(H(), paths, l, k)) :: paths[l][..k] == old(paths[l])[..k]
      ensures found ==> (owned <==> old(OwnedUpTo(H(), paths, l, i + 1)))
    {
      hide Ok, Read, OthersRead;
      OthersReadReflexive(H(), paths, l);
      prev, cur, i := FindMerge(l, tid);
      owned := false;
      if cur == 0 {
        FirstIs(View(l), tid, i);
        found := false;
        return;
      }
      ReadAt(H(), paths, l, i);
      if info[cur].count == 1 {
        FirstIs(View(l), tid, i);
        return true, true, prev, cur, i;
      }
      found := Occurs(l, tid, cur, i);
      if !found {
        FirstIs(View(l), tid, |paths[l]|);
        i := |paths[l]|;
        return;
      }
      assert i <= FirstOf(View(l), tid) < |paths[l]|;
      ghost var first, p0 := i, paths[l];
      assert forall k | 0 <= k <= |p0| && OwnedUpTo(H(), paths, l, k) :: k <= first;
      prev, cur, i := CopyRun(l, tid, prev, cur, i);
      forall k | 0 <= k <= first ensures paths[l][..k] == p0[..k] {
        assert paths[l][..first][..k] == paths[l][..k] && p0[..first][..k] == p0[..k];
      }
    }

    /** Removes the first tag of a type from this list only. */
    method Remove(l: nat, tid: int) returns (found: bool, tag: Tag)
      requires Valid() && l in paths
      modifies this
      ensures Valid() && l in paths && OnlyChanges(l)
      ensures var k := FirstOf(old(View(l)), tid);
              && found == (k < |old(View(l))|)
              && (if found then tag == old(View(l))[k] && View(l) == CutTags(old(View(l)), k) else View(l) == old(View(l)))
              && (if found then |paths[l]| == |old(paths[l])| - 1 && paths[l][k..] == old(paths[l])[k + 1..]
                  else H() == old(H()) && paths == old(paths))
    {
      hide Ok, Read, OthersRead;
      ghost var h0, p0 := H(), paths;
      tag := Tag(tid, []);
      var owned, prev, cur;
      ghost var i;
      found, owned, prev, cur, i := Traverse(l, tid);
      if !found {
        return;
      }
      ghost var h1, p1 := H(), paths;
      ReadAt(H(), paths, l, i);
      tag := info[cur].tag;
      NextKnown(H(), paths, l, i);
      CurIsNotNext(H(), paths, l, i);
      var nx := ptr[NodeRef(cur)];
      ptr := ptr[prev := nx];
      if owned {
        UnlinkOwnedOk(h1, p1, l, i);
        info := info - {cur};
        ptr := ptr - {NodeRef(cur)};
      } else {
        UnlinkSharedOk(h1, p1, l, i);
        info := info[cur := info[cur].(count := info[cur].count - 1)];
        if nx != 0 {
          info := info[nx := info[nx].(count := info[nx].count + 1)];
        }
      }
      paths := paths[l := Cut(paths[l], i)];
      OthersReadTransitive(h0, p0, h1, p1, H(), paths, l);
    }

    /** Replaces the first tag of the type on this list only, or adds the tag if there is none. */
    method Replace(l: nat, tag: Tag) returns (found: bool)
      requires Valid() && l in paths
      modifies this
      ensures Valid() && l in paths && OnlyChanges(l)
      ensures var k := FirstOf(old(View(l)), tag.tid);
              && found == (k < |old(View(l))|)
              && (found && old(OwnedUpTo(H(), paths, l, k + 1)) ==> top == old(top) && paths == old(paths))
              && View(l) == if found then old(View(l))[k := tag] else [tag] + old(View(l))
    {
      hide Ok, Read, OthersRead;
      ghost var h0, p0 := H(), paths;
      var owned, prev, cur;
      ghost var i;
      found, owned, prev, cur, i := Traverse(l, tag.tid);
      ghost var h1, p1 := H(), paths;
      if !found {
        Add(l, tag);
      } else if owned {
        RewriteOk(h1, p1, l, i, tag);
        info := info[cur := info[cur].(tag := tag)];
      } else {
        var copy := CopyNode(l, prev, cur, tag, i);
      }
      OthersReadTransitive(h0, p0, h1, p1, H(), paths, l);
    }

    /** Deletes a node, unless the pointer is null. */
    method Drop(a: nat)
      modifies this`ptr, this`info
      ensures H() == Forget(old(H()), a)
    {
      if a != 0 {
        info := info - {a};
        ptr := ptr - {NodeRef(a)};
      }
    }
  }

  lemma KeepsEnds(p: seq<nat>, i0: nat, i: nat, n: nat)
    requires i0 <= i < |p|
    ensures p[i := n][..i0] == p[..i0] && p[i := n][i + 1..] == p[i + 1..] && p[i..][1..] == p[i + 1..]
  {
  }

  lemma CountKnown(h: Heap, paths: Paths, a: nat)
    requires Ok(h, paths) && a in h.info
    ensures h.info[a].count >= 1
  {
  }

  function Forget(h: Heap, a: nat): (r: Heap)
    ensures forall x | x in r.info :: x in h.info
  {
    if a == 0 then h else Heap(h.ptr - {NodeRef(a)}, h.info - {a})
  }

  /** The rest of the list goes: the head is shared. */
  lemma LeaveStep(h0: Heap, p0: Paths, g: Heap, q: Paths, l: nat)
    requires Ok(h0, p0) && Ok(g, q) && l in q && OthersRead(h0, p0, g, q, l)
    requires ListRef(l) in g.ptr && g.ptr[ListRef(l)] in g.info && g.info[g.ptr[ListRef(l)]].count >= 2
    ensures Ok(Leave(g, l), q[l := []]) && OthersRead(h0, p0, Leave(g, l), q[l := []], l)
  {
    hide Ok, Read, OthersRead;
    HeadKnown(g, q, l);
    LeaveOk(g, q, l);
    OthersReadTransitive(h0, p0, g, q, Leave(g, l), q[l := []], l);
  }

  /** One more node of the list's own goes. */
  lemma OwnedStep(h0: Heap, p0: Paths, g: Heap, q: Paths, l: nat)
    requires Ok(h0, p0) && Ok(g, q) && l in q && OthersRead(h0, p0, g, q, l)
    requires ListRef(l) in g.ptr && g.ptr[ListRef(l)] in g.info && g.info[g.ptr[ListRef(l)]].count == 1
    ensures q[l] != [] && g.ptr[ListRef(l)] == q[l][0] && NodeRef(q[l][0]) in g.ptr
    ensures var r := UnlinkOwned(g, ListRef(l), q[l][0]);
            var after := q[l := Cut(q[l], 0)];
            && Ok(r, after) && OthersRead(h0, p0, r, after, l)
            && ListRef(l) in r.ptr && r.ptr[ListRef(l)] == Next(g, q[l][0])
  {
    hide Ok, Read, OthersRead;
    HeadKnown(g, q, l);
    UnlinkOwnedOk(g, q, l, 0);
    OthersReadTransitive(h0, p0, g, q, UnlinkOwned(g, ListRef(l), q[l][0]), q[l := Cut(q[l], 0)], l);
  }

  /**
   While a list is being emptied: the memory `h` still shows the old head and the node
   `prev` whose deletion is put off by one step; otherwise it is the heap `g`.
   */
  ghost predicate Trails(h: Heap, g: Heap, l: nat, head: nat, prev: nat) {
    && ListRef(l) in h.ptr && ListRef(l) in g.ptr
    && (prev == 0 ==> h == g && h.ptr[ListRef(l)] == head)
    && (prev != 0 ==> prev in h.info && prev !in g.info && NodeRef(prev) in h.ptr && NodeRef(prev) !in g.ptr)
    && (prev != 0 ==> h.info - {prev} == g.info && h.ptr - {NodeRef(prev)} == g.ptr[ListRef(l) := head])
  }

  lemma TrailHas(h: Heap, g: Heap, l: nat, head: nat, prev: nat, cur: nat)
    requires Trails(h, g, l, head, prev) && cur in g.info && cur != 0
    ensures cur in h.info && h.info[cur] == g.info[cur] && cur != prev
    ensures ListRef(l) in h.ptr
  {
    assert prev != 0 ==> cur in h.info - {prev};
  }

  lemma TrailStart(h: Heap, l: nat, head: nat)
    requires ListRef(l) in h.ptr && h.ptr[ListRef(l)] == head
    ensures Trails(h, h, l, head, 0)
  {
  }

  lemma TrailStep(h: Heap, g: Heap, l: nat, head: nat, prev: nat, cur: nat)
    requires Trails(h, g, l, head, prev) && cur != 0 && cur in h.info && cur != prev && h.info[cur].count >= 1
    requires cur in g.info && NodeRef(cur) in g.ptr
    ensures var r := Forget(h.(info := Unbump(h.info, cur)), prev);
            && Trails(r, UnlinkOwned(g, ListRef(l), cur), l, head, cur)
            && NodeRef(cur) in r.ptr && r.ptr[NodeRef(cur)] == Next(g, cur)
            && forall a | a in r.info :: a in h.info
  {
    var c := NodeRef(cur);
    if prev != 0 {
      assert c in h.ptr - {NodeRef(prev)};
      assert (h.ptr - {NodeRef(prev)})[c] == g.ptr[c];
      assert Unbump(h.info, cur) - {prev} == Unbump(g.info, cur);
    }
  }

  lemma TrailLeave(h: Heap, g: Heap, l: nat, head: nat, prev: nat)
    requires Trails(h, g, l, head, prev) && g.ptr[ListRef(l)] in g.info && g.ptr[ListRef(l)] in h.info
    requires g.ptr[ListRef(l)] != prev && g.info[g.ptr[ListRef(l)]].count >= 1
    requires h.info[g.ptr[ListRef(l)]] == g.info[g.ptr[ListRef(l)]]
    ensures var r := Forget(h.(info := Unbump(h.info, g.ptr[ListRef(l)])), prev);
            r.(ptr := r.ptr[ListRef(l) := 0]) == Leave(g, l)
  {
    var cur := g.ptr[ListRef(l)];
    if prev != 0 {
      assert Unbump(h.info, cur) - {prev} == Unbump(g.info, cur);
      assert (h.ptr - {NodeRef(prev)})[ListRef(l) := 0] == g.ptr[ListRef(l) := 0];
    }
  }

  lemma TrailEnd(h: Heap, g: Heap, l: nat, head: nat, prev: nat)
    requires Trails(h, g, l, head, prev) && g.ptr[ListRef(l)] == 0
    ensures var r := Forget(h, prev); r.(ptr := r.ptr[ListRef(l) := 0]) == g
  {
    if prev != 0 {
      assert (h.ptr - {NodeRef(prev)})[ListRef(l) := 0] == g.ptr;
    }
  }

  lemma OthersReadReflexive(h: Heap, paths: Paths, l: nat)
    requires Ok(h, paths)
    ensures OthersRead(h, paths, h, paths, l)
  {
  }
}
