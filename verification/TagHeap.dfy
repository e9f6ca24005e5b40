/**
 The memory of packet tag lists: pointer cells and reference-counted nodes.

 A pointer cell is the head of a list or the `next` field of a node.  Lists share nodes:
 following pointers from any list gives a finite path, and several paths may end in the
 same nodes.  A node's count is the number of cells that point to it.
 */
module TagHeap {
  datatype Ref = ListRef(id: nat) | NodeRef(addr: nat)

  datatype Tag = Tag(tid: int, data: seq<int>)

  datatype Info = Info(tag: Tag, count: nat)

  type Ptrs = map<Ref, nat>
  type Infos = map<nat, Info>
  type Paths = map<nat, seq<nat>>

  /** The cells that point to `a`. */
  ghost function Refs(ptr: Ptrs, a: nat): set<Ref> {
    set r | r in ptr && ptr[r] == a
  }

  /** Following pointers from `r` visits `p` and ends. */
  ghost predicate IsPath(ptr: Ptrs, r: Ref, p: seq<nat>)
    decreases p
  {
    r in ptr &&
    if p == [] then ptr[r] == 0
    else ptr[r] == p[0] && p[0] != 0 && IsPath(ptr, NodeRef(p[0]), p[1..])
  }

  /** The cell that leads to position `i` of a list's path. */
  function RefAt(l: nat, p: seq<nat>, i: nat): Ref
    requires i <= |p|
  {
    if i == 0 then ListRef(l) else NodeRef(p[i - 1])
  }

  ghost predicate Counted(ptr: Ptrs, info: Infos) {
    forall a | a in info :: info[a].count == |Refs(ptr, a)| >= 1
  }

  ghost predicate Closed(ptr: Ptrs, info: Infos) {
    && 0 !in info
    && (forall a :: a in info <==> NodeRef(a) in ptr)
    && (forall r | r in ptr :: ptr[r] == 0 || ptr[r] in info)
  }

  ghost predicate Walked(ptr: Ptrs, paths: Paths) {
    && (forall l :: l in paths <==> ListRef(l) in ptr)
    && (forall l | l in paths :: IsPath(ptr, ListRef(l), paths[l]))
  }

  ghost predicate Valid(ptr: Ptrs, info: Infos, paths: Paths) {
    Closed(ptr, info) && Counted(ptr, info) && Walked(ptr, paths)
  }

  /** What a list reads. */
  ghost function Contents(info: Infos, p: seq<nat>): (c: seq<Tag>)
    requires forall k | 0 <= k < |p| :: p[k] in info
    ensures |c| == |p| && forall k | 0 <= k < |p| :: c[k] == info[p[k]].tag
  {
    seq(|p|, k requires 0 <= k < |p| => info[p[k]].tag)
  }

  // ---------- paths ----------

  lemma {:induction false} PathAt(ptr: Ptrs, r: Ref, p: seq<nat>, k: nat)
    requires IsPath(ptr, r, p) && k <= |p|
    ensures var c := if k == 0 then r else NodeRef(p[k - 1]);
            c in ptr && IsPath(ptr, c, p[k..]) && ptr[c] == (if k == |p| then 0 else p[k])
    ensures k < |p| ==> p[k] != 0
    decreases p
  {
    if k > 0 {
      PathAt(ptr, NodeRef(p[0]), p[1..], k - 1);
      assert p[1..][k - 1..] == p[k..];
    } else {
      assert p[0..] == p;
    }
  }

  lemma {:induction false} PathUnique(ptr: Ptrs, r: Ref, p: seq<nat>, q: seq<nat>)
    requires IsPath(ptr, r, p) && IsPath(ptr, r, q)
    ensures p == q
    decreases p
  {
    if p != [] && q != [] {
      PathUnique(ptr, NodeRef(p[0]), p[1..], q[1..]);
      assert p == [p[0]] + p[1..] && q == [q[0]] + q[1..];
    }
  }

  /** No node occurs twice on a path. */
  lemma PathDistinct(ptr: Ptrs, r: Ref, p: seq<nat>, i: nat, j: nat)
    requires IsPath(ptr, r, p) && i < j < |p|
    ensures p[i] != p[j]
  {
    if p[i] == p[j] {
      PathAt(ptr, r, p, i + 1);
      PathAt(ptr, r, p, j + 1);
      PathUnique(ptr, NodeRef(p[i]), p[i + 1..], p[j + 1..]);
    }
  }

  ghost predicate SameCell(ptr: Ptrs, after: Ptrs, c: Ref) {
    c in ptr && c in after && after[c] == ptr[c]
  }

  /** A path depends only on the cells it goes through. */
  lemma {:induction false} PathFrame(ptr: Ptrs, after: Ptrs, r: Ref, p: seq<nat>)
    requires IsPath(ptr, r, p) && SameCell(ptr, after, r)
    requires forall k | 0 <= k < |p| :: SameCell(ptr, after, NodeRef(p[k]))
    ensures IsPath(after, r, p)
    decreases p
  {
    if p != [] {
      assert SameCell(ptr, after, NodeRef(p[0]));
      PathFrame(ptr, after, NodeRef(p[0]), p[1..]);
    }
  }

  /** A cell with the same value continues in the same way. */
  lemma PathAlias(ptr: Ptrs, after: Ptrs, r: Ref, c: Ref, p: seq<nat>)
    requires IsPath(ptr, r, p) && c in after && after[c] == ptr[r]
    requires forall k | 0 <= k < |p| :: SameCell(ptr, after, NodeRef(p[k]))
    ensures IsPath(after, c, p)
  {
    if p != [] {
      assert SameCell(ptr, after, NodeRef(p[0]));
      forall k | 0 <= k < |p[1..]| ensures SameCell(ptr, after, NodeRef(p[1..][k])) {
        assert p[1..][k] == p[k + 1];
      }
      PathFrame(ptr, after, NodeRef(p[0]), p[1..]);
    }
  }

  /** Joining: a path up to a cell, and a path from that cell on. */
  lemma {:induction false} PathJoin(ptr: Ptrs, after: Ptrs, r: Ref, p: seq<nat>, i: nat, q: seq<nat>)
    requires IsPath(ptr, r, p) && i <= |p|
    requires i > 0 ==> SameCell(ptr, after, r)
    requires forall k | 0 <= k < i - 1 :: SameCell(ptr, after, NodeRef(p[k]))
    requires IsPath(after, if i == 0 then r else NodeRef(p[i - 1]), q)
    ensures IsPath(after, r, p[..i] + q)
    decreases p
  {
    if i == 0 {
      assert p[..0] + q == q;
    } else {
      PathJoin(ptr, after, NodeRef(p[0]), p[1..], i - 1, q);
      assert p[..i] + q == [p[0]] + (p[1..][..i - 1] + q);
    }
  }

  lemma OnPath(ptr: Ptrs, info: Infos, paths: Paths, l: nat, k: nat)
    requires Valid(ptr, info, paths) && l in paths && k < |paths[l]|
    ensures paths[l][k] in info && NodeRef(paths[l][k]) in ptr
    ensures RefAt(l, paths[l], k) in Refs(ptr, paths[l][k])
    ensures ptr[NodeRef(paths[l][k])] == if k + 1 == |paths[l]| then 0 else paths[l][k + 1]
  {
    PathAt(ptr, ListRef(l), paths[l], k);
    PathAt(ptr, ListRef(l), paths[l], k + 1);
  }

  // ---------- ownership ----------

  lemma Singleton(s: set<Ref>, x: Ref, y: Ref)
    requires |s| == 1 && x in s && y in s
    ensures x == y
  {
    assert |s - {x}| == 0;
    assert y !in s - {x};
  }

  /** The nodes of a list before its first shared node are on no other list. */
  lemma {:induction false} Exclusive(ptr: Ptrs, info: Infos, paths: Paths, l: nat, i: nat, o: nat, k: nat)
    requires Valid(ptr, info, paths) && l in paths && o in paths && l != o
    requires i < |paths[l]| && k < |paths[o]|
    requires forall j | 0 <= j <= i :: paths[l][j] in info && info[paths[l][j]].count == 1
    ensures paths[o][k] != paths[l][i]
    decreases i
  {
    var a := paths[l][i];
    if paths[o][k] == a {
      OnPath(ptr, info, paths, l, i);
      OnPath(ptr, info, paths, o, k);
      Singleton(Refs(ptr, a), RefAt(l, paths[l], i), RefAt(o, paths[o], k));
      if i > 0 && k > 0 {
        Exclusive(ptr, info, paths, l, i - 1, o, k - 1);
      }
    }
  }

  /** The cell that leads to the first node that may be shared is on no other list's path. */
  lemma ExclusiveRef(ptr: Ptrs, info: Infos, paths: Paths, l: nat, i: nat, o: nat)
    requires Valid(ptr, info, paths) && l in paths && o in paths && l != o && i <= |paths[l]|
    requires forall j | 0 <= j < i :: paths[l][j] in info && info[paths[l][j]].count == 1
    ensures RefAt(l, paths[l], i) != ListRef(o)
    ensures forall k | 0 <= k < |paths[o]| :: RefAt(l, paths[l], i) != NodeRef(paths[o][k])
  {
    if i > 0 {
      forall k | 0 <= k < |paths[o]| ensures paths[o][k] != paths[l][i - 1] {
        Exclusive(ptr, info, paths, l, i - 1, o, k);
      }
    }
  }

  // ---------- counts ----------

  lemma Repoint(ptr: Ptrs, r: Ref, b: nat, x: nat)
    requires r in ptr
    ensures |Refs(ptr[r := b], x)| ==
            |Refs(ptr, x)| - (if x == ptr[r] then 1 else 0) + (if x == b then 1 else 0)
  {
    var after := ptr[r := b];
    if x == ptr[r] {
      assert Refs(ptr, x) == (Refs(ptr, x) - {r}) + {r};
    }
    if x == b {
      assert Refs(after, x) == (Refs(ptr, x) - {r}) + {r};
    } else {
      assert Refs(after, x) == Refs(ptr, x) - {r};
    }
  }

  lemma NewCell(ptr: Ptrs, r: Ref, b: nat, x: nat)
    requires r !in ptr
    ensures |Refs(ptr[r := b], x)| == |Refs(ptr, x)| + (if x == b then 1 else 0)
  {
    if x == b {
      assert Refs(ptr[r := b], x) == Refs(ptr, x) + {r};
    } else {
      assert Refs(ptr[r := b], x) == Refs(ptr, x);
    }
  }

  lemma DropCell(ptr: Ptrs, r: Ref, x: nat)
    requires r in ptr
    ensures |Refs(ptr - {r}, x)| == |Refs(ptr, x)| - (if x == ptr[r] then 1 else 0)
  {
    if x == ptr[r] {
      assert Refs(ptr, x) == Refs(ptr - {r}, x) + {r};
    } else {
      assert Refs(ptr - {r}, x) == Refs(ptr, x);
    }
  }
}
