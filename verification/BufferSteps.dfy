/**
 What the buffer operations do to the shared memory.  Each step keeps the bookkeeping in
 order and leaves every other window reading what it read.
 */
module BufferSteps {
  import opened BufferHeap

  /** The memory: windows, blocks, and for each block the zeros its dirty end counts. */
  datatype Mem = Mem(ws: Windows, bs: Blocks, slack: map<nat, nat>)

  ghost predicate MemOk(m: Mem) {
    Ok(m.ws, m.bs, m.slack)
  }

  ghost function See(m: Mem, i: nat): (s: seq<int>)
    requires MemOk(m) && i in m.ws
    ensures |s| == m.ws[i].end - m.ws[i].start
  {
    Read(m.ws, m.bs, m.slack, i)
  }

  ghost predicate OthersSee(m: Mem, r: Mem, i: nat)
    requires MemOk(m) && MemOk(r)
  {
    forall o | o in m.ws && o != i :: o in r.ws && See(r, o) == See(m, o)
  }

  ghost predicate OneOk(m: Mem, i: nat) {
    && i in m.ws && m.ws[i].block in m.bs && m.ws[i].block in m.slack
    && InBlock(m.ws[i], m.bs[m.ws[i].block]) && InDirty(m.ws[i], m.bs[m.ws[i].block], m.slack[m.ws[i].block])
  }

  lemma KnowWindow(m: Mem, i: nat)
    requires MemOk(m) && i in m.ws
    ensures OneOk(m, i) && m.bs[m.ws[i].block].count == |Users(m.ws, m.ws[i].block)| >= 1
    ensures See(m, i) == Shown(m.ws[i], m.bs[m.ws[i].block])
  {
  }

  /** Window `o` was and is in order, is the same, and has the same bytes. */
  ghost predicate Kept(m: Mem, r: Mem, o: nat) {
    && OneOk(m, o) && OneOk(r, o) && r.ws[o] == m.ws[o]
    && forall a | r.ws[o].start <= a < RealEnd(r.ws[o]) :: r.bs[r.ws[o].block].bytes[a] == m.bs[m.ws[o].block].bytes[a]
  }

  /** Enough to show that a memory is in order after a change to window `i`. */
  lemma ShowOk(m: Mem, r: Mem, i: nat)
    requires MemOk(m) && CountsOk(r.ws, r.bs) && (i in r.ws ==> OneOk(r, i))
    requires forall o | o in m.ws && o != i :: Kept(m, r, o)
    requires forall o | o in r.ws && o != i :: o in m.ws
    ensures MemOk(r) && OthersSee(m, r, i)
  {
    hide CountsOk;
    assert WindowsOk(r.ws, r.bs, r.slack) by {
      forall o | o in r.ws ensures OneOk(r, o) {
        if o != i {
          assert Kept(m, r, o);
        }
      }
    }
    hide WindowsOk;
    forall o | o in m.ws && o != i ensures o in r.ws && See(r, o) == See(m, o) {
      assert Kept(m, r, o);
      ShownSame(m.ws[o], m.bs[m.ws[o].block], r.bs[r.ws[o].block]);
    }
  }

  /** The others on the block of window `i`: there are some only if the block is shared. */
  lemma Sharers(m: Mem, i: nat, o: nat)
    requires MemOk(m) && i in m.ws && o in m.ws && o != i
    ensures OneOk(m, i) && OneOk(m, o)
    ensures m.ws[o].block == m.ws[i].block ==> m.bs[m.ws[i].block].count > 1
  {
    KnowWindow(m, i);
    if m.ws[o].block == m.ws[i].block && m.bs[m.ws[i].block].count == 1 {
      OnlyUser(m.ws, i, o, m.ws[i].block);
    }
  }

  /** Counts are right when only window `i` changed block. */
  lemma ShowCounts(m: Mem, i: nat, w: Window, bs: Blocks)
    requires MemOk(m) && i in m.ws && w.block == m.ws[i].block
    requires bs.Keys == m.bs.Keys && forall d | d in bs :: bs[d].count == m.bs[d].count
    ensures CountsOk(m.ws[i := w], bs)
  {
    forall d | d in bs ensures bs[d].count == |Users(m.ws[i := w], d)| >= 1 {
      UsersSet(m.ws, i, w, d);
    }
  }

  // ---------- a narrower window ----------

  ghost function SetWindow(m: Mem, i: nat, w: Window): Mem {
    m.(ws := m.ws[i := w])
  }

  lemma NarrowOk(m: Mem, i: nat, w: Window)
    requires MemOk(m) && i in m.ws && Ordered(w) && Ordered(m.ws[i]) && w.block == m.ws[i].block
    requires m.ws[i].start <= w.start && Zeros(w) <= Zeros(m.ws[i]) && RealEnd(w) <= RealEnd(m.ws[i])
    ensures MemOk(SetWindow(m, i, w)) && OthersSee(m, SetWindow(m, i, w), i)
  {
    hide MemOk, CountsOk;
    var r := SetWindow(m, i, w);
    KnowWindow(m, i);
    ShowCounts(m, i, w, m.bs);
    forall o | o in m.ws && o != i ensures Kept(m, r, o) {
      KnowWindow(m, o);
    }
    ShowOk(m, r, i);
  }

  // ---------- growing in place ----------

  ghost function GrowStart(m: Mem, i: nat, n: nat): Mem
    requires i in m.ws && m.ws[i].block in m.bs && n <= m.ws[i].start
  {
    var w := m.ws[i].(start := m.ws[i].start - n);
    Mem(m.ws[i := w], m.bs[w.block := m.bs[w.block].(dirtyStart := w.start)], m.slack)
  }

  lemma GrowStartOk(m: Mem, i: nat, n: nat)
    requires MemOk(m) && i in m.ws && m.ws[i].block in m.bs && n <= m.ws[i].start
    requires !(m.bs[m.ws[i].block].count > 1 && m.ws[i].start > m.bs[m.ws[i].block].dirtyStart)
    ensures MemOk(GrowStart(m, i, n)) && OthersSee(m, GrowStart(m, i, n), i)
    ensures See(GrowStart(m, i, n), i)[n..] == See(m, i)
    ensures forall a | m.ws[i].start - n <= a < m.ws[i].start :: Private(GrowStart(m, i, n).ws, i, a)
  {
    hide MemOk, CountsOk;
    var r := GrowStart(m, i, n);
    KnowWindow(m, i);
    ShowCounts(m, i, r.ws[i], r.bs);
    forall o | o in m.ws && o != i
      ensures Kept(m, r, o) && (m.ws[o].block == m.ws[i].block ==> m.ws[i].start <= m.ws[o].start)
    {
      Sharers(m, i, o);
    }
    ShowOk(m, r, i);
    GrowStartSees(m, i, n);
  }

  lemma GrowStartSees(m: Mem, i: nat, n: nat)
    requires MemOk(m) && i in m.ws && m.ws[i].block in m.bs && n <= m.ws[i].start && MemOk(GrowStart(m, i, n))
    ensures See(GrowStart(m, i, n), i)[n..] == See(m, i)
  {
    var r := GrowStart(m, i, n);
    KnowWindow(m, i);
    KnowWindow(r, i);
    var b := m.bs[m.ws[i].block].bytes;
    var w := m.ws[i];
    assert b[w.start - n..w.zs][n..] == b[w.start..w.zs];
  }

  ghost function GrowEnd(m: Mem, i: nat, n: nat): Mem
    requires i in m.ws && m.ws[i].block in m.bs && Ordered(m.ws[i])
  {
    var w := m.ws[i].(end := m.ws[i].end + n);
    var b := m.bs[w.block];
    Mem(m.ws[i := w], m.bs[w.block := b.(dirtyEnd := w.end)],
        if b.count > 1 then m.slack else m.slack[w.block := Zeros(w)])
  }

  lemma GrowEndOk(m: Mem, i: nat, n: nat)
    requires MemOk(m) && i in m.ws && m.ws[i].block in m.bs && Ordered(m.ws[i])
    requires RealEnd(m.ws[i]) + n <= |m.bs[m.ws[i].block].bytes|
    requires !(m.bs[m.ws[i].block].count > 1 && m.ws[i].end < m.bs[m.ws[i].block].dirtyEnd)
    ensures MemOk(GrowEnd(m, i, n)) && OthersSee(m, GrowEnd(m, i, n), i)
    ensures See(GrowEnd(m, i, n), i)[..m.ws[i].end - m.ws[i].start] == See(m, i)
    ensures forall a | RealEnd(m.ws[i]) <= a < RealEnd(m.ws[i]) + n :: Private(GrowEnd(m, i, n).ws, i, a)
  {
    hide MemOk, CountsOk;
    var r := GrowEnd(m, i, n);
    KnowWindow(m, i);
    ShowCounts(m, i, r.ws[i], r.bs);
    forall o | o in m.ws && o != i
      ensures Kept(m, r, o) && (m.ws[o].block == m.ws[i].block ==> RealEnd(m.ws[o]) <= RealEnd(m.ws[i]))
    {
      Sharers(m, i, o);
    }
    ShowOk(m, r, i);
    GrowEndSees(m, i, n);
  }

  lemma GrowEndSees(m: Mem, i: nat, n: nat)
    requires MemOk(m) && i in m.ws && m.ws[i].block in m.bs && Ordered(m.ws[i]) && MemOk(GrowEnd(m, i, n))
    ensures See(GrowEnd(m, i, n), i)[..m.ws[i].end - m.ws[i].start] == See(m, i)
  {
    var r := GrowEnd(m, i, n);
    KnowWindow(m, i);
    KnowWindow(r, i);
    var b := m.bs[m.ws[i].block].bytes;
    var w := m.ws[i];
    assert b[w.zs..RealEnd(w) + n][..RealEnd(w) - w.zs] == b[w.zs..RealEnd(w)];
  }

  // ---------- letting go of a block and taking another ----------

  ghost function Release(bs: Blocks, d: nat): Blocks
    requires d in bs && bs[d].count >= 1
  {
    if bs[d].count == 1 then bs - {d} else bs[d := bs[d].(count := bs[d].count - 1)]
  }

  /** Window `i` moves to a new block. */
  ghost function Move(m: Mem, i: nat, w: Window, b: Block): Mem
    requires i in m.ws && m.ws[i].block in m.bs && m.bs[m.ws[i].block].count >= 1 && Ordered(w)
  {
    Mem(m.ws[i := w], Release(m.bs, m.ws[i].block)[w.block := b], m.slack[w.block := Zeros(w)])
  }

  lemma MoveOk(m: Mem, i: nat, w: Window, b: Block)
    requires MemOk(m) && i in m.ws && m.ws[i].block in m.bs && m.bs[m.ws[i].block].count >= 1
    requires w.block !in m.bs && InBlock(w, b) && b.count == 1 && b.dirtyStart == w.start && b.dirtyEnd == w.end
    ensures MemOk(Move(m, i, w, b)) && OthersSee(m, Move(m, i, w, b), i)
    ensures forall a :: Private(Move(m, i, w, b).ws, i, a)
  {
    hide MemOk, CountsOk;
    var r := Move(m, i, w, b);
    KnowWindow(m, i);
    MoveCounts(m, i, w, b);
    forall o | o in m.ws && o != i ensures Kept(m, r, o) {
      Sharers(m, i, o);
    }
    ShowOk(m, r, i);
  }

  lemma MoveCounts(m: Mem, i: nat, w: Window, b: Block)
    requires MemOk(m) && i in m.ws && m.ws[i].block in m.bs && m.bs[m.ws[i].block].count >= 1
    requires w.block !in m.bs && Ordered(w) && b.count == 1
    ensures CountsOk(Move(m, i, w, b).ws, Move(m, i, w, b).bs)
  {
    var r := Move(m, i, w, b);
    forall e | e in r.bs ensures r.bs[e].count == |Users(r.ws, e)| >= 1 {
      UsersSet(m.ws, i, w, e);
      if e == w.block {
        assert Users(m.ws, e) == {};
      }
    }
  }

  /** Window `i`, new or on another block, becomes a copy of window `o`. */
  ghost function Share(m: Mem, i: nat, o: nat): Mem
    requires o in m.ws && m.ws[o].block in m.bs
  {
    var d := m.ws[o].block;
    Mem(m.ws[i := m.ws[o]], m.bs[d := m.bs[d].(count := m.bs[d].count + 1)], m.slack)
  }

  lemma ShareOk(m: Mem, i: nat, o: nat)
    requires MemOk(m) && i !in m.ws && o in m.ws
    ensures m.ws[o].block in m.bs
    ensures MemOk(Share(m, i, o)) && See(Share(m, i, o), i) == See(m, o) && OthersSee(m, Share(m, i, o), i)
  {
    hide MemOk, CountsOk;
    KnowWindow(m, o);
    var r := Share(m, i, o);
    ShareCounts(m, i, o);
    forall x | x in m.ws ensures Kept(m, r, x) {
      KnowWindow(m, x);
    }
    ShowOk(m, r, i);
    KnowWindow(r, i);
    ShownSame(m.ws[o], m.bs[m.ws[o].block], r.bs[m.ws[o].block]);
  }

  lemma ShareCounts(m: Mem, i: nat, o: nat)
    requires MemOk(m) && i !in m.ws && o in m.ws && m.ws[o].block in m.bs
    ensures CountsOk(Share(m, i, o).ws, Share(m, i, o).bs)
  {
    var r := Share(m, i, o);
    forall e | e in r.bs ensures r.bs[e].count == |Users(r.ws, e)| >= 1 {
      UsersSet(m.ws, i, m.ws[o], e);
    }
  }

  ghost function Drop(m: Mem, i: nat): Mem
    requires i in m.ws && m.ws[i].block in m.bs && m.bs[m.ws[i].block].count >= 1
  {
    Mem(m.ws - {i}, Release(m.bs, m.ws[i].block), m.slack)
  }

  lemma DropOk(m: Mem, i: nat)
    requires MemOk(m) && i in m.ws
    ensures m.ws[i].block in m.bs && m.bs[m.ws[i].block].count >= 1
    ensures MemOk(Drop(m, i)) && OthersSee(m, Drop(m, i), i)
  {
    hide MemOk, CountsOk;
    KnowWindow(m, i);
    var r := Drop(m, i);
    DropCounts(m, i);
    forall o | o in m.ws && o != i ensures Kept(m, r, o) {
      Sharers(m, i, o);
    }
    ShowOk(m, r, i);
  }

  lemma DropCounts(m: Mem, i: nat)
    requires MemOk(m) && i in m.ws && m.ws[i].block in m.bs && m.bs[m.ws[i].block].count >= 1
    ensures CountsOk(Drop(m, i).ws, Drop(m, i).bs)
  {
    var r := Drop(m, i);
    forall e | e in r.bs ensures r.bs[e].count == |Users(r.ws, e)| >= 1 {
      UsersDrop(m.ws, i, e);
    }
  }

  // ---------- writing a byte ----------

  ghost function Poke(m: Mem, i: nat, a: nat, v: int): Mem
    requires i in m.ws && m.ws[i].block in m.bs && a < |m.bs[m.ws[i].block].bytes|
  {
    var b := m.bs[m.ws[i].block];
    m.(bs := m.bs[m.ws[i].block := b.(bytes := b.bytes[a := v])])
  }

  lemma PokeOk(m: Mem, i: nat, k: nat, v: int)
    requires MemOk(m) && i in m.ws && Ordered(m.ws[i]) && k < m.ws[i].end - m.ws[i].start
    requires Address(m.ws[i], k) != -1 && Private(m.ws, i, Address(m.ws[i], k))
    ensures m.ws[i].block in m.bs && 0 <= Address(m.ws[i], k) < |m.bs[m.ws[i].block].bytes|
    ensures var r := Poke(m, i, Address(m.ws[i], k), v);
            MemOk(r) && See(r, i) == See(m, i)[k := v] && OthersSee(m, r, i)
  {
    hide MemOk, CountsOk, Shown;
    KnowWindow(m, i);
    var w, d := m.ws[i], m.ws[i].block;
    ShownAt(w, m.bs[d], k);
    var a := Address(w, k);
    var r := Poke(m, i, a, v);
    ShowCounts(m, i, w, r.bs);
    assert r.ws == m.ws[i := w];
    forall o | o in m.ws && o != i ensures Kept(m, r, o) {
      Sharers(m, i, o);
    }
    ShowOk(m, r, i);
    KnowWindow(r, i);
    PokeSees(w, m.bs[d], r.bs[d], k, v);
  }

  lemma PokeMemOk(m: Mem, i: nat, a: nat, v: int)
    requires MemOk(m) && i in m.ws && m.ws[i].block in m.bs && a < |m.bs[m.ws[i].block].bytes|
    ensures MemOk(Poke(m, i, a, v))
  {
    var r := Poke(m, i, a, v);
    forall o | o in r.ws ensures OneOk(r, o) {
      KnowWindow(m, o);
    }
    hide Users;
    assert CountsOk(r.ws, r.bs);
  }

  /** The position at which a window shows address `a`. */
  function PositionOf(w: Window, a: nat): (k: nat)
    requires Ordered(w) && w.start <= a < RealEnd(w)
    ensures k < w.end - w.start && Address(w, k) == a
  {
    if a < w.zs then a - w.start else a + Zeros(w) - w.start
  }

  /** Another window that shows the byte sees the write, unless it changes nothing. */
  lemma PokeSeenBy(m: Mem, i: nat, a: nat, v: int, o: nat)
    requires MemOk(m) && i in m.ws && m.ws[i].block in m.bs && a < |m.bs[m.ws[i].block].bytes|
    requires o in m.ws && m.ws[o].block == m.ws[i].block && Ordered(m.ws[o]) && m.ws[o].start <= a < RealEnd(m.ws[o])
    requires MemOk(Poke(m, i, a, v)) && v != m.bs[m.ws[i].block].bytes[a]
    ensures See(Poke(m, i, a, v), o) != See(m, o)
  {
    hide MemOk, Shown;
    var r := Poke(m, i, a, v);
    KnowWindow(m, o);
    KnowWindow(r, o);
    var w, d := m.ws[o], m.ws[o].block;
    var j := PositionOf(w, a);
    ShownAt(w, m.bs[d], j);
    ShownAt(w, r.bs[d], j);
    assert See(r, o)[j] != See(m, o)[j];
  }

  /** A write to a stored byte: who sees it. */
  lemma PokeSeen(m: Mem, i: nat, k: nat, v: int)
    requires MemOk(m) && i in m.ws && Ordered(m.ws[i]) && k < m.ws[i].end - m.ws[i].start
    requires Address(m.ws[i], k) != -1
    ensures m.ws[i].block in m.bs && 0 <= Address(m.ws[i], k) < |m.bs[m.ws[i].block].bytes|
    ensures var r := Poke(m, i, Address(m.ws[i], k), v);
            && MemOk(r) && See(r, i) == See(m, i)[k := v]
            && (OthersSee(m, r, i) <==> Private(m.ws, i, Address(m.ws[i], k)) || See(m, i)[k] == v)
  {
    hide MemOk, Shown, Private;
    KnowWindow(m, i);
    var w, b := m.ws[i], m.bs[m.ws[i].block];
    ShownAt(w, b, k);
    var a := Address(w, k);
    var r := Poke(m, i, a, v);
    PokeMemOk(m, i, a, v);
    KnowWindow(r, i);
    PokeSees(w, b, r.bs[w.block], k, v);
    if Private(m.ws, i, a) {
      PokeOk(m, i, k, v);
    } else if See(m, i)[k] == v {
      assert b.bytes[a := v] == b.bytes;
      assert r == m;
    } else {
      var o := Witness(m, i, a);
      PokeSeenBy(m, i, a, v, o);
    }
  }

  /** Two buffers on one block of one byte: what the first writes the second reads. */
  lemma SharedWriteIsSeen()
    ensures var w := Window(0, 0, 1, 1, 1);
            var m := Mem(map[0 := w, 1 := w], map[0 := Block([5], 2, 0, 1)], map[0 := 0]);
            && MemOk(m) && See(m, 1) == [5]
            && MemOk(Poke(m, 0, 0, 6)) && See(Poke(m, 0, 0, 6), 1) == [6]
  {
    var w := Window(0, 0, 1, 1, 1);
    var m := Mem(map[0 := w, 1 := w], map[0 := Block([5], 2, 0, 1)], map[0 := 0]);
    assert Users(m.ws, 0) == {0, 1};
    PokeMemOk(m, 0, 0, 6);
  }

  lemma Witness(m: Mem, i: nat, a: int) returns (o: nat)
    requires i in m.ws && !Private(m.ws, i, a)
    ensures o in m.ws && o != i && m.ws[o].block == m.ws[i].block && Ordered(m.ws[o])
    ensures m.ws[o].start <= a < RealEnd(m.ws[o])
  {
    o :| o in m.ws && o != i && m.ws[o].block == m.ws[i].block && Ordered(m.ws[o]) &&
         m.ws[o].start <= a < RealEnd(m.ws[o]);
  }

  lemma PokeSees(w: Window, b: Block, c: Block, k: nat, v: int)
    requires InBlock(w, b) && InBlock(w, c) && k < w.end - w.start && Address(w, k) != -1
    requires 0 <= Address(w, k) < |b.bytes| && c.bytes == b.bytes[Address(w, k) := v]
    ensures Shown(w, c) == Shown(w, b)[k := v]
  {
    hide Shown;
    forall j | 0 <= j < w.end - w.start ensures Shown(w, c)[j] == Shown(w, b)[k := v][j] {
      ShownAt(w, b, j);
      ShownAt(w, c, j);
    }
  }

  // ---------- a new window on a new block ----------

  ghost function Open(m: Mem, i: nat, w: Window, b: Block): Mem
    requires Ordered(w)
  {
    Mem(m.ws[i := w], m.bs[w.block := b], m.slack[w.block := Zeros(w)])
  }

  lemma OpenOk(m: Mem, i: nat, w: Window, b: Block)
    requires MemOk(m) && i !in m.ws && w.block !in m.bs
    requires InBlock(w, b) && b.count == 1 && b.dirtyStart == w.start && b.dirtyEnd == w.end
    ensures MemOk(Open(m, i, w, b)) && OthersSee(m, Open(m, i, w, b), i)
    ensures See(Open(m, i, w, b), i) == Shown(w, b)
    ensures forall a :: Private(Open(m, i, w, b).ws, i, a)
  {
    hide MemOk, CountsOk;
    var r := Open(m, i, w, b);
    OpenCounts(m, i, w, b);
    forall o | o in m.ws ensures Kept(m, r, o) {
      KnowWindow(m, o);
    }
    ShowOk(m, r, i);
    KnowWindow(r, i);
  }

  lemma OpenCounts(m: Mem, i: nat, w: Window, b: Block)
    requires MemOk(m) && i !in m.ws && w.block !in m.bs && Ordered(w) && b.count == 1
    ensures CountsOk(Open(m, i, w, b).ws, Open(m, i, w, b).bs)
  {
    var r := Open(m, i, w, b);
    forall e | e in r.bs ensures r.bs[e].count == |Users(r.ws, e)| >= 1 {
      UsersSet(m.ws, i, w, e);
      if e == w.block {
        assert Users(m.ws, e) == {};
      }
    }
  }

  lemma OthersSeeTransitive(m: Mem, n: Mem, r: Mem, i: nat)
    requires MemOk(m) && MemOk(n) && MemOk(r) && OthersSee(m, n, i) && OthersSee(n, r, i)
    ensures OthersSee(m, r, i)
  {
    hide MemOk, See;
  }

  /** A window takes over the place of another window on the same block. */
  lemma SameBlockOk(m: Mem, i: nat, o: nat)
    requires MemOk(m) && i in m.ws && o in m.ws && m.ws[i].block == m.ws[o].block
    ensures var r := SetWindow(m, i, m.ws[o]);
            MemOk(r) && See(r, i) == See(m, o) && OthersSee(m, r, i)
  {
    hide MemOk, CountsOk;
    var r := SetWindow(m, i, m.ws[o]);
    KnowWindow(m, o);
    ShowCounts(m, i, m.ws[o], m.bs);
    forall x | x in m.ws && x != i ensures Kept(m, r, x) {
      KnowWindow(m, x);
    }
    ShowOk(m, r, i);
    KnowWindow(r, i);
  }

  lemma ReplaceOk(m: Mem, i: nat, o: nat)
    requires MemOk(m) && i in m.ws && o in m.ws && m.ws[i].block != m.ws[o].block
    ensures m.ws[i].block in m.bs && m.bs[m.ws[i].block].count >= 1 && o in Drop(m, i).ws && m.ws[o].block in Drop(m, i).bs
    ensures var r := Share(Drop(m, i), i, o);
            MemOk(r) && See(r, i) == See(m, o) && OthersSee(m, r, i)
  {
    hide MemOk, See;
    DropOk(m, i);
    ShareOk(Drop(m, i), i, o);
    OthersSeeTransitive(m, Drop(m, i), Share(Drop(m, i), i, o), i);
  }
}
