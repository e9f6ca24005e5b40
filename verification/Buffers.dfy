/**
 Packet buffers as the source runs them.  Adding and removing at either end is prepending,
 appending and dropping on plain byte sequences, whatever the virtual zero area is and
 whoever else looks at the same block; bytes that were just added belong to one buffer only.
 */
module Buffers {
  import opened BufferHeap
  import opened BufferSteps

  /** Sizes are 32-bit words. */
  const TWO32: nat := 0x1_0000_0000

  function Min(a: nat, b: nat): nat {
    if a < b then a else b
  }

  // ---------- dropping from a window ----------

  /** The four cases of moving the start to `s`. */
  function DropTo(w: Window, s: nat): (r: Window)
    requires Ordered(w)
    ensures Ordered(r) && r.block == w.block
  {
    if s <= w.zs then w.(start := s)
    else if s <= w.ze then
      var delta := s - w.zs;
      w.(start := w.zs, ze := w.ze - delta, end := w.end - delta)
    else if s <= w.end then
      var z := w.ze - w.zs;
      Window(w.block, s - z, s - z, s - z, w.end - z)
    else
      var e := w.end - (w.ze - w.zs);
      Window(w.block, e, e, e, e)
  }

  /** Removing at the start, in unbounded arithmetic and in 32-bit words. */
  function DropStart(w: Window, n: nat): (r: Window)
    requires Ordered(w)
    ensures Ordered(r) && r.block == w.block
  {
    DropTo(w, w.start + n)
  }

  function DropStartWord(w: Window, n: nat): (r: Window)
    requires Ordered(w)
    ensures Ordered(r) && r.block == w.block
  {
    DropTo(w, (w.start + n) % TWO32)
  }

  /** A removal leaves the size less the bytes removed if and only if the sum of start and count does not wrap. */
  lemma DropIsExact(w: Window, n: nat)
    requires Ordered(w) && w.start < TWO32 && n < TWO32
    ensures w.start + n < TWO32 ==> DropStartWord(w, n) == DropStart(w, n)
    ensures var r := DropStartWord(w, n);
            r.end - r.start == w.end - w.start - Min(n, w.end - w.start) <==> w.start + n < TWO32
  {
    hide DropTo;
    WordSum(w.start, n);
    DropSize(w, (w.start + n) % TWO32);
  }

  lemma NoWrap(a: nat)
    requires a < TWO32
    ensures a % TWO32 == a
  {
  }

  lemma WordSum(a: nat, b: nat)
    requires a < TWO32 && b < TWO32
    ensures (a + b) % TWO32 == if a + b < TWO32 then a + b else a + b - TWO32
  {
  }

  /** A start that moves on drops what it passes; one that moves back makes the window longer. */
  lemma DropSize(w: Window, s: nat)
    requires Ordered(w)
    ensures var r := DropTo(w, s);
            if s < w.start then r.end - r.start > w.end - w.start
            else r.end - r.start == w.end - w.start - Min(s - w.start, w.end - w.start)
  {
  }

  /** What is left is stored where it was. */
  lemma DropStartPlace(w: Window, n: nat)
    requires Ordered(w)
    ensures var r := DropStart(w, n);
            var k := Min(n, w.end - w.start);
            && w.start <= r.start && Zeros(r) <= Zeros(w) && RealEnd(r) <= RealEnd(w)
            && r.end - r.start == w.end - w.start - k
            && forall j | 0 <= j < r.end - r.start :: Address(r, j) == Address(w, k + j)
  {
  }

  lemma DropStartOk(w: Window, b: Block, n: nat)
    requires InBlock(w, b)
    ensures var r := DropStart(w, n);
            && InBlock(r, b) && w.start <= r.start && Zeros(r) <= Zeros(w) && RealEnd(r) <= RealEnd(w)
            && Shown(r, b) == Shown(w, b)[Min(n, w.end - w.start)..]
  {
    hide Shown, DropStart, Address;
    DropStartPlace(w, n);
    var r := DropStart(w, n);
    var k := Min(n, w.end - w.start);
    forall j | 0 <= j < r.end - r.start ensures Shown(r, b)[j] == Shown(w, b)[k + j] {
      ShownAt(r, b, j);
      ShownAt(w, b, k + j);
    }
  }

  /** The four cases of removing at the end. */
  function DropEnd(w: Window, n: nat): (r: Window)
    requires Ordered(w)
    ensures Ordered(r) && r.block == w.block
  {
    var e := w.end - Min(n, w.end - w.start);
    if e > w.ze then w.(end := e)
    else if e > w.zs then w.(end := e, ze := e)
    else if e > w.start then w.(end := e, ze := e, zs := e)
    else w.(end := w.start, ze := w.start, zs := w.start)
  }

  lemma DropEndOk(w: Window, b: Block, n: nat)
    requires InBlock(w, b)
    ensures var r := DropEnd(w, n);
            && InBlock(r, b) && w.start <= r.start && Zeros(r) <= Zeros(w) && RealEnd(r) <= RealEnd(w)
            && Shown(r, b) == Shown(w, b)[..(w.end - w.start) - Min(n, w.end - w.start)]
  {
    hide Shown;
    var r := DropEnd(w, n);
    forall j | 0 <= j < r.end - r.start ensures Shown(r, b)[j] == Shown(w, b)[j] {
      ShownAt(r, b, j);
      ShownAt(w, b, j);
    }
  }

  lemma RemoveStartStep(m: Mem, i: nat, n: nat)
    requires MemOk(m) && i in m.ws
    ensures Ordered(m.ws[i])
    ensures var r := SetWindow(m, i, DropStart(m.ws[i], n));
            MemOk(r) && OthersSee(m, r, i) && See(r, i) == See(m, i)[Min(n, |See(m, i)|)..]
  {
    hide MemOk, Shown, DropStart;
    KnowWindow(m, i);
    DropStartOk(m.ws[i], m.bs[m.ws[i].block], n);
    NarrowOk(m, i, DropStart(m.ws[i], n));
    KnowWindow(SetWindow(m, i, DropStart(m.ws[i], n)), i);
  }

  lemma RemoveEndStep(m: Mem, i: nat, n: nat)
    requires MemOk(m) && i in m.ws
    ensures Ordered(m.ws[i])
    ensures var r := SetWindow(m, i, DropEnd(m.ws[i], n));
            MemOk(r) && OthersSee(m, r, i) && See(r, i) == See(m, i)[..|See(m, i)| - Min(n, |See(m, i)|)]
  {
    hide MemOk, Shown, DropEnd;
    KnowWindow(m, i);
    DropEndOk(m.ws[i], m.bs[m.ws[i].block], n);
    NarrowOk(m, i, DropEnd(m.ws[i], n));
    KnowWindow(SetWindow(m, i, DropEnd(m.ws[i], n)), i);
  }

  // ---------- adding to a window ----------

  /** Position `k` of window `i` is a stored byte that no other window shows. */
  ghost predicate Own(m: Mem, i: nat, k: nat)
    requires i in m.ws && Ordered(m.ws[i]) && k < m.ws[i].end - m.ws[i].start
  {
    Address(m.ws[i], k) != -1 && Private(m.ws, i, Address(m.ws[i], k))
  }

  /** `r` shows `n` more bytes of window `i` at the start, all its own, and is otherwise as `m`. */
  ghost predicate AddedStart(m: Mem, r: Mem, i: nat, n: nat)
    requires MemOk(m) && MemOk(r) && i in m.ws
  {
    && i in r.ws && OthersSee(m, r, i) && Ordered(r.ws[i])
    && Ordered(m.ws[i]) && Zeros(r.ws[i]) == Zeros(m.ws[i])
    && |See(r, i)| == n + |See(m, i)| && See(r, i)[n..] == See(m, i)
    && forall k | 0 <= k < n :: Own(r, i, k)
  }

  ghost predicate AddedEnd(m: Mem, r: Mem, i: nat, n: nat)
    requires MemOk(m) && MemOk(r) && i in m.ws
  {
    && i in r.ws && OthersSee(m, r, i) && Ordered(r.ws[i])
    && Ordered(m.ws[i]) && Zeros(r.ws[i]) == Zeros(m.ws[i])
    && |See(r, i)| == |See(m, i)| + n && See(r, i)[..|See(m, i)|] == See(m, i)
    && forall k | |See(m, i)| <= k < |See(r, i)| :: Own(r, i, k)
  }

  /** There is room in front of the window, and it is the window's to take: nobody shares the block or reaches further. */
  ghost predicate RoomInFront(m: Mem, i: nat, n: nat)
    requires i in m.ws
  {
    && m.ws[i].block in m.bs && n <= m.ws[i].start
    && (m.bs[m.ws[i].block].count == 1 || m.ws[i].start == m.bs[m.ws[i].block].dirtyStart)
  }

  ghost predicate RoomBehind(m: Mem, i: nat, n: nat)
    requires i in m.ws && Ordered(m.ws[i])
  {
    && m.ws[i].block in m.bs && RealEnd(m.ws[i]) + n <= |m.bs[m.ws[i].block].bytes|
    && (m.bs[m.ws[i].block].count == 1 || m.ws[i].end == m.bs[m.ws[i].block].dirtyEnd)
  }

  lemma AddStartInPlace(m: Mem, i: nat, n: nat)
    requires MemOk(m) && i in m.ws && m.ws[i].block in m.bs && n <= m.ws[i].start
    requires !(m.bs[m.ws[i].block].count > 1 && m.ws[i].start > m.bs[m.ws[i].block].dirtyStart)
    ensures MemOk(GrowStart(m, i, n)) && AddedStart(m, GrowStart(m, i, n), i, n)
  {
    hide MemOk, See, Private;
    GrowStartOk(m, i, n);
    KnowWindow(m, i);
    var w := GrowStart(m, i, n).ws[i];
    forall k | 0 <= k < n ensures Own(GrowStart(m, i, n), i, k) {
      var a := w.start + k;
      assert Private(GrowStart(m, i, n).ws, i, a);
    }
  }

  lemma GrewStart(m: Mem, r: Mem, i: nat, n: nat)
    requires i in m.ws && m.ws[i].block in m.bs && n <= m.ws[i].start
    requires r.ws == m.ws[i := m.ws[i].(start := m.ws[i].start - n)] && r.slack == m.slack
    requires r.bs == m.bs[m.ws[i].block := m.bs[m.ws[i].block].(dirtyStart := m.ws[i].start - n)]
    ensures r == GrowStart(m, i, n)
  {
  }

  lemma GrewEnd(m: Mem, r: Mem, i: nat, n: nat)
    requires i in m.ws && m.ws[i].block in m.bs && Ordered(m.ws[i])
    requires var w := m.ws[i].(end := m.ws[i].end + n);
             && r.ws == m.ws[i := w]
             && r.bs == m.bs[w.block := m.bs[w.block].(dirtyEnd := w.end)]
             && r.slack == (if m.bs[w.block].count > 1 then m.slack else m.slack[w.block := Zeros(w)])
    ensures r == GrowEnd(m, i, n)
  {
  }

  lemma AddEndInPlace(m: Mem, i: nat, n: nat)
    requires MemOk(m) && i in m.ws && m.ws[i].block in m.bs && Ordered(m.ws[i])
    requires RealEnd(m.ws[i]) + n <= |m.bs[m.ws[i].block].bytes|
    requires !(m.bs[m.ws[i].block].count > 1 && m.ws[i].end < m.bs[m.ws[i].block].dirtyEnd)
    ensures MemOk(GrowEnd(m, i, n)) && AddedEnd(m, GrowEnd(m, i, n), i, n)
  {
    hide MemOk, See, Private;
    GrowEndOk(m, i, n);
    var r := GrowEnd(m, i, n);
    forall k | |See(m, i)| <= k < |See(r, i)| ensures Own(r, i, k) {
      var a := Address(r.ws[i], k);
      assert Private(r.ws, i, a);
    }
  }

  lemma MovedStart(w: Window, b: Block, v: Window, c: Block, n: nat)
    requires InBlock(w, b) && v.start == 0 && |c.bytes| >= n + RealSize(w)
    requires v.zs == w.zs - w.start + n && v.ze == w.ze - w.start + n && v.end == w.end - w.start + n
    requires c.bytes[n..n + RealSize(w)] == b.bytes[w.start..RealEnd(w)]
    ensures InBlock(v, c) && Shown(v, c)[n..] == Shown(w, b)
    ensures forall k | 0 <= k < n :: Address(v, k) != -1
  {
    hide Shown;
    forall j | 0 <= j < w.end - w.start ensures Shown(v, c)[n + j] == Shown(w, b)[j] {
      ShownAt(v, c, n + j);
      ShownAt(w, b, j);
      var a := Address(w, j);
      if a != -1 {
        assert c.bytes[n..n + RealSize(w)][a - w.start] == b.bytes[w.start..RealEnd(w)][a - w.start];
      }
    }
  }

  lemma MovedEnd(w: Window, b: Block, v: Window, c: Block, n: nat)
    requires InBlock(w, b) && v.start == 0 && |c.bytes| >= n + RealSize(w)
    requires v.zs == w.zs - w.start && v.ze == w.ze - w.start && v.end == w.end - w.start + n
    requires c.bytes[..RealSize(w)] == b.bytes[w.start..RealEnd(w)]
    ensures InBlock(v, c) && Shown(v, c)[..w.end - w.start] == Shown(w, b)
    ensures forall k | w.end - w.start <= k < v.end :: Address(v, k) != -1
  {
    hide Shown;
    forall j | 0 <= j < w.end - w.start ensures Shown(v, c)[j] == Shown(w, b)[j] {
      ShownAt(v, c, j);
      ShownAt(w, b, j);
      var a := Address(w, j);
      if a != -1 {
        assert c.bytes[..RealSize(w)][a - w.start] == b.bytes[w.start..RealEnd(w)][a - w.start];
      }
    }
  }

  lemma AddStartMoved(m: Mem, i: nat, n: nat, v: Window, c: Block)
    requires MemOk(m) && OneOk(m, i) && m.bs[m.ws[i].block].count >= 1
    requires v.block !in m.bs && v.start == 0 && |c.bytes| >= n + RealSize(m.ws[i])
    requires v.zs == m.ws[i].zs - m.ws[i].start + n && v.ze == m.ws[i].ze - m.ws[i].start + n && v.end == m.ws[i].end - m.ws[i].start + n
    requires c.bytes[n..n + RealSize(m.ws[i])] == m.bs[m.ws[i].block].bytes[m.ws[i].start..RealEnd(m.ws[i])]
    requires c.count == 1 && c.dirtyStart == 0 && c.dirtyEnd == v.end
    ensures Ordered(v) && MemOk(Move(m, i, v, c)) && AddedStart(m, Move(m, i, v, c), i, n)
  {
    hide MemOk, Shown, Private;
    KnowWindow(m, i);
    MovedStart(m.ws[i], m.bs[m.ws[i].block], v, c, n);
    MoveOk(m, i, v, c);
    KnowWindow(Move(m, i, v, c), i);
  }

  lemma AddEndMoved(m: Mem, i: nat, n: nat, v: Window, c: Block)
    requires MemOk(m) && OneOk(m, i) && m.bs[m.ws[i].block].count >= 1
    requires v.block !in m.bs && v.start == 0 && |c.bytes| >= n + RealSize(m.ws[i])
    requires v.zs == m.ws[i].zs - m.ws[i].start && v.ze == m.ws[i].ze - m.ws[i].start && v.end == m.ws[i].end - m.ws[i].start + n
    requires c.bytes[..RealSize(m.ws[i])] == m.bs[m.ws[i].block].bytes[m.ws[i].start..RealEnd(m.ws[i])]
    requires c.count == 1 && c.dirtyStart == 0 && c.dirtyEnd == v.end
    ensures Ordered(v) && MemOk(Move(m, i, v, c)) && AddedEnd(m, Move(m, i, v, c), i, n)
  {
    hide MemOk, Shown, Private;
    KnowWindow(m, i);
    MovedEnd(m.ws[i], m.bs[m.ws[i].block], v, c, n);
    MoveOk(m, i, v, c);
    KnowWindow(Move(m, i, v, c), i);
  }

  /** The unsigned difference between a size and the end of a fragment. */
  function Beyond(size: nat, start: nat, length: nat): nat {
    (size - (start + length)) % TWO32
  }

  /** Past the end the difference wraps to something no smaller than what is left. */
  lemma BeyondIs(size: nat, start: nat, length: nat)
    requires size < TWO32 && start < TWO32 && length < TWO32
    ensures start + length <= size ==> Beyond(size, start, length) == size - (start + length)
    ensures start + length > size ==> Beyond(size, start, length) >= size - start
  {
  }

  /** What is left of a buffer after the two removals that make a fragment of it. */
  lemma FragmentOf(was: seq<int>, start: nat, length: nat)
    requires |was| < TWO32 && start < TWO32 && length < TWO32
    ensures var tail := was[Min(start, |was|)..];
            tail[..|tail| - Min(Beyond(|was|, start, length), |tail|)] ==
            if start + length <= |was| then was[start..start + length] else []
  {
    hide Beyond;
    BeyondIs(|was|, start, length);
  }

  /** What becomes of a window when a fragment is made of it. */
  function Fragment(w: Window, start: nat, length: nat): (r: Window)
    requires Ordered(w)
    ensures Ordered(r)
  {
    DropEnd(DropStartWord(w, start), Beyond(w.end - w.start, start, length))
  }

  /** Three bytes of which one is within a fragment from 2 to 4: the fragment is empty, not that byte. */
  lemma FragmentPastEndIsEmpty()
    ensures var w := Window(0, 10, 13, 13, 13);
            var r := DropStartWord(w, 2);
            r.end - r.start == 1 && Fragment(w, 2, 2).end == Fragment(w, 2, 2).start
  {
  }

  /** A start five below 2^32, in a window that starts at 10: the fragment is the five bytes in front of the window. */
  lemma FragmentMovesBack()
    ensures Fragment(Window(0, 10, 13, 13, 13), TWO32 - 5, 5) == Window(0, 5, 10, 10, 10)
  {
  }

  /** Bytes written over part of a sequence, one after another. */
  lemma OneMoreByte(was: seq<int>, k: nat, bytes: seq<int>, j: nat)
    requires j < |bytes| && k + |bytes| <= |was|
    ensures (was[..k] + bytes[..j] + was[k + j..])[k + j := bytes[j]] ==
            was[..k] + bytes[..j + 1] + was[k + (j + 1)..]
  {
  }

  class BufferStore {
    var ws: Windows
    var bs: Blocks
    /** Block numbers from here on were never used. */
    var top: nat
    /** For each block, the zeros its dirty end counts. */
    ghost var slack: map<nat, nat>

    ghost function H(): Mem
      reads this
    {
      Mem(ws, bs, slack)
    }

    ghost predicate Valid()
      reads this
    {
      MemOk(H()) && forall d | d in bs :: d < top
    }

    /** The bytes of a buffer. */
    ghost function View(i: nat): seq<int>
      requires Valid() && i in ws
      reads this
    {
      See(H(), i)
    }

    twostate predicate OnlyChanges(i: nat)
      requires old(Valid()) && Valid()
      reads this
    {
      OthersSee(old(H()), H(), i)
    }

    constructor ()
      ensures Valid() && ws == map[]
    {
      ws, bs, top, slack := map[], map[], 0, map[];
    }

    /** A new buffer of zeros, none of them stored; `raw` is the memory the allocator hands out. */
    method Create(i: nat, zeroSize: nat, raw: seq<int>, recommended: nat)
      requires Valid() && i !in ws && |raw| >= 1
      modifies this
      ensures i in ws && ws == old(ws)[i := ws[i]]
      ensures Valid() && i in ws && View(i) == Zeroes(zeroSize) && OnlyChanges(i)
      ensures Ordered(ws[i]) && Zeros(ws[i]) == zeroSize && ws[i].start == Min(|raw|, recommended)
    {
      hide MemOk, See;
      var start := Min(|raw|, recommended);
      var w := Window(top, start, start, start + zeroSize, start + zeroSize);
      var b := Block(raw, 1, start, start + zeroSize);
      OpenOk(H(), i, w, b);
      ws := ws[i := w];
      bs := bs[top := b];
      slack := slack[top := Zeros(w)];
      top := top + 1;
    }

    /** The copy constructor. */
    method CopyOf(i: nat, o: nat)
      requires Valid() && i !in ws && o in ws
      modifies this`ws, this`bs
      ensures bs.Keys == old(bs).Keys && forall d | d in bs :: bs[d].bytes == old(bs)[d].bytes
      ensures ws.Keys == old(ws).Keys + {i}
      ensures Valid() && i in ws && ws == old(ws)[i := old(ws[o])] && View(i) == old(View(o)) && OnlyChanges(i)
    {
      hide MemOk, See;
      ShareOk(H(), i, o);
      var d := ws[o].block;
      bs := bs[d := bs[d].(count := bs[d].count + 1)];
      ws := ws[i := ws[o]];
    }

    /** Assignment. */
    method Assign(i: nat, o: nat)
      requires Valid() && i in ws && o in ws
      modifies this
      ensures ws == old(ws)[i := old(ws)[o]]
      ensures Valid() && i in ws && View(i) == old(View(o)) && OnlyChanges(i)
    {
      hide MemOk, See, OthersSee;
      KnowWindow(H(), i);
      KnowWindow(H(), o);
      ghost var m := H();
      if ws[i].block != ws[o].block {
        ReplaceOk(m, i, o);
        var d, e := ws[i].block, ws[o].block;
        bs := if bs[d].count == 1 then bs - {d} else bs[d := bs[d].(count := bs[d].count - 1)];
        bs := bs[e := bs[e].(count := bs[e].count + 1)];
        ws := ws[i := ws[o]];
        assert ws == (m.ws - {i})[i := m.ws[o]];
      } else {
        SameBlockOk(m, i, o);
        ws := ws[i := ws[o]];
      }
    }

    method Destroy(i: nat)
      requires Valid() && i in ws
      modifies this
      ensures ws == old(ws) - {i}
      ensures Valid() && i !in ws && OnlyChanges(i)
    {
      hide MemOk, See;
      DropOk(H(), i);
      var d := ws[i].block;
      bs := if bs[d].count == 1 then bs - {d} else bs[d := bs[d].(count := bs[d].count - 1)];
      ws := ws - {i};
    }

    /**
     Drops the first bytes.  If the 32-bit sum of start and count wraps, the start moves back
     instead and the window grows over bytes in front of it.
     */
    method RemoveAtStart(i: nat, n: nat)
      requires i in ws && Ordered(ws[i]) && n < TWO32
      modifies this`ws
      ensures ws == old(ws)[i := DropStartWord(old(ws[i]), n)]
      ensures old(Valid()) && old(ws[i]).start + n < TWO32 ==>
                Valid() && OnlyChanges(i) && View(i) == old(View(i))[Min(n, |old(View(i))|)..]
    {
      hide MemOk, See, OthersSee, DropTo;
      if Valid() && ws[i].start + n < TWO32 {
        RemoveStartStep(H(), i, n);
        NoWrap(ws[i].start + n);
      }
      MoveStart(i, (ws[i].start + n) % TWO32);
    }

    /** Moves the start of a window. */
    method MoveStart(i: nat, newStart: nat)
      requires i in ws && Ordered(ws[i])
      modifies this`ws
      ensures ws == old(ws)[i := DropTo(old(ws[i]), newStart)]
    {
      var w := ws[i];
      if newStart <= w.zs {
        w := w.(start := newStart);
      } else if newStart <= w.ze {
        var delta := newStart - w.zs;
        w := w.(start := w.zs, ze := w.ze - delta, end := w.end - delta);
      } else if newStart <= w.end {
        var zeroSize := w.ze - w.zs;
        w := w.(start := newStart - zeroSize, end := w.end - zeroSize, zs := newStart - zeroSize, ze := newStart - zeroSize);
      } else {
        var e := w.end - (w.ze - w.zs);
        w := w.(end := e, start := e, ze := e, zs := e);
      }
      ws := ws[i := w];
    }

    /** Drops the last bytes. */
    method RemoveAtEnd(i: nat, n: nat)
      requires i in ws && Ordered(ws[i])
      modifies this`ws
      ensures ws == old(ws)[i := DropEnd(old(ws[i]), n)]
      ensures old(Valid()) ==>
                Valid() && OnlyChanges(i) && View(i) == old(View(i))[..|old(View(i))| - Min(n, |old(View(i))|)]
    {
      hide MemOk, See, OthersSee;
      if Valid() {
        RemoveEndStep(H(), i, n);
      }
      var w := ws[i];
      var newEnd := w.end - Min(n, w.end - w.start);
      if newEnd > w.ze {
        w := w.(end := newEnd);
      } else if newEnd > w.zs {
        w := w.(end := newEnd, ze := newEnd);
      } else if newEnd > w.start {
        w := w.(end := newEnd, ze := newEnd, zs := newEnd);
      } else {
        w := w.(end := w.start, ze := w.start, zs := w.start);
      }
      ws := ws[i := w];
    }

    /**
     A new buffer `i` with `length` bytes of `o` from `start` on; `o` itself does not change.
     Past the end of `o` the unsigned difference wraps and the fragment is empty, unless the
     removal at the start wraps as well.
     */
    method CreateFragment(i: nat, o: nat, start: nat, length: nat)
      requires Valid() && i !in ws && o in ws && Ordered(ws[o])
      requires ws[o].end - ws[o].start < TWO32 && start < TWO32 && length < TWO32
      modifies this`ws, this`bs
      ensures bs.Keys == old(bs).Keys && forall d | d in bs :: bs[d].bytes == old(bs)[d].bytes
      ensures ws == old(ws)[i := Fragment(old(ws[o]), start, length)]
      ensures old(ws[o]).start + start < TWO32 ==>
                && Valid() && OnlyChanges(i)
                && View(i) == if start + length <= |old(View(o))| then old(View(o))[start..start + length] else []
    {
      hide MemOk, See, OthersSee, Beyond, DropEnd, DropStartWord;
      ghost var fits := ws[o].start + start < TWO32;
      ghost var was := View(o);
      ghost var m0 := H();
      var size := ws[o].end - ws[o].start;
      CopyOf(i, o);
      ghost var m1 := H();
      RemoveAtStart(i, start);
      ghost var m2 := H();
      if fits {
        OthersSeeTransitive(m0, m1, m2, i);
      }
      RemoveAtEnd(i, Beyond(size, start, length));
      if fits {
        OthersSeeTransitive(m0, m2, H(), i);
        FragmentOf(was, start, length);
      }
    }

    /** Makes room for `n` bytes at the start: in place if nobody else can see it, else in a fresh block. */
    method AddAtStart(i: nat, n: nat, raw: seq<int>)
      requires Valid() && i in ws && Ordered(ws[i]) && |raw| >= n + RealSize(ws[i])
      modifies this
      ensures Valid() && AddedStart(old(H()), H(), i, n) && ws.Keys == old(ws).Keys
      ensures ws == old(ws)[i := ws[i]]
      ensures ws[i].block == old(ws[i]).block <==> RoomInFront(old(H()), i, n)
    {
      hide MemOk, See, AddedStart, GrowStart, Move;
      KnowWindow(H(), i);
      var w := ws[i];
      var b := bs[w.block];
      var isDirty := b.count > 1 && w.start > b.dirtyStart;
      if w.start >= n && !isDirty {
        AddStartInPlace(H(), i, n);
        w := w.(start := w.start - n);
        b := b.(dirtyStart := w.start);
        Update(i, w, b);
        assert H() == GrowStart(old(H()), i, n) by { GrewStart(old(H()), H(), i, n); }
      } else {
        var size := RealSize(w);
        var bytes := raw[..n] + b.bytes[w.start..RealEnd(w)] + raw[n + size..];
        assert bytes[n..n + size] == b.bytes[w.start..RealEnd(w)];
        var v := Window(top, 0, w.zs - w.start + n, w.ze - w.start + n, w.end - w.start + n);
        var c := Block(bytes, 1, 0, v.end);
        AddStartMoved(H(), i, n, v, c);
        TakeBlock(i, v, c);
      }
    }

    /** Makes room for `n` bytes at the end. */
    method AddAtEnd(i: nat, n: nat, raw: seq<int>)
      requires Valid() && i in ws && Ordered(ws[i]) && |raw| >= n + RealSize(ws[i])
      modifies this
      ensures Valid() && AddedEnd(old(H()), H(), i, n) && ws.Keys == old(ws).Keys
      ensures ws == old(ws)[i := ws[i]]
      ensures ws[i].block == old(ws[i]).block <==> RoomBehind(old(H()), i, n)
    {
      hide MemOk, See, AddedEnd, GrowEnd, Move;
      KnowWindow(H(), i);
      var w := ws[i];
      var b := bs[w.block];
      var isDirty := b.count > 1 && w.end < b.dirtyEnd;
      if RealEnd(w) + n <= |b.bytes| && !isDirty {
        AddEndInPlace(H(), i, n);
        w := w.(end := w.end + n);
        b := b.(dirtyEnd := w.end);
        Update(i, w, b);
        slack := if b.count > 1 then slack else slack[w.block := Zeros(w)];
        assert H() == GrowEnd(old(H()), i, n) by { GrewEnd(old(H()), H(), i, n); }
      } else {
        var size := RealSize(w);
        var bytes := b.bytes[w.start..RealEnd(w)] + raw[size..];
        assert bytes[..size] == b.bytes[w.start..RealEnd(w)];
        var v := Window(top, 0, w.zs - w.start, w.ze - w.start, w.end - w.start + n);
        var c := Block(bytes, 1, 0, v.end);
        AddEndMoved(H(), i, n, v, c);
        TakeBlock(i, v, c);
      }
    }

    method Update(i: nat, w: Window, b: Block)
      requires i in ws && w.block == ws[i].block && w.block in bs
      modifies this`ws, this`bs
      ensures ws == old(ws)[i := w] && bs == old(bs)[w.block := b]
    {
      ws := ws[i := w];
      bs := bs[w.block := b];
    }

    /** Leaves the buffer's block, freeing it if nobody else uses it, for a new one. */
    method TakeBlock(i: nat, v: Window, c: Block)
      requires i in ws && ws[i].block in bs && bs[ws[i].block].count >= 1 && Ordered(v) && v.block == top
      modifies this
      ensures H() == Move(old(H()), i, v, c) && top == old(top) + 1 && ws == old(ws)[i := v]
      ensures forall d | d in bs :: d in old(bs) || d == old(top)
    {
      var d := ws[i].block;
      bs := if bs[d].count == 1 then bs - {d} else bs[d := bs[d].(count := bs[d].count - 1)];
      bs := bs[top := c];
      slack := slack[top := Zeros(v)];
      ws := ws[i := v];
      top := top + 1;
    }

    /** Reads one byte. */
    method PeekU8(i: nat, k: nat) returns (v: int)
      requires Valid() && i in ws && k < |View(i)|
      ensures v == View(i)[k]
    {
      KnowWindow(H(), i);
      var w := ws[i];
      ShownAt(w, bs[w.block], k);
      var cur := w.start + k;
      if cur < w.zs {
        v := bs[w.block].bytes[cur];
      } else if cur < w.ze {
        v := 0;
      } else {
        v := bs[w.block].bytes[cur - (w.ze - w.zs)];
      }
    }

    /**
     Writes one stored byte.  No other buffer sees the write if and only if the byte is the
     buffer's own or has that value already.
     */
    method WriteU8(i: nat, k: nat, v: int)
      requires Valid() && i in ws && Ordered(ws[i]) && k < |View(i)| && Address(ws[i], k) != -1
      modifies this`bs
      ensures Valid() && View(i) == old(View(i))[k := v]
      ensures OnlyChanges(i) <==> old(Own(H(), i, k)) || old(View(i))[k] == v
    {
      hide MemOk, See, Private, OthersSee;
      KnowWindow(H(), i);
      PokeSeen(H(), i, k, v);
      var w := ws[i];
      var b := bs[w.block];
      var cur := w.start + k;
      if cur < w.zs {
        bs := bs[w.block := b.(bytes := b.bytes[cur := v])];
      } else {
        bs := bs[w.block := b.(bytes := b.bytes[cur - (w.ze - w.zs) := v])];
      }
    }

    /** Writes consecutive bytes, all the buffer's own, from position `k` on. */
    method WriteBytes(i: nat, k: nat, bytes: seq<int>)
      requires Valid() && i in ws && Ordered(ws[i]) && k + |bytes| <= |View(i)|
      requires forall j | k <= j < k + |bytes| :: Own(H(), i, j)
      modifies this`bs
      ensures Valid() && OnlyChanges(i)
      ensures View(i) == old(View(i))[..k] + bytes + old(View(i))[k + |bytes|..]
    {
      hide MemOk, See, Private, OthersSee;
      ghost var m0 := H();
      OthersSeeReflexive(m0, i);
      var j := 0;
      while j < |bytes|
        invariant 0 <= j <= |bytes| && ws == old(ws) && Valid()
        invariant OthersSee(m0, H(), i)
        invariant View(i) == old(View(i))[..k] + bytes[..j] + old(View(i))[k + j..]
      {
        ghost var m1 := H();
        assert Own(m0, i, k + j);
        WriteU8(i, k + j, bytes[j]);
        OthersSeeTransitive(m0, m1, H(), i);
        OneMoreByte(old(View(i)), k, bytes, j);
        j := j + 1;
      }
      assert bytes[..|bytes|] == bytes;
    }

    /** Prepends given bytes: room at the start, then a write into it. */
    method Prepend(i: nat, bytes: seq<int>, junk: int)
      requires Valid() && i in ws
      modifies this
      ensures i in ws && ws == old(ws)[i := ws[i]]
      ensures Valid() && i in ws && View(i) == bytes + old(View(i)) && OnlyChanges(i)
      ensures Ordered(ws[i]) && old(Ordered(ws[i])) && Zeros(ws[i]) == old(Zeros(ws[i]))
    {
      hide MemOk, See, OthersSee, Private;
      KnowWindow(H(), i);
      ghost var m0 := H();
      var raw := seq(|bytes| + RealSize(ws[i]), _ => junk);
      AddAtStart(i, |bytes|, raw);
      ghost var m1 := H();
      WriteBytes(i, 0, bytes);
      OthersSeeTransitive(m0, m1, H(), i);
    }

    /** Appends given bytes. */
    method Append(i: nat, bytes: seq<int>, junk: int)
      requires Valid() && i in ws
      modifies this
      ensures i in ws && ws == old(ws)[i := ws[i]]
      ensures Valid() && i in ws && View(i) == old(View(i)) + bytes && OnlyChanges(i)
      ensures Ordered(ws[i]) && old(Ordered(ws[i])) && Zeros(ws[i]) == old(Zeros(ws[i]))
    {
      hide MemOk, See, OthersSee, Private;
      KnowWindow(H(), i);
      ghost var m0 := H();
      var raw := seq(|bytes| + RealSize(ws[i]), _ => junk);
      var size := ws[i].end - ws[i].start;
      AddAtEnd(i, |bytes|, raw);
      ghost var m1 := H();
      WriteBytes(i, size, bytes);
      OthersSeeTransitive(m0, m1, H(), i);
    }

    /** A copy `t` of buffer `i` in which every byte is stored. */
    method CreateFullCopy(t: nat, i: nat, junk: int)
      requires Valid() && t !in ws && i in ws
      modifies this
      ensures t in ws && ws == old(ws)[t := ws[t]]
      ensures Valid() && t in ws && View(t) == old(View(i)) && OnlyChanges(t)
      ensures Ordered(ws[t]) && Zeros(ws[t]) == 0
      ensures old(Ordered(ws[i])) && (old(Zeros(ws[i])) == 0 ==> ws[t] == old(ws[i]))
    {
      hide MemOk, See, OthersSee;
      KnowWindow(H(), i);
      var w := ws[i];
      var b := bs[w.block];
      if w.ze - w.zs != 0 {
        ghost var m0 := H();
        Create(t, 0, [junk], 0);
        ghost var m1 := H();
        Prepend(t, Zeroes(w.ze - w.zs), junk);
        ghost var m2 := H();
        OthersSeeTransitive(m0, m1, m2, t);
        Prepend(t, b.bytes[w.start..w.zs], junk);
        ghost var m3 := H();
        OthersSeeTransitive(m0, m2, m3, t);
        Append(t, b.bytes[w.zs..w.zs + (w.end - w.ze)], junk);
        OthersSeeTransitive(m0, m3, H(), t);
      } else {
        CopyOf(t, i);
      }
    }

    method ViaCopies(i: nat, o: nat, dst: nat, src: nat, junk: int)
      requires Valid() && i in ws && o in ws && dst !in ws && src !in ws && dst != src
      modifies this
      ensures Valid() && ws.Keys == old(ws).Keys && View(i) == old(View(i)) + old(View(o)) && OnlyChanges(i)
      ensures Ordered(ws[i]) && Zeros(ws[i]) == 0
    {
      hide MemOk, See, OthersSee;
      ghost var m0 := H();
      CreateFullCopy(dst, i, junk);
      ghost var m1 := H();
      SeeSame(m0, m1, dst, i);
      SeeSame(m0, m1, dst, o);
      CreateFullCopy(src, o, junk);
      ghost var m2 := H();
      SeeSame(m1, m2, src, dst);
      var bytes := StoredBytes(src);
      Append(dst, bytes, junk);
      ghost var m3 := H();
      Assign(i, dst);
      ghost var m4 := H();
      Destroy(src);
      ghost var m5 := H();
      Destroy(dst);
      SeeSame(m4, m5, src, i);
      SeeSame(m5, H(), dst, i);
      forall x | x in m0.ws && x != i ensures x in ws && See(H(), x) == See(m0, x) {
        SeeSame(m0, m1, dst, x);
        SeeSame(m1, m2, src, x);
        SeeSame(m2, m3, dst, x);
        SeeSame(m3, m4, i, x);
        SeeSame(m4, m5, src, x);
        SeeSame(m5, H(), dst, x);
      }
      ShowOthersSee(m0, H(), i);
    }

    /** The bytes of a buffer without a zero area, straight from its block. */
    method StoredBytes(i: nat) returns (bytes: seq<int>)
      requires Valid() && i in ws && Ordered(ws[i]) && Zeros(ws[i]) == 0
      ensures bytes == View(i)
    {
      KnowWindow(H(), i);
      var w := ws[i];
      bytes := bs[w.block].bytes[w.start..w.end];
    }

    /** Buffer `i`, alone on its block and ending in its zero area, gets `z` more zeros. */
    method AddZeros(i: nat, z: nat)
      requires Valid() && i in ws && OneOk(H(), i) && bs[ws[i].block].count == 1 && ws[i].end == ws[i].ze
      modifies this
      ensures Valid() && ws.Keys == old(ws).Keys && i in ws && View(i) == old(View(i)) + Zeroes(z) && OnlyChanges(i)
      ensures Ordered(ws[i]) && old(Ordered(ws[i])) && Zeros(ws[i]) == old(Zeros(ws[i])) + z
    {
      hide MemOk, See, OthersSee;
      JoinZerosOk(H(), i, z);
      var w := ws[i];
      ws := ws[i := w.(ze := w.ze + z, end := w.ze + z)];
      bs := bs[w.block := bs[w.block].(dirtyEnd := w.ze + z)];
      slack := slack[w.block := Zeros(ws[i])];
    }

    /** Appends buffer `o`: adjacent zero areas are joined, otherwise both are copied out. */
    method AddBuffer(i: nat, o: nat, dst: nat, src: nat, junk: int)
      requires Valid() && i in ws && o in ws && dst !in ws && src !in ws && dst != src
      modifies this
      ensures Valid() && ws.Keys == old(ws).Keys && View(i) == old(View(i)) + old(View(o)) && OnlyChanges(i)
      ensures Ordered(ws[i]) && old(Ordered(ws[i]) && Ordered(ws[o]))
      ensures Zeros(ws[i]) == if JoinsZeros(old(H()), i, o) then old(Zeros(ws[i])) + old(Zeros(ws[o])) else 0
    {
      hide MemOk, See, OthersSee;
      KnowWindow(H(), i);
      KnowWindow(H(), o);
      ghost var m0 := H();
      var w, x := ws[i], ws[o];
      if bs[w.block].count == 1 && w.end == w.ze && w.end == bs[w.block].dirtyEnd && x.start == x.zs && x.ze - x.zs > 0 {
        var zeroSize := x.ze - x.zs;
        var tail := bs[x.block].bytes[x.zs..x.zs + (x.end - x.ze)];
        ShownFromZeros(x, bs[x.block]);
        hide Shown;
        AddZeros(i, zeroSize);
        ghost var m1 := H();
        Append(i, tail, junk);
        OthersSeeTransitive(m0, m1, H(), i);
      } else {
        ViaCopies(i, o, dst, src, junk);
      }
    }
  }

  /** Buffer `i`, alone on its block, ends with its zero area, and buffer `o` starts with one. */
  ghost predicate JoinsZeros(m: Mem, i: nat, o: nat)
    requires i in m.ws && o in m.ws
  {
    && m.ws[i].block in m.bs && m.bs[m.ws[i].block].count == 1
    && m.ws[i].end == m.ws[i].ze == m.bs[m.ws[i].block].dirtyEnd
    && m.ws[o].start == m.ws[o].zs < m.ws[o].ze
  }

  /** Buffer `i` alone on its block, ending in its zero area, gets `z` more zeros. */
  ghost function JoinZeros(m: Mem, i: nat, z: nat): Mem
    requires i in m.ws && m.ws[i].block in m.bs && Ordered(m.ws[i])
  {
    var w := m.ws[i].(ze := m.ws[i].ze + z, end := m.ws[i].ze + z);
    Mem(m.ws[i := w], m.bs[w.block := m.bs[w.block].(dirtyEnd := w.end)], m.slack[w.block := w.ze - w.zs])
  }

  lemma JoinZerosOk(m: Mem, i: nat, z: nat)
    requires MemOk(m) && OneOk(m, i) && m.bs[m.ws[i].block].count == 1 && m.ws[i].end == m.ws[i].ze
    ensures MemOk(JoinZeros(m, i, z)) && OthersSee(m, JoinZeros(m, i, z), i)
    ensures See(JoinZeros(m, i, z), i) == See(m, i) + Zeroes(z)
  {
    hide MemOk, CountsOk, Shown;
    var r := JoinZeros(m, i, z);
    ShowCounts(m, i, r.ws[i], r.bs);
    forall o | o in m.ws && o != i ensures Kept(m, r, o) {
      Sharers(m, i, o);
    }
    ShowOk(m, r, i);
    KnowWindow(m, i);
    KnowWindow(r, i);
    MoreZeros(m.ws[i], m.bs[m.ws[i].block], r.ws[i], r.bs[r.ws[i].block], z);
  }

  /** A window that starts with its zero area. */
  lemma ShownFromZeros(x: Window, b: Block)
    requires InBlock(x, b) && x.start == x.zs
    ensures Shown(x, b) == Zeroes(x.ze - x.zs) + b.bytes[x.zs..x.zs + (x.end - x.ze)]
  {
  }

  lemma MoreZeros(w: Window, b: Block, v: Window, c: Block, z: nat)
    requires InBlock(w, b) && InBlock(v, c) && c.bytes == b.bytes && w.end == w.ze
    requires v == w.(ze := w.ze + z, end := w.ze + z)
    ensures Shown(v, c) == Shown(w, b) + Zeroes(z)
  {
  }

  lemma SeeSame(m: Mem, r: Mem, i: nat, o: nat)
    requires MemOk(m) && MemOk(r) && OthersSee(m, r, i) && o in m.ws && o != i
    ensures o in r.ws && See(r, o) == See(m, o)
  {
    hide MemOk, See;
  }

  lemma ShowOthersSee(m: Mem, r: Mem, i: nat)
    requires MemOk(m) && MemOk(r)
    requires forall o | o in m.ws && o != i :: o in r.ws && See(r, o) == See(m, o)
    ensures OthersSee(m, r, i)
  {
    hide MemOk, See;
  }

  lemma OthersSeeReflexive(m: Mem, i: nat)
    requires MemOk(m)
    ensures OthersSee(m, m, i)
  {
  }
}
