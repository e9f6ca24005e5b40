/**
 The memory of packet buffers: byte blocks shared by windows with a virtual zero area.

 A window shows the real bytes from `start` to `zs`, then `ze - zs` zeros that take no
 memory, then the real bytes from `zs` on.  Its `ze` and `end` count the zeros, so they run
 ahead of the block's own addresses.
 */
module BufferHeap {
  datatype Window = Window(block: nat, start: nat, zs: nat, ze: nat, end: nat)

  datatype Block = Block(bytes: seq<int>, count: nat, dirtyStart: nat, dirtyEnd: nat)

  type Windows = map<nat, Window>
  type Blocks = map<nat, Block>

  predicate Ordered(w: Window) {
    w.start <= w.zs <= w.ze <= w.end
  }

  function Zeros(w: Window): nat
    requires Ordered(w)
  {
    w.ze - w.zs
  }

  /** The end of the window's real bytes. */
  function RealEnd(w: Window): nat
    requires Ordered(w)
  {
    w.end - (w.ze - w.zs)
  }

  function RealSize(w: Window): nat
    requires Ordered(w)
  {
    w.zs - w.start + w.end - w.ze
  }

  predicate InBlock(w: Window, b: Block) {
    Ordered(w) && RealEnd(w) <= |b.bytes|
  }

  function Zeroes(n: nat): (z: seq<int>)
    ensures |z| == n && forall k | 0 <= k < n :: z[k] == 0
  {
    seq(n, _ => 0)
  }

  /** What the window reads. */
  function Shown(w: Window, b: Block): (s: seq<int>)
    requires InBlock(w, b)
    ensures |s| == w.end - w.start
  {
    b.bytes[w.start..w.zs] + Zeroes(Zeros(w)) + b.bytes[w.zs..RealEnd(w)]
  }

  /**
   A window keeps inside the dirty range of its block.  The block's dirty end counts `slack`
   zeros, at least as many as any window on it has, so it stands for the address dirtyEnd - slack.
   */
  predicate InDirty(w: Window, b: Block, slack: nat)
    requires Ordered(w)
  {
    b.dirtyStart <= w.start && Zeros(w) <= slack && RealEnd(w) + slack <= b.dirtyEnd
  }

  /** The windows on a block. */
  ghost function Users(ws: Windows, d: nat): set<nat> {
    set i | i in ws && ws[i].block == d
  }

  ghost predicate WindowsOk(ws: Windows, bs: Blocks, slack: map<nat, nat>) {
    forall i | i in ws ::
      && ws[i].block in bs && ws[i].block in slack
      && InBlock(ws[i], bs[ws[i].block]) && InDirty(ws[i], bs[ws[i].block], slack[ws[i].block])
  }

  ghost predicate CountsOk(ws: Windows, bs: Blocks) {
    forall d | d in bs :: bs[d].count == |Users(ws, d)| >= 1
  }

  ghost predicate Ok(ws: Windows, bs: Blocks, slack: map<nat, nat>) {
    WindowsOk(ws, bs, slack) && CountsOk(ws, bs)
  }

  /** What window `i` reads. */
  ghost function Read(ws: Windows, bs: Blocks, slack: map<nat, nat>, i: nat): (s: seq<int>)
    requires Ok(ws, bs, slack) && i in ws
    ensures |s| == ws[i].end - ws[i].start
  {
    Shown(ws[i], bs[ws[i].block])
  }

  /** Where position `k` of a window is stored; a position in the zero area is stored nowhere. */
  function Address(w: Window, k: nat): int
    requires Ordered(w) && k < w.end - w.start
  {
    var v := w.start + k;
    if v < w.zs then v else if v < w.ze then -1 else v - Zeros(w)
  }

  /** No other window on the block has real bytes at address `a`. */
  ghost predicate Private(ws: Windows, i: nat, a: int)
    requires i in ws
  {
    forall o | o in ws && o != i && ws[o].block == ws[i].block && Ordered(ws[o]) ::
      !(ws[o].start <= a < RealEnd(ws[o]))
  }

  /** Windows other than `i` are still there and read the same. */
  ghost predicate OthersRead(ws: Windows, bs: Blocks, sl: map<nat, nat>, ws': Windows, bs': Blocks, sl': map<nat, nat>, i: nat)
    requires Ok(ws, bs, sl) && Ok(ws', bs', sl')
  {
    forall o | o in ws && o != i :: o in ws' && Read(ws', bs', sl', o) == Read(ws, bs, sl, o)
  }

  // ---------- reading ----------

  lemma ShownAt(w: Window, b: Block, k: nat)
    requires InBlock(w, b) && k < w.end - w.start
    ensures Address(w, k) == -1 ==> Shown(w, b)[k] == 0
    ensures Address(w, k) != -1 ==> w.start <= Address(w, k) < RealEnd(w) && Shown(w, b)[k] == b.bytes[Address(w, k)]
  {
  }

  /** A window reads the same from any block that has the same bytes where the window has its own. */
  lemma ShownSame(w: Window, b: Block, c: Block)
    requires InBlock(w, b) && InBlock(w, c)
    requires forall a | w.start <= a < RealEnd(w) :: c.bytes[a] == b.bytes[a]
    ensures Shown(w, c) == Shown(w, b)
  {
    assert c.bytes[w.start..w.zs] == b.bytes[w.start..w.zs];
    assert c.bytes[w.zs..RealEnd(w)] == b.bytes[w.zs..RealEnd(w)];
  }

  // ---------- counting ----------

  lemma UsersSet(ws: Windows, i: nat, w: Window, d: nat)
    ensures |Users(ws[i := w], d)| ==
            |Users(ws, d)| - (if i in ws && ws[i].block == d then 1 else 0) + (if w.block == d then 1 else 0)
  {
    var after := ws[i := w];
    if i in ws && ws[i].block == d {
      assert Users(ws, d) == (Users(ws, d) - {i}) + {i};
    }
    if w.block == d {
      assert Users(after, d) == (Users(ws, d) - {i}) + {i};
    } else {
      assert Users(after, d) == Users(ws, d) - {i};
    }
  }

  lemma UsersDrop(ws: Windows, i: nat, d: nat)
    requires i in ws
    ensures |Users(ws - {i}, d)| == |Users(ws, d)| - (if ws[i].block == d then 1 else 0)
  {
    if ws[i].block == d {
      assert Users(ws, d) == Users(ws - {i}, d) + {i};
    } else {
      assert Users(ws - {i}, d) == Users(ws, d);
    }
  }

  lemma OnlyUser(ws: Windows, i: nat, o: nat, d: nat)
    requires i in ws && o in ws && ws[i].block == d == ws[o].block && |Users(ws, d)| == 1
    ensures i == o
  {
    assert |Users(ws, d) - {i}| == 0;
    assert o !in Users(ws, d) - {i};
  }
}
