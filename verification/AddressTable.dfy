/**
 The address table: one line of binary digits for each tree and level.
 */
module AddressTable {
  import opened BmwDepth
  import opened SramLayout

  /** The least number of bits that count up to `x`. */
  function CeilLog2(x: nat): (b: nat)
    requires x >= 1
    ensures x <= Pow2(b) && (b > 0 ==> Pow2(b - 1) < x)
  {
    if x == 1 then 0 else 1 + CeilLog2((x + 1) / 2)
  }

  type Bits = seq<bool>

  function Value(b: Bits): nat {
    if b == [] then 0 else 2 * Value(b[..|b| - 1]) + (if b[|b| - 1] then 1 else 0)
  }

  /** The shortest binary form; zero is one digit. */
  function Digits(v: nat): (b: Bits)
    ensures Value(b) == v && |b| >= 1
  {
    if v < 2 then
      assert [v == 1][..0] == [];
      [v == 1]
    else
      var b := Digits(v / 2) + [v % 2 == 1];
      assert b[..|b| - 1] == Digits(v / 2);
      b
  }

  /** Binary, padded with zeros to `width` digits; never cut. */
  function Format(v: nat, width: nat): (b: Bits)
    ensures |b| >= width
  {
    var d := Digits(v);
    if |d| >= width then d else seq(width - |d|, _ => false) + d
  }

  lemma {:induction false} DigitsWidth(v: nat, width: nat)
    requires v < Pow2(width)
    ensures width >= 1 ==> |Digits(v)| <= width
    ensures width == 0 ==> |Digits(v)| == 1
  {
    if v >= 2 {
      DigitsWidth(v / 2, width - 1);
    }
  }

  lemma {:induction false} ValuePadded(n: nat, b: Bits)
    ensures Value(seq(n, _ => false) + b) == Value(b)
    decreases |b|, n
  {
    var p := seq(n, _ => false) + b;
    if b != [] {
      assert p[..|p| - 1] == seq(n, _ => false) + b[..|b| - 1];
      ValuePadded(n, b[..|b| - 1]);
    } else if n > 0 {
      assert p == seq(n, _ => false);
      assert p[..|p| - 1] == seq(n - 1, _ => false) + b;
      ValuePadded(n - 1, b);
    } else {
      assert p == [];
    }
  }

  /** A value that fits is printed in exactly its width, unless the width is zero. */
  lemma FormatExact(v: nat, width: nat)
    requires v < Pow2(width)
    ensures Value(Format(v, width)) == v
    ensures |Format(v, width)| == if width == 0 then 1 else width
  {
    DigitsWidth(v, width);
    var d := Digits(v);
    if |d| < width {
      ValuePadded(width - |d|, d);
    }
  }

  datatype Widths = Widths(idBits: nat, addrBits: nat)

  /** The widths the generator computes from the bank count and the largest fill mark. */
  function WidthsFor(banks: nat, largest: nat): Widths
    requires banks >= 1 && largest >= 1
  {
    Widths(CeilLog2(banks), CeilLog2(largest))
  }

  function Row(p: Place, w: Widths): Bits {
    Format(p.bank, w.idBits) + Format(p.start, w.addrBits)
  }

  /** Splitting a line at the bank width. */
  function Decode(row: Bits, w: Widths): Place
    requires w.idBits <= |row|
  {
    At(Value(row[..w.idBits]), Value(row[w.idBits..]))
  }

  lemma WidthZero(x: nat)
    requires x >= 1
    ensures CeilLog2(x) == 0 <==> x == 1
  {
  }

  lemma BelowPow(v: nat, x: nat)
    requires v < x
    ensures v < Pow2(CeilLog2(x))
  {
  }

  /**
   Every allocated line decodes to its bank and address.  It has the computed number of
   digits if and only if there are at least two banks and some bank holds at least two addresses.
   */
  lemma RowDecodes(dict: map<Key, Place>, fill: seq<nat>, largest: nat, k: Key)
    requires InBanks(dict, fill) && k in dict
    requires forall b | 0 <= b < |fill| :: fill[b] <= largest
    ensures largest >= 1
    ensures var w := WidthsFor(|fill|, largest);
            && Decode(Row(dict[k], w), w) == dict[k]
            && (|Row(dict[k], w)| == w.idBits + w.addrBits <==> |fill| >= 2 && largest >= 2)
  {
    var p := dict[k];
    var w := WidthsFor(|fill|, largest);
    assert p.bank < |fill| && p.start < largest;
    BelowPow(p.bank, |fill|);
    BelowPow(p.start, largest);
    hide CeilLog2, Format;
    FormatExact(p.bank, w.idBits);
    FormatExact(p.start, w.addrBits);
    WidthZero(|fill|);
    WidthZero(largest);
    var a, b := Format(p.bank, w.idBits), Format(p.start, w.addrBits);
    if w.idBits == 0 {
      assert (a + b)[..0] == [] && (a + b)[0..] == a + b;
      assert p.bank == 0;
      LeadingZero(a, b);
    } else {
      assert (a + b)[..w.idBits] == a && (a + b)[w.idBits..] == b;
    }
  }

  /** One tree of one level in one bank: both widths are zero and the row still has two digits. */
  lemma OneBankRowIsLong()
    ensures var dict := map[Key(0, 0) := At(0, 0)];
            var w := WidthsFor(1, 1);
            && InBanks(dict, [1]) && w == Widths(0, 0)
            && |Row(dict[Key(0, 0)], w)| == 2
  {
    var dict := map[Key(0, 0) := At(0, 0)];
    assert Bank(Key(0, 0), 1) == 0 && Pow2(0) == 1;
    FormatExact(0, 0);
  }

  lemma LeadingZero(a: Bits, b: Bits)
    requires |a| == 1 && Value(a) == 0
    ensures Value(a + b) == Value(b)
  {
    assert a[..0] == [];
    assert a == seq(1, _ => false);
    ValuePadded(1, b);
  }

  lemma {:induction false} ValueAppend(a: Bits, b: Bits)
    ensures Value(a + b) == Value(a) * Pow2(|b|) + Value(b)
    decreases |b|
  {
    if b == [] {
      assert a + b == a;
    } else {
      var last := |b| - 1;
      assert (a + b)[..|a + b| - 1] == a + b[..last];
      ValueAppend(a, b[..last]);
      DoubleScale(Value(a), Pow2(last), Value(b[..last]));
    }
  }

  lemma DoubleScale(a: nat, p: nat, b: nat)
    ensures 2 * (a * p + b) == a * (2 * p) + 2 * b
  {
  }

  /** A row is the bank above the address. */
  lemma RowIsNumber(p: Place, w: Widths)
    requires p.bank < Pow2(w.idBits) && p.start < Pow2(w.addrBits) && w.addrBits >= 1
    ensures Value(Row(p, w)) == p.bank * Pow2(w.addrBits) + p.start
  {
    hide Format;
    FormatExact(p.bank, w.idBits);
    FormatExact(p.start, w.addrBits);
    ValueAppend(Format(p.bank, w.idBits), Format(p.start, w.addrBits));
  }

  // ---------- the table ----------

  function Fill(w: Widths): Bits {
    Format(Pow2(w.idBits) - 1, w.idBits) + Format(Pow2(w.addrBits) - 1, w.addrBits)
  }

  lemma {:induction false} OnesOnly(b: Bits)
    requires Value(b) == Pow2(|b|) - 1
    ensures forall k | 0 <= k < |b| :: b[k]
  {
    if b != [] {
      var front := b[..|b| - 1];
      ValueBelow(front);
      OnesOnly(front);
      assert forall k | 0 <= k < |front| :: b[k] == front[k];
    }
  }

  lemma {:induction false} ValueBelow(b: Bits)
    ensures Value(b) < Pow2(|b|)
  {
    if b != [] {
      ValueBelow(b[..|b| - 1]);
    }
  }

  /** A row of no tree or level is all ones, one digit for a width of zero being a zero. */
  lemma UnusedRowIsOnes(w: Widths)
    requires w.idBits >= 1 && w.addrBits >= 1
    ensures |Fill(w)| == w.idBits + w.addrBits && forall k | 0 <= k < |Fill(w)| :: Fill(w)[k]
  {
    hide Format;
    var a, b := Format(Pow2(w.idBits) - 1, w.idBits), Format(Pow2(w.addrBits) - 1, w.addrBits);
    FormatExact(Pow2(w.idBits) - 1, w.idBits);
    FormatExact(Pow2(w.addrBits) - 1, w.addrBits);
    OnesOnly(a);
    OnesOnly(b);
  }

  function Line(dict: map<Key, Place>, w: Widths, id: nat, level: nat): Bits {
    if Key(id, level) in dict then Row(dict[Key(id, level)], w) else Fill(w)
  }

  function TreeLines(dict: map<Key, Place>, w: Widths, id: nat, levels: nat): (r: seq<Bits>)
    ensures |r| == levels && forall l | 0 <= l < levels :: r[l] == Line(dict, w, id, l)
  {
    seq(levels, l requires 0 <= l < levels => Line(dict, w, id, l))
  }

  function Table(dict: map<Key, Place>, w: Widths, ids: nat, levels: nat): seq<Bits> {
    if ids == 0 then [] else Table(dict, w, ids - 1, levels) + TreeLines(dict, w, ids - 1, levels)
  }

  /** The line of (id, level) is number id * levels + level. */
  lemma {:induction false} TableAt(dict: map<Key, Place>, w: Widths, ids: nat, levels: nat, id: nat, level: nat)
    requires id < ids && level < levels
    ensures |Table(dict, w, ids, levels)| == ids * levels
    ensures 0 <= id * levels + level < ids * levels
    ensures Table(dict, w, ids, levels)[id * levels + level] == Line(dict, w, id, level)
  {
    hide Line;
    TableLength(dict, w, ids - 1, levels);
    assert ids * levels == (ids - 1) * levels + levels;
    if id < ids - 1 {
      TableAt(dict, w, ids - 1, levels, id, level);
    }
  }

  lemma {:induction false} TableLength(dict: map<Key, Place>, w: Widths, ids: nat, levels: nat)
    ensures |Table(dict, w, ids, levels)| == ids * levels
  {
    if ids > 0 {
      TableLength(dict, w, ids - 1, levels);
      assert ids * levels == (ids - 1) * levels + levels;
    }
  }

  /** Writes all lines, tree by tree and level by level. */
  method WriteTable(dict: map<Key, Place>, w: Widths, ids: nat, levels: nat) returns (rows: seq<Bits>)
    ensures rows == Table(dict, w, ids, levels)
  {
    hide Line;
    rows := [];
    var id := 0;
    while id < ids
      invariant 0 <= id <= ids && rows == Table(dict, w, id, levels)
    {
      ghost var done := rows;
      var level := 0;
      while level < levels
        invariant 0 <= level <= levels && rows == done + TreeLines(dict, w, id, levels)[..level]
      {
        rows := rows + [Line(dict, w, id, level)];
        level := level + 1;
      }
      id := id + 1;
    }
  }
}
