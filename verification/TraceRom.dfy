/**
 The trace as ROM words: every line becomes the same number of binary digits.
 */
module TraceRom {
  import opened BmwDepth
  import opened AddressTable

  const TYPE_BITS := 2
  const IDLE_BITS := 8
  const TREE_BITS := 2
  const META_BITS := 13
  const RANK_BITS := 24
  const PUSH_BITS := RANK_BITS + TREE_BITS + META_BITS + RANK_BITS
  const TOTAL := PUSH_BITS + TYPE_BITS

  datatype Record = Idle(cycles: nat) | Push(tree: nat, meta: nat, rank0: nat, rank1: nat) | Pop

  /** Each field fits its width. */
  predicate Fits(r: Record) {
    match r
    case Idle(c) => c < Pow2(IDLE_BITS)
    case Push(t, m, a, b) => t < Pow2(TREE_BITS) && m < Pow2(META_BITS) && a < Pow2(RANK_BITS) && b < Pow2(RANK_BITS)
    case Pop => true
  }

  /** Items in the order of the line; padding follows the type of idle and pop lines. */
  function Encode(r: Record): Bits {
    match r
    case Idle(c) => Format(0, TYPE_BITS) + Format(0, PUSH_BITS - IDLE_BITS) + Format(c, IDLE_BITS)
    case Push(t, m, a, b) =>
      Format(1, TYPE_BITS) + Format(t, TREE_BITS) + Format(m, META_BITS) + Format(a, RANK_BITS) + Format(b, RANK_BITS)
    case Pop => Format(2, TYPE_BITS) + Format(0, TOTAL - TYPE_BITS)
  }

  function Field(w: Bits, from: nat, width: nat): nat
    requires from + width <= |w|
  {
    Value(w[from..from + width])
  }

  datatype Decoded = Unknown | Known(record: Record)

  /** Types 0, 1 and 2 are idle, push and pop; there is no type 3. */
  function Decode(w: Bits): Decoded
    requires |w| == TOTAL
  {
    var k := Field(w, 0, TYPE_BITS);
    if k == 0 then Known(Idle(Field(w, TOTAL - IDLE_BITS, IDLE_BITS)))
    else if k == 1 then
      Known(Push(Field(w, 2, TREE_BITS), Field(w, 4, META_BITS), Field(w, 17, RANK_BITS), Field(w, 41, RANK_BITS)))
    else if k == 2 then Known(Pop)
    else Unknown
  }

  lemma {:induction false} DigitsLong(v: nat, width: nat)
    requires v >= Pow2(width)
    ensures |Digits(v)| > width
  {
    if width > 0 {
      DigitsLong(v / 2, width - 1);
    }
  }

  /** A printed field has its width exactly when the value fits, and is longer otherwise. */
  lemma FieldWidth(v: nat, width: nat)
    requires width >= 1
    ensures v < Pow2(width) ==> |Format(v, width)| == width && Value(Format(v, width)) == v
    ensures v >= Pow2(width) ==> |Format(v, width)| > width
  {
    if v < Pow2(width) {
      FormatExact(v, width);
    } else {
      DigitsLong(v, width);
    }
  }

  lemma SmallTypes()
    ensures 2 < Pow2(TYPE_BITS)
  {
  }

  lemma ZeroFits(width: nat)
    ensures 0 < Pow2(width)
  {
  }

  lemma PushRoundTrip(t: nat, m: nat, a: nat, b: nat)
    ensures |Encode(Push(t, m, a, b))| == TOTAL <==> Fits(Push(t, m, a, b))
    ensures Fits(Push(t, m, a, b)) ==> Decode(Encode(Push(t, m, a, b))) == Known(Push(t, m, a, b))
  {
    hide Format, Digits, Value, Pow2;
    SmallTypes();
    FieldWidth(1, TYPE_BITS);
    FieldWidth(t, TREE_BITS);
    FieldWidth(m, META_BITS);
    FieldWidth(a, RANK_BITS);
    FieldWidth(b, RANK_BITS);
    var w := Encode(Push(t, m, a, b));
    if Fits(Push(t, m, a, b)) {
      var f0, f1, f2, f3 := Format(1, TYPE_BITS), Format(t, TREE_BITS), Format(m, META_BITS), Format(a, RANK_BITS);
      assert w[0..2] == f0;
      assert w[2..4] == f1;
      assert w[4..17] == f2;
      assert w[17..41] == f3;
      assert w[41..65] == Format(b, RANK_BITS);
    }
  }

  lemma IdleRoundTrip(c: nat)
    ensures |Encode(Idle(c))| == TOTAL <==> Fits(Idle(c))
    ensures Fits(Idle(c)) ==> Decode(Encode(Idle(c))) == Known(Idle(c))
  {
    hide Format, Digits, Value, Pow2;
    SmallTypes();
    ZeroFits(PUSH_BITS - IDLE_BITS);
    FieldWidth(0, TYPE_BITS);
    FieldWidth(0, PUSH_BITS - IDLE_BITS);
    FieldWidth(c, IDLE_BITS);
    var w := Encode(Idle(c));
    if Fits(Idle(c)) {
      assert w[0..2] == Format(0, TYPE_BITS);
      assert w[57..65] == Format(c, IDLE_BITS);
    }
  }

  /** Every line is one ROM word exactly when its fields fit, and then it decodes to the same record. */
  lemma RomRoundTrip(r: Record)
    ensures |Encode(r)| == TOTAL <==> Fits(r)
    ensures Fits(r) ==> Decode(Encode(r)) == Known(r)
  {
    match r
    case Idle(c) => IdleRoundTrip(c);
    case Push(t, m, a, b) => PushRoundTrip(t, m, a, b);
    case Pop =>
      hide Format, Digits, Value, Pow2;
      SmallTypes();
      ZeroFits(TOTAL - TYPE_BITS);
      FieldWidth(2, TYPE_BITS);
      FieldWidth(0, TOTAL - TYPE_BITS);
      assert Encode(Pop)[0..2] == Format(2, TYPE_BITS);
  }

  // ---------- a word as a number ----------

  /** The number a word stands for, field after field from the type on; padding is zero. */
  function Number(r: Record): nat {
    match r
    case Idle(c) => c
    case Push(t, m, a, b) => (((1 * Pow2(2) + t) * Pow2(13) + m) * Pow2(24) + a) * Pow2(24) + b
    case Pop => 2 * Pow2(63)
  }

  /** A word whose fields fit stands for its number. */
  lemma WordIsNumber(r: Record)
    requires Fits(r)
    ensures Value(Encode(r)) == Number(r)
  {
    hide Format, Digits, Value, Pow2;
    SmallTypes();
    FieldWidth(0, TYPE_BITS);
    FieldWidth(1, TYPE_BITS);
    FieldWidth(2, TYPE_BITS);
    match r
    case Idle(c) =>
      ZeroFits(PUSH_BITS - IDLE_BITS);
      FieldWidth(0, PUSH_BITS - IDLE_BITS);
      FieldWidth(c, IDLE_BITS);
      ValueAppend(Format(0, TYPE_BITS), Format(0, PUSH_BITS - IDLE_BITS));
      ValueAppend(Format(0, TYPE_BITS) + Format(0, PUSH_BITS - IDLE_BITS), Format(c, IDLE_BITS));
    case Push(t, m, a, b) =>
      FieldWidth(t, TREE_BITS);
      FieldWidth(m, META_BITS);
      FieldWidth(a, RANK_BITS);
      FieldWidth(b, RANK_BITS);
      var w1 := Format(1, TYPE_BITS) + Format(t, TREE_BITS);
      ValueAppend(Format(1, TYPE_BITS), Format(t, TREE_BITS));
      ValueAppend(w1, Format(m, META_BITS));
      ValueAppend(w1 + Format(m, META_BITS), Format(a, RANK_BITS));
      ValueAppend(w1 + Format(m, META_BITS) + Format(a, RANK_BITS), Format(b, RANK_BITS));
    case Pop =>
      ZeroFits(TOTAL - TYPE_BITS);
      FieldWidth(0, TOTAL - TYPE_BITS);
      ValueAppend(Format(2, TYPE_BITS), Format(0, TOTAL - TYPE_BITS));
  }
}
