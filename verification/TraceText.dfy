/**
 The text of the trace: how a line is printed, and how the scheduler reads it back by
 picking the digits out of each blank-separated word.
 */
module TraceText {
  // ---------- digits ----------

  predicate IsDigit(c: char) {
    '0' <= c <= '9'
  }

  function DigitOf(c: char): (d: nat)
    requires IsDigit(c)
    ensures d < 10
  {
    (c - '0') as int
  }

  /** The digits of a word, from left to right. */
  function DigitsIn(s: string): seq<nat> {
    if s == [] then []
    else DigitsIn(s[..|s| - 1]) + (if IsDigit(s[|s| - 1]) then [DigitOf(s[|s| - 1])] else [])
  }

  function Fold(ds: seq<nat>): nat {
    if ds == [] then 0 else Fold(ds[..|ds| - 1]) * 10 + ds[|ds| - 1]
  }

  /** The number the digits of a word make after `skip` of them are left out. */
  function Number(s: string, skip: nat): nat {
    var ds := DigitsIn(s);
    if |ds| <= skip then 0 else Fold(ds[skip..])
  }

  lemma {:induction false} DigitsInAppend(a: string, b: string)
    ensures DigitsIn(a + b) == DigitsIn(a) + DigitsIn(b)
    decreases |b|
  {
    if b == [] {
      assert a + b == a;
    } else {
      assert (a + b)[..|a + b| - 1] == a + b[..|b| - 1];
      DigitsInAppend(a, b[..|b| - 1]);
    }
  }

  method GetNumber(s: string, skipNum: nat) returns (ret: nat)
    ensures ret == Number(s, skipNum)
  {
    assert s[..0] == "" && DigitsIn("") == [] && Number("", skipNum) == 0;
    hide Number, DigitsIn;
    ret := 0;
    var skip := skipNum;
    var i := 0;
    while i < |s|
      invariant 0 <= i <= |s|
      invariant ret == Number(s[..i], skipNum)
      invariant skip == if |DigitsIn(s[..i])| <= skipNum then skipNum - |DigitsIn(s[..i])| else 0
    {
      NextChar(s, i, skipNum);
      if IsDigit(s[i]) {
        if skip > 0 {
          skip := skip - 1;
        } else {
          ret := ret * 10 + DigitOf(s[i]);
        }
      }
      i := i + 1;
    }
    assert s[..|s|] == s;
  }

  /** What one more character does to the digits and to the number. */
  lemma NextChar(s: string, i: nat, skip: nat)
    requires i < |s|
    ensures |DigitsIn(s[..i + 1])| == |DigitsIn(s[..i])| + (if IsDigit(s[i]) then 1 else 0)
    ensures Number(s[..i + 1], skip) ==
            if !IsDigit(s[i]) || |DigitsIn(s[..i])| < skip then Number(s[..i], skip)
            else Number(s[..i], skip) * 10 + DigitOf(s[i])
  {
    var ds := DigitsIn(s[..i]);
    assert s[..i + 1][..i] == s[..i];
    if IsDigit(s[i]) {
      assert DigitsIn(s[..i + 1]) == ds + [DigitOf(s[i])];
      hide DigitsIn;
      if |ds| >= skip {
        assert (ds + [DigitOf(s[i])])[skip..] == ds[skip..] + [DigitOf(s[i])];
        FoldAppend(ds[skip..], DigitOf(s[i]));
      }
    } else {
      assert DigitsIn(s[..i + 1]) == ds + [] && ds + [] == ds;
    }
  }

  lemma FoldAppend(ds: seq<nat>, d: nat)
    ensures Fold(ds + [d]) == Fold(ds) * 10 + d
  {
    assert (ds + [d])[..|ds|] == ds;
  }

  // ---------- printing a number ----------

  function DigitChar(d: nat): (c: char)
    requires d < 10
    ensures IsDigit(c) && DigitOf(c) == d
  {
    '0' + d as char
  }

  function Decimal(n: nat): (s: string)
    ensures |s| >= 1
  {
    if n < 10 then [DigitChar(n)] else Decimal(n / 10) + [DigitChar(n % 10)]
  }

  function Printed(n: int): string {
    if n < 0 then "-" + Decimal(-n) else Decimal(n)
  }

  function Abs(n: int): nat {
    if n < 0 then -n else n
  }

  lemma {:induction false} DecimalReads(n: nat)
    ensures Fold(DigitsIn(Decimal(n))) == n && |DigitsIn(Decimal(n))| >= 1
  {
    if n < 10 {
      var c := DigitChar(n);
      assert [c][..0] == [];
      assert DigitsIn([c]) == [n];
      assert [n][..0] == [];
      assert Fold([n]) == n;
    } else {
      DecimalReads(n / 10);
      var s := Decimal(n / 10);
      var c := DigitChar(n % 10);
      assert (s + [c])[..|s|] == s;
      FoldAppend(DigitsIn(s), n % 10);
    }
  }

  lemma {:induction false} PlainText(s: string)
    requires forall k | 0 <= k < |s| :: !IsDigit(s[k])
    ensures DigitsIn(s) == []
  {
    if s != [] {
      PlainText(s[..|s| - 1]);
    }
  }

  /** A word is a name with `skip` digits in it, a printed number, and a tail without digits. */
  lemma WordReads(name: string, n: int, tail: string, skip: nat)
    requires |DigitsIn(name)| == skip && DigitsIn(tail) == []
    ensures Number(name + Printed(n) + tail, skip) == Abs(n)
  {
    hide Fold;
    var w := name + Printed(n) + tail;
    DigitsInAppend(name + Printed(n), tail);
    DigitsInAppend(name, Printed(n));
    DecimalReads(Abs(n));
    if n < 0 {
      DigitsInAppend("-", Decimal(-n));
      PlainText("-");
    }
    var ds := DigitsIn(Decimal(Abs(n)));
    assert DigitsIn(Printed(n)) == ds;
    assert DigitsIn(w) == DigitsIn(name) + ds;
    assert DigitsIn(w)[skip..] == ds;
  }

  // ---------- lines ----------

  datatype Record = Idle(cycles: int) | Push(tree: int, meta: int, rank0: int, rank1: int) | Pop

  /** The words of a printed line. */
  function Words(r: Record): seq<string> {
    match r
    case Idle(c) => ["type:" + Printed(0) + ",", "idle_cycle:" + Printed(c) + ""]
    case Push(t, m, a, b) =>
      ["type:" + Printed(1) + ",", "tree_id:" + Printed(t) + ",", "meta:" + Printed(m) + ",",
       "priority0:" + Printed(a) + ",", "priority1:" + Printed(b) + ""]
    case Pop => ["type:" + Printed(2) + ""]
  }

  /** A line of a type that is none of the three is passed over, one word at a time. */
  datatype Outcome = Done | Skip(rest: seq<string>) | More(record: Record, rest: seq<string>)

  /** One call of the reader on the words that are left. */
  function ReadLine(ws: seq<string>): Outcome {
    if ws == [] then Done
    else
      var kind := Number(ws[0], 0);
      if kind == 2 then More(Pop, ws[1..])
      else if kind == 1 && |ws| >= 5 then
        More(Push(Number(ws[1], 0), Number(ws[2], 0), Number(ws[3], 1), Number(ws[4], 1)), ws[5..])
      else if kind == 0 && |ws| >= 2 then More(Idle(Number(ws[1], 0)), ws[2..])
      else if kind > 2 then Skip(ws[1..])
      else Done
  }

  /** What a record reads back as: the digits of a negative number lose their sign. */
  function Unsigned(r: Record): Record {
    match r
    case Idle(c) => Idle(Abs(c))
    case Push(t, m, a, b) => Push(Abs(t), Abs(m), Abs(a), Abs(b))
    case Pop => Pop
  }

  predicate NonNegative(r: Record) {
    match r
    case Idle(c) => c >= 0
    case Push(t, m, a, b) => t >= 0 && m >= 0 && a >= 0 && b >= 0
    case Pop => true
  }

  lemma Names()
    ensures DigitsIn("type:") == [] && DigitsIn("tree_id:") == [] && DigitsIn("meta:") == []
    ensures DigitsIn("idle_cycle:") == [] && DigitsIn(",") == [] && DigitsIn("") == []
    ensures |DigitsIn("priority0:")| == 1 && |DigitsIn("priority1:")| == 1
  {
    PlainText("type:");
    PlainText("tree_id:");
    PlainText("meta:");
    PlainText("idle_cycle:");
    PlainText(",");
    OneDigit('0');
    OneDigit('1');
    assert "priority0:" == "priority" + ['0'] + ":" && "priority1:" == "priority" + ['1'] + ":";
  }

  lemma OneDigit(c: char)
    requires IsDigit(c)
    ensures |DigitsIn("priority" + [c] + ":")| == 1
  {
    PlainText("priority");
    PlainText(":");
    DigitsInAppend("priority" + [c], ":");
    DigitsInAppend("priority", [c]);
    assert [c][..0] == [];
    assert DigitsIn([c]) == [DigitOf(c)];
  }

  /** Reading the words of a printed line, with anything after them, gives the record without its signs. */
  lemma LineReads(r: Record, rest: seq<string>)
    ensures ReadLine(Words(r) + rest) == More(Unsigned(r), rest)
  {
    hide DigitsIn, Printed, Number;
    Names();
    var ws := Words(r) + rest;
    match r
    case Idle(c) =>
      WordReads("type:", 0, ",", 0);
      WordReads("idle_cycle:", c, "", 0);
      assert ws[2..] == rest;
    case Push(t, m, a, b) =>
      WordReads("type:", 1, ",", 0);
      WordReads("tree_id:", t, ",", 0);
      WordReads("meta:", m, ",", 0);
      WordReads("priority0:", a, ",", 1);
      WordReads("priority1:", b, "", 1);
      assert ws[5..] == rest;
    case Pop =>
      WordReads("type:", 2, "", 0);
      assert ws[1..] == rest;
  }

  // ---------- whole traces ----------

  function AllWords(rs: seq<Record>): seq<string> {
    if rs == [] then [] else Words(rs[0]) + AllWords(rs[1..])
  }

  function ReadAll(ws: seq<string>): seq<Record>
    decreases |ws|
  {
    match ReadLine(ws)
    case Done => []
    case Skip(rest) => ReadAll(rest)
    case More(r, rest) => [r] + ReadAll(rest)
  }

  lemma {:induction false} TraceReads(rs: seq<Record>)
    ensures |ReadAll(AllWords(rs))| == |rs|
    ensures forall k | 0 <= k < |rs| :: ReadAll(AllWords(rs))[k] == Unsigned(rs[k])
  {
    if rs != [] {
      hide Words, ReadLine, Unsigned;
      LineReads(rs[0], AllWords(rs[1..]));
      TraceReads(rs[1..]);
      assert ReadAll(AllWords(rs)) == [Unsigned(rs[0])] + ReadAll(AllWords(rs[1..]));
    }
  }

  /** A trace reads back as it was printed if and only if no number in it is negative. */
  lemma TraceRoundTrip(rs: seq<Record>)
    ensures |ReadAll(AllWords(rs))| == |rs|
    ensures ReadAll(AllWords(rs)) == rs <==> forall k | 0 <= k < |rs| :: NonNegative(rs[k])
  {
    hide ReadAll, AllWords, Unsigned, NonNegative;
    TraceReads(rs);
    forall k | 0 <= k < |rs| ensures Unsigned(rs[k]) == rs[k] <==> NonNegative(rs[k]) {
      SignsMatter(rs[k]);
    }
  }

  /** A word of a type that is none of the three is passed over. */
  lemma UnknownTypePassedOver(w: string, ws: seq<string>)
    requires Number(w, 0) >= 3
    ensures ReadAll([w] + ws) == ReadAll(ws)
  {
    hide Number;
    assert ([w] + ws)[0] == w && ([w] + ws)[1..] == ws;
  }

  /** The words of three lines, as they are printed. */
  lemma PrintedWords()
    ensures Words(Push(1, 20, 3, 4)) == ["type:1,", "tree_id:1,", "meta:20,", "priority0:3,", "priority1:4"]
    ensures Words(Idle(10)) == ["type:0,", "idle_cycle:10"] && Words(Pop) == ["type:2"]
  {
    assert Decimal(2) == "2" && Decimal(1) == "1";
    assert Decimal(20) == "2" + "0" && Decimal(10) == "1" + "0";
    assert Printed(20) == "20" && Printed(10) == "10";
    assert Printed(0) == "0" && Printed(1) == "1" && Printed(2) == "2" && Printed(3) == "3" && Printed(4) == "4";
    hide Printed;
    assert "type:" + "1" + "," == "type:1," && "tree_id:" + "1" + "," == "tree_id:1," && "meta:" + "20" + "," == "meta:20,";
    assert "priority0:" + "3" + "," == "priority0:3," && "priority1:" + "4" + "" == "priority1:4";
    assert "type:" + "0" + "," == "type:0," && "idle_cycle:" + "10" + "" == "idle_cycle:10" && "type:" + "2" + "" == "type:2";
  }

  /** A rank of -1 reads back as 1. */
  lemma NegativeRankMisread()
    ensures ReadAll(AllWords([Push(1, 0, -1, 0)])) == [Push(1, 0, 1, 0)]
  {
    hide ReadAll, AllWords;
    TraceReads([Push(1, 0, -1, 0)]);
  }

  lemma SignsMatter(r: Record)
    ensures Unsigned(r) == r <==> NonNegative(r)
  {
  }
}
