/**
 The token bucket of a transmit port.  Tokens and times are 64-bit unsigned words; the
 bucket size is a 32-bit word, and so is the cap that is computed from it.
 */
module TokenBucket {
  const WORD: nat := 0x1_0000_0000_0000_0000
  const HALF_WORD: nat := 0x1_0000_0000
  const SCALE: nat := 0x10_0000

  function Wrap(x: int): nat {
    x % WORD
  }

  /** What `rte_ring_sc_dequeue` finds: nothing, or a packet of some length. */
  datatype Ring = NoPacket | Head(len: nat)

  /** `limited` is false when the configured rate is zero. */
  datatype Config = Config(limited: bool, rate: nat, bucket: nat)

  datatype Port = Port(token: nat, prevTime: nat, sent: nat)

  function Start(cfg: Config, now: nat): Port {
    Port(cfg.bucket, now, 0)
  }

  /** The tokens in hand after generating for the time since the last call, capped at two buckets. */
  function Generated(p: Port, cfg: Config, now: nat): nat {
    var grown := Wrap(p.token + Wrap(cfg.rate * Wrap(now - p.prevTime)) / SCALE);
    var cap := (2 * cfg.bucket) % HALF_WORD;
    if grown < cap then grown else cap
  }

  /** One call: generate, wait until a full bucket is there, then send the head of the ring if there is one. */
  function Step(p: Port, cfg: Config, now: nat, ring: Ring): Port {
    var token := if cfg.limited then Generated(p, cfg, now) else p.token;
    var time := if cfg.limited then now else p.prevTime;
    if cfg.limited && token < cfg.bucket then Port(token, time, p.sent)
    else if ring.NoPacket? then Port(p.token, time, p.sent)
    else Port(if cfg.limited then Wrap(token - ring.len) else p.token, time, p.sent + ring.len)
  }

  class TxPort {
    const cfg: Config
    var token: nat
    var prevTime: nat
    var sent: nat

    ghost function View(): Port
      reads this
    {
      Port(token, prevTime, sent)
    }

    constructor (cfg: Config, now: nat)
      ensures this.cfg == cfg && View() == Start(cfg, now)
    {
      this.cfg := cfg;
      token := cfg.bucket;
      prevTime := now;
      sent := 0;
    }

    method Transmit(now: nat, ring: Ring)
      modifies this`token, this`prevTime, this`sent
      ensures View() == Step(old(View()), cfg, now, ring)
    {
      hide Wrap;
      var t := token;
      if cfg.limited {
        t := Wrap(t + Wrap(cfg.rate * Wrap(now - prevTime)) / SCALE);
        var cap := (2 * cfg.bucket) % HALF_WORD;
        if cap <= t {
          t := cap;
        }
        prevTime := now;
        if t < cfg.bucket {
          token := t;
          return;
        }
      }
      if ring.NoPacket? {
        return;
      }
      sent := sent + ring.len;
      if cfg.limited {
        token := Wrap(t - ring.len);
      }
    }
  }

  // ---------- runs ----------

  datatype Call = Call(now: nat, ring: Ring)

  function Run(p: Port, cfg: Config, calls: seq<Call>): Port
    decreases |calls|
  {
    if calls == [] then p
    else
      var last := |calls| - 1;
      Step(Run(p, cfg, calls[..last]), cfg, calls[last].now, calls[last].ring)
  }

  function LastTime(t0: nat, calls: seq<Call>): nat {
    if calls == [] then t0 else calls[|calls| - 1].now
  }

  /** The rate is positive and two buckets fit in 32 bits. */
  predicate ConfigOk(cfg: Config) {
    cfg.limited && 2 * cfg.bucket < HALF_WORD
  }

  /** The clock does not go back, no product overflows, and a length is a 32-bit word. */
  ghost predicate ClockOk(cfg: Config, before: nat, c: Call) {
    && before <= c.now < WORD
    && cfg.rate * (c.now - before) < WORD
    && (c.ring.Head? ==> c.ring.len < HALF_WORD)
  }

  ghost predicate ClocksOk(cfg: Config, t0: nat, calls: seq<Call>) {
    forall k | 0 <= k < |calls| :: ClockOk(cfg, LastTime(t0, calls[..k]), calls[k])
  }

  /** If the call sends its packet, the tokens in hand cover it. */
  predicate Covered(p: Port, cfg: Config, c: Call) {
    Generated(p, cfg, c.now) >= cfg.bucket && c.ring.Head? ==> c.ring.len <= Generated(p, cfg, c.now)
  }

  ghost predicate AllCovered(cfg: Config, t0: nat, calls: seq<Call>) {
    forall k | 0 <= k < |calls| :: Covered(Run(Start(cfg, t0), cfg, calls[..k]), cfg, calls[k])
  }

  function Earned(cfg: Config, elapsed: nat): nat {
    cfg.rate * elapsed / SCALE
  }

  lemma WrapId(x: nat)
    requires x < WORD
    ensures Wrap(x) == x
  {
  }

  /** Without overflow the bucket grows by what the elapsed time earns, up to the cap. */
  lemma GeneratedExact(p: Port, cfg: Config, now: nat)
    requires ConfigOk(cfg) && p.token <= 2 * cfg.bucket && p.prevTime <= now < WORD
    requires cfg.rate * (now - p.prevTime) < WORD
    ensures Generated(p, cfg, now) <= p.token + Earned(cfg, now - p.prevTime)
    ensures Generated(p, cfg, now) <= 2 * cfg.bucket
    ensures Generated(p, cfg, now) == if p.token + Earned(cfg, now - p.prevTime) < 2 * cfg.bucket
                                      then p.token + Earned(cfg, now - p.prevTime) else 2 * cfg.bucket
  {
    hide Wrap;
    var x := cfg.rate * (now - p.prevTime);
    WrapId(now - p.prevTime);
    WrapId(x);
    ShiftBelow(x);
    WrapId(p.token + x / SCALE);
  }

  lemma ShiftBelow(x: nat)
    requires x < WORD
    ensures x / SCALE < WORD / SCALE
  {
  }

  /**
   Tokens stay within two buckets, and bytes sent plus tokens grow by no more than time
   earns, if and only if the tokens cover what the call sends.
   */
  lemma StepConforms(p: Port, cfg: Config, c: Call)
    requires ConfigOk(cfg) && p.token <= 2 * cfg.bucket && ClockOk(cfg, p.prevTime, c)
    ensures var q := Step(p, cfg, c.now, c.ring);
            && q.prevTime == c.now
            && (Covered(p, cfg, c) <==> q.token <= 2 * cfg.bucket)
            && (Covered(p, cfg, c) <==> q.sent + q.token <= p.sent + p.token + Earned(cfg, c.now - p.prevTime))
  {
    hide Generated, Earned, Wrap;
    GeneratedExact(p, cfg, c.now);
    EarnedBelow(cfg, c.now - p.prevTime);
    var token := Generated(p, cfg, c.now);
    if token >= cfg.bucket && c.ring.Head? {
      if c.ring.len <= token {
        WrapId(token - c.ring.len);
      } else {
        WrapBelow(token - c.ring.len);
      }
    }
  }

  lemma EarnedBelow(cfg: Config, elapsed: nat)
    requires cfg.rate * elapsed < WORD
    ensures Earned(cfg, elapsed) < WORD / SCALE
  {
    ShiftBelow(cfg.rate * elapsed);
  }

  lemma WrapBelow(x: int)
    requires x < 0 <= x + WORD
    ensures Wrap(x) == x + WORD
  {
  }

  lemma EarnedAdds(cfg: Config, a: nat, b: nat)
    ensures Earned(cfg, a) + Earned(cfg, b) <= Earned(cfg, a + b)
  {
    var x, y := cfg.rate * a, cfg.rate * b;
    assert cfg.rate * (a + b) == x + y;
    DivAdds(x, y);
  }

  lemma DivAdds(x: nat, y: nat)
    ensures x / SCALE + y / SCALE <= (x + y) / SCALE
  {
  }

  /** Tokens within two buckets, and bytes sent plus tokens within one bucket and what time earned. */
  ghost predicate Conforms(cfg: Config, t0: nat, calls: seq<Call>) {
    var p := Run(Start(cfg, t0), cfg, calls);
    && t0 <= LastTime(t0, calls) == p.prevTime
    && p.token <= 2 * cfg.bucket
    && p.sent + p.token <= cfg.bucket + Earned(cfg, LastTime(t0, calls) - t0)
  }

  /** One more call from a state that conforms. */
  lemma ConformsStep(cfg: Config, t0: nat, calls: seq<Call>, last: nat)
    requires ConfigOk(cfg) && |calls| == last + 1 && Conforms(cfg, t0, calls[..last])
    requires ClockOk(cfg, LastTime(t0, calls[..last]), calls[last])
    ensures Conforms(cfg, t0, calls) <==> Covered(Run(Start(cfg, t0), cfg, calls[..last]), cfg, calls[last])
  {
    hide Earned, Step, Covered;
    var p := Run(Start(cfg, t0), cfg, calls[..last]);
    StepConforms(p, cfg, calls[last]);
    EarnedAdds(cfg, p.prevTime - t0, calls[last].now - p.prevTime);
    assert calls[last].now - t0 == (p.prevTime - t0) + (calls[last].now - p.prevTime);
  }

  lemma ConformsAtStart(cfg: Config, t0: nat)
    ensures Conforms(cfg, t0, [])
  {
  }

  lemma FrontOk(cfg: Config, t0: nat, calls: seq<Call>, k: nat)
    requires ClocksOk(cfg, t0, calls) && k <= |calls|
    ensures ClocksOk(cfg, t0, calls[..k]) && (AllCovered(cfg, t0, calls) ==> AllCovered(cfg, t0, calls[..k]))
    ensures k < |calls| ==> ClockOk(cfg, LastTime(t0, calls[..k]), calls[k])
  {
    hide Run, ClockOk, LastTime, Covered;
    assert forall j | 0 <= j < k :: calls[..k][..j] == calls[..j];
  }

  lemma {:induction false} CoveredConforms(cfg: Config, t0: nat, calls: seq<Call>)
    requires ConfigOk(cfg) && ClocksOk(cfg, t0, calls) && AllCovered(cfg, t0, calls)
    ensures Conforms(cfg, t0, calls)
    decreases |calls|
  {
    hide Conforms, ClockOk, Covered, Run;
    if calls == [] {
      ConformsAtStart(cfg, t0);
    } else {
      var last := |calls| - 1;
      FrontOk(cfg, t0, calls, last);
      CoveredConforms(cfg, t0, calls[..last]);
      ConformsStep(cfg, t0, calls, last);
    }
  }

  /**
   The port conforms at every moment of a run if and only if the tokens cover every packet
   it sends.
   */
  lemma Conformance(cfg: Config, t0: nat, calls: seq<Call>)
    requires ConfigOk(cfg) && ClocksOk(cfg, t0, calls)
    ensures (forall k | 0 <= k <= |calls| :: Conforms(cfg, t0, calls[..k])) <==> AllCovered(cfg, t0, calls)
  {
    hide Conforms, ClocksOk, ClockOk, Covered, Run;
    if AllCovered(cfg, t0, calls) {
      forall k | 0 <= k <= |calls| ensures Conforms(cfg, t0, calls[..k]) {
        FrontOk(cfg, t0, calls, k);
        CoveredConforms(cfg, t0, calls[..k]);
      }
    }
    if forall k | 0 <= k <= |calls| :: Conforms(cfg, t0, calls[..k]) {
      forall k | 0 <= k < |calls| ensures Covered(Run(Start(cfg, t0), cfg, calls[..k]), cfg, calls[k]) {
        FrontOk(cfg, t0, calls, k);
        assert calls[..k + 1][..k] == calls[..k] && calls[..k + 1][k] == calls[k];
        ConformsStep(cfg, t0, calls[..k + 1], k);
      }
    }
  }

  /**
   With packets no longer than the bucket, over any run the port sends at most one bucket plus
   what the rate earns in the elapsed time, and its tokens stay between zero and two buckets.
   */
  lemma ShortPacketsConform(cfg: Config, t0: nat, calls: seq<Call>)
    requires ConfigOk(cfg) && ClocksOk(cfg, t0, calls)
    requires forall k | 0 <= k < |calls| && calls[k].ring.Head? :: calls[k].ring.len <= cfg.bucket
    ensures var p := Run(Start(cfg, t0), cfg, calls);
            && t0 <= LastTime(t0, calls)
            && p.token <= 2 * cfg.bucket
            && p.sent <= cfg.bucket + Earned(cfg, LastTime(t0, calls) - t0)
  {
    hide ClocksOk, Run, Generated, Earned, LastTime;
    CoveredConforms(cfg, t0, calls);
  }

  /** A send takes exactly the packet's length from the tokens if and only if the tokens cover it. */
  lemma SendIsExact(p: Port, cfg: Config, c: Call)
    requires ConfigOk(cfg) && p.token <= 2 * cfg.bucket && ClockOk(cfg, p.prevTime, c)
    requires c.ring.Head? && Generated(p, cfg, c.now) >= cfg.bucket
    ensures Step(p, cfg, c.now, c.ring).token == Generated(p, cfg, c.now) - c.ring.len <==> Covered(p, cfg, c)
  {
    hide Generated, Wrap;
    GeneratedExact(p, cfg, c.now);
    var token := Generated(p, cfg, c.now);
    if c.ring.len <= token {
      WrapId(token - c.ring.len);
    }
  }

  /**
   A configured bucket is longer than the shortest frame and may be shorter than the longest.
   Two packets of 1500 bytes go out through a bucket of 100 in no time at all.
   */
  lemma OversizedPacketEscapes()
    ensures var cfg := Config(true, 1, 100);
            var big := Call(5, Head(1500));
            && ConfigOk(cfg) && ClocksOk(cfg, 5, [big, big])
            && Run(Start(cfg, 5), cfg, [big, big]).sent == 3000 > cfg.bucket + Earned(cfg, 0)
  {
    var cfg := Config(true, 1, 100);
    var big := Call(5, Head(1500));
    var p0 := Start(cfg, 5);
    var p1 := Step(p0, cfg, 5, Head(1500));
    assert p1.token == WORD - 1400;
    assert [big, big][..1] == [big] && [big][..0] == [];
    assert Run(p0, cfg, [big]) == p1;
    assert Generated(p1, cfg, 5) == 200;
  }

  // ---------- what a call does, without overflow ----------

  /** What was in hand and what the time since then earned, up to two buckets. */
  function Have(p: Port, cfg: Config, now: nat): nat {
    var earned := p.token + Earned(cfg, if now < p.prevTime then 0 else now - p.prevTime);
    if earned < 2 * cfg.bucket then earned else 2 * cfg.bucket
  }

  /**
   With less than a bucket in hand a call only earns.  With a bucket or more it keeps what it
   had before if there is no packet, so what it earned is lost, and else sends and pays.
   */
  lemma StepIs(p: Port, cfg: Config, c: Call)
    requires ConfigOk(cfg) && p.token <= 2 * cfg.bucket && ClockOk(cfg, p.prevTime, c) && Covered(p, cfg, c)
    ensures var have := Have(p, cfg, c.now);
            var q := Step(p, cfg, c.now, c.ring);
            if have < cfg.bucket then q == Port(have, c.now, p.sent)
            else if c.ring.NoPacket? then q == Port(p.token, c.now, p.sent)
            else q.token + c.ring.len == have && q.prevTime == c.now && q.sent == p.sent + c.ring.len
  {
    hide Generated, Earned, Wrap;
    GeneratedExact(p, cfg, c.now);
    if Generated(p, cfg, c.now) >= cfg.bucket && c.ring.Head? {
      WrapId(Generated(p, cfg, c.now) - c.ring.len);
    }
  }

  /** With a full bucket or more, an empty ring leaves the tokens as they are, however long it lasts. */
  lemma {:induction false} EmptyRingEarnsNothing(p: Port, cfg: Config, calls: seq<Call>)
    requires ConfigOk(cfg) && cfg.bucket <= p.token <= 2 * cfg.bucket && ClocksOk(cfg, p.prevTime, calls)
    requires forall k | 0 <= k < |calls| :: calls[k].ring.NoPacket?
    ensures Run(p, cfg, calls) == Port(p.token, LastTime(p.prevTime, calls), p.sent)
    decreases |calls|
  {
    hide ClockOk, Step, Earned, Generated;
    if calls != [] {
      var last := |calls| - 1;
      FrontClocks(cfg, p.prevTime, calls, last);
      EmptyRingEarnsNothing(p, cfg, calls[..last]);
      StepIs(Run(p, cfg, calls[..last]), cfg, calls[last]);
    }
  }

  lemma FrontClocks(cfg: Config, t0: nat, calls: seq<Call>, k: nat)
    requires ClocksOk(cfg, t0, calls) && k < |calls|
    ensures ClocksOk(cfg, t0, calls[..k]) && ClockOk(cfg, LastTime(t0, calls[..k]), calls[k])
  {
    hide ClockOk, LastTime;
    assert forall j | 0 <= j < k :: calls[..k][..j] == calls[..j];
  }

  /** A port that never finds a packet has its bucket full, and no more, at every time. */
  lemma StaysAtOneBucket(cfg: Config, t0: nat, calls: seq<Call>)
    requires ConfigOk(cfg) && ClocksOk(cfg, t0, calls)
    requires forall k | 0 <= k < |calls| :: calls[k].ring.NoPacket?
    ensures Run(Start(cfg, t0), cfg, calls) == Port(cfg.bucket, LastTime(t0, calls), 0)
  {
    EmptyRingEarnsNothing(Start(cfg, t0), cfg, calls);
  }

  const ONE_PER_CYCLE := Config(true, 0x10_0000, 3200)

  lemma IdleThenSend()
    ensures Step(Port(3200, 0, 0), ONE_PER_CYCLE, 1000, NoPacket) == Port(3200, 1000, 0)
    ensures Step(Port(3200, 1000, 0), ONE_PER_CYCLE, 1000, Head(1500)) == Port(1700, 1000, 1500)
  {
  }

  lemma WaitThenSend()
    ensures Step(Port(1700, 1000, 1500), ONE_PER_CYCLE, 1500, Head(1500)) == Port(2200, 1500, 1500)
    ensures Step(Port(2200, 1500, 1500), ONE_PER_CYCLE, 2500, Head(1500)) == Port(1700, 2500, 3000)
  {
  }

  /**
   A bucket of 3200 and one token a cycle.  A thousand cycles on an empty ring earn nothing, so
   that after a packet of 1500 bytes the next one still waits 500 cycles later; it goes after
   another thousand.
   */
  lemma WaitsAfterIdling()
    ensures var idle, first, second, third := Call(1000, NoPacket), Call(1000, Head(1500)), Call(1500, Head(1500)), Call(2500, Head(1500));
            && ConfigOk(ONE_PER_CYCLE) && Start(ONE_PER_CYCLE, 0) == Port(3200, 0, 0)
            && Run(Port(3200, 0, 0), ONE_PER_CYCLE, [idle, first, second]) == Port(2200, 1500, 1500)
            && Run(Port(3200, 0, 0), ONE_PER_CYCLE, [idle, first, second, third]) == Port(1700, 2500, 3000)
  {
    hide Step;
    IdleThenSend();
    WaitThenSend();
    var p0 := Port(3200, 0, 0);
    var idle, first, second, third := Call(1000, NoPacket), Call(1000, Head(1500)), Call(1500, Head(1500)), Call(2500, Head(1500));
    assert [idle, first, second, third][..3] == [idle, first, second] && [idle, first, second][..2] == [idle, first];
    assert [idle, first][..1] == [idle] && [idle][..0] == [];
    assert Run(p0, ONE_PER_CYCLE, [idle]) == Port(3200, 1000, 0);
    assert Run(p0, ONE_PER_CYCLE, [idle, first]) == Port(1700, 1000, 1500);
    assert Run(p0, ONE_PER_CYCLE, [idle, first, second]) == Port(2200, 1500, 1500);
  }

  /** Without a rate the port sends every packet at once and keeps no account. */
  lemma UnlimitedSends(p: Port, cfg: Config, now: nat, ring: Ring)
    requires !cfg.limited
    ensures Step(p, cfg, now, ring) == p.(sent := p.sent + (if ring.Head? then ring.len else 0))
  {
  }
}
