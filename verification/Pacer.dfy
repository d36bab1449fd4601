/** The departure-time pacer (src/cgroup_rate_limit.bpf.c): one virtual clock per cgroup says
    when the next packet may leave. `Process` is the program on unbounded integers; the
    program's own 64-bit arithmetic is in `Program` and is proved never to wrap. */
module Pacer {
  import opened Options

  const NS_PER_SEC := 1_000_000_000
  const DROP_HORIZON := 2 * NS_PER_SEC
  const WORD := 0x1_0000_0000_0000_0000
  const RATE_UNLIMITED := WORD - 1

  /** struct rate_limit */
  datatype Limit = Limit(byteRate: nat, packetRate: nat)

  datatype Packet = Packet(len: nat, now: nat, limit: Option<Limit>)

  /** TC_ACT_OK with no time stamp, TC_ACT_OK with one, TC_ACT_SHOT. */
  datatype Verdict = Pass | Stamped(ts: nat) | Shot

  // ----- delays

  /** `x / r`, rounded to nearest. */
  function RoundDiv(x: nat, r: nat): (q: nat)
    requires r > 0
    ensures 2 * x - (r - 1) <= 2 * (q * r) <= 2 * x + r
  {
    RoundDivBounds(x, r, (x + r / 2) / r);
    (x + r / 2) / r
  }

  lemma RoundDivBounds(x: nat, r: nat, q: int)
    requires r > 0 && q == (x + r / 2) / r
    ensures 0 <= q && 2 * x - (r - 1) <= 2 * (q * r) <= 2 * x + r
  {
    var rem := (x + r / 2) % r;
    assert q * r + rem == x + r / 2;
  }

  function ByteDelay(l: Limit, len: nat): nat
    requires l.byteRate > 0
  {
    if l.byteRate == RATE_UNLIMITED then 0 else RoundDiv(len * NS_PER_SEC, l.byteRate)
  }

  function PacketDelay(l: Limit): nat
    requires l.packetRate > 0
  {
    if l.packetRate == RATE_UNLIMITED then 0 else RoundDiv(NS_PER_SEC, l.packetRate)
  }

  function Delay(l: Limit, len: nat): nat
    requires l.byteRate > 0 && l.packetRate > 0
  {
    if PacketDelay(l) > ByteDelay(l, len) then PacketDelay(l) else ByteDelay(l, len)
  }

  predicate Blocked(l: Limit) {
    l.byteRate == 0 || l.packetRate == 0
  }

  // ----- one packet

  /** The virtual clock gives a packet its departure time and is charged with its delay. A
      packet too far ahead of the real clock is dropped. */
  function Schedule(cell: Option<nat>, now: nat, delay: nat): (r: (Verdict, Option<nat>))
    ensures r.0.Stamped? ==> now <= r.0.ts <= now + DROP_HORIZON && r.1 == Some(r.0.ts + delay)
    ensures r.0.Stamped? && cell.Some? ==> r.0.ts >= cell.value
    ensures !r.0.Stamped? ==> r.1 == cell && cell.Some? && cell.value > now + DROP_HORIZON
  {
    if cell.None? || cell.value < now then (Stamped(now), Some(now + delay))
    else if cell.value > now + DROP_HORIZON then (Shot, cell)
    else (Stamped(cell.value), Some(cell.value + delay))
  }

  /** The program on one packet, given the virtual clock of its cgroup. */
  function Process(cell: Option<nat>, p: Packet): (Verdict, Option<nat>) {
    if p.limit.None? then (Pass, cell)
    else if Blocked(p.limit.value) then (Shot, cell)
    else Schedule(cell, p.now, Delay(p.limit.value, p.len))
  }

  /** The program's answer, for every packet: without a limit it passes; with a zero rate it is
      dropped; otherwise its departure time is the later of now and the virtual clock, and it is
      dropped exactly if that is more than the horizon away. Only a packet with a departure time
      moves the virtual clock, to that time and its delay. */
  lemma ProcessIs(cell: Option<nat>, p: Packet)
    ensures var (v, cell') := Process(cell, p);
            var at := if cell.Some? && cell.value > p.now then cell.value else p.now;
            && (v == Pass <==> p.limit == None)
            && (v == Shot <==> p.limit.Some? && (p.limit.value.byteRate == 0 || p.limit.value.packetRate == 0
                                                 || at > p.now + 2_000_000_000))
            && (v.Stamped? ==> v.ts == at && cell' == Some(at + Delay(p.limit.value, p.len)))
            && (!v.Stamped? ==> cell' == cell)
  {
  }

  /** A delay is what the tighter of the two rates asks for: no less than either of them, and no
      more than one of them. A rate that is unlimited asks for nothing. */
  lemma DelayIs(l: Limit, len: nat)
    requires l.byteRate > 0 && l.packetRate > 0
    ensures var d := Delay(l, len);
            && (l.byteRate != RATE_UNLIMITED ==> 2 * NS_PER_SEC * len <= 2 * (d * l.byteRate) + l.byteRate - 1)
            && (l.packetRate != RATE_UNLIMITED ==> 2 * NS_PER_SEC <= 2 * (d * l.packetRate) + l.packetRate - 1)
            && (|| d == 0
                || (l.byteRate != RATE_UNLIMITED && 2 * (d * l.byteRate) <= 2 * NS_PER_SEC * len + l.byteRate)
                || (l.packetRate != RATE_UNLIMITED && 2 * (d * l.packetRate) <= 2 * NS_PER_SEC + l.packetRate))
  {
    var b, p := ByteDelay(l, len), PacketDelay(l);
    AtLeastAsLong(b, Delay(l, len), l.byteRate);
    AtLeastAsLong(p, Delay(l, len), l.packetRate);
  }

  lemma AtLeastAsLong(a: nat, d: nat, r: nat)
    requires a <= d
    ensures a * r <= d * r
  {
  }

  // ----- the program

  function Add64(a: nat, b: nat): nat {
    (a + b) % WORD
  }

  function Mul64(a: nat, b: nat): nat {
    (a * b) % WORD
  }

  lemma RoundDivSmall(x: nat, r: nat)
    requires r > 0
    ensures RoundDiv(x, r) <= x + 1
  {
    var q := RoundDiv(x, r);
    if q > 0 {
      assert (q - 1) * r == q * r - r <= x;
      NoShrink(q - 1, r);
    }
  }

  lemma NoShrink(a: nat, r: nat)
    requires r > 0
    ensures a * r >= a
  {
  }

  /** A delay stays far below 64 bits when packets are shorter than 2^32. */
  lemma DelaySmall(l: Limit, len: nat)
    requires !Blocked(l) && len < 0x1_0000_0000
    ensures Delay(l, len) <= WORD / 4
  {
    if l.byteRate != RATE_UNLIMITED {
      RoundDivSmall(len * NS_PER_SEC, l.byteRate);
    }
    if l.packetRate != RATE_UNLIMITED {
      RoundDivSmall(NS_PER_SEC, l.packetRate);
    }
  }

  function Div64(a: nat, b: nat): nat
    requires b > 0
  {
    a / b
  }

  /** The machine's delay, with every operation modulo 2^64. */
  function MachineDelay(l: Limit, len: nat): nat
    requires !Blocked(l)
  {
    var byteDelay := if l.byteRate == RATE_UNLIMITED then 0
                     else Div64(Add64(Mul64(len, NS_PER_SEC), l.byteRate / 2), l.byteRate);
    var packetDelay := if l.packetRate == RATE_UNLIMITED then 0
                       else Div64(Add64(NS_PER_SEC, l.packetRate / 2), l.packetRate);
    if packetDelay > byteDelay then packetDelay else byteDelay
  }

  lemma NoWrap(l: Limit, len: nat)
    requires !Blocked(l) && len < 0x1_0000_0000 && l.byteRate < WORD && l.packetRate < WORD
    ensures MachineDelay(l, len) == Delay(l, len)
  {
    ByteSumFits(len, l.byteRate);
    Fits64(NS_PER_SEC + l.packetRate / 2);
  }

  lemma Fits64(x: nat)
    requires x < WORD
    ensures x % WORD == x
  {
  }

  lemma ByteSumFits(len: nat, rate: nat)
    requires len < 0x1_0000_0000 && rate < WORD
    ensures Mul64(len, NS_PER_SEC) == len * NS_PER_SEC
    ensures Add64(Mul64(len, NS_PER_SEC), rate / 2) == len * NS_PER_SEC + rate / 2
  {
    Fits64(len * NS_PER_SEC);
    Fits64(len * NS_PER_SEC + rate / 2);
  }

  /** rate_limit_priv of one cgroup, and the program that updates it. */
  class Program {
    var nextAvailTs: Option<nat>

    constructor ()
      ensures nextAvailTs == None
    {
      nextAvailTs := None;
    }

    /** cgroup_rate_limit, in the arithmetic of the machine. */
    method CgroupRateLimit(p: Packet) returns (v: Verdict)
      requires p.len < 0x1_0000_0000 && p.now < WORD / 2
      requires p.limit.Some? ==> p.limit.value.byteRate < WORD && p.limit.value.packetRate < WORD
      modifies this
      ensures (v, nextAvailTs) == Process(old(nextAvailTs), p)
    {
      if p.limit.None? {
        return Pass;
      }
      var l := p.limit.value;
      if l.byteRate == 0 || l.packetRate == 0 {
        return Shot;
      }
      var delay := MachineDelay(l, p.len);
      NoWrap(l, p.len);
      DelaySmall(l, p.len);
      v := Charge(p.now, delay);
    }

    /** Lines 88 to 108 of the program. */
    method Charge(now: nat, delay: nat) returns (v: Verdict)
      requires now < WORD / 2 && delay <= WORD / 4
      modifies this
      ensures (v, nextAvailTs) == Schedule(old(nextAvailTs), now, delay)
    {
      if nextAvailTs.Some? {
        var next := nextAvailTs.value;
        if next < now {
          nextAvailTs := Some(Add64(now, delay));
          v := Stamped(now);
        } else if next > Add64(now, DROP_HORIZON) {
          v := Shot;
        } else {
          v := Stamped(next);
          nextAvailTs := Some(Add64(nextAvailTs.value, delay));
        }
      } else {
        nextAvailTs := Some(Add64(now, delay));
        v := Stamped(now);
      }
    }
  }
}
