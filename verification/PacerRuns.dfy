/** The pacer over whole packet runs: how fast it lets traffic through, that it is a leaky
    bucket, and when it accepts again after a drop. */
module PacerRuns {
  import opened Options
  import opened Pacer

  /** The virtual clock before packet `k` of a run that starts with `cell`. */
  function CellAt(cell: Option<nat>, ps: seq<Packet>, k: nat): Option<nat>
    requires k <= |ps|
  {
    if k == 0 then cell else Process(CellAt(cell, ps, k - 1), ps[k - 1]).1
  }

  function VerdictAt(cell: Option<nat>, ps: seq<Packet>, k: nat): Verdict
    requires k < |ps|
  {
    Process(CellAt(cell, ps, k), ps[k]).0
  }

  predicate Accepted(cell: Option<nat>, ps: seq<Packet>, k: nat)
    requires k < |ps|
  {
    VerdictAt(cell, ps, k).Stamped?
  }

  /** Packet `k` was let through with a time stamp, so it had a limit that is not zero. */
  lemma AcceptedHasLimit(cell: Option<nat>, ps: seq<Packet>, k: nat)
    requires k < |ps| && Accepted(cell, ps, k)
    ensures ps[k].limit.Some? && !Blocked(ps[k].limit.value)
  {
  }

  function DelayOf(p: Packet): nat {
    if p.limit.Some? && !Blocked(p.limit.value) then Delay(p.limit.value, p.len) else 0
  }

  /** The sum over the accepted packets of `i` up to `j` of their delays, lengths, and ones. */
  function Charged(cell: Option<nat>, ps: seq<Packet>, i: nat, j: nat): nat
    requires i <= j <= |ps|
  {
    if i == j then 0 else
      Charged(cell, ps, i, j - 1) + (if Accepted(cell, ps, j - 1) then DelayOf(ps[j - 1]) else 0)
  }

  function Bytes(cell: Option<nat>, ps: seq<Packet>, i: nat, j: nat): nat
    requires i <= j <= |ps|
  {
    if i == j then 0 else
      Bytes(cell, ps, i, j - 1) + (if Accepted(cell, ps, j - 1) then ps[j - 1].len else 0)
  }

  function Count(cell: Option<nat>, ps: seq<Packet>, i: nat, j: nat): nat
    requires i <= j <= |ps|
  {
    if i == j then 0 else Count(cell, ps, i, j - 1) + (if Accepted(cell, ps, j - 1) then 1 else 0)
  }

  // ----- rate

  /** From an accepted packet on, the virtual clock is ahead of its stamp by at least all the
      delays charged since, whatever the real clock does. */
  lemma {:induction false} ClockRunsAhead(cell: Option<nat>, ps: seq<Packet>, i: nat, k: nat)
    requires i < k <= |ps| && Accepted(cell, ps, i)
    ensures CellAt(cell, ps, k).Some?
    ensures CellAt(cell, ps, k).value >= VerdictAt(cell, ps, i).ts + Charged(cell, ps, i, k)
  {
    if k == i + 1 {
      assert Charged(cell, ps, i, i) == 0;
    } else {
      ClockRunsAhead(cell, ps, i, k - 1);
    }
  }

  /** Two accepted packets leave at least as far apart as the delays charged from the first on. */
  lemma StampsSpread(cell: Option<nat>, ps: seq<Packet>, i: nat, j: nat)
    requires i < j < |ps| && Accepted(cell, ps, i) && Accepted(cell, ps, j)
    ensures VerdictAt(cell, ps, j).ts - VerdictAt(cell, ps, i).ts >= Charged(cell, ps, i, j)
  {
    ClockRunsAhead(cell, ps, i, j);
  }

  /** All packets of the run that are limited at all have byte rate `r`, or are blocked. */
  predicate FixedByteRate(ps: seq<Packet>, r: nat) {
    forall p :: p in ps && p.limit.Some? && !Blocked(p.limit.value) ==> p.limit.value.byteRate == r
  }

  predicate FixedPacketRate(ps: seq<Packet>, r: nat) {
    forall p :: p in ps && p.limit.Some? && !Blocked(p.limit.value) ==> p.limit.value.packetRate == r
  }

  lemma Scale(a: nat, b: nat, r: nat)
    requires a <= b
    ensures a * r <= b * r
  {
  }

  lemma OneMore(total: int, more: int, c: int, d: int, n: int, r: int)
    requires total <= 2 * (c * r) + n * (r - 1) && more <= 2 * (d * r) + (r - 1)
    ensures total + more <= 2 * ((c + d) * r) + (n + 1) * (r - 1)
  {
    assert (c + d) * r == c * r + d * r;
    assert (n + 1) * (r - 1) == n * (r - 1) + (r - 1);
  }

  lemma DelayPerByte(p: Packet, r: nat)
    requires p.limit.Some? && !Blocked(p.limit.value) && p.limit.value.byteRate == r != RATE_UNLIMITED
    ensures 2 * NS_PER_SEC * p.len <= 2 * (DelayOf(p) * r) + (r - 1)
  {
    var q := RoundDiv(p.len * NS_PER_SEC, r);
    Scale(q, DelayOf(p), r);
  }

  lemma DelayPerPacket(p: Packet, r: nat)
    requires p.limit.Some? && !Blocked(p.limit.value) && p.limit.value.packetRate == r != RATE_UNLIMITED
    ensures 2 * NS_PER_SEC <= 2 * (DelayOf(p) * r) + (r - 1)
  {
    var q := RoundDiv(NS_PER_SEC, r);
    Scale(q, DelayOf(p), r);
  }

  /** The three sums gain one accepted packet. */
  lemma SumsGrow(cell: Option<nat>, ps: seq<Packet>, i: nat, j: nat) returns (d: nat)
    requires i < j <= |ps| && Accepted(cell, ps, j - 1)
    ensures ps[j - 1].limit.Some? && !Blocked(ps[j - 1].limit.value) && d == DelayOf(ps[j - 1])
    ensures Charged(cell, ps, i, j) == Charged(cell, ps, i, j - 1) + d
    ensures Bytes(cell, ps, i, j) == Bytes(cell, ps, i, j - 1) + ps[j - 1].len
    ensures Count(cell, ps, i, j) == Count(cell, ps, i, j - 1) + 1
  {
    AcceptedHasLimit(cell, ps, j - 1);
    d := DelayOf(ps[j - 1]);
  }

  lemma {:induction false} ChargedPerByte(cell: Option<nat>, ps: seq<Packet>, r: nat, i: nat, j: nat)
    requires 0 < r != RATE_UNLIMITED && FixedByteRate(ps, r) && i <= j <= |ps|
    ensures 2 * NS_PER_SEC * Bytes(cell, ps, i, j) <= 2 * (Charged(cell, ps, i, j) * r) + Count(cell, ps, i, j) * (r - 1)
  {
    if i < j {
      ChargedPerByte(cell, ps, r, i, j - 1);
      if Accepted(cell, ps, j - 1) {
        var d := SumsGrow(cell, ps, i, j);
        var b, c, n := Bytes(cell, ps, i, j - 1), Charged(cell, ps, i, j - 1), Count(cell, ps, i, j - 1);
        DelayPerByte(ps[j - 1], r);
        OneMore(2 * NS_PER_SEC * b, 2 * NS_PER_SEC * ps[j - 1].len, c, d, n, r);
      }
    }
  }

  /** The rate bound: between two departures at stamps a and b, at most r bytes a second leave,
      plus half a byte of rounding for each packet. */
  lemma ByteRateBound(cell: Option<nat>, ps: seq<Packet>, r: nat, i: nat, j: nat)
    requires 0 < r != RATE_UNLIMITED && FixedByteRate(ps, r)
    requires i < j < |ps| && Accepted(cell, ps, i) && Accepted(cell, ps, j)
    ensures 2 * NS_PER_SEC * Bytes(cell, ps, i, j)
         <= 2 * ((VerdictAt(cell, ps, j).ts - VerdictAt(cell, ps, i).ts) * r) + Count(cell, ps, i, j) * (r - 1)
  {
    ChargedPerByte(cell, ps, r, i, j);
    StampsSpread(cell, ps, i, j);
    Scale(Charged(cell, ps, i, j), VerdictAt(cell, ps, j).ts - VerdictAt(cell, ps, i).ts, r);
  }

  lemma {:induction false} ChargedPerPacket(cell: Option<nat>, ps: seq<Packet>, r: nat, i: nat, j: nat)
    requires 0 < r != RATE_UNLIMITED && FixedPacketRate(ps, r) && i <= j <= |ps|
    ensures 2 * NS_PER_SEC * Count(cell, ps, i, j) <= 2 * (Charged(cell, ps, i, j) * r) + Count(cell, ps, i, j) * (r - 1)
  {
    if i < j {
      ChargedPerPacket(cell, ps, r, i, j - 1);
      if Accepted(cell, ps, j - 1) {
        var d := SumsGrow(cell, ps, i, j);
        var c, n := Charged(cell, ps, i, j - 1), Count(cell, ps, i, j - 1);
        DelayPerPacket(ps[j - 1], r);
        OneMore(2 * NS_PER_SEC * n, 2 * NS_PER_SEC, c, d, n, r);
      }
    }
  }

  lemma PacketRateBound(cell: Option<nat>, ps: seq<Packet>, r: nat, i: nat, j: nat)
    requires 0 < r != RATE_UNLIMITED && FixedPacketRate(ps, r)
    requires i < j < |ps| && Accepted(cell, ps, i) && Accepted(cell, ps, j)
    ensures 2 * NS_PER_SEC * Count(cell, ps, i, j)
         <= 2 * ((VerdictAt(cell, ps, j).ts - VerdictAt(cell, ps, i).ts) * r) + Count(cell, ps, i, j) * (r - 1)
  {
    ChargedPerPacket(cell, ps, r, i, j);
    StampsSpread(cell, ps, i, j);
    Scale(Charged(cell, ps, i, j), VerdictAt(cell, ps, j).ts - VerdictAt(cell, ps, i).ts, r);
  }

  // ----- the bound is met when the sender keeps the pacer busy

  /** Packet `k` finds the virtual clock ahead of the real one, if it is accepted. */
  predicate Backlogged(cell: Option<nat>, ps: seq<Packet>, k: nat)
    requires k < |ps|
  {
    Accepted(cell, ps, k) ==> CellAt(cell, ps, k).Some? && ps[k].now <= CellAt(cell, ps, k).value
  }

  lemma {:induction false} ClockExact(cell: Option<nat>, ps: seq<Packet>, i: nat, k: nat)
    requires i < k <= |ps| && Accepted(cell, ps, i)
    requires forall m :: i < m < k ==> Backlogged(cell, ps, m)
    ensures CellAt(cell, ps, k) == Some(VerdictAt(cell, ps, i).ts + Charged(cell, ps, i, k))
  {
    if k == i + 1 {
      assert Charged(cell, ps, i, i) == 0;
    } else {
      ClockExact(cell, ps, i, k - 1);
      assert Backlogged(cell, ps, k - 1);
    }
  }

  /** The rates of every limited packet are `byteRate` and `packetRate`; either may be unlimited. */
  ghost predicate FixedRates(ps: seq<Packet>, byteRate: nat, packetRate: nat) {
    FixedByteRate(ps, byteRate) && FixedPacketRate(ps, packetRate)
  }

  /** What the two rates ask of one packet of `len` bytes, at most. */
  ghost predicate AsksAtMost(d: nat, len: nat, byteRate: nat, packetRate: nat) {
    || d == 0
    || (byteRate != RATE_UNLIMITED && 2 * (d * byteRate) <= 2 * NS_PER_SEC * len + byteRate)
    || (packetRate != RATE_UNLIMITED && 2 * (d * packetRate) <= 2 * NS_PER_SEC + packetRate)
  }

  /** The part of the charged delays that the byte rate asked for, with the bytes and the number
      of those packets; the packet rate asked for the rest. */
  datatype Shares = Shares(byteDelay: nat, bytes: nat, byBytes: nat, packetDelay: nat, byPackets: nat)

  ghost predicate SharesOk(sh: Shares, byteRate: nat, packetRate: nat) {
    && 2 * (sh.byteDelay * byteRate) <= 2 * NS_PER_SEC * sh.bytes + sh.byBytes * byteRate
    && 2 * (sh.packetDelay * packetRate) <= 2 * NS_PER_SEC * sh.byPackets + sh.byPackets * packetRate
    && (byteRate == RATE_UNLIMITED ==> sh.byteDelay == 0)
    && (packetRate == RATE_UNLIMITED ==> sh.packetDelay == 0)
  }

  /** One more packet goes to the share whose rate asked for its delay. */
  lemma OneMoreShare(sh: Shares, d: nat, len: nat, byteRate: nat, packetRate: nat) returns (sh': Shares)
    requires SharesOk(sh, byteRate, packetRate) && AsksAtMost(d, len, byteRate, packetRate)
    ensures SharesOk(sh', byteRate, packetRate)
    ensures sh'.byteDelay + sh'.packetDelay == sh.byteDelay + sh.packetDelay + d
    ensures sh.bytes <= sh'.bytes <= sh.bytes + len && sh'.byBytes + sh'.byPackets <= sh.byBytes + sh.byPackets + 1
  {
    if d == 0 {
      sh' := sh;
    } else if byteRate != RATE_UNLIMITED && 2 * (d * byteRate) <= 2 * NS_PER_SEC * len + byteRate {
      OneMoreAtMost(2 * NS_PER_SEC * sh.bytes, 2 * NS_PER_SEC * len, sh.byteDelay, d, sh.byBytes, byteRate);
      sh' := sh.(byteDelay := sh.byteDelay + d, bytes := sh.bytes + len, byBytes := sh.byBytes + 1);
    } else {
      OneMoreAtMost(2 * NS_PER_SEC * sh.byPackets, 2 * NS_PER_SEC, sh.packetDelay, d, sh.byPackets, packetRate);
      sh' := sh.(packetDelay := sh.packetDelay + d, byPackets := sh.byPackets + 1);
    }
  }

  lemma DelayAsked(p: Packet)
    requires p.limit.Some? && !Blocked(p.limit.value)
    ensures AsksAtMost(DelayOf(p), p.len, p.limit.value.byteRate, p.limit.value.packetRate)
  {
    DelayIs(p.limit.value, p.len);
  }

  lemma {:induction false} ChargedShares(cell: Option<nat>, ps: seq<Packet>, byteRate: nat, packetRate: nat, i: nat, j: nat)
    returns (sh: Shares)
    requires FixedRates(ps, byteRate, packetRate) && i <= j <= |ps|
    ensures SharesOk(sh, byteRate, packetRate) && sh.byteDelay + sh.packetDelay == Charged(cell, ps, i, j)
    ensures sh.bytes <= Bytes(cell, ps, i, j) && sh.byBytes + sh.byPackets <= Count(cell, ps, i, j)
  {
    if i == j {
      sh := Shares(0, 0, 0, 0, 0);
    } else {
      sh := ChargedShares(cell, ps, byteRate, packetRate, i, j - 1);
      if Accepted(cell, ps, j - 1) {
        var d := SumsGrow(cell, ps, i, j);
        DelayAsked(ps[j - 1]);
        sh := OneMoreShare(sh, d, ps[j - 1].len, byteRate, packetRate);
      }
    }
  }

  lemma OneMoreAtMost(total: int, more: int, c: int, d: int, n: int, r: int)
    requires 2 * (c * r) <= total + n * r && 2 * (d * r) <= more + r
    ensures 2 * ((c + d) * r) <= total + more + (n + 1) * r
  {
    assert (c + d) * r == c * r + d * r;
    assert (n + 1) * r == n * r + r;
  }

  /** A sender that is never idle is not held back longer than the rates ask: the departures are
      exactly the charged delays apart, and these split into a part that the byte rate asks for
      some of the bytes and a part that the packet rate asks for the other packets. */
  lemma BusyRates(cell: Option<nat>, ps: seq<Packet>, byteRate: nat, packetRate: nat, i: nat, j: nat) returns (sh: Shares)
    requires FixedRates(ps, byteRate, packetRate)
    requires i < j < |ps| && Accepted(cell, ps, i) && Accepted(cell, ps, j)
    requires forall m :: i < m <= j ==> Backlogged(cell, ps, m)
    ensures VerdictAt(cell, ps, j).ts - VerdictAt(cell, ps, i).ts == Charged(cell, ps, i, j) == sh.byteDelay + sh.packetDelay
    ensures 2 * (sh.byteDelay * byteRate) <= 2 * NS_PER_SEC * sh.bytes + sh.byBytes * byteRate
    ensures 2 * (sh.packetDelay * packetRate) <= 2 * NS_PER_SEC * sh.byPackets + sh.byPackets * packetRate
    ensures sh.bytes <= Bytes(cell, ps, i, j) && sh.byBytes + sh.byPackets <= Count(cell, ps, i, j)
    ensures byteRate == RATE_UNLIMITED ==> sh.byteDelay == 0
    ensures packetRate == RATE_UNLIMITED ==> sh.packetDelay == 0
  {
    ClockExact(cell, ps, i, j);
    assert Backlogged(cell, ps, j);
    sh := ChargedShares(cell, ps, byteRate, packetRate, i, j);
  }

  /** With a byte limit only, no slower than r bytes a second less rounding. */
  lemma BusyByteRate(cell: Option<nat>, ps: seq<Packet>, r: nat, i: nat, j: nat)
    requires 0 < r != RATE_UNLIMITED && FixedRates(ps, r, RATE_UNLIMITED)
    requires i < j < |ps| && Accepted(cell, ps, i) && Accepted(cell, ps, j)
    requires forall m :: i < m <= j ==> Backlogged(cell, ps, m)
    ensures 2 * ((VerdictAt(cell, ps, j).ts - VerdictAt(cell, ps, i).ts) * r)
         <= 2 * NS_PER_SEC * Bytes(cell, ps, i, j) + Count(cell, ps, i, j) * r
  {
    var sh := BusyRates(cell, ps, r, RATE_UNLIMITED, i, j);
    Scale(sh.byBytes, Count(cell, ps, i, j), r);
  }

  /** With a packet limit only, no slower than r packets a second less rounding. */
  lemma BusyPacketRate(cell: Option<nat>, ps: seq<Packet>, r: nat, i: nat, j: nat)
    requires 0 < r != RATE_UNLIMITED && FixedRates(ps, RATE_UNLIMITED, r)
    requires i < j < |ps| && Accepted(cell, ps, i) && Accepted(cell, ps, j)
    requires forall m :: i < m <= j ==> Backlogged(cell, ps, m)
    ensures 2 * ((VerdictAt(cell, ps, j).ts - VerdictAt(cell, ps, i).ts) * r)
         <= 2 * NS_PER_SEC * Count(cell, ps, i, j) + Count(cell, ps, i, j) * r
  {
    var sh := BusyRates(cell, ps, RATE_UNLIMITED, r, i, j);
    Scale(sh.byPackets, Count(cell, ps, i, j), r);
  }

  // ----- a leaky bucket

  /** A bucket that held `level` nanoseconds of delay at time `at` and drains one per nanosecond. */
  datatype Bucket = Bucket(level: nat, at: nat)

  function Level(b: Bucket, now: nat): nat
    requires now >= b.at
  {
    if b.level > now - b.at then b.level - (now - b.at) else 0
  }

  /** Overfull drops; otherwise the packet leaves when what is in the bucket has drained, and
      its own delay is added. */
  function Pour(b: Bucket, p: Packet): (Verdict, Bucket)
    requires p.now >= b.at
  {
    if p.limit.None? then (Pass, b)
    else if Blocked(p.limit.value) then (Shot, b)
    else
      var level := Level(b, p.now);
      if level > DROP_HORIZON then (Shot, b)
      else (Stamped(p.now + level), Bucket(level + Delay(p.limit.value, p.len), p.now))
  }

  predicate NonDecreasing(ps: seq<Packet>, from: nat) {
    ps == [] || (from <= ps[0].now && NonDecreasing(ps[1..], ps[0].now))
  }

  function Verdicts(cell: Option<nat>, ps: seq<Packet>): seq<Verdict>
    decreases |ps|
  {
    if ps == [] then [] else
      var (v, cell') := Process(cell, ps[0]);
      [v] + Verdicts(cell', ps[1..])
  }

  function Pours(b: Bucket, ps: seq<Packet>, from: nat): seq<Verdict>
    requires b.at <= from && NonDecreasing(ps, from)
    decreases |ps|
  {
    if ps == [] then [] else
      var (v, b') := Pour(b, ps[0]);
      [v] + Pours(b', ps[1..], ps[0].now)
  }

  /** The virtual clock is where the bucket will have drained. */
  predicate Matches(cell: Option<nat>, b: Bucket) {
    match cell
    case None => b.level == 0
    case Some(x) => x == b.at + b.level
  }

  /** On a clock that does not go back the pacer is the bucket, verdict by verdict and stamp by
      stamp. */
  lemma {:induction false} PacerIsLeakyBucket(cell: Option<nat>, b: Bucket, ps: seq<Packet>, from: nat)
    requires Matches(cell, b) && b.at <= from && NonDecreasing(ps, from)
    ensures Verdicts(cell, ps) == Pours(b, ps, from)
    decreases |ps|
  {
    if ps != [] {
      var (v, cell') := Process(cell, ps[0]);
      var (w, b') := Pour(b, ps[0]);
      assert v == w && Matches(cell', b');
      PacerIsLeakyBucket(cell', b', ps[1..], ps[0].now);
    }
  }

  // ----- after a drop

  /** The run's clock does not go back. */
  predicate Steady(ps: seq<Packet>) {
    forall m, n :: 0 <= m < n < |ps| ==> ps[m].now <= ps[n].now
  }

  /** No packet accepted before `k` was charged more than `d`; what was dropped does not count. */
  predicate ChargedWithin(ps: seq<Packet>, d: nat, k: nat)
    requires k <= |ps|
  {
    forall m :: 0 <= m < k && Accepted(None, ps, m) ==> DelayOf(ps[m]) <= d
  }

  /** The virtual clock is never further ahead than the horizon and one delay accepted so far. */
  lemma {:induction false} ClockBounded(ps: seq<Packet>, d: nat, k: nat)
    requires Steady(ps) && k < |ps| && ChargedWithin(ps, d, k)
    ensures CellAt(None, ps, k).Some? ==> CellAt(None, ps, k).value <= ps[k].now + DROP_HORIZON + d
  {
    if k > 0 {
      ClockBounded(ps, d, k - 1);
      assert Accepted(None, ps, k - 1) || !Accepted(None, ps, k - 1);
    }
  }

  lemma {:induction false} NothingAccepted(ps: seq<Packet>, i: nat, k: nat)
    requires i <= k <= |ps|
    requires forall m :: i <= m < k ==> !Accepted(None, ps, m)
    ensures CellAt(None, ps, k) == CellAt(None, ps, i)
  {
    if i < k {
      NothingAccepted(ps, i, k - 1);
      assert !Accepted(None, ps, k - 1);
    }
  }

  /** A packet that comes `d` or more after a drop is accepted, if nothing was in between and
      nothing accepted before the drop was charged more than `d`. */
  lemma AcceptsAgain(ps: seq<Packet>, d: nat, i: nat, j: nat)
    requires Steady(ps) && i < j < |ps| && ChargedWithin(ps, d, i)
    requires forall m :: i <= m < j ==> !Accepted(None, ps, m)
    requires ps[j].limit.Some? && !Blocked(ps[j].limit.value) && ps[j].now >= ps[i].now + d
    ensures Accepted(None, ps, j)
  {
    ClockBounded(ps, d, i);
    NothingAccepted(ps, i, j);
  }
}
