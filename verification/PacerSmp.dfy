/** The pacer on several CPUs at once. The program looks its entry up, samples the clock, reads
    the virtual clock and then either stores over it (lines 94 and 105) or adds to it atomically
    (line 101); any other CPU may run between any two of these. */
module PacerSmp {
  import opened Options
  import opened Pacer

  /** How far one CPU is with the packet it is handling; `delay` is the packet's delay. */
  datatype Cpu =
    | Idle
    | Looked(delay: nat, found: bool)
    | Sampled(delay: nat, found: bool, now: nat)
    | ToStore(delay: nat, now: nat)
    | ToAdd(delay: nat, now: nat, ts: nat)

  datatype State = State(clock: nat, cell: Option<nat>, cpus: seq<Cpu>)

  datatype Step = Tick(ns: nat) | Begin(c: nat, delay: nat) | Sample(c: nat) | Read(c: nat) | Commit(c: nat)

  predicate Enabled(s: State, step: Step) {
    match step
    case Tick(_) => true
    case Begin(c, _) => c < |s.cpus| && s.cpus[c].Idle?
    case Sample(c) => c < |s.cpus| && s.cpus[c].Looked?
    case Read(c) => c < |s.cpus| && s.cpus[c].Sampled? && (s.cpus[c].found ==> s.cell.Some?)
    case Commit(c) => c < |s.cpus| && (s.cpus[c].ToStore? || (s.cpus[c].ToAdd? && s.cell.Some?))
  }

  /** Lines 91 to 103: what a CPU decides on the value it reads. */
  function Decide(k: Cpu, cell: Option<nat>): Cpu
    requires k.Sampled? && (k.found ==> cell.Some?)
  {
    if !k.found || cell.value < k.now then ToStore(k.delay, k.now)
    else if cell.value > k.now + DROP_HORIZON then Idle
    else ToAdd(k.delay, k.now, cell.value)
  }

  function Apply(s: State, step: Step): State
    requires Enabled(s, step)
  {
    match step
    case Tick(ns) => s.(clock := s.clock + ns)
    case Begin(c, d) => s.(cpus := s.cpus[c := Looked(d, s.cell.Some?)])
    case Sample(c) => s.(cpus := s.cpus[c := Sampled(s.cpus[c].delay, s.cpus[c].found, s.clock)])
    case Read(c) => s.(cpus := s.cpus[c := Decide(s.cpus[c], s.cell)])
    case Commit(c) =>
      var k := s.cpus[c];
      s.(cpus := s.cpus[c := Idle],
         cell := if k.ToStore? then Some(k.now + k.delay) else Some(s.cell.value + k.delay))
  }

  ghost predicate StepsAt(states: seq<State>, steps: seq<Step>, i: nat)
    requires i < |steps| < |states|
  {
    Enabled(states[i], steps[i]) && states[i + 1] == Apply(states[i], steps[i])
  }

  ghost predicate IsRun(states: seq<State>, steps: seq<Step>) {
    && |states| == |steps| + 1
    && forall i {:trigger StepsAt(states, steps, i)} :: 0 <= i < |steps| ==> StepsAt(states, steps, i)
  }

  predicate Initial(s: State) {
    s.cell.None? && forall c :: 0 <= c < |s.cpus| ==> s.cpus[c].Idle?
  }

  /** No packet of the run has a delay above `d`. */
  predicate DelaysWithin(steps: seq<Step>, d: nat) {
    forall step :: step in steps && step.Begin? ==> step.delay <= d
  }

  // ----- how far ahead the virtual clock gets

  /** The number of CPUs that have read the clock and will add to it. */
  function Adders(cpus: seq<Cpu>): (n: nat)
    ensures n <= |cpus|
  {
    if cpus == [] then 0 else (if cpus[0].ToAdd? then 1 else 0) + Adders(cpus[1..])
  }

  lemma {:induction false} AddersUpdate(cpus: seq<Cpu>, c: nat, k: Cpu)
    requires c < |cpus|
    ensures Adders(cpus[c := k]) == Adders(cpus) - (if cpus[c].ToAdd? then 1 else 0) + (if k.ToAdd? then 1 else 0)
    ensures !cpus[c].ToAdd? ==> Adders(cpus) < |cpus|
  {
    if c > 0 {
      assert cpus[c := k][1..] == cpus[1..][c - 1 := k];
      AddersUpdate(cpus[1..], c - 1, k);
    } else {
      assert cpus[c := k][1..] == cpus[1..];
    }
  }

  /** One CPU's view is not ahead of the clock and its packet's delay is within `d`. */
  predicate CpuOk(s: State, d: nat, k: Cpu) {
    match k
    case Idle => true
    case Looked(e, found) => e <= d && (found ==> s.cell.Some?)
    case Sampled(e, found, now) => e <= d && now <= s.clock && (found ==> s.cell.Some?)
    case ToStore(e, now) => e <= d && now <= s.clock
    case ToAdd(e, now, ts) => e <= d && now <= s.clock && s.cell.Some? && now <= ts <= now + DROP_HORIZON
  }

  ghost predicate Inv(s: State, d: nat) {
    && (forall c :: 0 <= c < |s.cpus| ==> CpuOk(s, d, s.cpus[c]))
    && (s.cell.Some? ==> Within(s.cell.value, Adders(s.cpus), s.clock, |s.cpus|, d))
  }

  lemma StepCpus(s: State, step: Step, d: nat, c: nat)
    requires Enabled(s, step) && (step.Begin? ==> step.delay <= d) && c < |s.cpus|
    requires forall k :: 0 <= k < |s.cpus| ==> CpuOk(s, d, s.cpus[k])
    ensures CpuOk(Apply(s, step), d, Apply(s, step).cpus[c])
  {
  }

  /** The bound of the invariant, on its own numbers: `a` CPUs of `n` will add. */
  predicate Within(value: nat, a: nat, clock: nat, n: nat, d: nat) {
    value + a * d <= clock + DROP_HORIZON + n * d
  }

  lemma AdderJoins(value: nat, a: nat, clock: nat, n: nat, d: nat)
    requires value <= clock + DROP_HORIZON && a <= n
    ensures Within(value, a, clock, n, d)
  {
    AtMost(a, n, d);
  }

  lemma AdderAdds(value: nat, delay: nat, a: nat, clock: nat, n: nat, d: nat)
    requires Within(value, a + 1, clock, n, d) && delay <= d
    ensures Within(value + delay, a, clock, n, d)
  {
    assert (a + 1) * d == a * d + d;
  }

  lemma StorerStores(value: nat, a: nat, clock: nat, n: nat, d: nat)
    requires value <= clock + d && a + 1 <= n
    ensures Within(value, a, clock, n, d)
  {
    AtMost(a + 1, n, d);
    assert (a + 1) * d == a * d + d;
  }

  lemma StepBound(s: State, step: Step, d: nat)
    requires Inv(s, d) && Enabled(s, step)
    ensures var s' := Apply(s, step);
            s'.cell.Some? ==> Within(s'.cell.value, Adders(s'.cpus), s'.clock, |s'.cpus|, d)
  {
    var s' := Apply(s, step);
    if !step.Tick? {
      var c, k := step.c, s.cpus[step.c];
      AddersUpdate(s.cpus, c, s'.cpus[c]);
      assert CpuOk(s, d, k);
      if step.Commit? && k.ToAdd? {
        AdderAdds(s.cell.value, k.delay, Adders(s'.cpus), s.clock, |s.cpus|, d);
      } else if step.Commit? {
        StorerStores(k.now + k.delay, Adders(s'.cpus), s.clock, |s.cpus|, d);
      } else if s'.cpus[c].ToAdd? {
        AdderJoins(s.cell.value, Adders(s'.cpus), s.clock, |s.cpus|, d);
      }
    }
  }

  lemma StepInv(s: State, step: Step, d: nat)
    requires Inv(s, d) && Enabled(s, step) && (step.Begin? ==> step.delay <= d)
    ensures Inv(Apply(s, step), d)
  {
    StepBound(s, step, d);
    forall c | 0 <= c < |Apply(s, step).cpus| ensures CpuOk(Apply(s, step), d, Apply(s, step).cpus[c]) {
      StepCpus(s, step, d, c);
    }
  }

  lemma AtMost(a: nat, n: nat, d: nat)
    requires a <= n
    ensures a * d <= n * d
  {
  }

  /** Over every interleaving of any number of packets on n CPUs, with delays within `d`, the
      virtual clock is at most the horizon and n delays ahead of the real clock. */
  lemma {:induction false} ClockBounded(states: seq<State>, steps: seq<Step>, d: nat, i: nat)
    requires IsRun(states, steps) && Initial(states[0]) && DelaysWithin(steps, d) && i <= |steps|
    ensures Inv(states[i], d)
    ensures states[i].cell.Some? ==>
              states[i].cell.value <= states[i].clock + DROP_HORIZON + |states[i].cpus| * d
  {
    if i > 0 {
      ClockBounded(states, steps, d, i - 1);
      assert StepsAt(states, steps, i - 1);
      assert steps[i - 1] in steps;
      StepInv(states[i - 1], steps[i - 1], d);
    }
    assert Adders(states[i].cpus) * d >= 0;
  }

  // ----- charges

  /** What a step charges: the delay of the packet it lets through. */
  function Charge(s: State, step: Step): nat {
    if step.Commit? && step.c < |s.cpus| && (s.cpus[step.c].ToStore? || s.cpus[step.c].ToAdd?)
    then s.cpus[step.c].delay else 0
  }

  function Charged(states: seq<State>, steps: seq<Step>, i: nat, j: nat): nat
    requires i <= j <= |steps| < |states|
  {
    if i == j then 0 else Charged(states, steps, i, j - 1) + Charge(states[j - 1], steps[j - 1])
  }

  predicate Stores(s: State, step: Step) {
    step.Commit? && step.c < |s.cpus| && s.cpus[step.c].ToStore?
  }

  /** A store puts the virtual clock back: it is past the CPU's own clock sample. */
  predicate PutsBack(s: State, step: Step) {
    Stores(s, step) && s.cell.Some? && s.cell.value > s.cpus[step.c].now
  }

  /** By how much a step puts the virtual clock back. */
  function Loss(s: State, step: Step): nat {
    if PutsBack(s, step) then s.cell.value - s.cpus[step.c].now else 0
  }

  function Lost(states: seq<State>, steps: seq<Step>, i: nat, j: nat): nat
    requires i <= j <= |steps| < |states|
  {
    if i == j then 0 else Lost(states, steps, i, j - 1) + Loss(states[j - 1], steps[j - 1])
  }

  lemma StepCharge(s: State, step: Step)
    requires Enabled(s, step) && s.cell.Some?
    ensures Apply(s, step).cell.Some?
    ensures !Stores(s, step) ==> Apply(s, step).cell.value == s.cell.value + Charge(s, step)
    ensures PutsBack(s, step) ==> Apply(s, step).cell.value + Loss(s, step) == s.cell.value + Charge(s, step)
    ensures Apply(s, step).cell.value >= s.cell.value + Charge(s, step) <==> !PutsBack(s, step)
  {
  }

  /** While nothing is stored the virtual clock moves by exactly the delays charged. */
  lemma {:induction false} NoChargeLost(states: seq<State>, steps: seq<Step>, i: nat, j: nat)
    requires IsRun(states, steps) && i <= j <= |steps| && states[i].cell.Some?
    requires forall m :: i <= m < j ==> !Stores(states[m], steps[m])
    ensures states[j].cell == Some(states[i].cell.value + Charged(states, steps, i, j))
  {
    if i < j {
      NoChargeLost(states, steps, i, j - 1);
      assert StepsAt(states, steps, j - 1);
      StepCharge(states[j - 1], steps[j - 1]);
    }
  }

  /** In every interleaving, what the virtual clock is short of the delays charged is at most
      what racing stores have put it back. */
  lemma {:induction false} ChargesKept(states: seq<State>, steps: seq<Step>, i: nat, j: nat)
    requires IsRun(states, steps) && i <= j <= |steps| && states[i].cell.Some?
    ensures states[j].cell.Some?
    ensures states[j].cell.value + Lost(states, steps, i, j) >= states[i].cell.value + Charged(states, steps, i, j)
  {
    if i < j {
      ChargesKept(states, steps, i, j - 1);
      assert StepsAt(states, steps, j - 1);
      StepCharge(states[j - 1], steps[j - 1]);
    }
  }

  /** The delays let through on all CPUs together, in every interleaving, less what racing
      stores have put back, are within what the real clock allows. */
  lemma SmpRateBound(states: seq<State>, steps: seq<Step>, d: nat, i: nat, j: nat)
    requires IsRun(states, steps) && Initial(states[0]) && DelaysWithin(steps, d)
    requires i <= j <= |steps| && states[i].cell.Some?
    ensures states[i].cell.value + Charged(states, steps, i, j)
         <= states[j].clock + DROP_HORIZON + |states[j].cpus| * d + Lost(states, steps, i, j)
  {
    ClockBounded(states, steps, d, j);
    ChargesKept(states, steps, i, j);
  }

  // ----- who puts the clock back

  predicate ByCpu(step: Step, c: nat) {
    !step.Tick? && step.c == c
  }

  /** CPU `c` has been handling one packet from step `b` up to step `i`. */
  ghost predicate Window(steps: seq<Step>, c: nat, b: nat, i: nat) {
    && b < i <= |steps| && steps[b].Begin? && steps[b].c == c
    && forall n :: b < n < i && ByCpu(steps[n], c) ==> steps[n].Sample? || steps[n].Read?
  }

  /** Some CPU commits while `c` is at that packet. It is another one, by `Window`. */
  ghost predicate RivalWithin(steps: seq<Step>, b: nat, i: nat)
    requires i <= |steps|
  {
    exists r :: b < r < i && steps[r].Commit?
  }

  /** What a CPU is about to do fits the virtual clock as it was when the CPU looked. */
  predicate Agrees(k: Cpu, cell: Option<nat>) {
    match k
    case Looked(_, found) => found == cell.Some?
    case Sampled(_, found, _) => found == cell.Some?
    case ToStore(_, now) => cell.None? || cell.value < now
    case _ => true
  }

  /** While nobody else commits, the virtual clock stays what it was when the CPU looked. */
  lemma {:induction false} QuietWindow(states: seq<State>, steps: seq<Step>, c: nat, b: nat, i: nat)
    requires IsRun(states, steps) && Window(steps, c, b, i) && !RivalWithin(steps, b, i)
    ensures states[i].cell == states[b].cell && c < |states[i].cpus| && Agrees(states[i].cpus[c], states[i].cell)
    decreases i
  {
    assert StepsAt(states, steps, i - 1);
    if i > b + 1 {
      QuietWindow(states, steps, c, b, i - 1);
      assert !steps[i - 1].Commit?;
    }
  }

  /** A CPU that is at a packet has begun it. */
  lemma {:induction false} HasBegun(states: seq<State>, steps: seq<Step>, c: nat, i: nat) returns (b: nat)
    requires IsRun(states, steps) && Initial(states[0]) && i <= |steps|
    requires c < |states[i].cpus| && !states[i].cpus[c].Idle?
    ensures Window(steps, c, b, i)
    decreases i
  {
    assert i > 0;
    assert StepsAt(states, steps, i - 1);
    if steps[i - 1].Begin? && steps[i - 1].c == c {
      b := i - 1;
    } else {
      b := HasBegun(states, steps, c, i - 1);
    }
  }

  /** Whenever a store puts the clock back, another CPU has committed a packet since the
      storing CPU began with its own. */
  lemma PutBackHasRival(states: seq<State>, steps: seq<Step>, m: nat) returns (b: nat, r: nat)
    requires IsRun(states, steps) && Initial(states[0]) && m < |steps| && PutsBack(states[m], steps[m])
    ensures Window(steps, steps[m].c, b, m) && b < r < m && steps[r].Commit? && steps[r].c != steps[m].c
  {
    b := HasBegun(states, steps, steps[m].c, m);
    if !RivalWithin(steps, b, m) {
      QuietWindow(states, steps, steps[m].c, b, m);
    }
    r :| b < r < m && steps[r].Commit?;
    assert !ByCpu(steps[r], steps[m].c);
  }

  /** The last commit between `b` and `m` is at `r`. */
  ghost predicate LastCommit(steps: seq<Step>, b: nat, r: nat, m: nat)
    requires m <= |steps|
  {
    b < r < m && steps[r].Commit? && forall n :: r < n < m ==> !steps[n].Commit?
  }

  lemma {:induction false} KeptSince(states: seq<State>, steps: seq<Step>, i: nat, j: nat)
    requires IsRun(states, steps) && i <= j <= |steps| && forall n :: i <= n < j ==> !steps[n].Commit?
    ensures states[j].cell == states[i].cell
    decreases j
  {
    if i < j {
      KeptSince(states, steps, i, j - 1);
      assert StepsAt(states, steps, j - 1);
    }
  }

  lemma {:induction false} FindLast(steps: seq<Step>, b: nat, m: nat) returns (r: nat)
    requires m <= |steps| && RivalWithin(steps, b, m)
    ensures LastCommit(steps, b, r, m)
    decreases m
  {
    if steps[m - 1].Commit? {
      r := m - 1;
    } else {
      r := FindLast(steps, b, m - 1);
    }
  }

  /** Exactly when a store loses charge: another CPU has committed since this one began with
      its packet, and the last such commit left the virtual clock past this CPU's clock sample. */
  lemma PutsBackIff(states: seq<State>, steps: seq<Step>, b: nat, m: nat)
    requires IsRun(states, steps) && Initial(states[0]) && m < |steps|
    requires Stores(states[m], steps[m]) && Window(steps, steps[m].c, b, m)
    ensures PutsBack(states[m], steps[m]) <==>
              exists r: nat :: && LastCommit(steps, b, r, m) && steps[r].c != steps[m].c
                          && states[r + 1].cell.Some? && states[r + 1].cell.value > states[m].cpus[steps[m].c].now
  {
    if PutsBack(states[m], steps[m]) {
      if !RivalWithin(steps, b, m) {
        QuietWindow(states, steps, steps[m].c, b, m);
      }
      var r := FindLast(steps, b, m);
      KeptSince(states, steps, r + 1, m);
      assert !ByCpu(steps[r], steps[m].c);
    }
    forall r: nat | LastCommit(steps, b, r, m) ensures states[r + 1].cell == states[m].cell {
      KeptSince(states, steps, r + 1, m);
    }
  }

  /** No CPU commits while another one is between looking its entry up and storing. */
  ghost predicate StoresAlone(states: seq<State>, steps: seq<Step>, i: nat, j: nat)
    requires i <= j <= |steps| < |states|
  {
    forall m, b :: i <= m < j && Stores(states[m], steps[m]) && Window(steps, steps[m].c, b, m) ==>
      !RivalWithin(steps, b, m)
  }

  lemma {:induction false} NothingLost(states: seq<State>, steps: seq<Step>, i: nat, j: nat)
    requires IsRun(states, steps) && Initial(states[0]) && i <= j <= |steps| && StoresAlone(states, steps, i, j)
    ensures Lost(states, steps, i, j) == 0
    decreases j
  {
    if i < j {
      NothingLost(states, steps, i, j - 1);
      if PutsBack(states[j - 1], steps[j - 1]) {
        var b, r := PutBackHasRival(states, steps, j - 1);
        assert RivalWithin(steps, b, j - 1);
      }
    }
  }

  /** As long as no commit falls between another CPU's look-up and its store, no charge is lost. */
  lemma ChargesKeptAlone(states: seq<State>, steps: seq<Step>, i: nat, j: nat)
    requires IsRun(states, steps) && Initial(states[0]) && i <= j <= |steps| && StoresAlone(states, steps, i, j)
    requires states[i].cell.Some?
    ensures states[j].cell.Some? && states[j].cell.value >= states[i].cell.value + Charged(states, steps, i, j)
  {
    NothingLost(states, steps, i, j);
    ChargesKept(states, steps, i, j);
  }

  // ----- one packet, whatever the other CPUs do

  lemma {:induction false} LookedAt(states: seq<State>, steps: seq<Step>, c: nat, b: nat, i: nat)
    requires IsRun(states, steps) && Window(steps, c, b, i) && c < |states[i].cpus| && states[i].cpus[c].Looked?
    ensures states[i].cpus[c] == Looked(steps[b].delay, states[b].cell.Some?)
    decreases i
  {
    assert StepsAt(states, steps, i - 1);
    if i > b + 1 {
      LookedAt(states, steps, c, b, i - 1);
    }
  }

  lemma {:induction false} SampledAt(states: seq<State>, steps: seq<Step>, c: nat, b: nat, i: nat) returns (p: nat)
    requires IsRun(states, steps) && Window(steps, c, b, i) && c < |states[i].cpus| && states[i].cpus[c].Sampled?
    ensures b < p < i && steps[p] == Sample(c)
    ensures states[i].cpus[c] == Sampled(steps[b].delay, states[b].cell.Some?, states[p].clock)
    decreases i
  {
    assert StepsAt(states, steps, i - 1);
    if steps[i - 1] == Sample(c) {
      p := i - 1;
      LookedAt(states, steps, c, b, i - 1);
    } else {
      p := SampledAt(states, steps, c, b, i - 1);
    }
  }

  /** The value of the virtual clock that a packet is decided on: none if there was none when the
      CPU looked its entry up, at `b`, and otherwise what it reads, at `q`. */
  function Seen(states: seq<State>, b: nat, q: nat): Option<nat>
    requires b < |states| && q < |states|
  {
    if states[b].cell.None? then None else states[q].cell
  }

  lemma {:induction false} DecidedAt(states: seq<State>, steps: seq<Step>, c: nat, b: nat, i: nat) returns (p: nat, q: nat)
    requires IsRun(states, steps) && Window(steps, c, b, i) && c < |states[i].cpus|
    requires states[i].cpus[c].ToStore? || states[i].cpus[c].ToAdd?
    ensures b < p < q < i && steps[p] == Sample(c) && steps[q] == Read(c)
    ensures var now, seen, d := states[p].clock, Seen(states, b, q), steps[b].delay;
            if seen.None? || seen.value < now then states[i].cpus[c] == ToStore(d, now)
            else seen.value <= now + 2_000_000_000 && states[i].cpus[c] == ToAdd(d, now, seen.value)
    decreases i
  {
    assert StepsAt(states, steps, i - 1);
    if steps[i - 1] == Read(c) {
      p := SampledAt(states, steps, c, b, i - 1);
      q := i - 1;
    } else {
      p, q := DecidedAt(states, steps, c, b, i - 1);
    }
  }

  /** What a CPU does with a packet it lets through, in every interleaving. It began at `b` and
      commits at `m`, and in between it sampled the clock and read the virtual clock. If that was
      missing at the look-up, whether or not it is there by now, or is behind the sample, the
      packet leaves at the sample and the virtual clock becomes the sample and the packet's
      delay. Otherwise it leaves at the value read, within the horizon, and the delay is added to
      whatever the virtual clock is now. */
  lemma PacketLetThrough(states: seq<State>, steps: seq<Step>, b: nat, m: nat) returns (p: nat, q: nat)
    requires IsRun(states, steps) && m < |steps| && steps[m].Commit? && Window(steps, steps[m].c, b, m)
    ensures b < p < q < m && steps[p] == Sample(steps[m].c) && steps[q] == Read(steps[m].c)
    ensures var now, seen, d := states[p].clock, Seen(states, b, q), steps[b].delay;
            && steps[m].c < |states[m].cpus|
            && if seen.None? || seen.value < now
               then StampOf(states[m].cpus[steps[m].c]) == Stamped(now) && states[m + 1].cell == Some(now + d)
               else && seen.value <= now + 2_000_000_000 && StampOf(states[m].cpus[steps[m].c]) == Stamped(seen.value)
                    && states[m].cell.Some? && states[m + 1].cell == Some(states[m].cell.value + d)
  {
    assert StepsAt(states, steps, m);
    p, q := DecidedAt(states, steps, steps[m].c, b, m);
  }

  /** A packet is dropped at its read exactly if there was a virtual clock when the CPU looked,
      and the value read is more than the horizon past the CPU's clock sample. */
  lemma DroppedIff(states: seq<State>, steps: seq<Step>, b: nat, q: nat) returns (p: nat)
    requires IsRun(states, steps) && q < |steps| && steps[q].Read? && Window(steps, steps[q].c, b, q)
    ensures b < p < q && steps[p] == Sample(steps[q].c) && steps[q].c < |states[q + 1].cpus|
    ensures states[q + 1].cpus[steps[q].c] == Idle <==>
              var seen := Seen(states, b, q); seen.Some? && seen.value > states[p].clock + 2_000_000_000
    ensures states[q + 1].cell == states[q].cell
  {
    assert StepsAt(states, steps, q);
    p := SampledAt(states, steps, steps[q].c, b, q);
  }

  // ----- one packet at a time

  /** The stamp a CPU is about to give. */
  function StampOf(k: Cpu): Verdict {
    match k
    case ToStore(_, now) => Stamped(now)
    case ToAdd(_, _, ts) => Stamped(ts)
    case _ => Shot
  }

  /** A packet handled without interruption is handled as the one-packet program says. */
  lemma AloneIsSequential(s: State, c: nat, delay: nat)
    requires c < |s.cpus| && s.cpus[c].Idle?
    ensures var s1 := Apply(s, Begin(c, delay));
            var s2 := Apply(s1, Sample(c));
            var s3 := Apply(s2, Read(c));
            var (v, cell) := Schedule(s.cell, s.clock, delay);
            && StampOf(s3.cpus[c]) == v
            && (if v.Shot? then s3 == s else Apply(s3, Commit(c)) == s.(cell := cell))
  {
    assert s.cpus[c := Idle] == s.cpus;
  }

  // ----- where the sequential guarantee ends

  lemma {:induction false} NothingCharged(states: seq<State>, steps: seq<Step>, j: nat)
    requires j <= |steps| < |states| && forall m :: 0 <= m < j ==> !steps[m].Commit?
    ensures Charged(states, steps, 0, j) == 0
  {
    if j > 0 {
      NothingCharged(states, steps, j - 1);
    }
  }

  /** A cgroup's first two packets, on two CPUs that both find no virtual clock and each store
      one: both packets are let through and only one of them is charged. */
  lemma RacingStoresLoseACharge(delay: nat) returns (states: seq<State>, steps: seq<Step>)
    requires delay > 0
    ensures IsRun(states, steps) && |steps| == 8 && Initial(states[0])
    ensures Charged(states, steps, 0, 8) == 2 * delay
    ensures states[8].cell == Some(states[8].clock + delay)
    ensures PutsBack(states[7], steps[7]) && Loss(states[7], steps[7]) == delay
  {
    var s0 := State(0, None, [Idle, Idle]);
    steps := [Begin(0, delay), Begin(1, delay), Sample(0), Sample(1), Read(0), Read(1), Commit(0), Commit(1)];
    var s1 := Apply(s0, steps[0]);
    var s2 := Apply(s1, steps[1]);
    var s3 := Apply(s2, steps[2]);
    var s4 := Apply(s3, steps[3]);
    var s5 := Apply(s4, steps[4]);
    var s6 := Apply(s5, steps[5]);
    var s7 := Apply(s6, steps[6]);
    var s8 := Apply(s7, steps[7]);
    states := [s0, s1, s2, s3, s4, s5, s6, s7, s8];
    NothingCharged(states, steps, 6);
    assert states[6] == s6 && Charge(s6, steps[6]) == s6.cpus[0].delay == delay;
    assert states[7] == s7 && Charge(s7, steps[7]) == s7.cpus[1].delay == delay;
    assert Charged(states, steps, 0, 7) == delay;
  }
}
