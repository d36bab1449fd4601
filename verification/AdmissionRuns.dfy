/** The admission protocol over every interleaving of handlers. */
module AdmissionRuns {
  import opened Options
  import opened Pacer
  import opened Admission

  /** The handlers that have been counted and whose release has not run. */
  ghost function Admitted(s: Sys): set<nat> {
    set id | id in s.handlers && HasDecrease(s.handlers[id].cleanups)
  }

  ghost predicate HandlersOk(s: Sys) {
    forall id :: id in s.handlers ==> CleanupsOk(s.handlers[id]) && MessagesOk(s.handlers[id])
  }

  ghost predicate Counted(s: Sys) {
    s.g.nr == |Admitted(s)| <= MAX_NR_TASKS && !s.g.aborted
  }

  ghost predicate ClearedBySomeone(s: Sys, cg: nat) {
    exists id :: id in s.handlers && Clears(s.handlers[id].cleanups, cg)
  }

  /** Every key of the map is somebody's to clear, unless the kernel refused to remove it. */
  ghost predicate KeysOwned(s: Sys) {
    forall cg :: cg in s.g.limits ==> cg in s.g.leaked || ClearedBySomeone(s, cg)
  }

  ghost predicate Inv(s: Sys) {
    HandlersOk(s) && Counted(s) && KeysOwned(s)
  }

  // ----- steps

  /** Handler `id` becomes `h`, the shared state becomes `g`. */
  function Updated(s: Sys, id: nat, h: Handler, g: Shared): Sys {
    Sys(g, s.handlers[id := h])
  }

  lemma AdmittedUpdate(s: Sys, id: nat, h: Handler, g: Shared)
    ensures Admitted(Updated(s, id, h, g))
         == if HasDecrease(h.cleanups) then Admitted(s) + {id} else Admitted(s) - {id}
  {
  }

  lemma RunCounted(s: Sys, id: nat, h: Handler, g: Shared)
    requires Counted(s) && id in s.handlers && Accounts(s.handlers[id], s.g, h, g)
    ensures Counted(Updated(s, id, h, g))
  {
    AdmittedUpdate(s, id, h, g);
    assert id in Admitted(s) <==> HasDecrease(s.handlers[id].cleanups);
  }

  lemma RunOwned(s: Sys, id: nat, h: Handler, g: Shared)
    requires KeysOwned(s) && id in s.handlers && Accounts(s.handlers[id], s.g, h, g)
    ensures KeysOwned(Updated(s, id, h, g))
  {
    var s' := Updated(s, id, h, g);
    forall cg | cg in g.limits && cg !in g.leaked ensures ClearedBySomeone(s', cg) {
      if Clears(h.cleanups, cg) {
        assert id in s'.handlers && s'.handlers[id] == h;
      } else {
        var k :| k in s.handlers && Clears(s.handlers[k].cleanups, cg);
        assert k in s'.handlers && Clears(s'.handlers[k].cleanups, cg);
      }
    }
  }

  lemma RunInvStep(s: Sys, id: nat, env: Env)
    requires Inv(s) && Enabled(s, Run(id, env))
    ensures Inv(Apply(s, Run(id, env)))
  {
    var h := s.handlers[id];
    var (h', g') := Resume(h, s.g, env);
    ResumeStack(h, s.g, env);
    ResumeMessages(h, s.g, env);
    RunCounted(s, id, h', g');
    RunOwned(s, id, h', g');
  }

  lemma SpawnInvStep(s: Sys, id: nat)
    requires Inv(s) && id !in s.handlers
    ensures Inv(Apply(s, Spawn(id)))
  {
    var s' := Apply(s, Spawn(id));
    assert Admitted(s') == Admitted(s);
    forall cg | cg in s.g.limits && cg !in s.g.leaked ensures ClearedBySomeone(s', cg) {
      var k :| k in s.handlers && Clears(s.handlers[k].cleanups, cg);
      assert k in s'.handlers && Clears(s'.handlers[k].cleanups, cg);
    }
  }

  lemma ReapInvStep(s: Sys, id: nat)
    requires Inv(s) && Enabled(s, Reap(id))
    ensures Inv(Apply(s, Reap(id)))
  {
    var s' := Apply(s, Reap(id));
    assert Admitted(s') == Admitted(s);
    forall cg | cg in s.g.limits && cg !in s.g.leaked ensures ClearedBySomeone(s', cg) {
      var k :| k in s.handlers && Clears(s.handlers[k].cleanups, cg);
      assert k in s'.handlers && Clears(s'.handlers[k].cleanups, cg);
    }
  }

  // ----- one cleanup

  /** Taking the first cleanup off a list. */
  lemma PopStacked(cs: seq<Cleanup>)
    requires Stacked(cs) && cs != []
    ensures Stacked(cs[1..])
    ensures HasDecrease(cs[1..]) <==> HasDecrease(cs) && cs[0] != DecreaseNrTasks
    ensures forall cg :: Clears(cs[1..], cg) <==> Clears(cs, cg) && cs[0] != ClearRateLimit(cg)
  {
    assert cs == [cs[0]] + cs[1..];
  }

  lemma CleanCounted(s: Sys, id: nat, ok: bool)
    requires Counted(s) && id in s.handlers && s.handlers[id].cleanups != [] && Stacked(s.handlers[id].cleanups)
    ensures var h := s.handlers[id];
            Counted(Updated(s, id, h.(cleanups := h.cleanups[1..]), Clean(s.g, h.cleanups[0], ok)))
  {
    var h := s.handlers[id];
    PopStacked(h.cleanups);
    AdmittedUpdate(s, id, h.(cleanups := h.cleanups[1..]), Clean(s.g, h.cleanups[0], ok));
    assert id in Admitted(s) <==> HasDecrease(h.cleanups);
    assert h.cleanups[0] == DecreaseNrTasks ==> id in Admitted(s);
  }

  lemma CleanOwned(s: Sys, id: nat, ok: bool)
    requires KeysOwned(s) && id in s.handlers && s.handlers[id].cleanups != [] && Stacked(s.handlers[id].cleanups)
    ensures var h := s.handlers[id];
            KeysOwned(Updated(s, id, h.(cleanups := h.cleanups[1..]), Clean(s.g, h.cleanups[0], ok)))
  {
    var h := s.handlers[id];
    var g := Clean(s.g, h.cleanups[0], ok);
    var s' := Updated(s, id, h.(cleanups := h.cleanups[1..]), g);
    PopStacked(h.cleanups);
    forall cg | cg in g.limits && cg !in g.leaked ensures ClearedBySomeone(s', cg) {
      var k :| k in s.handlers && Clears(s.handlers[k].cleanups, cg);
      assert k in s'.handlers && Clears(s'.handlers[k].cleanups, cg);
    }
  }

  lemma PopOk(h: Handler)
    requires CleanupsOk(h) && MessagesOk(h) && h.pc.Ending? && h.cleanups != []
    ensures CleanupsOk(h.(cleanups := h.cleanups[1..])) && MessagesOk(h.(cleanups := h.cleanups[1..]))
  {
    PopStacked(h.cleanups);
    assert forall c :: c in h.cleanups[1..] ==> c in h.cleanups;
  }

  lemma EndOk(h: Handler)
    requires CleanupsOk(h) && MessagesOk(h) && h.pc.Ending? && h.cleanups == []
    ensures CleanupsOk(h.(pc := Ended)) && MessagesOk(h.(pc := Ended))
  {
  }

  lemma UpdatedOk(s: Sys, id: nat, h: Handler, g: Shared)
    requires HandlersOk(s) && CleanupsOk(h) && MessagesOk(h)
    ensures HandlersOk(Updated(s, id, h, g))
  {
  }

  lemma CleanUpInvStep(s: Sys, id: nat, ok: bool)
    requires Inv(s) && Enabled(s, CleanUp(id, ok))
    ensures Inv(Apply(s, CleanUp(id, ok)))
  {
    var h := s.handlers[id];
    if h.cleanups == [] {
      var h' := h.(pc := Ended);
      EndOk(h);
      UpdatedOk(s, id, h', s.g);
      SameAccounts(h, s.g, h', s.g.unitName);
      RunCounted(s, id, h', s.g);
      RunOwned(s, id, h', s.g);
    } else {
      PopOk(h);
      UpdatedOk(s, id, h.(cleanups := h.cleanups[1..]), Clean(s.g, h.cleanups[0], ok));
      CleanCounted(s, id, ok);
      CleanOwned(s, id, ok);
    }
  }

  lemma StepInv(s: Sys, step: Step)
    requires Inv(s) && Enabled(s, step)
    ensures Inv(Apply(s, step))
  {
    match step
    case Spawn(id) => SpawnInvStep(s, id);
    case Run(id, env) => RunInvStep(s, id, env);
    case CleanUp(id, ok) => CleanUpInvStep(s, id, ok);
    case Reap(id) => ReapInvStep(s, id);
  }

  /** In every state of every interleaving: the counter is the number of admitted tasks whose
      release has not run, within 0 and the maximum; the abort is not reached; no handler has
      issued more than one terminal message. */
  lemma {:induction false} RunInv(states: seq<Sys>, steps: seq<Step>, i: nat)
    requires IsRun(states, steps) && states[0] == EMPTY && i <= |steps|
    ensures Inv(states[i])
    ensures states[i].g.nr == |Admitted(states[i])| <= MAX_NR_TASKS && !states[i].g.aborted
    ensures forall id :: id in states[i].handlers ==> |states[i].handlers[id].wrote| <= 1
  {
    if i == 0 {
      assert Admitted(EMPTY) == {};
    } else {
      RunInv(states, steps, i - 1);
      assert StepsAt(states, steps, i - 1);
      StepInv(states[i - 1], steps[i - 1]);
    }
  }

  // ----- the map has room

  /** The handlers that still have a limit to clear. */
  ghost function Clearing(s: Sys): set<nat> {
    set id | id in s.handlers && s.handlers[id].cg.Some? && Clears(s.handlers[id].cleanups, s.handlers[id].cg.value)
  }

  ghost function CgroupsOf(s: Sys, ids: set<nat>): set<nat> {
    set id | id in ids && id in s.handlers && s.handlers[id].cg.Some? :: s.handlers[id].cg.value
  }

  lemma {:induction false} CgroupsFew(s: Sys, ids: set<nat>)
    ensures |CgroupsOf(s, ids)| <= |ids|
  {
    if ids != {} {
      var id :| id in ids;
      CgroupsFew(s, ids - {id});
      var one := if id in s.handlers && s.handlers[id].cg.Some? then {s.handlers[id].cg.value} else {};
      assert CgroupsOf(s, ids) == CgroupsOf(s, ids - {id}) + one;
    } else {
      assert CgroupsOf(s, ids) == {};
    }
  }

  lemma SubsetFew(a: set<nat>, b: set<nat>)
    requires a <= b
    ensures |a| <= |b|
  {
    assert b == a + (b - a);
  }

  /** Whoever has a limit to clear has a release to run after it. */
  lemma {:induction false} ClearThenDecrease(cs: seq<Cleanup>, cg: nat)
    requires Stacked(cs) && Clears(cs, cg)
    ensures HasDecrease(cs)
  {
    if cs[0] != ClearRateLimit(cg) {
      ClearThenDecrease(cs[1..], cg);
    }
    assert cs == [cs[0]] + cs[1..];
  }

  lemma ClearingAreAdmitted(s: Sys)
    requires HandlersOk(s)
    ensures Clearing(s) <= Admitted(s)
  {
    forall id | id in Clearing(s) ensures id in Admitted(s) {
      ClearThenDecrease(s.handlers[id].cleanups, s.handlers[id].cg.value);
    }
  }

  /** There are no more keys than handlers with a limit to clear, and keys the kernel kept. */
  lemma KeysFew(s: Sys)
    requires Inv(s)
    ensures |s.g.limits| <= |Clearing(s)| + |s.g.leaked|
    ensures |Clearing(s)| <= s.g.nr
  {
    var cgs := CgroupsOf(s, Clearing(s));
    forall cg | cg in s.g.limits.Keys && cg !in s.g.leaked ensures cg in cgs {
      var id :| id in s.handlers && Clears(s.handlers[id].cleanups, cg);
      assert s.handlers[id].cg == Some(cg) && id in Clearing(s);
    }
    SubsetFew(s.g.limits.Keys, s.g.leaked + cgs);
    CgroupsFew(s, Clearing(s));
    ClearingAreAdmitted(s);
    SubsetFew(Clearing(s), Admitted(s));
    assert |s.g.leaked + cgs| <= |s.g.leaked| + |cgs|;
  }

  /** A handler about to enter its cgroup into the map finds room, as long as the kernel has
      refused to remove no more keys than the spare eighth of the map. */
  lemma RoomToBlock(s: Sys, id: nat)
    requires Inv(s) && id in s.handlers && s.handlers[id].pc.AwaitScopeCgroup?
    requires |s.g.leaked| <= (MAX_NR_TASKS + 7) / 8
    ensures |s.g.limits| < Capacity(MAX_NR_TASKS)
    ensures forall cg, ok :: SetWorks(s.g, cg, ok) <==> ok
  {
    KeysFew(s);
    ClearingAreAdmitted(s);
    assert id in Admitted(s) && id !in Clearing(s);
    SubsetFew(Clearing(s), Admitted(s) - {id});
  }

  /** In every state of every interleaving the keys of the map are bounded by the counter, also
      between two cleanups of one handler, so the map is never full. */
  lemma MapNeverFull(states: seq<Sys>, steps: seq<Step>, i: nat)
    requires IsRun(states, steps) && states[0] == EMPTY && i <= |steps|
    ensures |states[i].g.limits| <= states[i].g.nr + |states[i].g.leaked|
    ensures |states[i].g.leaked| <= (MAX_NR_TASKS + 7) / 8 ==> |states[i].g.limits| <= Capacity(MAX_NR_TASKS)
    ensures |states[i].g.leaked| <= (MAX_NR_TASKS + 7) / 8 ==>
              forall id :: id in states[i].handlers && states[i].handlers[id].pc.AwaitScopeCgroup? ==>
                |states[i].g.limits| < Capacity(MAX_NR_TASKS)
  {
    RunInv(states, steps, i);
    KeysFew(states[i]);
    forall id | id in states[i].handlers && states[i].handlers[id].pc.AwaitScopeCgroup?
                && |states[i].g.leaked| <= (MAX_NR_TASKS + 7) / 8
      ensures |states[i].g.limits| < Capacity(MAX_NR_TASKS)
    {
      RoomToBlock(states[i], id);
    }
  }

  // ----- the limit is in force

  /** What the map should say for a handler's cgroup until its cleanup. */
  function LimitOf(h: Handler): Limit {
    if h.requested.Some? then h.requested.value else ALL_DROP
  }

  ghost predicate HeldIn(limits: map<nat, Limit>, h: Handler) {
    forall cg :: Clears(h.cleanups, cg) ==> cg in limits && limits[cg] == LimitOf(h)
  }

  ghost predicate DistinctIds(s: Sys) {
    forall id, k, cg :: id in s.handlers && k in s.handlers && id != k && Clears(s.handlers[id].cleanups, cg) ==>
      !Clears(s.handlers[k].cleanups, cg)
  }

  /** Everybody's limit is in force. */
  ghost predicate InForce(s: Sys) {
    forall id :: id in s.handlers ==> HeldIn(s.g.limits, s.handlers[id])
  }

  ghost predicate Held(s: Sys) {
    DistinctIds(s) && InForce(s)
  }

  /** systemd's new scopes have cgroup ids that no running handler uses. */
  ghost predicate FreshId(s: Sys, step: Step) {
    step.Run? && step.id in s.handlers && s.handlers[step.id].pc.AwaitScopeCgroup? ==>
      forall k :: k in s.handlers && k != step.id ==> !Clears(s.handlers[k].cleanups, step.env.cg)
  }

  /** A stretch of a handler changes the map only where the handler is to clear it. */
  ghost predicate OwnKeysOnly(h: Handler, g: Shared, h': Handler, g': Shared) {
    && HeldIn(g'.limits, h')
    && (forall cg :: cg in g.limits && !Clears(h'.cleanups, cg) ==> cg in g'.limits && g'.limits[cg] == g.limits[cg])
  }

  lemma PlainKeeps(h: Handler, g: Shared, h': Handler, g': Shared)
    requires HeldIn(g.limits, h) && Plain(h, h') && g'.limits == g.limits
    ensures OwnKeysOnly(h, g, h', g')
  {
  }

  /** Nothing that matters for the map has changed. */
  ghost predicate Plain(h: Handler, h': Handler) {
    h'.requested == h.requested && forall cg :: Clears(h'.cleanups, cg) <==> Clears(h.cleanups, cg)
  }

  lemma PushIsPlain(h: Handler, c: Cleanup)
    requires !c.ClearRateLimit?
    ensures Plain(h, Push(h, c))
  {
    forall cg ensures Clears([c] + h.cleanups, cg) <==> Clears(h.cleanups, cg) {
    }
  }

  lemma LookUpPlain(h: Handler, g: Shared, env: Env)
    requires LooksUp(h.pc)
    ensures var (h', g') := LookUp(h, g, env); Plain(h, h') && g'.limits == g.limits
  {
    if h.pc.AwaitScope? {
      var h1 := h.(scope := true);
      PushIsPlain(h1, FreeMemory);
      PushIsPlain(Push(h1, FreeMemory), FreeMemory);
      PushIsPlain(Push(Push(h1, FreeMemory), FreeMemory), DestroyPidfd);
    } else if h.pc.AwaitUnitByPid? {
      PushIsPlain(h, FreeMemory);
    }
  }

  lemma AdmitPlain(h: Handler, g: Shared, env: Env)
    ensures var (h', g') := Admit(h, g, env); Plain(h, h') && g'.limits == g.limits
  {
    var h1 := h.(stream := true);
    PushIsPlain(h1, DestroyStream);
    PushIsPlain(Push(h1, DestroyStream), DecreaseNrTasks);
  }

  lemma BlockOwnKeys(h: Handler, g: Shared, cg: nat)
    requires CleanupsOk(h) && h.pc.AwaitScopeCgroup?
    ensures var h' := Push(h.(cg := Some(cg)), ClearRateLimit(cg)).(pc := AwaitRead);
            && OwnKeysOnly(h, g, h', g.(limits := g.limits[cg := ALL_DROP]))
            && forall x :: Clears(h'.cleanups, x) <==> x == cg
  {
    assert forall c :: c in h.cleanups ==> !c.ClearRateLimit?;
    assert ClearRateLimit(cg) in [ClearRateLimit(cg)] + h.cleanups;
  }

  lemma BlockKeeps(h: Handler, g: Shared, env: Env)
    requires CleanupsOk(h) && h.pc.AwaitScopeCgroup? && HeldIn(g.limits, h)
    ensures var (h', g') := Block(h, g, env);
            && OwnKeysOnly(h, g, h', g')
            && forall cg :: Clears(h'.cleanups, cg) ==> Clears(h.cleanups, cg) || cg == env.cg
  {
    var (h', g') := Block(h, g, env);
    if h'.pc.AwaitRead? {
      BlockOwnKeys(h, g, env.cg);
    } else {
      PlainKeeps(h, g, h', g');
    }
  }

  lemma EnforceWorks(h: Handler, g: Shared, l: Limit)
    requires CleanupsOk(h) && h.pc.AwaitRead?
    ensures var h' := h.(requested := Some(l), pc := AwaitStartLog);
            OwnKeysOnly(h, g, h', g.(limits := g.limits[h.cg.value := l]))
  {
    assert forall cg :: Clears(h.cleanups, cg) <==> cg == h.cg.value;
  }

  lemma EnforceKeeps(h: Handler, g: Shared, env: Env)
    requires CleanupsOk(h) && h.pc.AwaitRead? && HeldIn(g.limits, h)
    ensures var (h', g') := Enforce(h, g, env);
            h'.cleanups == h.cleanups && OwnKeysOnly(h, g, h', g')
  {
    var (h', g') := Enforce(h, g, env);
    if h'.pc.AwaitStartLog? {
      EnforceWorks(h, g, env.reply.value);
    } else {
      PlainKeeps(h, g, h', g');
    }
  }

  lemma ResumeKeeps(h: Handler, g: Shared, env: Env)
    requires CleanupsOk(h) && !Over(h.pc) && HeldIn(g.limits, h)
    ensures var (h', g') := Resume(h, g, env);
            && OwnKeysOnly(h, g, h', g')
            && forall cg :: Clears(h'.cleanups, cg) ==> Clears(h.cleanups, cg) || (h.pc.AwaitScopeCgroup? && cg == env.cg)
  {
    var (h', g') := Resume(h, g, env);
    if h.pc.Start? {
      AdmitPlain(h, g, env);
      PlainKeeps(h, g, h', g');
    } else if LooksUp(h.pc) {
      LookUpPlain(h, g, env);
      PlainKeeps(h, g, h', g');
    } else if h.pc.AwaitScopeCgroup? {
      BlockKeeps(h, g, env);
    } else if h.pc.AwaitRead? {
      EnforceKeeps(h, g, env);
    } else {
      WindDownStack(h, env);
      PlainKeeps(h, g, h', g');
    }
  }

  lemma UpdatedHeld(s: Sys, id: nat, h: Handler, g: Shared)
    requires Held(s) && id in s.handlers && OwnKeysOnly(s.handlers[id], s.g, h, g)
    requires forall k, cg :: k in s.handlers && k != id && Clears(h.cleanups, cg) ==> !Clears(s.handlers[k].cleanups, cg)
    ensures Held(Updated(s, id, h, g))
  {
  }

  lemma RunHeld(s: Sys, id: nat, env: Env)
    requires HandlersOk(s) && Held(s) && Enabled(s, Run(id, env)) && FreshId(s, Run(id, env))
    ensures Held(Apply(s, Run(id, env)))
  {
    var (h, g) := Resume(s.handlers[id], s.g, env);
    ResumeKeeps(s.handlers[id], s.g, env);
    UpdatedHeld(s, id, h, g);
  }

  lemma CleanUpHeld(s: Sys, id: nat, ok: bool)
    requires HandlersOk(s) && Held(s) && Enabled(s, CleanUp(id, ok))
    ensures Held(Apply(s, CleanUp(id, ok)))
  {
    var h := s.handlers[id];
    if h.cleanups == [] {
      UpdatedHeld(s, id, h.(pc := Ended), s.g);
    } else {
      PopStacked(h.cleanups);
      var s' := Apply(s, CleanUp(id, ok));
      forall k | k in s'.handlers ensures HeldIn(s'.g.limits, s'.handlers[k]) {
        assert HeldIn(s.g.limits, s.handlers[k]);
      }
    }
  }

  lemma StepHeld(s: Sys, step: Step)
    requires Inv(s) && Held(s) && Enabled(s, step) && FreshId(s, step)
    ensures Held(Apply(s, step))
  {
    match step
    case Run(id, env) => RunHeld(s, id, env);
    case CleanUp(id, ok) => CleanUpHeld(s, id, ok);
    case _ =>
  }

  /** The invariants together, as one fact. */
  ghost predicate Sound(s: Sys) {
    var sound := Inv(s) && Held(s);
    sound
  }

  lemma SoundStep(s: Sys, step: Step)
    requires Sound(s) && Enabled(s, step) && FreshId(s, step)
    ensures Sound(Apply(s, step))
  {
    StepInv(s, step);
    StepHeld(s, step);
  }

  /** From a good state on, every run whose scopes have ids of their own stays good. */
  lemma {:induction false} RunSound(states: seq<Sys>, steps: seq<Step>, i: nat)
    requires IsRun(states, steps) && Sound(states[0]) && i <= |steps|
    requires forall m :: 0 <= m < i ==> FreshId(states[m], steps[m])
    ensures Sound(states[i])
  {
    if i > 0 {
      RunSound(states, steps, i - 1);
      assert StepsAt(states, steps, i - 1);
      SoundStep(states[i - 1], steps[i - 1]);
    }
  }

  lemma EmptySound()
    ensures Sound(EMPTY)
  {
    assert Admitted(EMPTY) == {};
  }

  /** As long as scopes have ids of their own, in every state of every interleaving the map holds,
      for each handler that has entered its cgroup, all-drop first and then what was requested,
      until the handler's own cleanup. */
  lemma RunHolds(states: seq<Sys>, steps: seq<Step>, i: nat)
    requires IsRun(states, steps) && states[0] == EMPTY && i <= |steps|
    requires forall m :: 0 <= m < |steps| ==> FreshId(states[m], steps[m])
    ensures Held(states[i])
  {
    EmptySound();
    RunSound(states, steps, i);
  }

  /** A handler writes PROCEED only while the map holds the requested limit for its cgroup. */
  lemma ProceedOnlyInForce(states: seq<Sys>, steps: seq<Step>, i: nat)
    requires IsRun(states, steps) && states[0] == EMPTY && i < |steps| && steps[i].Run?
    requires forall m :: 0 <= m < |steps| ==> FreshId(states[m], steps[m])
    requires steps[i].id in states[i].handlers && steps[i].id in states[i + 1].handlers
    requires Proceed !in states[i].handlers[steps[i].id].wrote && Proceed in states[i + 1].handlers[steps[i].id].wrote
    ensures var h, limits := states[i].handlers[steps[i].id], states[i].g.limits;
            && h.cg.Some? && h.requested.Some?
            && h.cg.value in limits && limits[h.cg.value] == h.requested.value
            && states[i + 1].g.limits == limits
  {
    RunInv(states, steps, i);
    RunHolds(states, steps, i);
    assert StepsAt(states, steps, i);
    var h := states[i].handlers[steps[i].id];
    if !h.pc.AwaitStartLog? {
      OnlyStartLogProceeds(h, states[i].g, steps[i].env);
    }
  }

  lemma InterruptFails(h: Handler, sysExit: bool)
    ensures Proceed in ToInterrupt(h, sysExit).wrote <==> Proceed in h.wrote
  {
  }

  lemma WindDownProceeds(h: Handler, env: Env)
    requires !h.pc.AwaitStartLog?
    ensures Proceed in WindDown(h, env).wrote <==> Proceed in h.wrote
  {
    InterruptFails(h, env.sysExit);
  }

  /** PROCEED is written at one place only. */
  lemma OnlyStartLogProceeds(h: Handler, g: Shared, env: Env)
    requires !h.pc.AwaitStartLog? && Proceed !in h.wrote
    ensures Proceed !in Resume(h, g, env).0.wrote
  {
    InterruptFails(h, env.sysExit);
    if !h.pc.Start? && !LooksUp(h.pc) && !h.pc.AwaitScopeCgroup? && !h.pc.AwaitRead? {
      WindDownProceeds(h, env);
    }
  }
}
