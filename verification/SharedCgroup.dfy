/** What becomes of the limits when two handlers have one cgroup: exactly then somebody's limit
    may go out of force. */
module SharedCgroup {
  import opened Options
  import opened Pacer
  import opened Admission
  import opened AdmissionRuns

  /** A handler is about to enter the cgroup `env.cg`, and does. */
  ghost predicate Enters(s: Sys, id: nat, env: Env) {
    && id in s.handlers && s.handlers[id].pc.AwaitScopeCgroup?
    && env.result == Ok && SetWorks(s.g, env.cg, env.setOk)
  }

  /** Handler `id` entering its cgroup changes the map for its own key only. */
  lemma EntersEffect(s: Sys, id: nat, env: Env)
    requires HandlersOk(s) && Enters(s, id, env)
    ensures var s' := Apply(s, Run(id, env));
            && s'.handlers.Keys == s.handlers.Keys && s'.g.limits == s.g.limits[env.cg := ALL_DROP]
            && (forall k :: k in s.handlers && k != id ==> s'.handlers[k] == s.handlers[k])
            && s'.handlers[id].pc.AwaitRead? && s'.handlers[id].cg == Some(env.cg) && s'.handlers[id].requested.None?
            && forall cg :: Clears(s'.handlers[id].cleanups, cg) <==> cg == env.cg
  {
    assert CleanupsOk(s.handlers[id]);
    BlockOwnKeys(s.handlers[id], s.g, env.cg);
  }

  /** The moment a handler enters a cgroup, everybody's limit is still in force if and only if
      every other handler of that cgroup has been promised all-drop: its client has not made a
      request that was put in force, or has asked for just that. */
  lemma EnterKeepsInForceIff(s: Sys, id: nat, env: Env)
    requires Inv(s) && InForce(s) && Enters(s, id, env)
    ensures InForce(Apply(s, Run(id, env))) <==>
              forall k :: k in s.handlers && k != id && Clears(s.handlers[k].cleanups, env.cg) ==>
                LimitOf(s.handlers[k]) == ALL_DROP
  {
    var s' := Apply(s, Run(id, env));
    EntersEffect(s, id, env);
    forall k | k in s.handlers && k != id
      ensures HeldIn(s'.g.limits, s'.handlers[k]) <==>
                (Clears(s.handlers[k].cleanups, env.cg) ==> LimitOf(s.handlers[k]) == ALL_DROP)
    {
      assert HeldIn(s.g.limits, s.handlers[k]);
    }
  }

  /** But if there is such a handler `k` at all, the new one's request, one step later, takes
      the place of what `k` has been promised. */
  lemma SharedIdOverwrites(s: Sys, id: nat, env: Env, k: nat) returns (states: seq<Sys>, steps: seq<Step>)
    requires Inv(s) && Enters(s, id, env) && k in s.handlers && k != id && Clears(s.handlers[k].cleanups, env.cg)
    ensures |steps| == 2 && Continues(s, Run(id, env), states, steps)
    ensures var h := s.handlers[k];
            && k in states[2].handlers && states[2].handlers[k] == h
            && env.cg in states[2].g.limits && states[2].g.limits[env.cg] != LimitOf(h)
    ensures !InForce(states[2])
  {
    EntersEffect(s, id, env);
    var s1 := Apply(s, Run(id, env));
    var other := if LimitOf(s.handlers[k]) == Limit(1, 1) then Limit(2, 2) else Limit(1, 1);
    var request := GOOD.(reply := Some(other));
    var s2 := Apply(s1, Run(id, request));
    assert s2.g.limits[env.cg] == other;
    states, steps := [s, s1, s2], [Run(id, env), Run(id, request)];
    assert !HeldIn(s2.g.limits, s2.handlers[k]);
  }

  /** A run from `s` that starts with `step`; all later scopes have ids of their own. */
  ghost predicate Continues(s: Sys, step: Step, states: seq<Sys>, steps: seq<Step>) {
    && IsRun(states, steps) && states[0] == s && steps != [] && steps[0] == step
    && forall m :: 0 < m < |steps| ==> FreshId(states[m], steps[m])
  }

  ghost predicate AlwaysInForce(states: seq<Sys>) {
    forall i :: 0 <= i < |states| ==> InForce(states[i])
  }

  /** The id has to be fresh exactly: whatever happens after a handler has entered a cgroup,
      everybody's limit stays in force if and only if no other handler is to clear that cgroup. */
  lemma InForceIffFresh(s: Sys, id: nat, env: Env)
    requires Inv(s) && Held(s) && Enters(s, id, env)
    ensures FreshId(s, Run(id, env)) <==>
              forall states, steps :: Continues(s, Run(id, env), states, steps) ==> AlwaysInForce(states)
  {
    if FreshId(s, Run(id, env)) {
      forall states, steps | Continues(s, Run(id, env), states, steps) ensures AlwaysInForce(states) {
        FreshStaysInForce(s, Run(id, env), states, steps);
      }
    } else {
      var k :| k in s.handlers && k != id && Clears(s.handlers[k].cleanups, env.cg);
      var states, steps := SharedIdOverwrites(s, id, env, k);
      assert !AlwaysInForce(states);
    }
  }

  lemma FreshStaysInForce(s: Sys, step: Step, states: seq<Sys>, steps: seq<Step>)
    requires Inv(s) && Held(s) && FreshId(s, step) && Continues(s, step, states, steps)
    ensures AlwaysInForce(states)
  {
    assert Sound(states[0]);
    forall i | 0 <= i < |states| ensures InForce(states[i]) {
      RunSound(states, steps, i);
    }
  }

  // ----- such a run from the start

  /** Everything the outside answers is as it should be. */
  const GOOD := Env(Ok, true, 3, true, 7, true, false, None, false)

  ghost predicate Leads(s: Sys, states: seq<Sys>, steps: seq<Step>, s': Sys) {
    IsRun(states, steps) && states[0] == s && states[|steps|] == s'
  }

  lemma Then(s: Sys, states: seq<Sys>, steps: seq<Step>, s': Sys, step: Step) returns (more: seq<Sys>, moreSteps: seq<Step>)
    requires Leads(s, states, steps, s') && Enabled(s', step)
    ensures Leads(s, more, moreSteps, Apply(s', step)) && moreSteps == steps + [step]
  {
    more, moreSteps := states + [Apply(s', step)], steps + [step];
    forall i | 0 <= i < |moreSteps| ensures StepsAt(more, moreSteps, i) {
      assert i < |steps| ==> StepsAt(states, steps, i);
    }
  }

  /** One more step of handler `id`, when nothing goes wrong. */
  function Goes(s: Sys, id: nat): Sys
    requires Enabled(s, Run(id, GOOD))
  {
    Apply(s, Run(id, GOOD))
  }

  /** A handler that has asked for the daemon's own name goes on to the scope's cgroup. */
  lemma LooksUpWell(s: Sys, states: seq<Sys>, steps: seq<Step>, s': Sys, id: nat)
    returns (more: seq<Sys>, moreSteps: seq<Step>, h: Handler)
    requires Leads(s, states, steps, s') && id in s'.handlers && s'.handlers[id].pc.AwaitSelfName?
    requires GOOD.origCg !in s'.g.limits
    ensures h.pc.AwaitScopeCgroup?
    ensures Leads(s, more, moreSteps, Updated(s', id, h, s'.g.(unitName := true)))
  {
    var s1 := Goes(s', id);
    var s2 := Goes(s1, id);
    var s3 := Goes(s2, id);
    var s4 := Goes(s3, id);
    more, moreSteps := Then(s, states, steps, s', Run(id, GOOD));
    more, moreSteps := Then(s, more, moreSteps, s1, Run(id, GOOD));
    more, moreSteps := Then(s, more, moreSteps, s2, Run(id, GOOD));
    more, moreSteps := Then(s, more, moreSteps, s3, Run(id, GOOD));
    h := s4.handlers[id];
    assert s4 == Updated(s', id, h, s'.g.(unitName := true));
  }

  /** Two clients are admitted before the daemon knows its own name. */
  lemma TwoStart() returns (states: seq<Sys>, steps: seq<Step>, s: Sys)
    ensures Leads(EMPTY, states, steps, s) && s.handlers.Keys == {0, 1} && s.g.limits == map[]
    ensures s.handlers[0].pc.AwaitSelfName? && s.handlers[1].pc.AwaitSelfName?
  {
    states, steps := [EMPTY], [];
    var s1 := Apply(EMPTY, Spawn(0));
    var s2 := Apply(s1, Spawn(1));
    var s3 := Goes(s2, 0);
    s := Goes(s3, 1);
    states, steps := Then(EMPTY, states, steps, EMPTY, Spawn(0));
    states, steps := Then(EMPTY, states, steps, s1, Spawn(1));
    states, steps := Then(EMPTY, states, steps, s2, Run(0, GOOD));
    states, steps := Then(EMPTY, states, steps, s3, Run(1, GOOD));
  }

  /** A run from the start in which two handlers get the same cgroup id, and the first, which
      still has its limit to clear, finds another limit in the map. */
  lemma SharedIdFromStart() returns (states: seq<Sys>, steps: seq<Step>, s: Sys, cg: nat)
    ensures Leads(EMPTY, states, steps, s) && 0 in s.handlers && !Over(s.handlers[0].pc)
    ensures Clears(s.handlers[0].cleanups, cg) && cg in s.g.limits && s.g.limits[cg] != LimitOf(s.handlers[0])
  {
    states, steps, s := TwoStart();
    var h0, h1;
    var s1 := s;
    states, steps, h0 := LooksUpWell(EMPTY, states, steps, s1, 0);
    var s2 := Updated(s1, 0, h0, s1.g.(unitName := true));
    states, steps, h1 := LooksUpWell(EMPTY, states, steps, s2, 1);
    var s3 := Updated(s2, 1, h1, s2.g.(unitName := true));
    RunInv(states, steps, |steps|);
    EntersEffect(s3, 0, GOOD);
    var s4 := Goes(s3, 0);
    states, steps := Then(EMPTY, states, steps, s3, Run(0, GOOD));
    RunInv(states, steps, |steps|);
    var more, two := SharedIdOverwrites(s4, 1, GOOD, 0);
    assert StepsAt(more, two, 0) && StepsAt(more, two, 1);
    states, steps := Then(EMPTY, states, steps, s4, two[0]);
    states, steps := Then(EMPTY, states, steps, more[1], two[1]);
    s, cg := more[2], GOOD.cg;
  }
}
